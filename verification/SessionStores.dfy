/** The session store and the upload store, which update their sessions in place. */
module SessionStores {
  import opened Wrappers
  import opened Bytes
  import opened Protocol
  import opened SessionModel

  class ClientSession<H> {
    const clientId: string
    var requests: seq<Parsed>
    var phase: Phase
    var handler: Coroutine<H>
    var pending: Option<PendingReceive>
    var serverIp: string
    var token: Option<string>
    var env: Env
    var publicEnv: Env
    var preflight: bool
    var artifacts: set<string>

    constructor (clientId: string)
      ensures this.clientId == clientId
      ensures View() == Session(clientId, [], AwaitRrq, Absent, None, "127.0.0.1", None, map[], map[], false, {})
    {
      this.clientId := clientId;
      requests, phase, handler, pending, serverIp := [], AwaitRrq, Absent, None, "127.0.0.1";
      token, env, publicEnv, preflight, artifacts := None, map[], map[], false, {};
    }

    function View(): Session<H>
      reads this
    {
      Session(clientId, requests, phase, handler, pending, serverIp, token, env, publicEnv, preflight, artifacts)
    }

    method RecordRrq(parsed: Parsed)
      modifies this
      ensures View() == old(View()).(requests := old(requests) + [parsed])
    {
      requests := requests + [parsed];
    }
  }

  datatype StoreError = InvalidId | NoSession

  class InMemorySessionStore<H> {
    var sessions: map<string, ClientSession<H>>

    /** Sessions sit under their own ids, so no two ids share one. */
    ghost predicate Valid()
      reads this, sessions.Values
    {
      forall k :: k in sessions ==> sessions[k].clientId == k
    }

    ghost function View(): map<string, Session<H>>
      reads this, sessions.Values
    {
      map k | k in sessions :: sessions[k].View()
    }

    /** Objects do not overlap: writing to one session shows under its own id only. */
    twostate lemma OneWritten(session: ClientSession<H>)
      requires old(Valid()) && sessions == old(sessions)
      requires session.clientId in sessions && sessions[session.clientId] == session
      requires forall k :: k in sessions && sessions[k] != session ==> unchanged(sessions[k])
      ensures Valid() && View() == old(View())[session.clientId := session.View()]
    {
    }

    constructor ()
      ensures Valid() && sessions == map[] && View() == map[]
    {
      sessions := map[];
    }

    method Get(id: string) returns (r: Result<Option<ClientSession<H>>, StoreError>)
      requires Valid()
      ensures NormalizeClientId(id).Err? ==> r == Err(InvalidId)
      ensures NormalizeClientId(id).Ok? ==> r == Ok(if Lower(id) in sessions then Some(sessions[Lower(id)]) else None)
    {
      var key := NormalizeClientId(id);
      if key.Err? {
        return Err(InvalidId);
      }
      r := Ok(if key.value in sessions then Some(sessions[key.value]) else None);
    }

    method Require(id: string) returns (r: Result<ClientSession<H>, StoreError>)
      requires Valid()
      ensures NormalizeClientId(id).Err? ==> r == Err(InvalidId)
      ensures NormalizeClientId(id).Ok? ==>
        r == if Lower(id) in sessions then Ok(sessions[Lower(id)]) else Err(NoSession)
    {
      var found := Get(id);
      match found
      case Err(e) => r := Err(e);
      case Ok(None) => r := Err(NoSession);
      case Ok(Some(session)) => r := Ok(session);
    }

    /** The session that was there, if any, is forgotten; the new one is blank. */
    method Replace(id: string) returns (r: Result<ClientSession<H>, StoreError>)
      requires Valid()
      modifies this
      ensures Valid()
      ensures NormalizeClientId(id).Err? ==> r == Err(InvalidId) && sessions == old(sessions)
      ensures NormalizeClientId(id).Ok? ==> r.Ok? && fresh(r.value) && sessions == old(sessions)[Lower(id) := r.value]
      ensures r.Ok? ==>
        && r.value.View() == Session(Lower(id), [], AwaitRrq, Absent, None, "127.0.0.1", None, map[], map[], false, {})
        && View() == old(View())[Lower(id) := r.value.View()]
    {
      var key := NormalizeClientId(id);
      if key.Err? {
        return Err(InvalidId);
      }
      sessions := sessions - {key.value};
      var session := new ClientSession<H>(key.value);
      sessions := sessions[session.clientId := session];
      r := Ok(session);
    }

    method Discard(id: string)
      requires Valid()
      modifies this
      ensures Valid() && sessions == if NormalizeClientId(id).Ok? then old(sessions) - {Lower(id)} else old(sessions)
      ensures View() == if NormalizeClientId(id).Ok? then old(View()) - {Lower(id)} else old(View())
    {
      var key := NormalizeClientId(id);
      if key.Ok? {
        sessions := sessions - {key.value};
      }
    }
  }

  // ----- uploads -----

  /** The uploads of one client, oldest first. */
  function OfClient(uploads: seq<Uploaded>, c: string): (r: seq<Uploaded>)
    ensures forall u :: u in r <==> u in uploads && u.request.clientId == Some(c)
  {
    if uploads == [] then [] else
      var last := uploads[|uploads| - 1];
      assert uploads == uploads[..|uploads| - 1] + [last];
      OfClient(uploads[..|uploads| - 1], c) + (if last.request.clientId == Some(c) then [last] else [])
  }

  ghost predicate Indexed(uploads: seq<Uploaded>, byClientId: map<string, seq<Uploaded>>) {
    forall c :: OfClient(uploads, c) == if c in byClientId then byClientId[c] else []
  }

  lemma IndexOneMore(uploads: seq<Uploaded>, byClientId: map<string, seq<Uploaded>>, u: Uploaded, c: string)
    requires Indexed(uploads, byClientId) && u.request.clientId == Some(c)
    ensures Indexed(uploads + [u], byClientId[c := (if c in byClientId then byClientId[c] else []) + [u]])
  {
    assert (uploads + [u])[..|uploads|] == uploads;
  }

  /** Some session waits for an upload with this path. */
  predicate Wanted<H>(sessions: map<string, Session<H>>, filename: string) {
    ParseRequestPath(filename).Ok? && UploadExpected(sessions, ParseRequestPath(filename).value)
  }

  class InMemoryUploadStore<H> {
    const sessions: InMemorySessionStore<H>
    var uploads: seq<Uploaded>
    var byClientId: map<string, seq<Uploaded>>

    /** The index agrees with the list. */
    ghost predicate Valid()
      reads this, sessions, sessions.sessions.Values
    {
      && sessions.Valid()
      && Indexed(uploads, byClientId)
    }

    constructor (sessions: InMemorySessionStore<H>)
      requires sessions.Valid()
      ensures Valid() && this.sessions == sessions && uploads == []
    {
      this.sessions := sessions;
      uploads, byClientId := [], map[];
    }

    /** An upload is accepted exactly when its session waits for it. */
    method Open(filename: string) returns (r: Option<CapturingUpload<H>>)
      requires Valid()
      ensures r.Some? <==> Wanted(sessions.View(), filename)
      ensures r.Some? ==> fresh(r.value) && r.value.store == this && r.value.filename == filename && !r.value.captured
    {
      var expected := Expected(filename);
      if !expected {
        return None;
      }
      var upload := new CapturingUpload<H>(filename, this);
      r := Some(upload);
    }

    method Expected(filename: string) returns (ok: bool)
      requires Valid()
      ensures ok <==> Wanted(sessions.View(), filename)
    {
      var parsed := ParseRequestPath(filename);
      if parsed.Err? || parsed.value.clientId.None? {
        return false;
      }
      ParsedNormalized(filename);
      var session := sessions.Require(parsed.value.clientId.value);
      if session.Err? || session.value.pending.None? {
        return false;
      }
      var pending := session.value.pending.value;
      ok := EndsWith(parsed.value.path, pending.uploadPath) && TokenOf(parsed.value) == Some(pending.token);
    }

    /** Checked again: the session may have moved on since the upload was opened. */
    method Record(filename: string, body: bytes) returns (ok: bool)
      requires Valid()
      modifies this, sessions.sessions.Values
      ensures Valid()
      ensures ok <==> Wanted(old(sessions.View()), filename)
      ensures !ok ==> sessions.View() == old(sessions.View()) && uploads == old(uploads)
      ensures ok ==>
        var parsed := ParseRequestPath(filename).value;
        && sessions.View() == WithBody(old(sessions.View()), parsed.clientId.value, body)
        && uploads == old(uploads) + [Uploaded(parsed, body)]
    {
      ok := Expected(filename);
      if !ok {
        return;
      }
      Keep(ParseRequestPath(filename).value, body);
    }

    method Keep(parsed: Parsed, body: bytes)
      requires Valid() && UploadExpected(sessions.View(), parsed)
      modifies this, sessions.sessions.Values
      ensures Valid()
      ensures sessions.View() == WithBody(old(sessions.View()), parsed.clientId.value, body)
      ensures uploads == old(uploads) + [Uploaded(parsed, body)]
    {
      HandOver(sessions.sessions[parsed.clientId.value], body);
      Index(parsed, body);
    }

    method HandOver(session: ClientSession<H>, body: bytes)
      requires sessions.Valid() && session.clientId in sessions.sessions &&
        sessions.sessions[session.clientId] == session
      requires session.pending.Some?
      modifies session
      ensures sessions.Valid() && sessions.View() == WithBody(old(sessions.View()), session.clientId, body)
    {
      session.pending := Some(session.pending.value.(uploaded := Some(body)));
    }

    method Index(parsed: Parsed, body: bytes)
      requires Valid() && parsed.clientId.Some?
      modifies this
      ensures Valid() && uploads == old(uploads) + [Uploaded(parsed, body)]
    {
      var c, upload := parsed.clientId.value, Uploaded(parsed, body);
      IndexOneMore(uploads, byClientId, upload, c);
      uploads := uploads + [upload];
      byClientId := byClientId[c := (if c in byClientId then byClientId[c] else []) + [upload]];
    }
  }

  /** One upload connection. A refused close leaves it open to be closed again. */
  class CapturingUpload<H> {
    const filename: string
    const store: InMemoryUploadStore<H>
    var captured: bool

    constructor (filename: string, store: InMemoryUploadStore<H>)
      ensures this.filename == filename && this.store == store && !captured
    {
      this.filename, this.store := filename, store;
      captured := false;
    }

    method Close(body: bytes) returns (ok: bool)
      requires store.Valid()
      modifies this, store, store.sessions.sessions.Values
      ensures store.Valid()
      ensures
        var accepted := !old(captured) && Wanted(old(store.sessions.View()), filename);
        && ok == (old(captured) || accepted) && captured == (old(captured) || accepted)
        && (if accepted
            then var parsed := ParseRequestPath(filename).value;
                 && store.sessions.View() == WithBody(old(store.sessions.View()), parsed.clientId.value, body)
                 && store.uploads == old(store.uploads) + [Uploaded(parsed, body)]
            else store.sessions.View() == old(store.sessions.View()) && store.uploads == old(store.uploads))
    {
      ok := true;
      if !captured {
        ok := store.Record(filename, body);
        captured := ok;
      }
    }
  }
}
