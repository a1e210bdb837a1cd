/**
 The provider that answers session requests by updating sessions, download jobs
 and the handlers' coroutines in place. Every method is proved to do what
 `SessionModel` says on values.
 */
module Scripted {
  import opened Wrappers
  import opened Bytes
  import opened Protocol
  import opened DownloadJobs
  import opened SessionModel
  import opened SessionStores
  import opened SessionRuns

  lemma ReleaseNone(jobs: Jobs, session: string)
    ensures ReleaseAll(jobs, {}, session) == jobs
  {
  }

  lemma ReleaseOneMore(jobs: Jobs, keys: set<string>, key: string, session: string)
    requires key in keys
    ensures ReleaseAll(Released(jobs, key, session), keys - {key}, session) == ReleaseAll(jobs, keys, session)
  {
    var a, b := ReleaseAll(Released(jobs, key, session), keys - {key}, session), ReleaseAll(jobs, keys, session);
    forall k | k in jobs
      ensures k in a && k in b && a[k] == b[k]
    {
    }
    assert a.Keys == b.Keys;
  }

  lemma WithoutOne<H>(st: State<H>, c: string, rest: map<string, Session<H>>, s: Session<H>)
    requires c in st.sessions && rest == st.sessions[c := s] - {c}
    ensures rest == st.sessions - {c}
  {
  }

  lemma AskStep(jobs: Jobs, artifacts: set<string>, session: string, asks: seq<Ask>, n: nat)
    requires n < |asks|
    ensures
      var a := asks[n];
      var held := artifacts + if Accepts(jobs, a.key, a.source) then {a.key} else {};
      AskAll(jobs, artifacts, session, asks[n..]) ==
      AskAll(Acquired(jobs, a.key, session, a.source, a.temp), held, session, asks[n + 1..])
  {
    assert asks[n..][0] == asks[n] && asks[n..][1..] == asks[n + 1..];
    assert artifacts + {} == artifacts;
  }

  lemma WithTwice<H>(st: State<H>, c: string, a: Session<H>, b: Session<H>)
    ensures WithSession(WithSession(st, c, a), c, b) == WithSession(st, c, b)
  {
  }

  class ScriptedSessionProvider<H> {
    const cfg: Config
    const prog: Program<H>
    const sessions: InMemorySessionStore<H>
    const jobs: DownloadJobStore
    const uploads: InMemoryUploadStore<H>

    /** The objects are tied together; what they hold may be anything. */
    ghost predicate Wired()
      reads this, sessions, sessions.sessions.Values, jobs, jobs.artifacts.Values
    {
      ValidConfig(cfg) && sessions.Valid() && jobs.Valid() && uploads.sessions == sessions
    }

    ghost function View(): State<H>
      reads this, sessions, sessions.sessions.Values, jobs, jobs.artifacts.Values, uploads
    {
      State(sessions.View(), jobs.View(), uploads.uploads)
    }

    constructor (cfg: Config, prog: Program<H>)
      requires ValidConfig(cfg)
      ensures Wired() && View() == State(map[], map[], []) && this.cfg == cfg && this.prog == prog
    {
      var sessionStore := new InMemorySessionStore<H>();
      var uploadStore := new InMemoryUploadStore<H>(sessionStore);
      var jobStore := new DownloadJobStore();
      this.cfg, this.prog := cfg, prog;
      sessions, jobs, uploads := sessionStore, jobStore, uploadStore;
    }

    /** A session of the store, under its normalized id. */
    ghost predicate Live(session: ClientSession<H>)
      reads this, sessions, sessions.sessions.Values, session
    {
      && session.clientId in sessions.sessions && sessions.sessions[session.clientId] == session
      && Normalized(session.clientId) && HIDDEN <= session.env.Keys
    }

    /** Only this session, the jobs, or both were written. */
    twostate lemma Rewritten(session: ClientSession<H>)
      requires old(Wired()) && old(Live(session)) && unchanged(sessions) && unchanged(uploads) && jobs.Valid()
      requires forall k :: k in sessions.sessions && sessions.sessions[k] != session ==> unchanged(sessions.sessions[k])
      ensures Wired()
      ensures View() == WithSession(old(View()), session.clientId, session.View()).(jobs := jobs.View())
    {
      sessions.OneWritten(session);
    }

    twostate lemma OnlyRewritten(session: ClientSession<H>)
      requires old(Wired()) && old(Live(session)) && unchanged(sessions) && unchanged(uploads)
      requires unchanged(jobs) && unchanged(jobs.artifacts.Values)
      requires forall k :: k in sessions.sessions && sessions.sessions[k] != session ==> unchanged(sessions.sessions[k])
      ensures Wired()
      ensures View() == WithSession(old(View()), session.clientId, session.View())
    {
      sessions.OneWritten(session);
      assert jobs.View() == old(jobs.View());
    }

    method ReleaseArtifacts(session: ClientSession<H>)
      requires jobs.Valid()
      modifies session`artifacts, jobs.artifacts.Values
      ensures jobs.Valid() && session.artifacts == {}
      ensures jobs.View() == ReleaseAll(old(jobs.View()), old(session.artifacts), session.clientId)
    {
      while session.artifacts != {}
        invariant jobs.Valid()
        invariant ReleaseAll(jobs.View(), session.artifacts, session.clientId) ==
                  ReleaseAll(old(jobs.View()), old(session.artifacts), session.clientId)
        decreases |session.artifacts|
      {
        var key :| key in session.artifacts;
        ghost var before := jobs.View();
        ReleaseOneMore(before, session.artifacts, key, session.clientId);
        jobs.Release(key, session.clientId);
        session.artifacts := session.artifacts - {key};
        assert jobs.View() == Released(before, key, session.clientId);
      }
      ReleaseNone(jobs.View(), session.clientId);
    }

    method Forget(session: ClientSession<H>)
      requires Wired() && Live(session)
      modifies sessions
      ensures Wired() && View() == old(View()).(sessions := old(sessions.View()) - {session.clientId})
      ensures sessions.sessions == old(sessions.sessions) - {session.clientId}
    {
      NormalizedStays(session.clientId);
      sessions.Discard(session.clientId);
      assert jobs.View() == old(jobs.View());
    }

    /** `_discard_session`: give every artifact back, then forget the session. */
    method DiscardSession(session: ClientSession<H>)
      requires Wired() && Live(session)
      modifies sessions, session`artifacts, jobs.artifacts.Values
      ensures Wired() && View() == Discard(old(View()), session.clientId)
      ensures sessions.sessions == old(sessions.sessions) - {session.clientId}
    {
      ghost var before := View();
      assert before.sessions[session.clientId] == session.View();
      ReleaseArtifacts(session);
      Rewritten(session);
      WithoutOne(before, session.clientId, sessions.View() - {session.clientId}, session.View());
      Forget(session);
    }

    /** `acquire_download`: a refused acquisition raises into the handler and changes nothing. */
    method AcquireDownload(session: ClientSession<H>, a: Ask)
      requires jobs.Valid()
      modifies session`artifacts, jobs, jobs.artifacts.Values
      ensures jobs.Valid() && jobs.View() == Acquired(old(jobs.View()), a.key, session.clientId, a.source, a.temp)
      ensures session.artifacts ==
        old(session.artifacts) + if Accepts(old(jobs.View()), a.key, a.source) then {a.key} else {}
      ensures fresh(jobs.artifacts.Values - old(jobs.artifacts.Values))
    {
      var artifact := jobs.Acquire(a.key, session.clientId, a.source, a.temp);
      if artifact.Some? {
        session.artifacts := session.artifacts + {a.key};
      }
    }

    /** What the handler asked for while it ran. */
    method AcquireAll(session: ClientSession<H>, asks: seq<Ask>)
      requires jobs.Valid()
      modifies session`artifacts, jobs, jobs.artifacts.Values
      ensures jobs.Valid()
      ensures (jobs.View(), session.artifacts) ==
        AskAll(old(jobs.View()), old(session.artifacts), session.clientId, asks)
      ensures fresh(jobs.artifacts.Values - old(jobs.artifacts.Values))
    {
      for n := 0 to |asks|
        invariant jobs.Valid()
        invariant AskAll(jobs.View(), session.artifacts, session.clientId, asks[n..]) ==
                  AskAll(old(jobs.View()), old(session.artifacts), session.clientId, asks)
        invariant fresh(jobs.artifacts.Values - old(jobs.artifacts.Values))
      {
        AskStep(jobs.View(), session.artifacts, session.clientId, asks, n);
        AcquireDownload(session, asks[n]);
      }
      assert asks[|asks|..] == [];
    }

    method RunAsks(session: ClientSession<H>, asks: seq<Ask>)
      requires Wired() && Live(session)
      modifies session`artifacts, jobs, jobs.artifacts.Values
      ensures Wired()
      ensures Live(session) && View() == Asked(old(View()), session.clientId, asks)
      ensures fresh(jobs.artifacts.Values - old(jobs.artifacts.Values))
    {
      AcquireAll(session, asks);
      Rewritten(session);
    }

    method AwaitUploadOf(session: ClientSession<H>, ins: Instruction, draw: Draw)
      requires Wired() && Live(session) && ins.receiveSize.Some?
      modifies session
      ensures Wired()
      ensures View() == WithSession(old(View()), session.clientId,
        old(session.View()).(token := Some(draw.token), phase := AwaitUpload,
                             pending := Some(PendingReceive(draw.token, UPLOAD_PATH, ins.receiveSize.value, None))))
    {
      session.token := Some(draw.token);
      session.pending := Some(PendingReceive(draw.token, UPLOAD_PATH, ins.receiveSize.value, None));
      session.phase := AwaitUpload;
      OnlyRewritten(session);
    }

    method FinishSession(session: ClientSession<H>)
      requires Wired() && Live(session)
      modifies sessions, session, jobs.artifacts.Values
      ensures Wired()
      ensures View() == Finish(old(View()), session.clientId)
    {
      session.phase := Complete;
      OnlyRewritten(session);
      DiscardSession(session);
    }

    method SetHandler(session: ClientSession<H>, handler: Coroutine<H>)
      requires Wired() && Live(session)
      modifies session
      ensures Wired() && Live(session)
      ensures View() == WithHandler(old(View()), session.clientId, handler)
    {
      session.handler := handler;
      OnlyRewritten(session);
    }

    method ResultFromInstruction(session: ClientSession<H>, ins: Instruction, draw: Draw) returns (reply: Reply)
      requires Wired() && Live(session)
      modifies sessions, session, jobs.artifacts.Values
      ensures Wired()
      ensures (View(), reply) == FromInstruction(old(View()), session.clientId, ins, draw)
    {
      ghost var before := View();
      ghost var s := session.View();
      assert before.sessions[session.clientId] == s;
      if ins.receiveSize.Some? {
        reply := Served(ins.script, ReceiveTail(LinkOf(session.View()), draw.token, draw.tmp, ins));
        AwaitUploadOf(session, ins, draw);
      } else if ins.final {
        FinishSession(session);
        reply := Served(ins.script, Stop);
      } else {
        session.token := Some(draw.token);
        session.phase := AwaitRrq;
        OnlyRewritten(session);
        reply := Served(ins.script, Continue(GetOf(LinkOf(session.View()), draw.token, None, ins.keys)));
      }
    }

    method ConcludeSession(session: ClientSession<H>, outcome: Outcome<H>, draw: Draw) returns (reply: Reply)
      requires Wired() && Live(session)
      modifies sessions, session, jobs.artifacts.Values
      ensures Wired()
      ensures (View(), reply) == Conclude(old(View()), session.clientId, outcome, draw)
    {
      match outcome
      case Returns =>
        FinishSession(session);
        reply := Missing;
      case RaisesReceiveFailed =>
        FinishSession(session);
        reply := Missing;
      case RaisesOther =>
        SetHandler(session, Ended);
        reply := Failure;
      case YieldsOther(next) =>
        SetHandler(session, Suspended(next, InExec));
        reply := Failure;
      case Yields(next, ins) =>
        SetHandler(session, Suspended(next, WaitAfter(ins)));
        reply := ResultFromInstruction(session, ins, draw);
    }

    /** `_advance_session`: run the coroutine up to its next outcome and answer it. */
    method AdvanceSession(session: ClientSession<H>, sent: Option<bytes>, draw: Draw) returns (reply: Reply)
      requires Wired() && Live(session)
      modifies sessions, session, jobs, jobs.artifacts.Values
      ensures Wired()
      ensures (View(), reply) == Advance(old(View()), prog, session.clientId, sent, draw)
    {
      match session.handler
      case Absent => reply := Missing;
      case Ended => reply := Failure;
      case Suspended(frame, at) =>
        if at.NotStarted? && sent.Some? {
          return Failure;
        }
        var r := prog.resume(draw.now, frame, session.publicEnv, Deliver(at, sent));
        RunAsks(session, r.asks);
        reply := ConcludeSession(session, r.outcome, draw);
    }

    /** The tail of `_resume_session`: the pending receive is used up, then the handler goes on. */
    method ContinueSession(session: ClientSession<H>, parsed: Parsed, draw: Draw) returns (reply: Reply)
      requires Wired() && Live(session)
      modifies sessions, session, jobs, jobs.artifacts.Values
      ensures Wired()
      ensures (View(), reply) == Continuation(old(View()), prog, session.clientId, parsed, draw)
    {
      if session.handler.Absent? {
        return Missing;
      }
      var sent := None;
      if session.pending.Some? {
        if StatusOf(parsed) == "ok" && session.pending.value.uploaded.Some? {
          sent := session.pending.value.uploaded;
        }
      }
      session.pending := None;
      OnlyRewritten(session);
      reply := AdvanceSession(session, sent, draw);
    }

    method MergeRequest(session: ClientSession<H>, parsed: Parsed)
      requires Wired() && Live(session)
      modifies session
      ensures Wired() && Live(session)
      ensures session.View() == Merged(old(session.View()), parsed)
      ensures View() == WithSession(old(View()), session.clientId, session.View())
    {
      session.RecordRrq(parsed);
      session.env := session.env + Reported(parsed.values);
      session.publicEnv := session.publicEnv + (Reported(parsed.values) - HIDDEN);
      OnlyRewritten(session);
    }

    method AnswerRequest(session: ClientSession<H>, parsed: Parsed, draw: Draw) returns (reply: Reply)
      requires Wired() && Live(session)
      modifies sessions, session, jobs, jobs.artifacts.Values
      ensures Wired()
      ensures (View(), reply) == Answer(old(View()), prog, session.clientId, parsed, draw)
    {
      ghost var c, s := session.clientId, session.View();
      ghost var merged := WithSession(View(), c, Merged(s, parsed));
      assert View().sessions[c] == s;
      MergeRequest(session, parsed);
      assert View() == merged;
      assert session.preflight == s.preflight && session.requests == s.requests + [parsed];
      if !session.preflight {
        reply := ContinueSession(session, parsed, draw);
      } else {
        reply := PassGate(session, parsed, draw);
      }
    }

    method ResumeSession(parsed: Parsed, draw: Draw) returns (reply: Reply)
      requires Wired() && parsed.clientId.Some? && Normalized(parsed.clientId.value) && SessionsOk(View())
      modifies sessions, sessions.sessions.Values, jobs, jobs.artifacts.Values
      ensures Wired()
      ensures (View(), reply) == Resume(old(View()), prog, parsed, draw)
    {
      ghost var c := parsed.clientId.value;
      NormalizedStays(c);
      var found := sessions.Require(parsed.clientId.value);
      if found.Err? {
        return Missing;
      }
      var session := found.value;
      assert View().sessions[c] == session.View() && SessionOk(c, session.View());
      if TokenOf(parsed) != session.token {
        return Missing;
      }
      reply := AnswerRequest(session, parsed, draw);
    }

    /** The attributes `_start_session` sets on the new session. */
    method FillIn(session: ClientSession<H>, parsed: Parsed, draw: Draw)
      requires parsed.clientId == Some(session.clientId)
      requires session.View() ==
        Session(session.clientId, [], AwaitRrq, Absent, None, "127.0.0.1", None, map[], map[], false, {})
      modifies session
      ensures session.View() == NewSession(cfg, parsed, draw)
    {
      session.RecordRrq(parsed);
      session.serverIp := draw.serverIp;
      session.env := SessionEnv(cfg, parsed);
      session.publicEnv := PublicEnv(session.env);
      session.preflight := true;
      session.token := Some(draw.token);
      session.phase := AwaitRrq;
    }

    method Prepare(session: ClientSession<H>, parsed: Parsed, draw: Draw)
      requires Wired() && parsed.clientId == Some(session.clientId)
      requires session.clientId in sessions.sessions && sessions.sessions[session.clientId] == session
      requires session.View() ==
        Session(session.clientId, [], AwaitRrq, Absent, None, "127.0.0.1", None, map[], map[], false, {})
      modifies session
      ensures Wired()
      ensures View() == WithSession(old(View()), session.clientId, NewSession(cfg, parsed, draw))
      ensures session.View() == NewSession(cfg, parsed, draw)
    {
      FillIn(session, parsed, draw);
      sessions.OneWritten(session);
      assert jobs.View() == old(jobs.View());
    }

    method ForgetSession(c: string)
      requires Wired() && Normalized(c) && SessionsOk(View())
      modifies sessions, sessions.sessions.Values, jobs.artifacts.Values
      ensures Wired()
      ensures View() == if c in old(View()).sessions then Discard(old(View()), c) else old(View())
      ensures sessions.sessions == old(sessions.sessions) - {c}
    {
      NormalizedStays(c);
      var existing := sessions.Get(c);
      if existing.Ok? && existing.value.Some? {
        assert View().sessions[c] == existing.value.value.View() && SessionOk(c, View().sessions[c]);
        DiscardSession(existing.value.value);
      }
    }

    method StartSession(parsed: Parsed, draw: Draw) returns (reply: Reply)
      requires Wired() && parsed.clientId.Some? && Normalized(parsed.clientId.value) && SessionsOk(View())
      modifies sessions, sessions.sessions.Values, jobs.artifacts.Values
      ensures Wired()
      ensures (View(), reply) == Start(old(View()), cfg, parsed, draw)
    {
      var c := parsed.clientId.value;
      ForgetSession(c);
      ghost var st1 := View();
      NormalizedStays(c);
      var created := sessions.Replace(c);
      var session := created.value;
      ghost var blank := session.View();
      assert View() == WithSession(st1, c, blank) by {
        assert jobs.View() == st1.jobs;
      }
      Prepare(session, parsed, draw);
      WithTwice(st1, c, blank, session.View());
      reply := Served(HUSH_PROBE, Continue(GetOf(LinkOf(session.View()), draw.token, None, ["hush_shell"])));
    }

    /** The continuation that answers the preflight. */
    method PassGate(session: ClientSession<H>, parsed: Parsed, draw: Draw) returns (reply: Reply)
      requires Wired() && Live(session) && session.requests != []
      modifies sessions, session, jobs, jobs.artifacts.Values
      ensures Wired()
      ensures (View(), reply) == Preflight(old(View()), prog, session.clientId, parsed, draw)
    {
      session.preflight := false;
      OnlyRewritten(session);
      if !HushConfirmed(session.env) {
        FinishSession(session);
        return Served(HUSH_FAILURE, Stop);
      }
      match prog.create(session.clientId, CommandOf(session.requests[0]), session.publicEnv)
      case None => reply := Failure;
      case Some(frame) =>
        SetHandler(session, Suspended(frame, NotStarted));
        reply := ContinueSession(session, parsed, draw);
    }

    /**
     One RRQ. A path whose id is malformed raises, a path without an id names a
     static file and is not answered here; every other request does exactly what
     `Fetch` does to the state and is answered with its reply. The session
     invariant is kept.
     */
    method FetchPath(filename: string, draw: Draw) returns (reply: Option<Reply>)
      requires Wired() && Inv(View())
      modifies sessions, sessions.sessions.Values, jobs, jobs.artifacts.Values
      ensures Wired() && Inv(View())
      ensures match ParseRequestPath(filename)
        case Err(_) => View() == old(View()) && reply == Some(Failure)
        case Ok(parsed) =>
          if parsed.clientId.None? then View() == old(View()) && reply.None?
          else reply.Some? && (View(), reply.value) == Fetch(old(View()), cfg, prog, parsed, draw)
    {
      var path := ParseRequestPath(filename);
      if path.Err? {
        return Some(Failure);
      }
      var parsed := path.value;
      if parsed.clientId.None? {
        return None;
      }
      ParsedNormalized(filename);
      FetchOk(View(), cfg, prog, parsed, draw);
      var answer := Failure;
      if IsContinuation(parsed) {
        answer := ResumeSession(parsed, draw);
      } else {
        answer := StartSession(parsed, draw);
      }
      reply := Some(answer);
    }
  }
}
