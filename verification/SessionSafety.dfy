/**
 What holds over whole runs of the server, given fresh tokens: a token is answered
 once, a stale request changes nothing, a receive gets exactly the last upload of
 its own exchange, and no handler runs before the hush shell was confirmed.
 */
module SessionSafety {
  import opened Wrappers
  import opened Bytes
  import opened Protocol
  import opened SessionModel
  import opened SessionRuns

  // ----- fresh tokens -----

  predicate Carries(e: Event, t: string) {
    match e
    case Rrq(parsed, _) => TokenOf(parsed) == Some(t)
    case WrqOpen(parsed) => TokenOf(parsed) == Some(t)
    case _ => false
  }

  predicate Draws(e: Event, t: string) {
    e.Rrq? && e.draw.token == t
  }

  /** A drawn token was not drawn before, and nobody used it before it was drawn. */
  ghost predicate FreshTokens(events: seq<Event>) {
    forall m: nat, n: nat :: m <= n < |events| && events[n].Rrq? ==>
      !Carries(events[m], events[n].draw.token) && (m < n ==> !Draws(events[m], events[n].draw.token))
  }

  ghost predicate DrawnBefore(events: seq<Event>, n: nat, t: string)
    requires n <= |events|
  {
    exists m: nat :: m < n && Draws(events[m], t)
  }

  // ----- one event -----

  /** A continuation without its session's current token changes nothing, whatever else it says. */
  lemma StaleChangesNothing<H>(srv: Server<H>, events: seq<Event>, n: nat)
    requires ValidServer(srv) && n < |events| && events[n].Rrq? && events[n].parsed.clientId.Some?
    requires IsContinuation(events[n].parsed) && !Current(At(srv, events, n).st, events[n].parsed)
    ensures At(srv, events, n + 1) == At(srv, events, n) && ReplyAt(srv, events, n) == Some(Missing)
  {
    AtStep(srv, events, n);
  }

  predicate About<H>(w: World<H>, e: Event, c: string) {
    match e
    case Rrq(parsed, _) => parsed.clientId == Some(c)
    case WrqClose(conn, _) => conn in w.conns && w.conns[conn].request.clientId == Some(c)
    case _ => false
  }

  /** Only a session's own requests and uploads touch it. */
  lemma Isolation<H>(srv: Server<H>, events: seq<Event>, n: nat, c: string)
    requires ValidServer(srv) && n < |events| && !About(At(srv, events, n), events[n], c)
    ensures c in At(srv, events, n + 1).st.sessions <==> c in At(srv, events, n).st.sessions
    ensures c in At(srv, events, n).st.sessions ==>
      At(srv, events, n + 1).st.sessions[c] == At(srv, events, n).st.sessions[c]
  {
    AtStep(srv, events, n);
    Untouched(srv, At(srv, events, n), n, events[n], c);
  }

  lemma Untouched<H>(srv: Server<H>, w: World<H>, n: nat, e: Event, c: string)
    requires ValidServer(srv) && Inv(w.st) && !About(w, e, c)
    ensures var w' := Next(srv, w, n, e).0;
      && (c in w'.st.sessions <==> c in w.st.sessions)
      && (c in w.st.sessions ==> w'.st.sessions[c] == w.st.sessions[c])
  {
    if e.Rrq? && e.parsed.clientId.Some? {
      FetchOk(w.st, srv.cfg, srv.prog, e.parsed, e.draw);
    }
  }

  predicate AboutOthers<H>(srv: Server<H>, events: seq<Event>, n: nat, c: string)
    requires ValidServer(srv) && n < |events|
  {
    !About(At(srv, events, n), events[n], c)
  }

  /** Whatever requests and uploads of other clients and steps of workers come in between, a session stays as it is. */
  lemma {:induction false} LeftAlone<H>(srv: Server<H>, events: seq<Event>, m: nat, n: nat, c: string)
    requires ValidServer(srv) && m <= n <= |events|
    requires forall i: nat :: m <= i < n ==> AboutOthers(srv, events, i, c)
    ensures c in At(srv, events, n).st.sessions <==> c in At(srv, events, m).st.sessions
    ensures c in At(srv, events, m).st.sessions ==>
      At(srv, events, n).st.sessions[c] == At(srv, events, m).st.sessions[c]
    decreases n
  {
    if n > m {
      LeftAlone(srv, events, m, n - 1, c);
      assert AboutOthers(srv, events, n - 1, c);
      Isolation(srv, events, n - 1, c);
    }
  }

  /** A session's token is the one it had, or was drawn by this request. */
  lemma TokenOrigin<H>(srv: Server<H>, w: World<H>, n: nat, e: Event, c: string)
    requires ValidServer(srv) && Inv(w.st) && c in Next(srv, w, n, e).0.st.sessions
    ensures var s' := Next(srv, w, n, e).0.st.sessions[c];
      || (c in w.st.sessions && s'.token == w.st.sessions[c].token)
      || (e.Rrq? && s'.token == Some(e.draw.token))
  {
    if !About(w, e, c) {
      Untouched(srv, w, n, e, c);
    } else if e.Rrq? {
      FetchOk(w.st, srv.cfg, srv.prog, e.parsed, e.draw);
    }
  }

  // ----- tokens over a run -----

  ghost predicate TokensDistinct<H>(st: State<H>) {
    forall c, d :: c in st.sessions && d in st.sessions && c != d ==> st.sessions[c].token != st.sessions[d].token
  }

  lemma {:induction false} TokensDrawn<H>(srv: Server<H>, events: seq<Event>, n: nat, c: string)
    requires ValidServer(srv) && n <= |events| && c in At(srv, events, n).st.sessions
    ensures var s := At(srv, events, n).st.sessions[c]; s.token.Some? && DrawnBefore(events, n, s.token.value)
    decreases n
  {
    assert SessionOk(c, At(srv, events, n).st.sessions[c]);
    if n > 0 {
      AtStep(srv, events, n - 1);
      var w := At(srv, events, n - 1);
      TokenOrigin(srv, w, n - 1, events[n - 1], c);
      var t := At(srv, events, n).st.sessions[c].token.value;
      if c in w.st.sessions && w.st.sessions[c].token == Some(t) {
        TokensDrawn(srv, events, n - 1, c);
        var m: nat :| m < n - 1 && Draws(events[m], t);
      } else {
        assert Draws(events[n - 1], t);
      }
    }
  }

  lemma {:induction false} TokensStayDistinct<H>(srv: Server<H>, events: seq<Event>, n: nat)
    requires ValidServer(srv) && n <= |events| && FreshTokens(events)
    ensures TokensDistinct(At(srv, events, n).st)
    decreases n
  {
    if n > 0 {
      TokensStayDistinct(srv, events, n - 1);
      var st' := At(srv, events, n).st;
      forall c, d | c in st'.sessions && d in st'.sessions && c != d
        ensures st'.sessions[c].token != st'.sessions[d].token
      {
        AboutOne(At(srv, events, n - 1), events[n - 1], c, d);
        if !About(At(srv, events, n - 1), events[n - 1], c) {
          NewTokenDiffers(srv, events, n - 1, c, d);
        } else {
          NewTokenDiffers(srv, events, n - 1, d, c);
        }
      }
    }
  }

  lemma AboutOne<H>(w: World<H>, e: Event, c: string, d: string)
    requires c != d
    ensures !About(w, e, c) || !About(w, e, d)
  {
  }

  /** A session the event is not about keeps its token, which no other session can draw now. */
  lemma NewTokenDiffers<H>(srv: Server<H>, events: seq<Event>, n: nat, c: string, d: string)
    requires ValidServer(srv) && n < |events| && FreshTokens(events) && c != d
    requires TokensDistinct(At(srv, events, n).st) && !About(At(srv, events, n), events[n], c)
    requires c in At(srv, events, n + 1).st.sessions && d in At(srv, events, n + 1).st.sessions
    ensures At(srv, events, n + 1).st.sessions[c].token != At(srv, events, n + 1).st.sessions[d].token
  {
    AtStep(srv, events, n);
    var w := At(srv, events, n);
    Untouched(srv, w, n, events[n], c);
    TokensDrawn(srv, events, n, c);
    var m: nat :| m < n && Draws(events[m], w.st.sessions[c].token.value);
    TokenOrigin(srv, w, n, events[n], d);
  }

  ghost predicate TokenGone<H>(st: State<H>, t: string) {
    forall c :: c in st.sessions ==> st.sessions[c].token != Some(t)
  }

  predicate ServedContinuation<H>(srv: Server<H>, events: seq<Event>, n: nat)
    requires ValidServer(srv) && n < |events|
  {
    && events[n].Rrq? && IsContinuation(events[n].parsed)
    && ReplyAt(srv, events, n).Some? && ReplyAt(srv, events, n).value.Served?
  }

  lemma ServedIsCurrent<H>(srv: Server<H>, events: seq<Event>, n: nat)
    requires ValidServer(srv) && n < |events| && ServedContinuation(srv, events, n)
    ensures Current(At(srv, events, n).st, events[n].parsed)
  {
  }

  lemma ServedTokenGone<H>(srv: Server<H>, events: seq<Event>, n: nat)
    requires ValidServer(srv) && n < |events| && FreshTokens(events) && ServedContinuation(srv, events, n)
    ensures TokenGone(At(srv, events, n + 1).st, events[n].parsed.values["token"])
  {
    AtStep(srv, events, n);
    ServedIsCurrent(srv, events, n);
    TokensStayDistinct(srv, events, n);
    var w, e := At(srv, events, n), events[n];
    FetchOk(w.st, srv.cfg, srv.prog, e.parsed, e.draw);
    assert Carries(e, e.parsed.values["token"]);
  }

  lemma StaysGone<H>(srv: Server<H>, w: World<H>, n: nat, e: Event, t: string)
    requires ValidServer(srv) && Inv(w.st) && TokenGone(w.st, t) && !Draws(e, t)
    ensures TokenGone(Next(srv, w, n, e).0.st, t)
  {
    var st' := Next(srv, w, n, e).0.st;
    forall c | c in st'.sessions
      ensures st'.sessions[c].token != Some(t)
    {
      TokenOrigin(srv, w, n, e, c);
    }
  }

  lemma NotDrawnAgain(events: seq<Event>, m: nat, n: nat, t: string)
    requires FreshTokens(events) && m <= n < |events| && Carries(events[m], t)
    ensures !Draws(events[n], t)
  {
  }

  lemma GoneStep<H>(srv: Server<H>, events: seq<Event>, m: nat, n: nat, t: string)
    requires ValidServer(srv) && m <= n < |events| && FreshTokens(events)
    requires Carries(events[m], t) && TokenGone(At(srv, events, n).st, t)
    ensures TokenGone(At(srv, events, n + 1).st, t)
  {
    AtStep(srv, events, n);
    NotDrawnAgain(events, m, n, t);
    StaysGone(srv, At(srv, events, n), n, events[n], t);
  }

  lemma {:induction false} GoneForGood<H>(srv: Server<H>, events: seq<Event>, m: nat, n: nat, t: string)
    requires ValidServer(srv) && m < n <= |events| && FreshTokens(events)
    requires Carries(events[m], t) && TokenGone(At(srv, events, m + 1).st, t)
    ensures TokenGone(At(srv, events, n).st, t)
    decreases n
  {
    if n > m + 1 {
      GoneForGood(srv, events, m, n - 1, t);
      GoneStep(srv, events, m, n - 1, t);
    }
  }

  /** Over a whole run, no token is answered with a script twice. */
  lemma TokensServedOnce<H>(srv: Server<H>, events: seq<Event>, m: nat, n: nat)
    requires ValidServer(srv) && m < n < |events| && FreshTokens(events)
    requires ServedContinuation(srv, events, m) && ServedContinuation(srv, events, n)
    ensures events[m].parsed.values["token"] != events[n].parsed.values["token"]
  {
    var t := events[m].parsed.values["token"];
    ServedTokenGone(srv, events, m);
    assert Carries(events[m], t);
    GoneForGood(srv, events, m, n, t);
    ServedIsCurrent(srv, events, n);
  }

  // ----- uploads over a run -----

  /** A WRQ for client `c` under the exchange token `t`. */
  predicate Names(parsed: Parsed, c: string, t: string) {
    parsed.clientId == Some(c) && TokenOf(parsed) == Some(t) && EndsWith(parsed.path, UPLOAD_PATH)
  }

  predicate ClosesConn(e: Event, conn: nat) {
    e.WrqClose? && e.conn == conn
  }

  ghost predicate ClosedIn(events: seq<Event>, conn: nat, n: nat)
    requires n <= |events|
  {
    exists j: nat :: conn < j < n && ClosesConn(events[j], conn)
  }

  predicate OpensFor(events: seq<Event>, o: nat, c: string, t: string)
    requires o < |events|
  {
    events[o].WrqOpen? && Names(events[o].parsed, c, t)
  }

  /** Event `m` is the first close of an upload that was opened for `c` and `t`. */
  ghost predicate ClosesFor(events: seq<Event>, m: nat, c: string, t: string)
    requires m < |events|
  {
    && events[m].WrqClose? && events[m].conn < m
    && OpensFor(events, events[m].conn, c, t) && !ClosedIn(events, events[m].conn, m)
  }

  /** The body of the last upload closed for `c` and `t` before event `n`, read off the events alone. */
  ghost function LastClosed(events: seq<Event>, n: nat, c: string, t: string): Option<bytes>
    requires n <= |events|
  {
    if n == 0 then None
    else if ClosesFor(events, n - 1, c, t) then Some(events[n - 1].body)
    else LastClosed(events, n - 1, c, t)
  }

  ghost predicate ConnsRight<H>(w: World<H>, events: seq<Event>, n: nat)
    requires n <= |events|
  {
    forall o :: o in w.conns ==> o < n && events[o] == WrqOpen(w.conns[o].request)
  }

  /** The uploads opened for `c` and `t` are all known, and marked captured once closed. */
  ghost predicate ConnsFor<H>(w: World<H>, events: seq<Event>, n: nat, c: string, t: string)
    requires n <= |events|
  {
    forall o: nat :: o < n && OpensFor(events, o, c, t) ==>
      o in w.conns && (w.conns[o].captured <==> ClosedIn(events, o, n))
  }

  ghost predicate PendingRight<H>(w: World<H>, events: seq<Event>, n: nat, c: string)
    requires n <= |events|
  {
    c in w.st.sessions && w.st.sessions[c].pending.Some? ==>
      var p := w.st.sessions[c].pending.value;
      ConnsFor(w, events, n, c, p.token) && p.uploaded == LastClosed(events, n, c, p.token)
  }

  lemma {:induction false} NeverOpened(events: seq<Event>, n: nat, c: string, t: string)
    requires n <= |events|
    requires forall m: nat :: m < n ==> !Carries(events[m], t)
    ensures LastClosed(events, n, c, t) == None
    ensures forall o: nat :: o < n ==> !OpensFor(events, o, c, t)
    decreases n
  {
    forall o: nat | o < n
      ensures !OpensFor(events, o, c, t)
    {
      assert !Carries(events[o], t);
    }
    if n > 0 {
      NeverOpened(events, n - 1, c, t);
    }
  }

  lemma ClosedInStep(events: seq<Event>, conn: nat, n: nat)
    requires n < |events|
    ensures ClosedIn(events, conn, n + 1) <==> ClosedIn(events, conn, n) || (conn < n && ClosesConn(events[n], conn))
  {
    if ClosedIn(events, conn, n) {
      var j: nat :| conn < j < n && ClosesConn(events[j], conn);
      assert conn < j < n + 1;
    }
  }

  /** Events that neither open nor close an upload of this exchange leave its record alone. */
  lemma QuietStep<H>(w: World<H>, w': World<H>, events: seq<Event>, n: nat, c: string, t: string)
    requires n < |events| && ConnsFor(w, events, n, c, t)
    requires !OpensFor(events, n, c, t)
    requires events[n].WrqClose? ==>
      !(events[n].conn < n && OpensFor(events, events[n].conn, c, t)) || ClosedIn(events, events[n].conn, n)
    requires forall o: nat :: o < n && o in w.conns && OpensFor(events, o, c, t) ==>
      o in w'.conns && w'.conns[o] == w.conns[o]
    ensures ConnsFor(w', events, n + 1, c, t)
    ensures LastClosed(events, n + 1, c, t) == LastClosed(events, n, c, t)
  {
    forall o: nat | o < n + 1 && OpensFor(events, o, c, t)
      ensures o in w'.conns && (w'.conns[o].captured <==> ClosedIn(events, o, n + 1))
    {
      ClosedInStep(events, o, n);
    }
  }

  lemma OpenStep<H>(srv: Server<H>, w: World<H>, events: seq<Event>, n: nat, c: string)
    requires ValidServer(srv) && n < |events| && Inv(w.st) && ConnsRight(w, events, n) && PendingRight(w, events, n, c)
    requires events[n].WrqOpen?
    ensures PendingRight(Next(srv, w, n, events[n]).0, events, n + 1, c)
  {
    var parsed := events[n].parsed;
    var w' := Next(srv, w, n, events[n]).0;
    if c in w.st.sessions && w.st.sessions[c].pending.Some? {
      assert SessionOk(c, w.st.sessions[c]);
      var t := w.st.sessions[c].pending.value.token;
      assert OpensFor(events, n, c, t) ==> UploadExpected(w.st.sessions, parsed);
      forall o: nat | o < n + 1 && OpensFor(events, o, c, t)
        ensures o in w'.conns && (w'.conns[o].captured <==> ClosedIn(events, o, n + 1))
      {
        ClosedInStep(events, o, n);
        if o == n {
          assert w'.conns[n] == Conn(parsed, false);
        }
      }
    }
  }

  lemma CloseStep<H>(srv: Server<H>, w: World<H>, events: seq<Event>, n: nat, c: string)
    requires ValidServer(srv) && n < |events| && Inv(w.st) && ConnsRight(w, events, n) && PendingRight(w, events, n, c)
    requires events[n].WrqClose?
    ensures PendingRight(Next(srv, w, n, events[n]).0, events, n + 1, c)
  {
    if c in w.st.sessions && w.st.sessions[c].pending.Some? {
      var conn, t := events[n].conn, w.st.sessions[c].pending.value.token;
      if conn < n && OpensFor(events, conn, c, t) && !ClosedIn(events, conn, n) {
        FirstClose(srv, w, events, n, c);
      } else {
        QuietClose(srv, w, events, n, c);
      }
    } else {
      Untouched1(srv, w, n, events[n], c);
    }
  }

  /** The first close of this exchange's upload records its body. */
  lemma FirstClose<H>(srv: Server<H>, w: World<H>, events: seq<Event>, n: nat, c: string)
    requires ValidServer(srv) && n < |events| && Inv(w.st) && ConnsRight(w, events, n) && PendingRight(w, events, n, c)
    requires events[n].WrqClose? && c in w.st.sessions && w.st.sessions[c].pending.Some?
    requires ClosesFor(events, n, c, w.st.sessions[c].pending.value.token)
    ensures PendingRight(Next(srv, w, n, events[n]).0, events, n + 1, c)
  {
    var conn, body, p := events[n].conn, events[n].body, w.st.sessions[c].pending.value;
    var w' := Next(srv, w, n, events[n]).0;
    assert SessionOk(c, w.st.sessions[c]);
    assert UploadExpected(w.st.sessions, w.conns[conn].request);
    CloseRecords(srv, w, n, conn, body, c);
    CapturedNow(w, w', events, n, c, p.token);
  }

  lemma CapturedNow<H>(w: World<H>, w': World<H>, events: seq<Event>, n: nat, c: string, t: string)
    requires n < |events| && ConnsFor(w, events, n, c, t) && ClosesFor(events, n, c, t) && events[n].conn in w.conns
    requires w'.conns == w.conns[events[n].conn := w.conns[events[n].conn].(captured := true)]
    ensures ConnsFor(w', events, n + 1, c, t)
  {
    forall o: nat | o < n + 1 && OpensFor(events, o, c, t)
      ensures o in w'.conns && (w'.conns[o].captured <==> ClosedIn(events, o, n + 1))
    {
      ClosedInStep(events, o, n);
    }
  }

  lemma CloseRecords<H>(srv: Server<H>, w: World<H>, n: nat, conn: nat, body: bytes, c: string)
    requires ValidServer(srv) && Inv(w.st) && conn in w.conns && !w.conns[conn].captured
    requires UploadExpected(w.st.sessions, w.conns[conn].request) && w.conns[conn].request.clientId == Some(c)
    ensures
      var w' := Next(srv, w, n, WrqClose(conn, body)).0;
      && w'.conns == w.conns[conn := w.conns[conn].(captured := true)]
      && c in w'.st.sessions
      && w'.st.sessions[c].pending == Some(w.st.sessions[c].pending.value.(uploaded := Some(body)))
  {
  }

  lemma Untouched1<H>(srv: Server<H>, w: World<H>, n: nat, e: Event, c: string)
    requires ValidServer(srv) && Inv(w.st) && e.WrqClose?
    requires c in w.st.sessions ==> w.st.sessions[c].pending.None?
    ensures var w' := Next(srv, w, n, e).0; c in w'.st.sessions ==> w'.st.sessions[c].pending.None?
  {
  }

  lemma ForeignClose<H>(srv: Server<H>, w: World<H>, n: nat, conn: nat, body: bytes, c: string)
    requires ValidServer(srv) && Inv(w.st) && c in w.st.sessions
    requires conn in w.conns && UploadExpected(w.st.sessions, w.conns[conn].request) ==>
      w.conns[conn].request.clientId == Some(c) ==> w.conns[conn].captured
    ensures var w' := Next(srv, w, n, WrqClose(conn, body)).0;
      && c in w'.st.sessions && w'.st.sessions[c] == w.st.sessions[c]
      && (forall o :: o in w.conns && o != conn ==> o in w'.conns && w'.conns[o] == w.conns[o])
      && (conn in w.conns ==>
        conn in w'.conns && (w'.conns[conn] == w.conns[conn] || UploadExpected(w.st.sessions, w.conns[conn].request)))
  {
  }

  /** A close that is not this exchange's, or not the first one, records nothing for it. */
  lemma QuietClose<H>(srv: Server<H>, w: World<H>, events: seq<Event>, n: nat, c: string)
    requires ValidServer(srv) && n < |events| && Inv(w.st) && ConnsRight(w, events, n) && PendingRight(w, events, n, c)
    requires events[n].WrqClose? && c in w.st.sessions && w.st.sessions[c].pending.Some?
    requires
      var t := w.st.sessions[c].pending.value.token;
      var conn := events[n].conn;
      !(conn < n && OpensFor(events, conn, c, t)) || ClosedIn(events, conn, n)
    ensures PendingRight(Next(srv, w, n, events[n]).0, events, n + 1, c)
  {
    var conn := events[n].conn;
    var w' := Next(srv, w, n, events[n]).0;
    assert SessionOk(c, w.st.sessions[c]);
    var t := w.st.sessions[c].pending.value.token;
    if conn in w.conns && UploadExpected(w.st.sessions, w.conns[conn].request) &&
      w.conns[conn].request.clientId == Some(c) {
      assert OpensFor(events, conn, c, t);
      assert w.conns[conn].captured;
    }
    ForeignClose(srv, w, n, conn, events[n].body, c);
    QuietStep(w, w', events, n, c, t);
  }

  /** A receive that is pending after a request was pending before it, or is new and empty. */
  lemma RrqPending<H>(srv: Server<H>, w: World<H>, n: nat, e: Event, c: string)
    requires ValidServer(srv) && Inv(w.st) && e.Rrq?
    ensures var w' := Next(srv, w, n, e).0;
      && w'.conns == w.conns
      && (c in w'.st.sessions && w'.st.sessions[c].pending.Some? ==>
            || (c in w.st.sessions && w'.st.sessions[c] == w.st.sessions[c])
            || (w'.st.sessions[c].pending.value.token == e.draw.token &&
              w'.st.sessions[c].pending.value.uploaded == None))
  {
    if !About(w, e, c) {
      Untouched(srv, w, n, e, c);
    } else {
      FetchOk(w.st, srv.cfg, srv.prog, e.parsed, e.draw);
      var st' := Fetch(w.st, srv.cfg, srv.prog, e.parsed, e.draw).0;
      if c in st'.sessions {
        assert SessionOk(c, st'.sessions[c]);
      }
    }
  }

  lemma RrqStep<H>(w: World<H>, w': World<H>, events: seq<Event>, n: nat, c: string)
    requires n < |events| && FreshTokens(events) && events[n].Rrq?
    requires PendingRight(w, events, n, c) && w'.conns == w.conns
    requires c in w'.st.sessions && w'.st.sessions[c].pending.Some? ==>
            || (c in w.st.sessions && w'.st.sessions[c] == w.st.sessions[c])
            || (w'.st.sessions[c].pending.value.token == events[n].draw.token &&
              w'.st.sessions[c].pending.value.uploaded == None)
    ensures PendingRight(w', events, n + 1, c)
  {
    if c in w'.st.sessions && w'.st.sessions[c].pending.Some? {
      var t := w'.st.sessions[c].pending.value.token;
      if c in w.st.sessions && w'.st.sessions[c] == w.st.sessions[c] {
        QuietStep(w, w', events, n, c, t);
      } else {
        NeverOpened(events, n + 1, c, t);
      }
    }
  }

  lemma PendingStep<H>(srv: Server<H>, w: World<H>, events: seq<Event>, n: nat, c: string)
    requires ValidServer(srv) && n < |events| && FreshTokens(events)
    requires Inv(w.st) && ConnsRight(w, events, n) && PendingRight(w, events, n, c)
    ensures PendingRight(Next(srv, w, n, events[n]).0, events, n + 1, c)
  {
    var e := events[n];
    match e
    case Rrq(_, _) =>
      RrqPending(srv, w, n, e, c);
      RrqStep(w, Next(srv, w, n, e).0, events, n, c);
    case WrqOpen(_) => OpenStep(srv, w, events, n, c);
    case WrqClose(_, _) => CloseStep(srv, w, events, n, c);
    case _ =>
      if c in w.st.sessions && w.st.sessions[c].pending.Some? {
        QuietStep(w, Next(srv, w, n, e).0, events, n, c, w.st.sessions[c].pending.value.token);
      }
  }

  lemma ConnsStep<H>(srv: Server<H>, w: World<H>, events: seq<Event>, n: nat)
    requires ValidServer(srv) && n < |events| && Inv(w.st) && ConnsRight(w, events, n)
    ensures ConnsRight(Next(srv, w, n, events[n]).0, events, n + 1)
  {
  }

  lemma {:induction false} UploadsRight<H>(srv: Server<H>, events: seq<Event>, n: nat, c: string)
    requires ValidServer(srv) && n <= |events| && FreshTokens(events)
    ensures ConnsRight(At(srv, events, n), events, n) && PendingRight(At(srv, events, n), events, n, c)
    decreases n
  {
    if n > 0 {
      UploadsRight(srv, events, n - 1, c);
      AtStep(srv, events, n - 1);
      ConnsStep(srv, At(srv, events, n - 1), events, n - 1);
      PendingStep(srv, At(srv, events, n - 1), events, n - 1, c);
    }
  }

  // ----- what a resumed handler is given -----

  /** The state a handler runs in: the request is recorded and merged, and its receive is used up. */
  function Entering<H>(st: State<H>, c: string, parsed: Parsed, handler: Coroutine<H>): (st': State<H>)
    requires c in st.sessions && HIDDEN <= st.sessions[c].env.Keys
    ensures c in st'.sessions && HIDDEN <= st'.sessions[c].env.Keys
  {
    WithSession(st, c, Merged(st.sessions[c], parsed).(pending := None, preflight := false, handler := handler))
  }

  /** Event `n` is answered by resuming session `c`'s handler, in `frame`, with `got`. */
  ghost predicate GoesOnWith<H>(srv: Server<H>, events: seq<Event>, n: nat, c: string, frame: H, at: AwaitPoint,
                                got: Awaited)
    requires ValidServer(srv) && n < |events| && events[n].Rrq? && c in At(srv, events, n).st.sessions
  {
    var st, parsed, draw := At(srv, events, n).st, events[n].parsed, events[n].draw;
    assert SessionOk(c, st.sessions[c]);
    var r := srv.prog.resume(draw.now, frame, PublicEnv(st.sessions[c].env + Reported(parsed.values)), got);
    var (st', reply) := Settle(Entering(st, c, parsed, Suspended(frame, at)), c, r, draw);
    At(srv, events, n + 1).st == st' && ReplyAt(srv, events, n) == Some(reply)
  }

  lemma ReentersFetch<H>(st: State<H>, cfg: Config, prog: Program<H>, c: string, parsed: Parsed, draw: Draw, frame: H,
                         at: AwaitPoint)
    requires Inv(st) && ValidConfig(cfg) && parsed.clientId == Some(c) && IsContinuation(parsed) && Current(st, parsed)
    requires st.sessions[c].handler == Suspended(frame, at)
    ensures HIDDEN <= st.sessions[c].env.Keys
    ensures
      var s := st.sessions[c];
      var r := prog.resume(draw.now, frame, PublicEnv(s.env + Reported(parsed.values)),
        Deliver(at, SentBody(s, parsed)));
      Fetch(st, cfg, prog, parsed, draw) == Settle(Entering(st, c, parsed, Suspended(frame, at)), c, r, draw)
  {
    var s := st.sessions[c];
    assert SessionOk(c, s);
    PublicOfMerged(s.env, Reported(parsed.values));
    var merged := Merged(s, parsed);
    assert SentBody(merged, parsed) == SentBody(s, parsed);
    assert WithSession(WithSession(st, c, merged), c, merged.(pending := None)) ==
      Entering(st, c, parsed, Suspended(frame, at));
  }

  lemma Reentered<H>(srv: Server<H>, events: seq<Event>, n: nat, c: string, frame: H, at: AwaitPoint)
    requires ValidServer(srv) && n < |events|
    requires events[n].Rrq? && events[n].parsed.clientId == Some(c) && IsContinuation(events[n].parsed)
    requires Current(At(srv, events, n).st, events[n].parsed)
    requires At(srv, events, n).st.sessions[c].handler == Suspended(frame, at)
    ensures GoesOnWith(srv, events, n, c, frame, at,
      Deliver(at, SentBody(At(srv, events, n).st.sessions[c], events[n].parsed)))
  {
    AtStep(srv, events, n);
    ReentersFetch(At(srv, events, n).st, srv.cfg, srv.prog, c, events[n].parsed, events[n].draw, frame, at);
  }

  /**
   The value of `exec_recv` at a continuation: the body of the last upload closed
   under this exchange's own token, and only if the client reports success.
   Otherwise the handler gets the receive failure.
   */
  lemma ExactDelivery<H>(srv: Server<H>, events: seq<Event>, n: nat, c: string, frame: H)
    requires ValidServer(srv) && n < |events| && FreshTokens(events)
    requires events[n].Rrq? && events[n].parsed.clientId == Some(c) && IsContinuation(events[n].parsed)
    requires Current(At(srv, events, n).st, events[n].parsed)
    requires At(srv, events, n).st.sessions[c].handler == Suspended(frame, InReceive)
    ensures
      var parsed := events[n].parsed;
      var last := LastClosed(events, n, c, parsed.values["token"]);
      GoesOnWith(srv, events, n, c, frame, InReceive,
        if StatusOf(parsed) == "ok" && last.Some? then Received(last.value) else ReceiveFailed)
  {
    UploadsRight(srv, events, n, c);
    assert SessionOk(c, At(srv, events, n).st.sessions[c]);
    Reentered(srv, events, n, c, frame, InReceive);
  }

  /** After a plain `exec` the handler goes on with nothing, whatever was uploaded meanwhile. */
  lemma ExecGetsNothing<H>(srv: Server<H>, events: seq<Event>, n: nat, c: string, frame: H)
    requires ValidServer(srv) && n < |events|
    requires events[n].Rrq? && events[n].parsed.clientId == Some(c) && IsContinuation(events[n].parsed)
    requires Current(At(srv, events, n).st, events[n].parsed)
    requires At(srv, events, n).st.sessions[c].handler == Suspended(frame, InExec)
    ensures GoesOnWith(srv, events, n, c, frame, InExec, Executed)
  {
    assert SessionOk(c, At(srv, events, n).st.sessions[c]);
    Reentered(srv, events, n, c, frame, InExec);
  }

  lemma CreatedFetch<H>(st: State<H>, cfg: Config, prog: Program<H>, c: string, parsed: Parsed, draw: Draw, frame: H)
    requires Inv(st) && ValidConfig(cfg) && parsed.clientId == Some(c) && IsContinuation(parsed) && Current(st, parsed)
    requires
      var s := Merged(st.sessions[c], parsed);
      s.preflight && HushConfirmed(s.env) && prog.create(c, CommandOf(s.requests[0]), s.publicEnv) == Some(frame)
    ensures HIDDEN <= st.sessions[c].env.Keys
    ensures
      var r := prog.resume(draw.now, frame, PublicEnv(st.sessions[c].env + Reported(parsed.values)), Started);
      Fetch(st, cfg, prog, parsed, draw) == Settle(Entering(st, c, parsed, Suspended(frame, NotStarted)), c, r, draw)
  {
    var s := st.sessions[c];
    assert SessionOk(c, s);
    PublicOfMerged(s.env, Reported(parsed.values));
    var merged := Merged(s, parsed);
    var st1 := WithSession(st, c, merged);
    CreatedPreflight(st1, prog, c, parsed, draw, frame);
    EnteringTwice(st, c, parsed, Suspended(frame, NotStarted));
  }

  lemma EnteringTwice<H>(st: State<H>, c: string, parsed: Parsed, handler: Coroutine<H>)
    requires c in st.sessions && HIDDEN <= st.sessions[c].env.Keys
    ensures
      var merged := Merged(st.sessions[c], parsed);
      WithSession(WithSession(st, c, merged), c, merged.(preflight := false, handler := handler, pending := None)) ==
      Entering(st, c, parsed, handler)
  {
  }

  lemma CreatedPreflight<H>(st: State<H>, prog: Program<H>, c: string, parsed: Parsed, draw: Draw, frame: H)
    requires c in st.sessions && HIDDEN <= st.sessions[c].env.Keys && st.sessions[c].requests != []
    requires
      var s := st.sessions[c];
      s.pending.None? && HushConfirmed(s.env) && prog.create(c, CommandOf(s.requests[0]), s.publicEnv) == Some(frame)
    ensures
      var s := st.sessions[c];
      Preflight(st, prog, c, parsed, draw) ==
      Settle(WithSession(st, c, s.(preflight := false, handler := Suspended(frame, NotStarted), pending := None)), c,
             prog.resume(draw.now, frame, s.publicEnv, Started), draw)
  {
    var s := st.sessions[c].(preflight := false, handler := Suspended(frame, NotStarted));
    var st2 := WithHandler(WithSession(st, c, st.sessions[c].(preflight := false)), c, Suspended(frame, NotStarted));
    assert st2 == WithSession(st, c, s);
    assert SentBody(s, parsed) == None;
    assert WithSession(st2, c, s.(pending := None)) == WithSession(st, c, s.(pending := None));
  }

  /** A new handler is first resumed with nothing, in the request that created it. */
  lemma CreatedThenStarted<H>(srv: Server<H>, events: seq<Event>, n: nat, c: string, frame: H)
    requires ValidServer(srv) && n < |events|
    requires events[n].Rrq? && events[n].parsed.clientId == Some(c) && IsContinuation(events[n].parsed)
    requires Current(At(srv, events, n).st, events[n].parsed)
    requires
      var s := Merged(At(srv, events, n).st.sessions[c], events[n].parsed);
      s.preflight && HushConfirmed(s.env) && srv.prog.create(c, CommandOf(s.requests[0]), s.publicEnv) == Some(frame)
    ensures GoesOnWith(srv, events, n, c, frame, NotStarted, Started)
  {
    AtStep(srv, events, n);
    CreatedFetch(At(srv, events, n).st, srv.cfg, srv.prog, c, events[n].parsed, events[n].draw, frame);
  }

  // ----- the hush gate -----

  /** The accepted requests of session `c`, once one more has been answered. */
  function AcceptedWith<H>(st: State<H>, parsed: Parsed, requests: seq<Parsed>): seq<Parsed> {
    if !IsContinuation(parsed) then [parsed] else if Current(st, parsed) then requests + [parsed] else requests
  }

  /** The requests session `c` has accepted since it was last started, read off the run. */
  function Accepted<H>(srv: Server<H>, events: seq<Event>, n: nat, c: string): seq<Parsed>
    requires ValidServer(srv) && n <= |events|
  {
    if n == 0 then [] else
      var e, before := events[n - 1], Accepted(srv, events, n - 1, c);
      if !(e.Rrq? && e.parsed.clientId == Some(c)) then before
      else AcceptedWith(At(srv, events, n - 1).st, e.parsed, before)
  }

  /** What those requests make of the environment: the first one presets it, the others report values. */
  function EnvFrom(cfg: Config, requests: seq<Parsed>): Env
    requires requests != [] && requests[0].clientId.Some?
  {
    if |requests| == 1 then SessionEnv(cfg, requests[0])
    else EnvFrom(cfg, requests[..|requests| - 1]) + Reported(requests[|requests| - 1].values)
  }

  /** The second accepted request found `hush_shell` set. */
  predicate Gated(cfg: Config, requests: seq<Parsed>) {
    |requests| >= 2 && requests[0].clientId.Some? && HushConfirmed(EnvFrom(cfg, requests[..2]))
  }

  ghost predicate History<H>(cfg: Config, c: string, s: Session<H>, requests: seq<Parsed>) {
    && s.requests == requests && requests != [] && requests[0].clientId == Some(c)
    && s.env == EnvFrom(cfg, requests)
    && (s.preflight <==> |requests| == 1)
    && (!s.preflight ==> Gated(cfg, requests))
  }

  lemma AcceptOne<H>(cfg: Config, c: string, s: Session<H>, requests: seq<Parsed>, parsed: Parsed)
    requires History(cfg, c, s, requests)
    ensures
      var more := requests + [parsed];
      && more != [] && more[0].clientId == Some(c) && |more| >= 2
      && EnvFrom(cfg, more) == s.env + Reported(parsed.values)
      && (Gated(cfg, more) <==> !s.preflight || HushConfirmed(s.env + Reported(parsed.values)))
  {
    var more := requests + [parsed];
    assert more[..|more| - 1] == requests;
    if s.preflight {
      assert more[..2] == more;
    } else {
      assert more[..2] == requests[..2];
    }
  }

  /** A request made session `c` what its accepted requests say. */
  lemma RrqHistory<H>(srv: Server<H>, st: State<H>, parsed: Parsed, draw: Draw, c: string, requests: seq<Parsed>)
    requires ValidServer(srv) && Inv(st) && parsed.clientId == Some(c)
    requires c in st.sessions ==> History(srv.cfg, c, st.sessions[c], requests)
    ensures
      var st' := Fetch(st, srv.cfg, srv.prog, parsed, draw).0;
      c in st'.sessions ==> History(srv.cfg, c, st'.sessions[c], AcceptedWith(st, parsed, requests))
  {
    if IsContinuation(parsed) && Current(st, parsed) {
      AcceptOne(srv.cfg, c, st.sessions[c], requests, parsed);
      ResumeKeepsRequests(st, srv.prog, parsed, draw);
    }
  }

  /** Session `c`, if it is still there, has the same requests, variables and preflight flag. */
  predicate KeepsRecord<H>(st: State<H>, st': State<H>, c: string)
    requires c in st.sessions
  {
    c in st'.sessions ==>
      var s, s' := st.sessions[c], st'.sessions[c];
      s'.requests == s.requests && s'.env == s.env && s'.preflight == s.preflight
  }

  lemma ConcludeKeepsRecord<H>(st: State<H>, c: string, outcome: Outcome<H>, draw: Draw)
    requires c in st.sessions && HIDDEN <= st.sessions[c].env.Keys
    ensures KeepsRecord(st, Conclude(st, c, outcome, draw).0, c)
  {
  }

  lemma SettleKeepsRecord<H>(st: State<H>, c: string, r: Resumption<H>, draw: Draw)
    requires c in st.sessions && HIDDEN <= st.sessions[c].env.Keys
    ensures KeepsRecord(st, Settle(st, c, r, draw).0, c)
  {
    ConcludeKeepsRecord(Asked(st, c, r.asks), c, r.outcome, draw);
  }

  lemma ContinuationKeepsRecord<H>(st: State<H>, prog: Program<H>, c: string, parsed: Parsed, draw: Draw)
    requires c in st.sessions && HIDDEN <= st.sessions[c].env.Keys
    ensures KeepsRecord(st, Continuation(st, prog, c, parsed, draw).0, c)
  {
    var s := st.sessions[c];
    if s.handler.Suspended? {
      var st1 := WithSession(st, c, s.(pending := None));
      SettleKeepsRecord(st1, c,
        prog.resume(draw.now, s.handler.frame, s.publicEnv, Deliver(s.handler.at, SentBody(s, parsed))), draw);
    }
  }

  lemma PreflightKeepsRecord<H>(st: State<H>, prog: Program<H>, c: string, parsed: Parsed, draw: Draw)
    requires c in st.sessions && HIDDEN <= st.sessions[c].env.Keys && st.sessions[c].requests != []
    ensures
      var s, st' := st.sessions[c], Preflight(st, prog, c, parsed, draw).0;
      c in st'.sessions ==>
        && st'.sessions[c].requests == s.requests && st'.sessions[c].env == s.env
        && !st'.sessions[c].preflight && HushConfirmed(s.env)
  {
    var s := st.sessions[c].(preflight := false);
    var st1 := WithSession(st, c, s);
    if HushConfirmed(s.env) {
      match prog.create(c, CommandOf(s.requests[0]), s.publicEnv)
      case None =>
      case Some(frame) => ContinuationKeepsRecord(WithHandler(st1, c, Suspended(frame, NotStarted)), prog, c, parsed,
        draw);
    }
  }

  /** Answering a continuation records and merges exactly that one request. */
  lemma ResumeKeepsRequests<H>(st: State<H>, prog: Program<H>, parsed: Parsed, draw: Draw)
    requires Inv(st) && Current(st, parsed)
    ensures
      var c := parsed.clientId.value;
      var s, st' := st.sessions[c], Resume(st, prog, parsed, draw).0;
      c in st'.sessions ==>
        && st'.sessions[c].requests == s.requests + [parsed] && st'.sessions[c].env == s.env + Reported(parsed.values)
        && !st'.sessions[c].preflight && (s.preflight ==> HushConfirmed(s.env + Reported(parsed.values)))
  {
    var c := parsed.clientId.value;
    assert SessionOk(c, st.sessions[c]);
    var s := Merged(st.sessions[c], parsed);
    if !s.preflight {
      ContinuationKeepsRecord(WithSession(st, c, s), prog, c, parsed, draw);
    } else {
      PreflightKeepsRecord(WithSession(st, c, s), prog, c, parsed, draw);
    }
  }

  lemma OthersKeepHistory<H>(srv: Server<H>, w: World<H>, n: nat, e: Event, c: string, requests: seq<Parsed>)
    requires ValidServer(srv) && Inv(w.st) && !(e.Rrq? && e.parsed.clientId == Some(c))
    requires c in w.st.sessions ==> History(srv.cfg, c, w.st.sessions[c], requests)
    ensures var st' := Next(srv, w, n, e).0.st; c in st'.sessions ==> History(srv.cfg, c, st'.sessions[c], requests)
  {
    if !About(w, e, c) {
      Untouched(srv, w, n, e, c);
    }
  }

  lemma NextHistory<H>(srv: Server<H>, w: World<H>, n: nat, e: Event, c: string, requests: seq<Parsed>)
    requires ValidServer(srv) && Inv(w.st)
    requires c in w.st.sessions ==> History(srv.cfg, c, w.st.sessions[c], requests)
    ensures
      var st' := Next(srv, w, n, e).0.st;
      var more := if e.Rrq? && e.parsed.clientId == Some(c) then AcceptedWith(w.st, e.parsed, requests) else requests;
      c in st'.sessions ==> History(srv.cfg, c, st'.sessions[c], more)
  {
    if e.Rrq? && e.parsed.clientId == Some(c) {
      RrqHistory(srv, w.st, e.parsed, e.draw, c, requests);
    } else {
      OthersKeepHistory(srv, w, n, e, c, requests);
    }
  }

  lemma {:induction false} HistoryRight<H>(srv: Server<H>, events: seq<Event>, n: nat, c: string)
    requires ValidServer(srv) && n <= |events|
    ensures
      var st := At(srv, events, n).st;
      c in st.sessions ==> History(srv.cfg, c, st.sessions[c], Accepted(srv, events, n, c))
    decreases n
  {
    if n > 0 {
      HistoryRight(srv, events, n - 1, c);
      AtStep(srv, events, n - 1);
      NextHistory(srv, At(srv, events, n - 1), n - 1, events[n - 1], c, Accepted(srv, events, n - 1, c));
    }
  }

  /**
   Before the gate no handler is created or resumed: the answer and the new state
   would be the same with any other handlers.
   */
  lemma HushGate<H>(srv: Server<H>, other: Program<H>, events: seq<Event>, n: nat, c: string)
    requires ValidServer(srv) && n < |events| && events[n].Rrq? && events[n].parsed.clientId == Some(c)
    requires
      var parsed := events[n].parsed;
      !(&& IsContinuation(parsed) && Current(At(srv, events, n).st, parsed)
        && Gated(srv.cfg, Accepted(srv, events, n, c) + [parsed]))
    ensures
      var st, parsed, draw := At(srv, events, n).st, events[n].parsed, events[n].draw;
      Fetch(st, srv.cfg, srv.prog, parsed, draw) == Fetch(st, srv.cfg, other, parsed, draw)
  {
    var st, parsed := At(srv, events, n).st, events[n].parsed;
    if IsContinuation(parsed) && Current(st, parsed) {
      HistoryRight(srv, events, n, c);
      AcceptOne(srv.cfg, c, st.sessions[c], Accepted(srv, events, n, c), parsed);
    }
  }
}
