/**
 Runs of the whole server: requests, uploads that open and close independently of
 them, and the download workers. Every state of every run keeps the session
 invariant, whatever the handlers do and however they fail.
 */
module SessionRuns {
  import opened Wrappers
  import opened Bytes
  import opened Protocol
  import opened DownloadJobs
  import opened SessionModel

  /** An upload connection, named in a run by the position of the event that opened it. */
  datatype Conn = Conn(request: Parsed, captured: bool)

  datatype World<H> = World(st: State<H>, conns: map<nat, Conn>)

  datatype Event =
    | Rrq(parsed: Parsed, draw: Draw)
    | WrqOpen(parsed: Parsed)
    | WrqClose(conn: nat, body: bytes)
    | Progress(key: string, done: nat, total: Option<nat>)
    | WorkerDone(key: string)
    | WorkerFailed(key: string, error: string)

  datatype Server<!H> = Server(cfg: Config, prog: Program<H>)

  // ----- the invariant -----

  ghost predicate SessionOk<H>(c: string, s: Session<H>) {
    && s.clientId == c && s.token.Some? && s.requests != []
    && HIDDEN <= s.env.Keys && s.publicEnv == PublicEnv(s.env)
    && !s.phase.Complete?
    && (s.pending.Some? ==>
      s.phase.AwaitUpload? && s.pending.value.token == s.token.value && s.pending.value.uploadPath == UPLOAD_PATH)
    && (s.pending.Some? <==> s.handler.Suspended? && s.handler.at.InReceive?)
    && (s.preflight ==> s.handler.Absent?)
    && (s.handler.Suspended? ==> !s.handler.at.NotStarted?)
  }

  ghost predicate SessionsOk<H>(st: State<H>) {
    forall c :: c in st.sessions ==> SessionOk(c, st.sessions[c])
  }

  predicate Holds<H>(st: State<H>, c: string, k: string) {
    c in st.sessions && k in st.sessions[c].artifacts
  }

  predicate AttachedTo(jobs: Jobs, k: string, c: string) {
    k in jobs && c in jobs[k].attached
  }

  /** A session is attached to an artifact exactly when the live session holds the artifact's key. */
  ghost predicate Booked<H>(st: State<H>) {
    forall k, c :: AttachedTo(st.jobs, k, c) <==> Holds(st, c, k)
  }

  ghost predicate Inv<H>(st: State<H>) {
    SessionsOk(st) && Booked(st)
  }

  // ----- every step keeps it -----

  /** Session `c` may have changed; its bookkeeping is right again, and no other session was touched. */
  ghost predicate Only<H>(st: State<H>, st': State<H>, c: string) {
    && st'.uploads == st.uploads
    && (forall k :: k != c ==> (k in st'.sessions <==> k in st.sessions))
    && (forall k :: k != c && k in st.sessions ==> st'.sessions[k] == st.sessions[k])
    && (forall k, d :: d != c ==> (AttachedTo(st'.jobs, k, d) <==> AttachedTo(st.jobs, k, d)))
  }

  ghost predicate BookedFor<H>(st: State<H>, c: string) {
    forall k :: AttachedTo(st.jobs, k, c) <==> Holds(st, c, k)
  }

  lemma OnlyKeeps<H>(st: State<H>, st': State<H>, c: string)
    requires Inv(st) && Only(st, st', c) && BookedFor(st', c)
    requires c in st'.sessions ==> SessionOk(c, st'.sessions[c])
    ensures Inv(st')
  {
    forall k, d
      ensures AttachedTo(st'.jobs, k, d) <==> Holds(st', d, k)
    {
      if d != c {
        assert AttachedTo(st'.jobs, k, d) <==> AttachedTo(st.jobs, k, d);
        assert AttachedTo(st.jobs, k, d) <==> Holds(st, d, k);
      }
    }
  }

  lemma OnlyTrans<H>(a: State<H>, b: State<H>, d: State<H>, c: string)
    requires Only(a, b, c) && Only(b, d, c)
    ensures Only(a, d, c)
  {
    forall k, e | e != c
      ensures AttachedTo(d.jobs, k, e) <==> AttachedTo(a.jobs, k, e)
    {
      assert AttachedTo(b.jobs, k, e) <==> AttachedTo(a.jobs, k, e);
    }
  }

  lemma DiscardOnly<H>(st: State<H>, c: string)
    requires c in st.sessions && st.sessions[c].clientId == c && BookedFor(st, c)
    ensures Only(st, Discard(st, c), c) && BookedFor(Discard(st, c), c) && c !in Discard(st, c).sessions
  {
    var st' := Discard(st, c);
    forall k
      ensures AttachedTo(st'.jobs, k, c) <==> Holds(st', c, k)
    {
      assert AttachedTo(st.jobs, k, c) <==> Holds(st, c, k);
    }
  }

  /** Session `c` is attached to the artifacts in the set, other sessions to what they were. */
  ghost predicate AttachedExactly(jobs: Jobs, jobs': Jobs, c: string, artifacts: set<string>) {
    && (forall k :: AttachedTo(jobs', k, c) <==> k in artifacts)
    && (forall k, d :: d != c ==> (AttachedTo(jobs', k, d) <==> AttachedTo(jobs, k, d)))
  }

  lemma AcquiredBooks(jobs: Jobs, artifacts: set<string>, c: string, a: Ask)
    requires AttachedExactly(jobs, jobs, c, artifacts) && Accepts(jobs, a.key, a.source)
    ensures AttachedExactly(jobs, Acquired(jobs, a.key, c, a.source, a.temp), c, artifacts + {a.key})
  {
    var jobs' := Acquired(jobs, a.key, c, a.source, a.temp);
    forall k
      ensures AttachedTo(jobs', k, c) <==> k in artifacts + {a.key}
    {
      assert AttachedTo(jobs, k, c) <==> k in artifacts;
    }
  }

  lemma {:induction false} AskAllBooks(jobs: Jobs, artifacts: set<string>, c: string, asks: seq<Ask>)
    requires AttachedExactly(jobs, jobs, c, artifacts)
    ensures AttachedExactly(jobs, AskAll(jobs, artifacts, c, asks).0, c, AskAll(jobs, artifacts, c, asks).1)
    decreases |asks|
  {
    if asks != [] {
      var a := asks[0];
      if Accepts(jobs, a.key, a.source) {
        var jobs1 := Acquired(jobs, a.key, c, a.source, a.temp);
        AcquiredBooks(jobs, artifacts, c, a);
        AskAllBooks(jobs1, artifacts + {a.key}, c, asks[1..]);
      } else {
        AskAllBooks(jobs, artifacts, c, asks[1..]);
      }
    }
  }

  /** What a request may make of session `c`, whose token was `t0`, given the token `t` it drew. */
  ghost predicate Outcomes<H>(st: State<H>, st': State<H>, reply: Reply, c: string, t0: Option<string>, t: string) {
    && Only(st, st', c) && BookedFor(st', c)
    && (c in st'.sessions ==>
          && SessionOk(c, st'.sessions[c])
          && (st'.sessions[c].token == t0 || st'.sessions[c].token == Some(t))
          && (reply.Served? ==> st'.sessions[c].token == Some(t))
          && (st'.sessions[c].pending.Some? ==>
            st'.sessions[c].token == Some(t) && st'.sessions[c].pending.value.uploaded == None))
  }

  /** A session whose receive has been used up, on its way into the handler. */
  ghost predicate Between<H>(c: string, s: Session<H>) {
    && s.clientId == c && s.token.Some? && s.requests != []
    && HIDDEN <= s.env.Keys && s.publicEnv == PublicEnv(s.env)
    && !s.phase.Complete? && s.pending.None? && !s.preflight
  }

  lemma FromInstructionOk<H>(st: State<H>, c: string, ins: Instruction, draw: Draw, next: H)
    requires c in st.sessions && Between(c, st.sessions[c]) && BookedFor(st, c)
    requires st.sessions[c].handler == Suspended(next, WaitAfter(ins))
    ensures var r := FromInstruction(st, c, ins, draw); Outcomes(st, r.0, r.1, c, st.sessions[c].token, draw.token)
  {
    var s := st.sessions[c];
    var r := FromInstruction(st, c, ins, draw);
    if ins.receiveSize.Some? || !ins.final {
      assert r.0.jobs == st.jobs;
      forall k
        ensures AttachedTo(r.0.jobs, k, c) <==> Holds(r.0, c, k)
      {
        assert AttachedTo(st.jobs, k, c) <==> Holds(st, c, k);
      }
    } else {
      FinishOk(st, c);
    }
  }

  lemma AskedOk<H>(st: State<H>, c: string, asks: seq<Ask>)
    requires c in st.sessions && Between(c, st.sessions[c]) && BookedFor(st, c)
    ensures Only(st, Asked(st, c, asks), c) && BookedFor(Asked(st, c, asks), c)
  {
    var s := st.sessions[c];
    assert AttachedExactly(st.jobs, st.jobs, c, s.artifacts) by {
      forall k
        ensures AttachedTo(st.jobs, k, c) <==> k in s.artifacts
      {
        assert AttachedTo(st.jobs, k, c) <==> Holds(st, c, k);
      }
    }
    AskAllBooks(st.jobs, s.artifacts, c, asks);
    var (jobs, artifacts) := AskAll(st.jobs, s.artifacts, s.clientId, asks);
    AfterAsks(st, st.(jobs := jobs), c, s.(artifacts := artifacts));
  }

  lemma FinishOk<H>(st: State<H>, c: string)
    requires c in st.sessions && st.sessions[c].clientId == c && BookedFor(st, c)
    ensures Only(st, Finish(st, c), c) && BookedFor(Finish(st, c), c) && c !in Finish(st, c).sessions
  {
    var s := st.sessions[c].(phase := Complete);
    WithSessionOnly(st, c, s);
    DiscardOnly(WithSession(st, c, s), c);
    OnlyTrans(st, WithSession(st, c, s), Finish(st, c), c);
  }

  lemma SettleOk<H>(st: State<H>, c: string, r: Resumption<H>, draw: Draw)
    requires c in st.sessions && Between(c, st.sessions[c]) && BookedFor(st, c)
    ensures var a := Settle(st, c, r, draw); Outcomes(st, a.0, a.1, c, st.sessions[c].token, draw.token)
  {
    var st1 := Asked(st, c, r.asks);
    var s1 := st1.sessions[c];
    AskedOk(st, c, r.asks);
    match r.outcome
    case RaisesOther =>
      WithSessionOnly(st1, c, s1.(handler := Ended));
      OnlyTrans(st, st1, WithHandler(st1, c, Ended), c);
    case YieldsOther(next) =>
      WithSessionOnly(st1, c, s1.(handler := Suspended(next, InExec)));
      OnlyTrans(st, st1, WithHandler(st1, c, Suspended(next, InExec)), c);
    case Yields(next, ins) =>
      var handler := Suspended(next, WaitAfter(ins));
      WithSessionOnly(st1, c, s1.(handler := handler));
      OnlyTrans(st, st1, WithHandler(st1, c, handler), c);
      FromInstructionOk(WithHandler(st1, c, handler), c, ins, draw, next);
      OnlyTrans(st, WithHandler(st1, c, handler), FromInstruction(WithHandler(st1, c, handler), c, ins, draw).0, c);
    case _ =>
      FinishOk(st1, c);
      OnlyTrans(st, st1, Finish(st1, c), c);
  }

  lemma AfterAsks<H>(st: State<H>, st1: State<H>, c: string, s: Session<H>)
    requires st1.sessions == st.sessions && st1.uploads == st.uploads
    requires AttachedExactly(st.jobs, st1.jobs, c, s.artifacts)
    ensures Only(st, WithSession(st1, c, s), c) && BookedFor(WithSession(st1, c, s), c)
  {
  }

  lemma WithSessionOnly<H>(st: State<H>, c: string, s: Session<H>)
    requires c in st.sessions && BookedFor(st, c) && s.artifacts == st.sessions[c].artifacts
    ensures Only(st, WithSession(st, c, s), c) && BookedFor(WithSession(st, c, s), c)
  {
    forall k
      ensures AttachedTo(st.jobs, k, c) <==> Holds(WithSession(st, c, s), c, k)
    {
      assert AttachedTo(st.jobs, k, c) <==> Holds(st, c, k);
    }
  }

  lemma PublicOfMerged(env: Env, values: Env)
    requires HIDDEN <= env.Keys
    ensures PublicEnv(env) + (values - HIDDEN) == PublicEnv(env + values)
    ensures HIDDEN <= (env + values).Keys
  {
  }

  lemma ContinuationOk<H>(st: State<H>, prog: Program<H>, c: string, parsed: Parsed, draw: Draw)
    requires c in st.sessions && BookedFor(st, c)
    requires Between(c, st.sessions[c].(pending := None))
    requires st.sessions[c].pending.Some? ==>
      st.sessions[c].handler.Suspended? && !st.sessions[c].handler.at.NotStarted?
    requires st.sessions[c].handler.Absent? ==> st.sessions[c].pending.None?
    requires st.sessions[c].handler.Suspended? && st.sessions[c].handler.at.InReceive? ==> st.sessions[c].pending.Some?
    ensures var r := Continuation(st, prog, c, parsed, draw);
      Outcomes(st, r.0, r.1, c, st.sessions[c].token, draw.token)
  {
    var s := st.sessions[c];
    var s1 := s.(pending := None);
    var st1 := WithSession(st, c, s1);
    WithSessionOnly(st, c, s1);
    match s.handler
    case Absent =>
    case Ended =>
    case Suspended(frame, at) =>
      var r := prog.resume(draw.now, frame, s.publicEnv, Deliver(at, SentBody(s, parsed)));
      SettleOk(st1, c, r, draw);
      OnlyTrans(st, st1, Settle(st1, c, r, draw).0, c);
  }

  lemma StartOk<H>(st: State<H>, cfg: Config, parsed: Parsed, draw: Draw)
    requires Inv(st) && ValidConfig(cfg) && parsed.clientId.Some?
    ensures var r := Start(st, cfg, parsed, draw);
      Outcomes(st, r.0, r.1, parsed.clientId.value, Some(draw.token), draw.token)
  {
    var c := parsed.clientId.value;
    var st1 := if c in st.sessions then Discard(st, c) else st;
    if c in st.sessions {
      DiscardOnly(st, c);
    } else {
      assert BookedFor(st, c);
    }
    var s: Session<H> := NewSession(cfg, parsed, draw);
    AfterAsks(st1, st1, c, s) by {
      forall k
        ensures AttachedTo(st1.jobs, k, c) <==> k in s.artifacts
      {
        assert AttachedTo(st1.jobs, k, c) <==> Holds(st1, c, k);
      }
    }
    OnlyTrans(st, st1, WithSession(st1, c, s), c);
  }

  /** Whether a request carries its session's current token. */
  predicate Current<H>(st: State<H>, parsed: Parsed) {
    parsed.clientId.Some? && parsed.clientId.value in st.sessions &&
      TokenOf(parsed) == st.sessions[parsed.clientId.value].token
  }

  lemma PreflightOk<H>(st: State<H>, prog: Program<H>, c: string, parsed: Parsed, draw: Draw)
    requires c in st.sessions && BookedFor(st, c) && Between(c, st.sessions[c].(preflight := false))
    requires st.sessions[c].handler.Absent?
    ensures var r := Preflight(st, prog, c, parsed, draw); Outcomes(st, r.0, r.1, c, st.sessions[c].token, draw.token)
  {
    var s := st.sessions[c].(preflight := false);
    var st1 := WithSession(st, c, s);
    WithSessionOnly(st, c, s);
    if !HushConfirmed(s.env) {
      FinishOk(st1, c);
      OnlyTrans(st, st1, Finish(st1, c), c);
    } else {
      match prog.create(c, CommandOf(s.requests[0]), s.publicEnv)
      case None =>
      case Some(frame) =>
        var st2 := WithHandler(st1, c, Suspended(frame, NotStarted));
        WithSessionOnly(st1, c, s.(handler := Suspended(frame, NotStarted)));
        OnlyTrans(st, st1, st2, c);
        ContinuationOk(st2, prog, c, parsed, draw);
        OnlyTrans(st, st2, Continuation(st2, prog, c, parsed, draw).0, c);
    }
  }

  lemma ResumeOk<H>(st: State<H>, prog: Program<H>, parsed: Parsed, draw: Draw)
    requires Inv(st) && Current(st, parsed)
    ensures var r := Resume(st, prog, parsed, draw);
      Outcomes(st, r.0, r.1, parsed.clientId.value, st.sessions[parsed.clientId.value].token, draw.token)
  {
    var c := parsed.clientId.value;
    assert SessionOk(c, st.sessions[c]);
    assert BookedFor(st, c);
    PublicOfMerged(st.sessions[c].env, Reported(parsed.values));
    var s := Merged(st.sessions[c], parsed);
    var st1 := WithSession(st, c, s);
    WithSessionOnly(st, c, s);
    if !s.preflight {
      ContinuationOk(st1, prog, c, parsed, draw);
    } else {
      PreflightOk(st1, prog, c, parsed, draw);
    }
    OnlyTrans(st, st1, Resume(st, prog, parsed, draw).0, c);
  }

  lemma RecordOk<H>(st: State<H>, parsed: Parsed, body: bytes)
    requires Inv(st)
    ensures Inv(Record(st, parsed, body))
  {
    if UploadExpected(st.sessions, parsed) {
      var c := parsed.clientId.value;
      var s := st.sessions[c];
      assert SessionOk(c, s);
      var st' := Record(st, parsed, body);
      forall k, d
        ensures AttachedTo(st'.jobs, k, d) <==> Holds(st', d, k)
      {
        assert AttachedTo(st.jobs, k, d) <==> Holds(st, d, k);
      }
    }
  }

  lemma WorkerOk<H>(st: State<H>, jobs: Jobs)
    requires Inv(st) && jobs.Keys == st.jobs.Keys
    requires forall k :: k in jobs ==> jobs[k].attached == st.jobs[k].attached
    ensures Inv(st.(jobs := jobs))
  {
    forall k, d
      ensures AttachedTo(jobs, k, d) <==> Holds(st.(jobs := jobs), d, k)
    {
      assert AttachedTo(st.jobs, k, d) <==> Holds(st, d, k);
    }
  }

  lemma FetchOk<H>(st: State<H>, cfg: Config, prog: Program<H>, parsed: Parsed, draw: Draw)
    requires Inv(st) && ValidConfig(cfg) && parsed.clientId.Some?
    ensures
      var r := Fetch(st, cfg, prog, parsed, draw);
      var c := parsed.clientId.value;
      && Inv(r.0)
      && (if IsContinuation(parsed) && !Current(st, parsed) then r == (st, Missing)
          else Outcomes(st, r.0, r.1, c,
                        if IsContinuation(parsed) then st.sessions[c].token else Some(draw.token), draw.token))
  {
    var c := parsed.clientId.value;
    if !IsContinuation(parsed) {
      StartOk(st, cfg, parsed, draw);
      OnlyKeeps(st, Start(st, cfg, parsed, draw).0, c);
    } else if Current(st, parsed) {
      ResumeOk(st, prog, parsed, draw);
      OnlyKeeps(st, Resume(st, prog, parsed, draw).0, c);
    }
  }

  // ----- runs -----

  predicate ValidServer<H>(srv: Server<H>) {
    ValidConfig(srv.cfg)
  }

  /** One event. A refused one changes nothing; `n` is the event's position in the run. */
  function Next<H>(srv: Server<H>, w: World<H>, n: nat, e: Event): (World<H>, Option<Reply>)
    requires ValidServer(srv)
    requires forall k :: k in w.st.sessions ==> HIDDEN <= w.st.sessions[k].env.Keys
  {
    match e
    case Rrq(parsed, draw) =>
      if parsed.clientId.None? then (w, None) else
      var r := Fetch(w.st, srv.cfg, srv.prog, parsed, draw);
      (w.(st := r.0), Some(r.1))
    case WrqOpen(parsed) =>
      (if UploadExpected(w.st.sessions, parsed) then w.(conns := w.conns[n := Conn(parsed, false)]) else w, None)
    case WrqClose(conn, body) =>
      if conn !in w.conns || w.conns[conn].captured || !UploadExpected(w.st.sessions, w.conns[conn].request)
        then (w, None) else
      (World(Record(w.st, w.conns[conn].request, body), w.conns[conn := w.conns[conn].(captured := true)]), None)
    case Progress(key, done, total) => (w.(st := w.st.(jobs := Progressed(w.st.jobs, key, done, total))), None)
    case WorkerDone(key) => (w.(st := w.st.(jobs := MarkedDone(w.st.jobs, key))), None)
    case WorkerFailed(key, error) => (w.(st := w.st.(jobs := MarkedFailed(w.st.jobs, key, error))), None)
  }

  function Empty<H>(): World<H> {
    World(State(map[], map[], []), map[])
  }

  lemma NextOk<H>(srv: Server<H>, w: World<H>, n: nat, e: Event)
    requires ValidServer(srv) && Inv(w.st)
    ensures Inv(Next(srv, w, n, e).0.st)
  {
    match e
    case Rrq(parsed, draw) =>
      if parsed.clientId.Some? {
        FetchOk(w.st, srv.cfg, srv.prog, parsed, draw);
      }
    case WrqOpen(parsed) =>
    case WrqClose(conn, body) =>
      if conn in w.conns {
        RecordOk(w.st, w.conns[conn].request, body);
      }
    case Progress(key, done, total) => WorkerOk(w.st, Progressed(w.st.jobs, key, done, total));
    case WorkerDone(key) => WorkerOk(w.st, MarkedDone(w.st.jobs, key));
    case WorkerFailed(key, error) => WorkerOk(w.st, MarkedFailed(w.st.jobs, key, error));
  }

  /**
   The world after the events. Reading its contract: in every reachable state each
   session sits under its own id and holds a token; a receive is pending exactly
   while the handler waits in `exec_recv`, then under the session's current token;
   before the preflight there is no handler; a handler that was not started is
   never left behind, so a new one is first resumed with nothing; and sessions and
   download entries agree on who is attached to what.
   */
  function {:induction false} After<H>(srv: Server<H>, events: seq<Event>): (w: World<H>)
    requires ValidServer(srv)
    ensures Inv(w.st)
  {
    if events == [] then Empty() else
      var n := |events| - 1;
      var w := After(srv, events[..n]);
      NextOk(srv, w, n, events[n]);
      Next(srv, w, n, events[n]).0
  }

  /** The world after the first `n` events. */
  function At<H>(srv: Server<H>, events: seq<Event>, n: nat): (w: World<H>)
    requires ValidServer(srv) && n <= |events|
    ensures Inv(w.st)
  {
    After(srv, events[..n])
  }

  /** What the `n`th event is answered. */
  function ReplyAt<H>(srv: Server<H>, events: seq<Event>, n: nat): Option<Reply>
    requires ValidServer(srv) && n < |events|
  {
    Next(srv, At(srv, events, n), n, events[n]).1
  }

  lemma AtStep<H>(srv: Server<H>, events: seq<Event>, n: nat)
    requires ValidServer(srv) && n < |events|
    ensures At(srv, events, n + 1) == Next(srv, At(srv, events, n), n, events[n]).0
  {
    assert events[..n + 1][..n] == events[..n];
  }
}
