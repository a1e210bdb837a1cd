/** The simulation: each exchange of the network run is one step of the direct run. */
module Simulation {
  import opened Wrappers
  import opened Bytes
  import opened Protocol
  import opened ProtocolRoundTrip
  import opened Device
  import opened Hush
  import opened DeviceFrame
  import opened SessionModel
  import opened SessionRuns
  import opened Runs
  import opened Refinement

  // ----- what the random names and the scripts must satisfy -----

  /** Tokens survive in a path; the temporaries' names are all different. */
  ghost predicate CleanDraws(draws: nat -> Draw) {
    && (forall i: nat :: Clean(draws(i).token) && Reserved(draws(i).tmp))
    && (forall i: nat, j: nat :: i != j ==> draws(i).tmp != draws(j).tmp)
  }

  /** The next script leaves the temporaries alone, and what it reports survives in a path. */
  ghost predicate CleanExchange<H>(dir: Direct<H>)
    requires HIDDEN <= dir.env.Keys
  {
    match dir.todo
    case Over => true
    case Gate => BaseName(BaseOf(dir.env))
    case Exec(_, ins) =>
      && BaseName(BaseOf(dir.env)) && PlainScript(ins.script)
      && CleanReport(Source(dir.device, ins.script), ins.keys)
  }

  // ----- the simulation relation -----

  predicate UsedBefore(draws: nat -> Draw, n: nat, t: string) {
    exists i: nat :: i < n && draws(i).tmp == t
  }

  /** Every temporary that is set will be unset, and was drawn before exchange `n`. */
  ghost predicate TempsAre<H>(net: Net<H>, draws: nat -> Draw, n: nat) {
    && (forall k :: k in net.device.env && Reserved(k) ==> k in net.temps)
    && (forall t :: t in net.temps ==> Reserved(t) && UsedBefore(draws, n, t))
  }

  /** The image the device sources next holds this script and this tail. */
  ghost predicate Loading<H>(u: Setup<H>, net: Net<H>, dir: Direct<H>, script: Script, tail: Tail) {
    && net.at.Some? && Sourced(net.device, net.at.value, u.sh) == Some((script, tail))
    && Erase(net.device) == dir.device
  }

  ghost predicate Sim<H>(u: Setup<H>, net: Net<H>, dir: Direct<H>, draws: nat -> Draw, n: nat) {
    && Inv(net.st) && HIDDEN <= dir.env.Keys && net.ran == dir.ran && TempsAre(net, draws, n)
    && match dir.todo
       case Over => net.at.None? && Near(net.device, dir.device) && NoTemps(net.device)
       case Gate =>
         && Loading(u, net, dir, HUSH_PROBE, GateTail(LinkFor(u, dir.env), draws(n)))
         && Checking(u, net.st, dir.env, draws(n))
       case Exec(frame, ins) =>
         && Loading(u, net, dir, ins.script, TailOf(LinkFor(u, dir.env), ins, draws(n)))
         && (!LastScript(ins) ==> Waiting(u, net.st, dir.env, frame, ins, draws(n)))
  }

  // ----- ending -----

  lemma ReturnedSim<H>(u: Setup<H>, net: Net<H>, dir: Direct<H>, draws: nat -> Draw, n: nat)
    requires Inv(net.st) && HIDDEN <= dir.env.Keys && net.ran == dir.ran && TempsAre(net, draws, n)
    requires dir.todo.Over? && Near(net.device, dir.device)
    ensures Sim(u, Returned(net), dir, draws, n)
  {
    UnwindForgets(net.device, net.temps);
  }

  lemma NearDone(d: Device, e: Device)
    requires Near(d, e)
    ensures Near(Done(d), e) && Near(Fail(d), e)
  {
  }

  // ----- one request -----

  /** The request the device makes from here is answered with the handler's outcome. */
  ghost predicate Meets<H>(u: Setup<H>, st: State<H>, d: Device, path: Template, env: Env, outcome: Outcome<H>,
                           draw: Draw)
    requires ValidSetup(u) && Inv(st) && HIDDEN <= env.Keys
  {
    var parsed := ParseRequestPath(Render(path, ValuesOf(d)));
    && parsed.Ok? && parsed.value.clientId.Some?
    && var a := Fetch(st, u.srv.cfg, u.srv.prog, parsed.value, draw);
    Answered(u, a.0, a.1, env, outcome, draw)
  }

  /** What a request that meets an answer comes to. */
  lemma RequestIs<H>(u: Setup<H>, net: Net<H>, get: Get, env: Env, outcome: Outcome<H>,
                     draw: Draw) returns (st: State<H>, reply: Reply)
    requires ValidSetup(u) && Inv(net.st) && HIDDEN <= env.Keys &&
      Meets(u, net.st, net.device, get.path, env, outcome, draw)
    ensures Inv(st) && Answered(u, st, reply, env, outcome, draw)
    ensures Request(u, net, get, draw) == AfterReply(u, net.(st := st), get.base, reply, draw)
  {
    var parsed := ParseRequestPath(Render(get.path, ValuesOf(net.device))).value;
    FetchOk(net.st, u.srv.cfg, u.srv.prog, parsed, draw);
    st, reply := Fetch(net.st, u.srv.cfg, u.srv.prog, parsed, draw).0,
      Fetch(net.st, u.srv.cfg, u.srv.prog, parsed, draw).1;
  }

  /** A request whose answer is right brings both runs to matching states. */
  lemma RequestSim<H>(u: Setup<H>, net: Net<H>, get: Get, d: Device, env: Env, outcome: Outcome<H>, draws: nat -> Draw,
                      n: nat)
    requires ValidSetup(u) && Inv(net.st) && HIDDEN <= env.Keys && TempsAre(net, draws, n)
    requires Near(net.device, d) && BaseName(get.base) && Meets(u, net.st, net.device, get.path, env, outcome, draws(n))
    ensures Sim(u, Request(u, net, get, draws(n)), GoOn(u, d, env, get.base, outcome, draws(n), net.ran), draws, n)
  {
    var st, reply := RequestIs(u, net, get, env, outcome, draws(n));
    ReplySim(u, net.(st := st), get.base, reply, d, env, outcome, draws, n);
  }

  lemma ReplySim<H>(u: Setup<H>, net: Net<H>, base: string, reply: Reply, d: Device, env: Env, outcome: Outcome<H>,
                    draws: nat -> Draw, n: nat)
    requires ValidSetup(u) && Inv(net.st) && HIDDEN <= env.Keys && TempsAre(net, draws, n)
    requires Near(net.device, d) && BaseName(base) && Answered(u, net.st, reply, env, outcome, draws(n))
    ensures Sim(u, AfterReply(u, net, base, reply, draws(n)), GoOn(u, d, env, base, outcome, draws(n), net.ran), draws,
      n)
  {
    if outcome.Yields? {
      LoadSim(u, net, base, d, env, outcome.frame, outcome.instruction, draws, n);
    } else {
      NearDone(net.device, d);
      ReturnedSim(u, net.(device := Done(net.device)), Direct(d, env, Over, net.ran), draws, n);
    }
  }

  lemma LoadSim<H>(u: Setup<H>, net: Net<H>, base: string, d: Device, env: Env, next: H, ins: Instruction,
                   draws: nat -> Draw, n: nat)
    requires ValidSetup(u) && Inv(net.st) && HIDDEN <= env.Keys && TempsAre(net, draws, n)
    requires Near(net.device, d) && BaseName(base)
    requires !LastScript(ins) ==> Waiting(u, net.st, env, next, ins, draws(n))
    ensures
      var tail := TailOf(LinkFor(u, env), ins, draws(n));
      var net' := match LoadImage(net.device, base, u.sh, draws(n).time, ins.script, tail)
                  case Some(loaded) => net.(device := loaded, at := Some(base))
                  case None => Returned(net.(device := Done(net.device)));
      Sim(u, net', GoOn(u, d, env, base, Yields(next, ins), draws(n), net.ran), draws, n)
  {
    var tail := TailOf(LinkFor(u, env), ins, draws(n));
    LoadNear(net.device, d, base, u.sh, draws(n).time, ins.script, tail);
    match LoadImage(net.device, base, u.sh, draws(n).time, ins.script, tail)
    case Some(loaded) => LoadedIsSourced(net.device, base, u.sh, draws(n).time, ins.script, tail);
    case None =>
      NearDone(net.device, d);
      ReturnedSim(u, net.(device := Done(net.device)), Direct(d, env, Over, net.ran), draws, n);
  }

  // ----- the first request -----

  lemma ErasedAlready(d: Device)
    requires NoTemps(d)
    ensures Erase(d) == d
  {
    assert EraseVars(d.env) == d.env;
  }

  lemma StartSim<H>(u: Setup<H>, st: State<H>, d: Device, first: Parsed, draws: nat -> Draw)
    requires ValidSetup(u) && Inv(st) && first.clientId == Some(u.clientId) && !IsContinuation(first)
    requires u.command == CommandOf(first) && u.serverIp == draws(0).serverIp && NoTemps(d)
    requires HIDDEN <= SessionEnv(u.srv.cfg, first).Keys && BaseName(BaseOf(SessionEnv(u.srv.cfg, first)))
    ensures Sim(u, NetStart(u, st, d, first, draws(0)), DirectStart(u, d, SessionEnv(u.srv.cfg, first), draws(0)),
      draws, 0)
  {
    var env, draw := SessionEnv(u.srv.cfg, first), draws(0);
    FetchOk(st, u.srv.cfg, u.srv.prog, first, draw);
    var tail := GateTail(LinkFor(u, env), draw);
    assert Fetch(st, u.srv.cfg, u.srv.prog, first, draw).1 == Served(HUSH_PROBE, tail);
    assert Checking(u, Fetch(st, u.srv.cfg, u.srv.prog, first, draw).0, env, draw);
    ErasedAlready(d);
    LoadNear(d, d, BaseOf(env), u.sh, draw.time, HUSH_PROBE, tail);
    if LoadImage(d, BaseOf(env), u.sh, draw.time, HUSH_PROBE, tail).Some? {
      LoadedIsSourced(d, BaseOf(env), u.sh, draw.time, HUSH_PROBE, tail);
    }
  }

  // ----- running what was loaded -----

  lemma SourcedSim<H>(net: Net<H>, net': Net<H>, e: Device, script: Script, draws: nat -> Draw, n: nat)
    requires Erase(net.device) == e && TempsAre(net, draws, n) && PlainScript(script)
    requires net'.device == Source(net.device, script) && net'.temps == net.temps
    ensures Erase(net'.device) == Source(e, script) && Near(net'.device, Source(e, script))
    ensures TempsAre(net', draws, n) && TempsAre(net', draws, n + 1)
  {
    SourceErased(net.device, script);
    forall t | t in net'.temps
      ensures UsedBefore(draws, n + 1, t)
    {
      var i: nat :| i < n && draws(i).tmp == t;
      assert i < n + 1;
    }
  }

  /** A hush shell confirms itself. */
  lemma ProbeSets(d: Device)
    ensures Parse(HUSH_PROBE).Some? && PlainScript(HUSH_PROBE)
    ensures Text(Source(d, HUSH_PROBE), Var("hush_shell")) == "true"
  {
    var front := [Echo("reset"), Echo("Checking hush shell... "), Echo("save cursor")];
    var last := SetEnv("hush_shell", Lit("true"));
    var cmds := [Echo("reset"), Echo("Checking hush shell... "), Echo("save cursor"), last];
    assert cmds == front + [last];
    ParseSimple(cmds);
    SourceSimple(d, cmds);
    RunAppend(d, front, [last]);
    var d1 := Run(d, front);
    assert Run(d1, [last]) == Step(d1, last) by {
      assert [last][1..] == [];
    }
    assert !Reserved("hush_shell");
  }

  predicate Word(w: string) {
    w != "" && '/' !in w && '=' !in w && '\r' !in w && '\n' !in w && '%' !in w
  }

  lemma WordKey(key: string)
    requires Word(key)
    ensures CleanKey(key)
  {
    WordClean(key);
  }

  lemma OneKey(e: Device, key: string, value: string)
    requires Text(e, Var(key)) == value && Word(key) && Word(value)
    requires !Reserved(key) && key != "token" && key != "recv"
    ensures CleanReport(e, [key]) && ReportOf(e, [key]) == map[key := value]
  {
    WordKey(key);
    WordClean(value);
  }

  lemma GateKeys(e: Device)
    requires Text(e, Var("hush_shell")) == "true"
    ensures CleanReport(e, ["hush_shell"]) && ReportOf(e, ["hush_shell"]) == map["hush_shell" := "true"]
  {
    assert "hush_shell"[0] == 'h' && !Reserved("hush_shell");
    OneKey(e, "hush_shell", "true");
  }

  lemma GateMeets<H>(u: Setup<H>, st: State<H>, d: Device, e: Device, env: Env, before: Draw, draw: Draw)
    requires ValidSetup(u) && Inv(st) && HIDDEN <= env.Keys && Checking(u, st, env, before) && Clean(before.token)
    requires Near(d, Source(e, HUSH_PROBE))
    ensures
      var env' := env + ReportOf(Source(e, HUSH_PROBE), ["hush_shell"]);
      var get := GetOf(LinkFor(u, env), before.token, None, ["hush_shell"]);
      Meets(u, st, d, get.path, env', FirstOutcome(u, env', draw), draw)
  {
    ProbeSets(e);
    GateKeys(Source(e, HUSH_PROBE));
    var report := ReportOf(Source(e, HUSH_PROBE), ["hush_shell"]);
    var path := Template(u.clientId, before.token, None, ["hush_shell"]);
    ContinuationArrives(d, Source(e, HUSH_PROBE), path);
    CheckAnswered(u, st, env, ParseRequestPath(Render(path, ValuesOf(d))).value, report, before, draw);
  }

  lemma DirectGateIs<H>(u: Setup<H>, dir: Direct<H>, draw: Draw)
    requires HIDDEN <= dir.env.Keys && dir.todo.Gate?
    ensures
      var e := Source(dir.device, HUSH_PROBE);
      var env := dir.env + ReportOf(e, ["hush_shell"]);
      DirectStep(u, dir, draw) ==
        GoOn(u, e, env, BaseOf(dir.env), FirstOutcome(u, env, draw), draw, dir.ran + [HUSH_PROBE])
  {
  }

  lemma GateStepSim<H>(u: Setup<H>, net: Net<H>, between: State<H>, dir: Direct<H>, draws: nat -> Draw, n: nat)
    requires ValidSetup(u) && CleanDraws(draws) && Sim(u, net, dir, draws, n) && dir.todo.Gate? && CleanExchange(dir)
    requires Inv(between) && SameSession(u.clientId, Played(u, net).net.st, between)
    ensures Sim(u, Exchange(u, net, between, draws(n + 1)), DirectStep(u, dir, draws(n + 1)), draws, n + 1)
  {
    ProbeSets(net.device);
    var net' := RanNet(net, HUSH_PROBE);
    var e := Source(dir.device, HUSH_PROBE);
    SourcedSim(net, net', dir.device, HUSH_PROBE, draws, n);
    var get := GetOf(LinkFor(u, dir.env), draws(n).token, None, ["hush_shell"]);
    var env := dir.env + ReportOf(e, ["hush_shell"]);
    PlayedIs(u, net, HUSH_PROBE, GateTail(LinkFor(u, dir.env), draws(n)));
    DirectGateIs(u, dir, draws(n + 1));
    GateMeets(u, between, net'.device, dir.device, dir.env, draws(n), draws(n + 1));
    RequestSim(u, net'.(st := between), get, e, env, FirstOutcome(u, env, draws(n + 1)), draws, n + 1);
  }

  // ----- a plain script -----

  lemma ContinueMeets<H>(u: Setup<H>, st: State<H>, d: Device, e: Device, env: Env, frame: H, ins: Instruction,
                         before: Draw, draw: Draw)
    requires ValidSetup(u) && Inv(st) && HIDDEN <= env.Keys && Clean(before.token)
    requires Near(d, e) && CleanReport(e, ins.keys) && ins.receiveSize.None? && Waiting(u, st, env, frame, ins, before)
    ensures
      var env' := env + ReportOf(e, ins.keys);
      var get := GetOf(LinkFor(u, env), before.token, None, ins.keys);
      Meets(u, st, d, get.path, env', u.srv.prog.resume(draw.now, frame, PublicEnv(env'), Executed).outcome, draw)
  {
    var path := Template(u.clientId, before.token, None, ins.keys);
    ContinuationArrives(d, e, path);
    var parsed := ParseRequestPath(Render(path, ValuesOf(d))).value;
    WaitAnswered(u, st, env, frame, InExec, parsed, "failed", ReportOf(e, ins.keys), Executed, draw);
  }

  // ----- an upload -----

  /** The session once the body has arrived, or still without one. */
  ghost predicate Holding<H>(u: Setup<H>, st: State<H>, env: Env, frame: H, ins: Instruction, draw: Draw,
                             body: Option<bytes>) {
    && u.clientId in st.sessions && ins.receiveSize.Some?
    && var s := st.sessions[u.clientId];
    && s.handler == Suspended(frame, InReceive) && s.token == Some(draw.token)
    && s.pending == Some(PendingReceive(draw.token, UPLOAD_PATH, ins.receiveSize.value, body))
    && s.env == env && s.serverIp == u.serverIp
  }

  lemma SameWaiting<H>(u: Setup<H>, st: State<H>, st': State<H>, env: Env, frame: H, ins: Instruction, draw: Draw)
    requires Waiting(u, st, env, frame, ins, draw) && SameSession(u.clientId, st, st')
    ensures Waiting(u, st', env, frame, ins, draw)
  {
  }

  lemma SameHolding<H>(u: Setup<H>, st: State<H>, st': State<H>, env: Env, frame: H, ins: Instruction, draw: Draw,
                       body: Option<bytes>)
    requires Holding(u, st, env, frame, ins, draw, body) && SameSession(u.clientId, st, st')
    ensures Holding(u, st', env, frame, ins, draw, body)
  {
  }

  function StatusFor(body: Option<bytes>): string {
    if body.Some? then "ok" else "failed"
  }

  function GotFor(body: Option<bytes>): Awaited {
    if body.Some? then Received(body.value) else ReceiveFailed
  }

  lemma StatusClean(body: Option<bytes>)
    ensures Clean(StatusFor(body))
  {
    WordClean(StatusFor(body));
  }

  /** The continuation after an upload hands the body over when it reports success. */
  lemma UploadMeets<H>(u: Setup<H>, st: State<H>, d: Device, e: Device, env: Env, frame: H, ins: Instruction,
                       body: Option<bytes>, before: Draw, draw: Draw)
    requires ValidSetup(u) && Inv(st) && HIDDEN <= env.Keys && Clean(before.token)
    requires Near(d, e) && CleanReport(e, ins.keys) && Holding(u, st, env, frame, ins, before, body)
    ensures
      var env' := env + ReportOf(e, ins.keys);
      var get := GetOf(LinkFor(u, env), before.token, Some(StatusFor(body)), ins.keys);
      Meets(u, st, d, get.path, env', u.srv.prog.resume(draw.now, frame, PublicEnv(env'), GotFor(body)).outcome, draw)
  {
    var path := Template(u.clientId, before.token, Some(StatusFor(body)), ins.keys);
    StatusClean(body);
    ContinuationArrives(d, e, path);
    var parsed := ParseRequestPath(Render(path, ValuesOf(d))).value;
    WaitAnswered(u, st, env, frame, InReceive, parsed, StatusFor(body), ReportOf(e, ins.keys), GotFor(body), draw);
  }

  lemma ParseEmpty()
    ensures ParseNumber("") == None
  {
  }

  /** The address computed with a temporary is the address the direct run computes. */
  lemma AddressSame(d: Device, e: Device, put: Put, tmp: string, offset: Option<string>)
    requires Near(d, e) && BaseName(put.base) && Reserved(tmp) && tmp !in d.env
    requires put.offset == if offset.Some? then Some((tmp, offset.value)) else None
    ensures Number(Prelude(d, put), AddressArg(put)) == UploadAt(e, put.base, offset)
  {
    NearText(d, e, put.base);
    if offset.Some? {
      StepAddTo(d, tmp, Var(put.base), Lit(offset.value));
      var sum := Sum(Number(d, Var(put.base)), ParseNumber(offset.value));
      assert Number(d, Lit(offset.value)) == ParseNumber(offset.value);
      if sum.Some? {
        VarNumber(d, tmp, LowWord(sum.value));
      } else {
        ParseEmpty();
        assert Text(Fail(d), Var(tmp)) == "";
      }
    }
  }

  lemma PreludeNear(d: Device, e: Device, put: Put)
    requires Near(d, e) && (put.offset.Some? ==> Reserved(put.offset.value.0))
    ensures Near(Prelude(d, put), e) && Prelude(d, put).ram == e.ram
    ensures forall k :: k in Prelude(d, put).env ==> k in d.env || k in Temps(put)
  {
    assert d.ram == Erase(d).ram == e.ram;
    if put.offset.Some? {
      var (tmp, offset) := put.offset.value;
      StepAddTo(d, tmp, Var(put.base), Lit(offset));
      var sum := Sum(Number(d, Var(put.base)), Number(d, Lit(offset)));
      if sum.Some? {
        assert EraseVars(d.env[tmp := HexText(LowWord(sum.value))]) == EraseVars(d.env);
      }
    }
  }

  /** The upload is expected, and closing it stores the body. */
  lemma Stored<H>(u: Setup<H>, st: State<H>, env: Env, frame: H, ins: Instruction, draw: Draw, body: bytes)
    requires Normalized(u.clientId) && Clean(draw.token) && Waiting(u, st, env, frame, ins, draw) &&
      ins.receiveSize.Some?
    ensures
      var r := ParseRequestPath(UploadPath(u.clientId, draw.token));
      && r.Ok? && UploadExpected(st.sessions, r.value)
      && Holding(u, Record(st, r.value, body), env, frame, ins, draw, Some(body))
  {
    UploadArrives(u.clientId, draw.token);
  }

  function TakenBody(e: Device, base: string, ins: Instruction): Option<bytes>
    requires ins.receiveSize.Some?
  {
    var at := UploadAt(e, base, ins.offset);
    if at.Some? && InRam(e, at.value, ins.receiveSize.value)
      then Some(e.ram[at.value..at.value + ins.receiveSize.value]) else None
  }

  lemma TempsGrow<H>(net: Net<H>, net': Net<H>, put: Put, draws: nat -> Draw, n: nat)
    requires CleanDraws(draws) && TempsAre(net, draws, n)
    requires put.offset.Some? ==> put.offset.value.0 == draws(n).tmp
    requires net'.temps == net.temps + Temps(put)
    requires forall k :: k in net'.device.env ==> k in net.device.env || k in Temps(put)
    ensures TempsAre(net', draws, n + 1)
  {
    forall t | t in net'.temps
      ensures Reserved(t) && UsedBefore(draws, n + 1, t)
    {
      if t in net.temps {
        var i: nat :| i < n && draws(i).tmp == t;
        assert i < n + 1;
      } else {
        assert n < n + 1 && draws(n).tmp == t;
      }
    }
  }

  /** No temporary that is set now has the name the next one gets. */
  lemma TmpUnset<H>(net: Net<H>, draws: nat -> Draw, n: nat)
    requires CleanDraws(draws) && TempsAre(net, draws, n)
    ensures draws(n).tmp !in net.device.env
  {
    assert UsedBefore(draws, n, draws(n).tmp) ==> false;
  }

  lemma SentStored<H>(u: Setup<H>, net: Net<H>, env: Env, frame: H, ins: Instruction, put: Put, before: Draw,
                      body: Option<bytes>)
    requires ValidSetup(u) && Inv(net.st) && Clean(before.token)
    requires ins.receiveSize.Some? && Waiting(u, net.st, env, frame, ins, before) &&
      put.path == UploadPath(u.clientId, before.token)
    ensures Expected(net, put) && Holding(u, Sent(net, put, body).st, env, frame, ins, before, body)
    ensures Inv(Sent(net, put, body).st)
  {
    SentKeepsInv(net, put, body);
    Stored(u, net.st, env, frame, ins, before, if body.Some? then body.value else []);
  }

  lemma TransferredIs(d: Device, e: Device, ins: Instruction, put: Put)
    requires ins.receiveSize.Some? && put.size == ins.receiveSize.value && d.ram == e.ram
    requires Number(d, AddressArg(put)) == UploadAt(e, put.base, ins.offset)
    ensures Transferred(d, put) == TakenBody(e, put.base, ins)
  {
  }

  lemma SentNear<H>(net: Net<H>, between: State<H>, e: Device, put: Put, body: Option<bytes>, draws: nat -> Draw,
                    n: nat)
    requires CleanDraws(draws) && Near(net.device, e) && TempsAre(net, draws, n)
    requires put.offset.Some? ==> put.offset.value.0 == draws(n).tmp
    ensures Near(Sent(net, put, body).device, e) && TempsAre(Sent(net, put, body).(st := between), draws, n + 1)
  {
    PreludeNear(net.device, e, put);
    NearDone(Prelude(net.device, put), e);
    TempsGrow(net, Sent(net, put, body).(st := between), put, draws, n);
  }

  /** After the upload the session holds the body, and the device is as near to the direct run's as before. */
  lemma UploadHeld<H>(u: Setup<H>, net: Net<H>, between: State<H>, e: Device, env: Env, frame: H, ins: Instruction,
                      put: Put, body: Option<bytes>, draws: nat -> Draw, n: nat)
    requires ValidSetup(u) && CleanDraws(draws) && Inv(net.st) && Inv(between)
    requires Near(net.device, e) && TempsAre(net, draws, n)
    requires ins.receiveSize.Some? && Waiting(u, net.st, env, frame, ins, draws(n))
    requires put == ReceiveTail(LinkFor(u, env), draws(n).token, draws(n).tmp, ins).put
    requires SameSession(u.clientId, Sent(net, put, body).st, between)
    ensures
      var sent := Sent(net, put, body).(st := between);
      && Near(sent.device, e) && TempsAre(sent, draws, n + 1) && Holding(u, between, env, frame, ins, draws(n), body)
  {
    SentStored(u, net, env, frame, ins, put, draws(n), body);
    SentNear(net, between, e, put, body, draws, n);
    SameHolding(u, Sent(net, put, body).st, between, env, frame, ins, draws(n), body);
  }

  lemma UploadSim<H>(u: Setup<H>, net: Net<H>, between: State<H>, e: Device, env: Env, frame: H, ins: Instruction,
                     draws: nat -> Draw, n: nat)
    requires ValidSetup(u) && CleanDraws(draws) && Inv(net.st) && Inv(between) && HIDDEN <= env.Keys &&
      BaseName(BaseOf(env))
    requires Near(net.device, e) && TempsAre(net, draws, n) && CleanReport(e, ins.keys)
    requires ins.receiveSize.Some? && Waiting(u, net.st, env, frame, ins, draws(n))
    requires
      var put := ReceiveTail(LinkFor(u, env), draws(n).token, draws(n).tmp, ins).put;
      SameSession(u.clientId, Sent(net, put, TakenBody(e, BaseOf(env), ins)).st, between)
    ensures
      var put, body := ReceiveTail(LinkFor(u, env), draws(n).token, draws(n).tmp, ins).put,
        TakenBody(e, BaseOf(env), ins);
      var get := GetOf(LinkFor(u, env), draws(n).token, Some(StatusFor(body)), ins.keys);
      var env' := env + ReportOf(e, ins.keys);
      var outcome := u.srv.prog.resume(draws(n + 1).now, frame, PublicEnv(env'), GotFor(body)).outcome;
      Sim(u, Request(u, Sent(net, put, body).(st := between), get, draws(n + 1)),
          GoOn(u, e, env', BaseOf(env), outcome, draws(n + 1), net.ran), draws, n + 1)
  {
    var put, body := ReceiveTail(LinkFor(u, env), draws(n).token, draws(n).tmp, ins).put,
      TakenBody(e, BaseOf(env), ins);
    UploadHeld(u, net, between, e, env, frame, ins, put, body, draws, n);
    AfterUploadSim(u, Sent(net, put, body).(st := between), e, env, frame, ins, body, draws, n);
  }

  /** What the upload command reads is what the direct run takes. */
  lemma UploadReads<H>(u: Setup<H>, net: Net<H>, e: Device, env: Env, frame: H, ins: Instruction, draws: nat -> Draw,
                       n: nat)
    requires ValidSetup(u) && CleanDraws(draws) && Inv(net.st) && HIDDEN <= env.Keys && BaseName(BaseOf(env))
    requires Near(net.device, e) && TempsAre(net, draws, n)
    requires ins.receiveSize.Some? && Waiting(u, net.st, env, frame, ins, draws(n))
    ensures
      var put := ReceiveTail(LinkFor(u, env), draws(n).token, draws(n).tmp, ins).put;
      Expected(net, put) && Transferred(Prelude(net.device, put), put) == TakenBody(e, BaseOf(env), ins)
  {
    var put := ReceiveTail(LinkFor(u, env), draws(n).token, draws(n).tmp, ins).put;
    TmpUnset(net, draws, n);
    AddressSame(net.device, e, put, draws(n).tmp, ins.offset);
    PreludeNear(net.device, e, put);
    SentStored(u, net, env, frame, ins, put, draws(n), None);
    TransferredIs(Prelude(net.device, put), e, ins, put);
  }

  lemma AfterUploadSim<H>(u: Setup<H>, net: Net<H>, e: Device, env: Env, frame: H, ins: Instruction,
                          body: Option<bytes>, draws: nat -> Draw, n: nat)
    requires ValidSetup(u) && CleanDraws(draws) && Inv(net.st) && HIDDEN <= env.Keys && BaseName(BaseOf(env))
    requires Near(net.device, e) && TempsAre(net, draws, n + 1) && CleanReport(e, ins.keys)
    requires Holding(u, net.st, env, frame, ins, draws(n), body)
    ensures
      var get := GetOf(LinkFor(u, env), draws(n).token, Some(StatusFor(body)), ins.keys);
      var env' := env + ReportOf(e, ins.keys);
      var outcome := u.srv.prog.resume(draws(n + 1).now, frame, PublicEnv(env'), GotFor(body)).outcome;
      Sim(u, Request(u, net, get, draws(n + 1)), GoOn(u, e, env', BaseOf(env), outcome, draws(n + 1), net.ran), draws,
        n + 1)
  {
    var get := GetOf(LinkFor(u, env), draws(n).token, Some(StatusFor(body)), ins.keys);
    var env' := env + ReportOf(e, ins.keys);
    var outcome := u.srv.prog.resume(draws(n + 1).now, frame, PublicEnv(env'), GotFor(body)).outcome;
    UploadMeets(u, net.st, net.device, e, env, frame, ins, body, draws(n), draws(n + 1));
    RequestSim(u, net, get, e, env', outcome, draws, n + 1);
  }

  // ----- one script of the handler -----

  lemma ContinueSim<H>(u: Setup<H>, net: Net<H>, e: Device, env: Env, frame: H, ins: Instruction, draws: nat -> Draw,
                       n: nat)
    requires ValidSetup(u) && CleanDraws(draws) && Inv(net.st) && HIDDEN <= env.Keys && BaseName(BaseOf(env))
    requires Near(net.device, e) && TempsAre(net, draws, n + 1) && CleanReport(e, ins.keys)
    requires ins.receiveSize.None? && Waiting(u, net.st, env, frame, ins, draws(n))
    ensures
      var get := GetOf(LinkFor(u, env), draws(n).token, None, ins.keys);
      var env' := env + ReportOf(e, ins.keys);
      var outcome := u.srv.prog.resume(draws(n + 1).now, frame, PublicEnv(env'), Executed).outcome;
      Sim(u, Request(u, net, get, draws(n + 1)), GoOn(u, e, env', BaseOf(env), outcome, draws(n + 1), net.ran), draws,
        n + 1)
  {
    var get := GetOf(LinkFor(u, env), draws(n).token, None, ins.keys);
    var env' := env + ReportOf(e, ins.keys);
    var outcome := u.srv.prog.resume(draws(n + 1).now, frame, PublicEnv(env'), Executed).outcome;
    ContinueMeets(u, net.st, net.device, e, env, frame, ins, draws(n), draws(n + 1));
    RequestSim(u, net, get, e, env', outcome, draws, n + 1);
  }

  /** The network run when the loaded script has run. */
  function RanNet<H>(net: Net<H>, script: Script): Net<H> {
    net.(device := Source(net.device, script), ran := net.ran + [script])
  }

  lemma PlayedIs<H>(u: Setup<H>, net: Net<H>, script: Script, tail: Tail)
    requires ValidSetup(u) && Inv(net.st)
    requires net.at.Some? && Sourced(net.device, net.at.value, u.sh) == Some((script, tail))
    ensures
      var ran := RanNet(net, script);
      && (Parse(script).None? || tail.Stop? ==> Played(u, net) == Turn(Returned(ran), None))
      && (Parse(script).Some? && tail.Continue? ==> Played(u, net) == Turn(ran, Some(tail.get)))
      && (Parse(script).Some? && tail.PutThen? && Expected(ran, tail.put) ==>
            var body := Transferred(Prelude(ran.device, tail.put), tail.put);
            Played(u, net) == Turn(Sent(ran, tail.put, body), Some(if body.Some? then tail.ok else tail.failed)))
  {
  }

  lemma DirectStepIs<H>(u: Setup<H>, dir: Direct<H>, draw: Draw)
    requires HIDDEN <= dir.env.Keys && dir.todo.Exec?
    ensures Parse(dir.todo.ins.script).None? || LastScript(dir.todo.ins) ==>
      DirectStep(u, dir, draw) ==
        Direct(Source(dir.device, dir.todo.ins.script), dir.env, Over, dir.ran + [dir.todo.ins.script])
    ensures Parse(dir.todo.ins.script).Some? && !LastScript(dir.todo.ins) ==>
      var ins, e := dir.todo.ins, Source(dir.device, dir.todo.ins.script);
      var env' := dir.env + ReportOf(e, ins.keys);
      var got := if ins.receiveSize.None? then Executed else GotFor(TakenBody(e, BaseOf(dir.env), ins));
      var outcome := u.srv.prog.resume(draw.now, dir.todo.frame, PublicEnv(env'), got).outcome;
      DirectStep(u, dir, draw) == GoOn(u, e, env', BaseOf(dir.env), outcome, draw, dir.ran + [ins.script])
  {
  }

  lemma LastStepSim<H>(u: Setup<H>, net: Net<H>, between: State<H>, dir: Direct<H>, draws: nat -> Draw, n: nat)
    requires ValidSetup(u) && CleanDraws(draws) && Sim(u, net, dir, draws, n) && dir.todo.Exec? && CleanExchange(dir)
    requires Inv(between) && (Parse(dir.todo.ins.script).None? || LastScript(dir.todo.ins))
    ensures Sim(u, Exchange(u, net, between, draws(n + 1)), DirectStep(u, dir, draws(n + 1)), draws, n + 1)
  {
    var script := dir.todo.ins.script;
    PlayedIs(u, net, script, TailOf(LinkFor(u, dir.env), dir.todo.ins, draws(n)));
    DirectStepIs(u, dir, draws(n + 1));
    SourcedSim(net, RanNet(net, script), dir.device, script, draws, n);
    ReturnedSim(u, RanNet(net, script), Direct(Source(dir.device, script), dir.env, Over, dir.ran + [script]), draws,
      n + 1);
  }

  lemma ContinueStepSim<H>(u: Setup<H>, net: Net<H>, between: State<H>, dir: Direct<H>, draws: nat -> Draw, n: nat)
    requires ValidSetup(u) && CleanDraws(draws) && Sim(u, net, dir, draws, n) && dir.todo.Exec? && CleanExchange(dir)
    requires Inv(between) && SameSession(u.clientId, Played(u, net).net.st, between)
    requires Parse(dir.todo.ins.script).Some? && !dir.todo.ins.final && dir.todo.ins.receiveSize.None?
    ensures Sim(u, Exchange(u, net, between, draws(n + 1)), DirectStep(u, dir, draws(n + 1)), draws, n + 1)
  {
    var frame, ins, env := dir.todo.frame, dir.todo.ins, dir.env;
    var ran := RanNet(net, ins.script);
    SourcedSim(net, ran.(st := between), dir.device, ins.script, draws, n);
    PlayedIs(u, net, ins.script, TailOf(LinkFor(u, env), ins, draws(n)));
    DirectStepIs(u, dir, draws(n + 1));
    SameWaiting(u, net.st, between, env, frame, ins, draws(n));
    ContinueSim(u, ran.(st := between), Source(dir.device, ins.script), env, frame, ins, draws, n);
  }

  /** The device's side of an upload: it runs the script and sends what the direct run takes. */
  lemma UploadTurn<H>(u: Setup<H>, net: Net<H>, dir: Direct<H>, draws: nat -> Draw, n: nat)
    requires ValidSetup(u) && CleanDraws(draws) && Sim(u, net, dir, draws, n) && dir.todo.Exec? && CleanExchange(dir)
    requires Parse(dir.todo.ins.script).Some? && dir.todo.ins.receiveSize.Some?
    ensures
      var ins, link, e := dir.todo.ins, LinkFor(u, dir.env), Source(dir.device, dir.todo.ins.script);
      var ran, body := RanNet(net, ins.script), TakenBody(e, BaseOf(dir.env), ins);
      var get := GetOf(link, draws(n).token, Some(StatusFor(body)), ins.keys);
      && Near(ran.device, e) && TempsAre(ran, draws, n)
      && Played(u, net) == Turn(Sent(ran, ReceiveTail(link, draws(n).token, draws(n).tmp, ins).put, body), Some(get))
  {
    var frame, ins, env := dir.todo.frame, dir.todo.ins, dir.env;
    var ran, e := RanNet(net, ins.script), Source(dir.device, ins.script);
    SourcedSim(net, ran, dir.device, ins.script, draws, n);
    PlayedIs(u, net, ins.script, TailOf(LinkFor(u, env), ins, draws(n)));
    UploadReads(u, ran, e, env, frame, ins, draws, n);
  }

  lemma UploadStepSim<H>(u: Setup<H>, net: Net<H>, between: State<H>, dir: Direct<H>, draws: nat -> Draw, n: nat)
    requires ValidSetup(u) && CleanDraws(draws) && Sim(u, net, dir, draws, n) && dir.todo.Exec? && CleanExchange(dir)
    requires Inv(between) && SameSession(u.clientId, Played(u, net).net.st, between)
    requires Parse(dir.todo.ins.script).Some? && dir.todo.ins.receiveSize.Some?
    ensures Sim(u, Exchange(u, net, between, draws(n + 1)), DirectStep(u, dir, draws(n + 1)), draws, n + 1)
  {
    var ins := dir.todo.ins;
    UploadTurn(u, net, dir, draws, n);
    DirectStepIs(u, dir, draws(n + 1));
    UploadSim(u, RanNet(net, ins.script), between, Source(dir.device, ins.script), dir.env, dir.todo.frame, ins,
              draws, n);
  }

  lemma StepSim<H>(u: Setup<H>, net: Net<H>, between: State<H>, dir: Direct<H>, draws: nat -> Draw, n: nat)
    requires ValidSetup(u) && CleanDraws(draws) && Sim(u, net, dir, draws, n) && CleanExchange(dir)
    requires Inv(between) && SameSession(u.clientId, Played(u, net).net.st, between)
    ensures Sim(u, Exchange(u, net, between, draws(n + 1)), DirectStep(u, dir, draws(n + 1)), draws, n + 1)
  {
    match dir.todo
    case Gate => GateStepSim(u, net, between, dir, draws, n);
    case Exec(_, ins) =>
      if Parse(ins.script).None? || LastScript(ins) {
        LastStepSim(u, net, between, dir, draws, n);
      } else if ins.receiveSize.None? {
        ContinueStepSim(u, net, between, dir, draws, n);
      } else {
        UploadStepSim(u, net, between, dir, draws, n);
      }
    case Over => OverStepSim(u, net, between, dir, draws, n);
  }

  lemma OverStepSim<H>(u: Setup<H>, net: Net<H>, between: State<H>, dir: Direct<H>, draws: nat -> Draw, n: nat)
    requires ValidSetup(u) && Sim(u, net, dir, draws, n) && dir.todo.Over? && Inv(between)
    ensures Sim(u, Exchange(u, net, between, draws(n + 1)), DirectStep(u, dir, draws(n + 1)), draws, n + 1)
  {
    forall t | t in net.temps
      ensures UsedBefore(draws, n + 1, t)
    {
      var i: nat :| i < n && draws(i).tmp == t;
      assert i < n + 1;
    }
  }

  // ----- whole runs -----

  /** A first request, a device without leftovers, and names that do their work. */
  ghost predicate Prepared<H>(u: Setup<H>, st: State<H>, d: Device, first: Parsed, draws: nat -> Draw) {
    && ValidSetup(u) && Inv(st) && first.clientId == Some(u.clientId) && !IsContinuation(first)
    && u.command == CommandOf(first) && u.serverIp == draws(0).serverIp && NoTemps(d) && CleanDraws(draws)
    && HIDDEN <= SessionEnv(u.srv.cfg, first).Keys && BaseName(BaseOf(SessionEnv(u.srv.cfg, first)))
  }

  ghost predicate Ready<H>(u: Setup<H>, st: State<H>, d: Device, first: Parsed, others: nat -> Others<H>,
                           draws: nat -> Draw) {
    Prepared(u, st, d, first, draws) && OthersOk(others)
  }

  /** Whatever others do at the two points of an exchange, they leave this session as it is. */
  ghost predicate LeftAlone<H>(u: Setup<H>, net: Net<H>, others: Others<H>)
    requires ValidSetup(u) && Inv(others.before)
  {
    && SameSession(u.clientId, net.st, others.before)
    && SameSession(u.clientId, Played(u, net.(st := others.before)).net.st, others.between)
  }

  /** In the exchange after the `n`th nobody else touches the session, and what it reports survives in a path. */
  ghost predicate QuietAt<H>(u: Setup<H>, st: State<H>, d: Device, first: Parsed, others: nat -> Others<H>,
                             draws: nat -> Draw, n: nat)
    requires Ready(u, st, d, first, others, draws)
  {
    && LeftAlone(u, NetAt(u, st, d, first, others, draws, n), others(n))
    && CleanExchange(DirectAt(u, d, SessionEnv(u.srv.cfg, first), draws, n))
  }

  ghost predicate Undisturbed<H>(u: Setup<H>, st: State<H>, d: Device, first: Parsed, others: nat -> Others<H>,
                                 draws: nat -> Draw, n: nat)
    requires Ready(u, st, d, first, others, draws)
  {
    forall i: nat :: i < n ==> QuietAt(u, st, d, first, others, draws, i)
  }

  lemma NetAtStep<H>(u: Setup<H>, st: State<H>, d: Device, first: Parsed, others: nat -> Others<H>, draws: nat -> Draw,
                     n: nat)
    requires Ready(u, st, d, first, others, draws)
    ensures NetAt(u, st, d, first, others, draws, n + 1) ==
            NetStep(u, NetAt(u, st, d, first, others, draws, n), others(n), draws(n + 1))
  {
  }

  lemma DirectAtStep<H>(u: Setup<H>, d: Device, env: Env, draws: nat -> Draw, n: nat)
    requires HIDDEN <= env.Keys
    ensures DirectAt(u, d, env, draws, n + 1) == DirectStep(u, DirectAt(u, d, env, draws, n), draws(n + 1))
  {
  }

  /** What happens to other sessions between two exchanges makes no difference. */
  lemma OthersDoNotMatter<H>(u: Setup<H>, net: Net<H>, dir: Direct<H>, world: State<H>, draws: nat -> Draw, n: nat)
    requires Sim(u, net, dir, draws, n) && Inv(world) && SameSession(u.clientId, net.st, world)
    ensures Sim(u, net.(st := world), dir, draws, n)
  {
  }

  /** The runs have matched at every exchange so far. */
  ghost predicate MatchUpTo<H>(u: Setup<H>, st: State<H>, d: Device, first: Parsed, others: nat -> Others<H>,
                               draws: nat -> Draw, n: nat)
    requires Ready(u, st, d, first, others, draws)
    decreases n
  {
    && Sim(u, NetAt(u, st, d, first, others, draws, n), DirectAt(u, d, SessionEnv(u.srv.cfg, first), draws, n), draws,
      n)
    && (n > 0 ==> MatchUpTo(u, st, d, first, others, draws, n - 1))
  }

  /**
   The network run refines the direct run, exchange by exchange, for any handler and
   any number of exchanges, whatever other clients and the download workers do
   before each script and before each request, as long as what is reported survives in a request path and the scripts
   leave the protocol's temporaries alone.
   */
  lemma {:induction false} NetworkRefinesDirect<H>(u: Setup<H>, st: State<H>, d: Device, first: Parsed,
                                                   others: nat -> Others<H>, draws: nat -> Draw, n: nat)
    requires Ready(u, st, d, first, others, draws) && Undisturbed(u, st, d, first, others, draws, n)
    ensures MatchUpTo(u, st, d, first, others, draws, n)
    decreases n
  {
    if n == 0 {
      NoneYet(u, st, d, first, others, draws);
    } else {
      UndisturbedBefore(u, st, d, first, others, draws, n - 1);
      NetworkRefinesDirect(u, st, d, first, others, draws, n - 1);
      OneMore(u, st, d, first, others, draws, n - 1);
    }
  }

  /** Seen from one exchange: the next states match. */
  lemma NextMatches<H>(u: Setup<H>, st: State<H>, d: Device, first: Parsed, others: nat -> Others<H>,
                       draws: nat -> Draw, n: nat)
    requires Ready(u, st, d, first, others, draws) && Undisturbed(u, st, d, first, others, draws, n + 1)
    ensures
      Sim(u, NetAt(u, st, d, first, others, draws, n + 1),
          DirectStep(u, DirectAt(u, d, SessionEnv(u.srv.cfg, first), draws, n), draws(n + 1)), draws, n + 1)
  {
    NetworkRefinesDirect(u, st, d, first, others, draws, n + 1);
    DirectAtStep(u, d, SessionEnv(u.srv.cfg, first), draws, n);
  }

  lemma UndisturbedBefore<H>(u: Setup<H>, st: State<H>, d: Device, first: Parsed, others: nat -> Others<H>,
                             draws: nat -> Draw, n: nat)
    requires Ready(u, st, d, first, others, draws) && Undisturbed(u, st, d, first, others, draws, n + 1)
    ensures Undisturbed(u, st, d, first, others, draws, n)
  {
  }

  lemma NoneYet<H>(u: Setup<H>, st: State<H>, d: Device, first: Parsed, others: nat -> Others<H>, draws: nat -> Draw)
    requires Ready(u, st, d, first, others, draws)
    ensures Sim(u, NetAt(u, st, d, first, others, draws, 0), DirectAt(u, d, SessionEnv(u.srv.cfg, first), draws, 0),
      draws, 0)
  {
    StartSim(u, st, d, first, draws);
  }

  lemma OneMore<H>(u: Setup<H>, st: State<H>, d: Device, first: Parsed, others: nat -> Others<H>, draws: nat -> Draw,
                   n: nat)
    requires Ready(u, st, d, first, others, draws) && Undisturbed(u, st, d, first, others, draws, n + 1)
    requires Sim(u, NetAt(u, st, d, first, others, draws, n), DirectAt(u, d, SessionEnv(u.srv.cfg, first), draws, n),
      draws, n)
    ensures
      Sim(u, NetAt(u, st, d, first, others, draws, n + 1), DirectAt(u, d, SessionEnv(u.srv.cfg, first), draws, n + 1),
        draws, n + 1)
  {
    var env := SessionEnv(u.srv.cfg, first);
    var net, dir := NetAt(u, st, d, first, others, draws, n), DirectAt(u, d, env, draws, n);
    assert QuietAt(u, st, d, first, others, draws, n);
    NetAtStep(u, st, d, first, others, draws, n);
    DirectAtStep(u, d, env, draws, n);
    OthersDoNotMatter(u, net, dir, others(n).before, draws, n);
    StepSim(u, net.(st := others(n).before), others(n).between, dir, draws, n);
  }

  /**
   What the refinement says outright. The same scripts have run. While the handler
   is alive its coroutine is in the frame of the direct run, in the same
   environment, and the device is the direct run's but for temporaries. When the
   run is over, nothing of the protocol is left on the device.
   */
  lemma SameRun<H>(u: Setup<H>, st: State<H>, d: Device, first: Parsed, others: nat -> Others<H>, draws: nat -> Draw,
                   n: nat)
    requires Ready(u, st, d, first, others, draws) && Undisturbed(u, st, d, first, others, draws, n)
    ensures
      var net := NetAt(u, st, d, first, others, draws, n);
      var dir := DirectAt(u, d, SessionEnv(u.srv.cfg, first), draws, n);
      && net.ran == dir.ran
      && (net.at.None? <==> dir.todo.Over?)
      && (dir.todo.Over? ==> net.device.(status := 0) == dir.device.(status := 0) && NoTemps(net.device))
      && (!dir.todo.Over? ==> Erase(net.device) == dir.device)
      && (dir.todo.Exec? && !LastScript(dir.todo.ins) ==>
            && u.clientId in net.st.sessions && net.st.sessions[u.clientId].env == dir.env
            && net.st.sessions[u.clientId].handler == Suspended(dir.todo.frame, WaitAfter(dir.todo.ins)))
  {
    NetworkRefinesDirect(u, st, d, first, others, draws, n);
    var net, dir := NetAt(u, st, d, first, others, draws, n), DirectAt(u, d, SessionEnv(u.srv.cfg, first), draws, n);
    if dir.todo.Over? {
      ErasedAlready(net.device);
    }
  }
}
