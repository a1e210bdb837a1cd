/**
 Two ways to run a handler against a device.

 The direct run executes the handler's scripts on the device one after the other
 and hands it what it asked for. The network run is what happens: the device
 sources script images from memory, requests continuations whose paths carry its
 variables, uploads memory, and the server answers each request.

 Both load each script image at the base address before running it.
 */
module Runs {
  import opened Wrappers
  import opened Bytes
  import opened Protocol
  import opened Device
  import opened Hush
  import opened MkImage
  import opened SessionModel
  import opened SessionRuns

  /** How scripts become text and how a hush shell reads it back. */
  datatype Shell = Shell(maker: Maker, text: (Script, Tail) -> bytes, parse: bytes -> Option<(Script, Tail)>)

  ghost predicate ValidShell(sh: Shell) {
    forall script, tail :: sh.parse(sh.text(script, tail)) == Some((script, tail))
  }

  datatype Setup<!H> = Setup(srv: Server<H>, sh: Shell, clientId: string, serverIp: string, command: string)

  ghost predicate ValidSetup<H>(u: Setup<H>) {
    ValidServer(u.srv) && ValidShell(u.sh) && Normalized(u.clientId)
  }

  // ----- memory and variables -----

  /** The device with a script's image at the address in the variable `base`, if it fits. */
  function LoadImage(d: Device, base: string, sh: Shell, time: nat, script: Script, tail: Tail): Option<Device> {
    match Compile(sh.maker, time, sh.text(script, tail))
    case Err(_) => None
    case Ok(image) =>
      var addr := Number(d, Var(base));
      if addr.Some? && InRam(d, addr.value, |image|) then Some(Receive(d, addr.value, image)) else None
  }

  /** What `source ${base}` finds in memory. */
  function Sourced(d: Device, base: string, sh: Shell): Option<(Script, Tail)> {
    var addr := Number(d, Var(base));
    if addr.None? || addr.value > |d.ram| || !Accepted(sh.maker, d.ram[addr.value..]) then None else
    match ExtractScript(d.ram[addr.value..])
    case Ok(text) => sh.parse(text)
    case Err(_) => None
  }

  function ReportOf(d: Device, keys: seq<string>): Env {
    map k | k in keys :: Text(d, Var(k))
  }

  /** How the device expands `${key}`. */
  function ValuesOf(d: Device): string -> string {
    (k: string) => Text(d, Var(k))
  }

  /** The address an upload starts at: `setexpr` adds the offset with 32 bits. */
  function UploadAt(d: Device, base: string, offset: Option<string>): Option<nat> {
    if offset.None? then Number(d, Var(base)) else
      var sum := Sum(Number(d, Var(base)), ParseNumber(offset.value));
      if sum.Some? then Some(LowWord(sum.value)) else None
  }

  function TailOf(link: Link, ins: Instruction, draw: Draw): Tail
    requires HIDDEN <= link.env.Keys
  {
    if ins.receiveSize.Some? then ReceiveTail(link, draw.token, draw.tmp, ins)
    else if ins.final then Stop
    else Continue(GetOf(link, draw.token, None, ins.keys))
  }

  function GateTail(link: Link, draw: Draw): Tail
    requires HIDDEN <= link.env.Keys
  {
    Continue(GetOf(link, draw.token, None, ["hush_shell"]))
  }

  // ----- the direct run -----

  /** What is loaded and runs next: the shell check, a script the handler yielded, or nothing any more. */
  datatype Todo<H> = Gate | Exec(frame: H, ins: Instruction) | Over

  datatype Direct<H> = Direct(device: Device, env: Env, todo: Todo<H>, ran: seq<Script>)

  function LinkFor<H>(u: Setup<H>, env: Env): Link {
    Link(u.clientId, u.serverIp, env)
  }

  function DirectStart<H>(u: Setup<H>, d: Device, env: Env, draw: Draw): (r: Direct<H>)
    requires HIDDEN <= env.Keys
    ensures HIDDEN <= r.env.Keys
  {
    match LoadImage(d, BaseOf(env), u.sh, draw.time, HUSH_PROBE, GateTail(LinkFor(u, env), draw))
    case Some(loaded) => Direct(loaded, env, Gate, [])
    case None => Direct(d, env, Over, [])
  }

  /** The script the handler yielded, if any, is loaded at `base`. */
  function GoOn<H>(u: Setup<H>, d: Device, env: Env, base: string, outcome: Outcome<H>, draw: Draw,
                   ran: seq<Script>): (r: Direct<H>)
    requires HIDDEN <= env.Keys
    ensures HIDDEN <= r.env.Keys
  {
    match outcome
    case Yields(next, ins) =>
      (match LoadImage(d, base, u.sh, draw.time, ins.script, TailOf(LinkFor(u, env), ins, draw))
       case Some(loaded) => Direct(loaded, env, Exec(next, ins), ran)
       case None => Direct(d, env, Over, ran))
    case _ => Direct(d, env, Over, ran)
  }

  /** What a handler gets after its script has run on the device. */
  function Taken(d: Device, base: string, ins: Instruction): Awaited {
    if ins.receiveSize.None? then Executed else
      var at := UploadAt(d, base, ins.offset);
      if at.Some? && InRam(d, at.value, ins.receiveSize.value)
        then Received(d.ram[at.value..at.value + ins.receiveSize.value])
      else ReceiveFailed
  }

  predicate LastScript(ins: Instruction) {
    ins.final && ins.receiveSize.None?
  }

  /** Calling the handler function may fail; a coroutine starts with nothing. */
  function FirstOutcome<H>(u: Setup<H>, env: Env, draw: Draw): Outcome<H> {
    match u.srv.prog.create(u.clientId, u.command, PublicEnv(env))
    case None => RaisesOther
    case Some(frame) => u.srv.prog.resume(draw.now, frame, PublicEnv(env), Started).outcome
  }

  function DirectStep<H>(u: Setup<H>, dir: Direct<H>, draw: Draw): (r: Direct<H>)
    requires HIDDEN <= dir.env.Keys
    ensures HIDDEN <= r.env.Keys
  {
    match dir.todo
    case Over => dir
    case Gate =>
      var d := Source(dir.device, HUSH_PROBE);
      var env := dir.env + ReportOf(d, ["hush_shell"]);
      GoOn(u, d, env, BaseOf(dir.env), FirstOutcome(u, env, draw), draw, dir.ran + [HUSH_PROBE])
    case Exec(frame, ins) =>
      var d := Source(dir.device, ins.script);
      var ran := dir.ran + [ins.script];
      if Parse(ins.script).None? || LastScript(ins) then Direct(d, dir.env, Over, ran) else
      var env := dir.env + ReportOf(d, ins.keys);
      var got := Taken(d, BaseOf(dir.env), ins);
      GoOn(u, d, env, BaseOf(dir.env), u.srv.prog.resume(draw.now, frame, PublicEnv(env), got).outcome, draw, ran)
  }

  function DirectAt<H>(u: Setup<H>, d: Device, env: Env, draws: nat -> Draw, n: nat): (r: Direct<H>)
    requires HIDDEN <= env.Keys
    ensures HIDDEN <= r.env.Keys
  {
    if n == 0 then DirectStart(u, d, env, draws(0)) else DirectStep(u, DirectAt(u, d, env, draws, n - 1), draws(n))
  }

  // ----- the network run -----

  /** `at` names the variable the device sources next; the nested scripts unset `temps` when they return. */
  datatype Net<H> = Net(st: State<H>, device: Device, temps: seq<string>, at: Option<string>, ran: seq<Script>)

  function Unwind(d: Device, temps: seq<string>): Device
    decreases |temps|
  {
    if temps == [] then d else Unwind(Step(d, UnsetEnv(temps[|temps| - 1])), temps[..|temps| - 1])
  }

  function Returned<H>(net: Net<H>): Net<H> {
    net.(device := Unwind(net.device, net.temps), at := None)
  }

  /** The answer's script is loaded at `base`; without one the command fails and the nested scripts return. */
  function AfterReply<H>(u: Setup<H>, net: Net<H>, base: string, reply: Reply, draw: Draw): (r: Net<H>)
    ensures r.st == net.st
  {
    var failed := Returned(net.(device := Done(net.device)));
    match reply
    case Served(script, tail) =>
      (match LoadImage(net.device, base, u.sh, draw.time, script, tail)
       case Some(loaded) => net.(device := loaded, at := Some(base))
       case None => failed)
    case _ => failed
  }

  /** `if tftp... ${base} "server:path"; then source ${base}; else echo ...; fi` */
  ghost function Request<H>(u: Setup<H>, net: Net<H>, get: Get, draw: Draw): (r: Net<H>)
    requires ValidSetup(u) && Inv(net.st)
    ensures Inv(r.st)
  {
    var d := net.device;
    match ParseRequestPath(Render(get.path, ValuesOf(d)))
    case Err(_) => Returned(net.(device := Done(d)))
    case Ok(parsed) =>
      if parsed.clientId.None? then Returned(net.(device := Done(d))) else
      FetchOk(net.st, u.srv.cfg, u.srv.prog, parsed, draw);
      var (st, reply) := Fetch(net.st, u.srv.cfg, u.srv.prog, parsed, draw);
      AfterReply(u, net.(st := st), get.base, reply, draw)
  }

  /** The upload's address: `${base}`, or a temporary that `setexpr` sets. */
  function Prelude(d: Device, put: Put): Device {
    match put.offset
    case None => d
    case Some((tmp, offset)) => Step(d, AddTo(tmp, Var(put.base), Lit(offset)))
  }

  function AddressArg(put: Put): Arg {
    match put.offset
    case None => Var(put.base)
    case Some((tmp, _)) => Var(tmp)
  }

  function Temps(put: Put): seq<string> {
    match put.offset
    case None => []
    case Some((tmp, _)) => [tmp]
  }

  /** What the upload command reads from memory. */
  function Transferred(d: Device, put: Put): Option<bytes> {
    var at := Number(d, AddressArg(put));
    if at.Some? && InRam(d, at.value, put.size) then Some(d.ram[at.value..at.value + put.size]) else None
  }

  /** The network run when the upload command is over, having sent `body` or failed. */
  function Sent<H>(net: Net<H>, put: Put, body: Option<bytes>): Net<H> {
    var d := Prelude(net.device, put);
    var parsed := ParseRequestPath(put.path);
    var net1 := net.(temps := net.temps + Temps(put));
    if body.Some? && parsed.Ok? then net1.(st := Record(net.st, parsed.value, body.value), device := Done(d))
    else net1.(device := Fail(d))
  }

  predicate Expected<H>(net: Net<H>, put: Put) {
    ParseRequestPath(put.path).Ok? && UploadExpected(net.st.sessions, ParseRequestPath(put.path).value)
  }

  lemma SentKeepsInv<H>(net: Net<H>, put: Put, body: Option<bytes>)
    requires Inv(net.st)
    ensures Inv(Sent(net, put, body).st)
  {
    var parsed := ParseRequestPath(put.path);
    if body.Some? && parsed.Ok? {
      RecordOk(net.st, parsed.value, body.value);
    }
  }

  /** What the device has done before its next request, and that request. */
  datatype Turn<H> = Turn(net: Net<H>, get: Option<Get>)

  /**
   Sourcing the loaded script, with the upload that may follow it:
   `if tftpput...; then <ok continuation> else <failed continuation> fi`
   */
  ghost function Played<H>(u: Setup<H>, net: Net<H>): (r: Turn<H>)
    requires ValidSetup(u) && Inv(net.st)
    ensures Inv(r.net.st)
  {
    if net.at.None? then Turn(net, None) else
    match Sourced(net.device, net.at.value, u.sh)
    case None => Turn(Returned(net.(device := Fail(net.device))), None)
    case Some((script, tail)) =>
      var net1 := net.(device := Source(net.device, script), ran := net.ran + [script]);
      if Parse(script).None? then Turn(Returned(net1), None) else
      match tail
      case Stop => Turn(Returned(net1), None)
      case Continue(get) => Turn(net1, Some(get))
      case PutThen(put, ok, failed) =>
        var body := if Expected(net1, put) then Transferred(Prelude(net1.device, put), put) else None;
        SentKeepsInv(net1, put, body);
        Turn(Sent(net1, put, body), Some(if body.Some? then ok else failed))
  }

  /** What other clients and workers make of the server's state before a script runs, and before its request. */
  datatype Others<H> = Others(before: State<H>, between: State<H>)

  ghost function Exchange<H>(u: Setup<H>, net: Net<H>, between: State<H>, draw: Draw): (r: Net<H>)
    requires ValidSetup(u) && Inv(net.st) && Inv(between)
    ensures Inv(r.st)
  {
    var turn := Played(u, net);
    if turn.get.None? then turn.net else Request(u, turn.net.(st := between), turn.get.value, draw)
  }

  ghost function NetStep<H>(u: Setup<H>, net: Net<H>, others: Others<H>, draw: Draw): (r: Net<H>)
    requires ValidSetup(u) && Inv(others.before) && Inv(others.between)
    ensures Inv(r.st)
  {
    Exchange(u, net.(st := others.before), others.between, draw)
  }

  /** The first request: whatever path it has, it names the client and the command and carries no token. */
  ghost function NetStart<H>(u: Setup<H>, st: State<H>, d: Device, first: Parsed, draw: Draw): (r: Net<H>)
    requires ValidSetup(u) && Inv(st) && first.clientId == Some(u.clientId) && !IsContinuation(first)
    ensures Inv(r.st)
  {
    FetchOk(st, u.srv.cfg, u.srv.prog, first, draw);
    var (st', reply) := Fetch(st, u.srv.cfg, u.srv.prog, first, draw);
    var base := BaseOf(SessionEnv(u.srv.cfg, first));
    if !reply.Served? then Net(st', d, [], None, []) else
    match LoadImage(d, base, u.sh, draw.time, reply.script, reply.tail)
    case Some(loaded) => Net(st', loaded, [], Some(base), [])
    case None => Net(st', d, [], None, [])
  }

  /** Session `c` is the same in both states; everything else may differ. */
  ghost predicate SameSession<H>(c: string, st: State<H>, st': State<H>) {
    && (c in st.sessions <==> c in st'.sessions)
    && (c in st.sessions ==> st'.sessions[c] == st.sessions[c])
  }

  ghost predicate OthersOk<H>(others: nat -> Others<H>) {
    forall i: nat :: Inv(others(i).before) && Inv(others(i).between)
  }

  /** The network run after `n` exchanges, others stepping in at both points of each. */
  ghost function NetAt<H>(u: Setup<H>, st: State<H>, d: Device, first: Parsed, others: nat -> Others<H>,
                          draws: nat -> Draw, n: nat): (r: Net<H>)
    requires ValidSetup(u) && Inv(st) && first.clientId == Some(u.clientId) && !IsContinuation(first) &&
      OthersOk(others)
    ensures Inv(r.st)
  {
    if n == 0 then NetStart(u, st, d, first, draws(0))
    else NetStep(u, NetAt(u, st, d, first, others, draws, n - 1), others(n - 1), draws(n))
  }
}
