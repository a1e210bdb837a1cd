/**
 The session protocol on values: what one request does to the server's state and
 what the server answers. A handler is any coroutine; it is resumed between
 requests and its frame is kept in the session.
 */
module SessionModel {
  import opened Wrappers
  import opened Bytes
  import opened Protocol
  import opened DownloadJobs
  import opened Device
  import opened Hush

  type Script = seq<Line>
  type Env = map<string, string>

  // ----- coroutines -----

  /** What a handler yields to have a script executed. */
  datatype Instruction = Instruction(script: Script, final: bool, receiveSize: Option<nat>, keys: seq<string>,
    offset: Option<string>)

  /** Where a suspended handler waits. */
  datatype AwaitPoint = NotStarted | InExec | InReceive

  /** What the handler finds when it goes on. */
  datatype Awaited = Started | Executed | Received(body: bytes) | ReceiveFailed

  datatype Coroutine<H> = Absent | Suspended(frame: H, at: AwaitPoint) | Ended

  /** A call of `acquire_download` made while the handler ran. */
  datatype Ask = Ask(key: string, source: Source, temp: string)

  datatype Outcome<H> =
    | Yields(frame: H, instruction: Instruction)
    | YieldsOther(frame: H)      // something that is not an instruction
    | Returns
    | RaisesReceiveFailed
    | RaisesOther

  datatype Resumption<H> = Resumption(asks: seq<Ask>, outcome: Outcome<H>)

  /** The handlers. `now` stands for everything a handler can observe besides its arguments. */
  datatype Program<!H> = Program(
    create: (string, string, Env) -> Option<H>,
    resume: (nat, H, Env, Awaited) -> Resumption<H>)

  // ----- sessions -----

  datatype Phase = AwaitRrq | AwaitUpload | Complete

  datatype PendingReceive = PendingReceive(token: string, uploadPath: string, size: nat, uploaded: Option<bytes>)

  datatype Session<H> = Session(
    clientId: string, requests: seq<Parsed>, phase: Phase, handler: Coroutine<H>,
    pending: Option<PendingReceive>, serverIp: string, token: Option<string>,
    env: Env, publicEnv: Env, preflight: bool, artifacts: set<string>)

  datatype Uploaded = Uploaded(request: Parsed, body: bytes)

  datatype State<H> = State(sessions: map<string, Session<H>>, jobs: Jobs, uploads: seq<Uploaded>)

  datatype Config = Config(env: Env, routes: map<string, Env>, defaultEnv: Env)

  /** What one request draws from outside: what a handler observes, the time, random names, the server's address. */
  datatype Draw = Draw(now: nat, time: nat, token: string, tmp: string, serverIp: string)

  // ----- answers -----

  datatype Get = Get(command: string, base: string, server: string, path: Template)

  datatype Put = Put(command: string, base: string, offset: Option<(string, string)>, size: nat, server: string,
    path: string)

  /** What is appended to the script. */
  datatype Tail = Stop | Continue(get: Get) | PutThen(put: Put, ok: Get, failed: Get)

  /** `Missing` is answered with "file not found"; `Failure` is an exception nobody catches. */
  datatype Reply = Served(script: Script, tail: Tail) | Missing | Failure

  const HIDDEN: set<string> := {"rambase", "cmdtftp", "cmdtftpput"}
  const UPLOAD_PATH := "/upload.bin"

  /** `if true; then setenv hush_shell true; fi`: only a hush shell gets to the assignment. */
  const HUSH_PROBE: Script :=
    Lines([Echo("reset"), Echo("Checking hush shell... "), Echo("save cursor"), SetEnv("hush_shell", Lit("true"))])

  const HUSH_FAILURE: Script :=
    Lines([Echo("U-Boot hush shell is required"), Echo("save cursor"),
           Echo("uboot-tftp requires hush-compatible if/then support"), Echo("save cursor")])

  /** The three transport keys every configuration must define. */
  predicate ValidConfig(cfg: Config) {
    HIDDEN <= cfg.env.Keys
  }

  function RouteEnv(cfg: Config, clientId: string): Env {
    var id := Lower(clientId);
    if id in cfg.routes then cfg.routes[id] else cfg.defaultEnv
  }

  /** Base settings, overridden by the route's, overridden by the first request's. */
  function SessionEnv(cfg: Config, parsed: Parsed): Env
    requires parsed.clientId.Some?
  {
    cfg.env + RouteEnv(cfg, parsed.clientId.value) +
    (if parsed.segments == [] then map[] else Values(parsed.segments[1..]))
  }

  function PublicEnv(env: Env): Env {
    env - HIDDEN
  }

  /** A continuation's values, without the two the protocol itself uses. */
  function Reported(values: Env): Env {
    values - {"token", "recv"}
  }

  function CommandOf(parsed: Parsed): string {
    if parsed.segments == [] then "" else parsed.segments[0]
  }

  /** What the commands appended to a script are made of. */
  datatype Link = Link(clientId: string, serverIp: string, env: Env)

  function LinkOf<H>(s: Session<H>): Link {
    Link(s.clientId, s.serverIp, s.env)
  }

  /** The name of the variable that holds the base address. */
  function BaseOf(env: Env): string
    requires HIDDEN <= env.Keys
  {
    env["rambase"]
  }

  function GetOf(link: Link, token: string, recv: Option<string>, keys: seq<string>): Get
    requires HIDDEN <= link.env.Keys
  {
    Get(link.env["cmdtftp"], BaseOf(link.env), link.serverIp, Template(link.clientId, token, recv, keys))
  }

  function UploadPath(clientId: string, token: string): string {
    Pair("id", clientId) + Join([Pair("token", token)]) + UPLOAD_PATH
  }

  /** The upload and the two continuations that follow it. */
  function ReceiveTail(link: Link, token: string, tmp: string, ins: Instruction): Tail
    requires HIDDEN <= link.env.Keys && ins.receiveSize.Some?
  {
    var offset := if ins.offset.Some? then Some((tmp, ins.offset.value)) else None;
    PutThen(Put(link.env["cmdtftpput"], BaseOf(link.env), offset, ins.receiveSize.value, link.serverIp,
      UploadPath(link.clientId, token)),
           GetOf(link, token, Some("ok"), ins.keys), GetOf(link, token, Some("failed"), ins.keys))
  }

  // ----- discarding a session -----

  function ReleaseAll(jobs: Jobs, keys: set<string>, session: string): Jobs {
    map k | k in jobs :: if k in keys then jobs[k].(attached := jobs[k].attached - {session}) else jobs[k]
  }

  function Discard<H>(st: State<H>, c: string): State<H>
    requires c in st.sessions
  {
    st.(sessions := st.sessions - {c}, jobs := ReleaseAll(st.jobs, st.sessions[c].artifacts, st.sessions[c].clientId))
  }

  function WithSession<H>(st: State<H>, c: string, s: Session<H>): State<H> {
    st.(sessions := st.sessions[c := s])
  }

  // ----- a first request -----

  function NewSession<H>(cfg: Config, parsed: Parsed, draw: Draw): Session<H>
    requires parsed.clientId.Some?
  {
    var env := SessionEnv(cfg, parsed);
    Session(parsed.clientId.value, [parsed], AwaitRrq, Absent, None, draw.serverIp, Some(draw.token),
            env, PublicEnv(env), true, {})
  }

  function Start<H>(st: State<H>, cfg: Config, parsed: Parsed, draw: Draw): (State<H>, Reply)
    requires ValidConfig(cfg) && parsed.clientId.Some?
  {
    var c := parsed.clientId.value;
    var st1 := if c in st.sessions then Discard(st, c) else st;
    var s: Session<H> := NewSession(cfg, parsed, draw);
    (WithSession(st1, c, s), Served(HUSH_PROBE, Continue(GetOf(LinkOf(s), draw.token, None, ["hush_shell"]))))
  }

  // ----- a continuation -----

  /** What the coroutine is resumed with: `exec_recv` turns a missing body into an exception. */
  function Deliver(at: AwaitPoint, sent: Option<bytes>): Awaited {
    match at
    case NotStarted => Started
    case InExec => Executed
    case InReceive => if sent.Some? then Received(sent.value) else ReceiveFailed
  }

  function AskAll(jobs: Jobs, artifacts: set<string>, session: string, asks: seq<Ask>): (Jobs, set<string>)
    decreases |asks|
  {
    if asks == [] then (jobs, artifacts) else
      var a := asks[0];
      if Accepts(jobs, a.key, a.source)
      then AskAll(Acquired(jobs, a.key, session, a.source, a.temp), artifacts + {a.key}, session, asks[1..])
      else AskAll(jobs, artifacts, session, asks[1..])
  }

  /** The handler's next instruction becomes the answer. */
  function FromInstruction<H>(st: State<H>, c: string, ins: Instruction, draw: Draw): (State<H>, Reply)
    requires c in st.sessions && HIDDEN <= st.sessions[c].env.Keys
  {
    var s := st.sessions[c];
    if ins.receiveSize.Some? then
      var s' := s.(token := Some(draw.token), phase := AwaitUpload,
                   pending := Some(PendingReceive(draw.token, UPLOAD_PATH, ins.receiveSize.value, None)));
      (WithSession(st, c, s'), Served(ins.script, ReceiveTail(LinkOf(s), draw.token, draw.tmp, ins)))
    else if ins.final then
      (Finish(st, c), Served(ins.script, Stop))
    else
      (WithSession(st, c, s.(token := Some(draw.token), phase := AwaitRrq)),
       Served(ins.script, Continue(GetOf(LinkOf(s), draw.token, None, ins.keys))))
  }

  function WaitAfter(ins: Instruction): AwaitPoint {
    if ins.receiveSize.Some? then InReceive else InExec
  }

  /** The session and the jobs after the handler's acquisitions. */
  function Asked<H>(st: State<H>, c: string, asks: seq<Ask>): (st': State<H>)
    requires c in st.sessions
    ensures c in st'.sessions && st'.sessions[c].env == st.sessions[c].env
  {
    var s := st.sessions[c];
    var (jobs, artifacts) := AskAll(st.jobs, s.artifacts, s.clientId, asks);
    WithSession(st, c, s.(artifacts := artifacts)).(jobs := jobs)
  }

  function Finish<H>(st: State<H>, c: string): State<H>
    requires c in st.sessions
  {
    Discard(WithSession(st, c, st.sessions[c].(phase := Complete)), c)
  }

  function WithHandler<H>(st: State<H>, c: string, handler: Coroutine<H>): State<H>
    requires c in st.sessions
  {
    WithSession(st, c, st.sessions[c].(handler := handler))
  }

  /** What becomes of session `c` when its coroutine ends up with an outcome. */
  function Conclude<H>(st: State<H>, c: string, outcome: Outcome<H>, draw: Draw): (State<H>, Reply)
    requires c in st.sessions && HIDDEN <= st.sessions[c].env.Keys
  {
    match outcome
    case Returns => (Finish(st, c), Missing)
    case RaisesReceiveFailed => (Finish(st, c), Missing)
    case RaisesOther => (WithHandler(st, c, Ended), Failure)
    case YieldsOther(next) => (WithHandler(st, c, Suspended(next, InExec)), Failure)
    case Yields(next, ins) => FromInstruction(WithHandler(st, c, Suspended(next, WaitAfter(ins))), c, ins, draw)
  }

  function Settle<H>(st: State<H>, c: string, r: Resumption<H>, draw: Draw): (State<H>, Reply)
    requires c in st.sessions && HIDDEN <= st.sessions[c].env.Keys
  {
    Conclude(Asked(st, c, r.asks), c, r.outcome, draw)
  }

  /** Resuming the coroutine of session `c` with the body that was received, if any. */
  function Advance<H>(st: State<H>, prog: Program<H>, c: string, sent: Option<bytes>, draw: Draw): (State<H>, Reply)
    requires c in st.sessions && HIDDEN <= st.sessions[c].env.Keys
  {
    var s := st.sessions[c];
    match s.handler
    case Absent => (st, Missing)
    case Ended => (st, Failure)
    case Suspended(frame, at) =>
      if at.NotStarted? && sent.Some? then (st, Failure) else
      Settle(st, c, prog.resume(draw.now, frame, s.publicEnv, Deliver(at, sent)), draw)
  }

  /** The token a request carries. */
  function TokenOf(parsed: Parsed): Option<string> {
    if "token" in parsed.values then Some(parsed.values["token"]) else None
  }

  function StatusOf(parsed: Parsed): string {
    if "recv" in parsed.values then parsed.values["recv"] else "failed"
  }

  /** The session after the request is recorded and its values are merged in. */
  function Merged<H>(s: Session<H>, parsed: Parsed): Session<H> {
    s.(requests := s.requests + [parsed],
       env := s.env + Reported(parsed.values),
       publicEnv := s.publicEnv + (Reported(parsed.values) - HIDDEN))
  }

  predicate HushConfirmed(env: Env) {
    "hush_shell" in env && env["hush_shell"] == "true"
  }

  /** The body handed over at this continuation, which also uses the pending receive up. */
  function SentBody<H>(s: Session<H>, parsed: Parsed): Option<bytes> {
    if s.pending.Some? && StatusOf(parsed) == "ok" then s.pending.value.uploaded else None
  }

  function Continuation<H>(st: State<H>, prog: Program<H>, c: string, parsed: Parsed, draw: Draw): (State<H>, Reply)
    requires c in st.sessions && HIDDEN <= st.sessions[c].env.Keys
  {
    var s := st.sessions[c];
    if s.handler.Absent? then (st, Missing)
    else Advance(WithSession(st, c, s.(pending := None)), prog, c, SentBody(s, parsed), draw)
  }

  /** A request with the right token is recorded and merged before anything else. */
  function Answer<H>(st: State<H>, prog: Program<H>, c: string, parsed: Parsed, draw: Draw): (State<H>, Reply)
    requires c in st.sessions && HIDDEN <= st.sessions[c].env.Keys
  {
    var s := Merged(st.sessions[c], parsed);
    var st1 := WithSession(st, c, s);
    if !s.preflight then Continuation(st1, prog, c, parsed, draw) else Preflight(st1, prog, c, parsed, draw)
  }

  function Resume<H>(st: State<H>, prog: Program<H>, parsed: Parsed, draw: Draw): (State<H>, Reply)
    requires parsed.clientId.Some?
    requires forall k :: k in st.sessions ==> HIDDEN <= st.sessions[k].env.Keys
  {
    var c := parsed.clientId.value;
    if c !in st.sessions || TokenOf(parsed) != st.sessions[c].token then (st, Missing)
    else Answer(st, prog, c, parsed, draw)
  }

  /** The continuation that answers the preflight: only a hush shell gets a handler. */
  function Preflight<H>(st: State<H>, prog: Program<H>, c: string, parsed: Parsed, draw: Draw): (State<H>, Reply)
    requires c in st.sessions && HIDDEN <= st.sessions[c].env.Keys && st.sessions[c].requests != []
  {
    var s := st.sessions[c].(preflight := false);
    var st1 := WithSession(st, c, s);
    if !HushConfirmed(s.env) then (Finish(st1, c), Served(HUSH_FAILURE, Stop)) else
      match prog.create(c, CommandOf(s.requests[0]), s.publicEnv)
      case None => (st1, Failure)
      case Some(frame) => Continuation(WithHandler(st1, c, Suspended(frame, NotStarted)), prog, c, parsed, draw)
  }

  predicate IsContinuation(parsed: Parsed) {
    "token" in parsed.values
  }

  /** One session request. */
  function Fetch<H>(st: State<H>, cfg: Config, prog: Program<H>, parsed: Parsed, draw: Draw): (State<H>, Reply)
    requires ValidConfig(cfg) && parsed.clientId.Some?
    requires forall k :: k in st.sessions ==> HIDDEN <= st.sessions[k].env.Keys
  {
    if IsContinuation(parsed) then Resume(st, prog, parsed, draw) else Start(st, cfg, parsed, draw)
  }

  // ----- uploads -----

  predicate EndsWith(s: string, suffix: string) {
    |suffix| <= |s| && s[|s| - |suffix|..] == suffix
  }

  /** Checked when an upload is opened and again when it is closed. */
  predicate UploadExpected<H>(sessions: map<string, Session<H>>, parsed: Parsed) {
    && parsed.clientId.Some? && parsed.clientId.value in sessions
    && var pending := sessions[parsed.clientId.value].pending;
    pending.Some? && EndsWith(parsed.path, pending.value.uploadPath) && TokenOf(parsed) == Some(pending.value.token)
  }

  function WithBody<H>(sessions: map<string, Session<H>>, c: string, body: bytes): map<string, Session<H>>
    requires c in sessions && sessions[c].pending.Some?
  {
    sessions[c := sessions[c].(pending := Some(sessions[c].pending.value.(uploaded := Some(body))))]
  }

  /** Closing an upload: an unexpected one is refused and changes nothing. */
  function Record<H>(st: State<H>, parsed: Parsed, body: bytes): State<H> {
    if !UploadExpected(st.sessions, parsed) then st else
      st.(sessions := WithBody(st.sessions, parsed.clientId.value, body),
          uploads := st.uploads + [Uploaded(parsed, body)])
  }
}
