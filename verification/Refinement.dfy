/**
 The network run does what the direct run does: after every exchange the same
 scripts have run in the same order, the handler is in the same frame (so it was
 handed the same values), its environment is the same, and the device differs at
 most in the protocol's own temporaries, which are gone in the end.
 */
module Refinement {
  import opened Wrappers
  import opened Bytes
  import opened Protocol
  import opened ProtocolRoundTrip
  import opened Sequences
  import opened Device
  import opened DeviceFrame
  import opened MkImage
  import opened SessionModel
  import opened SessionRuns
  import opened SessionSafety
  import opened Runs

  // ----- devices that differ in temporaries and the exit status only -----

  ghost predicate Near(d: Device, e: Device) {
    Erase(d).(status := 0) == e.(status := 0)
  }

  predicate NoTemps(d: Device) {
    forall k :: k in d.env ==> !Reserved(k)
  }

  predicate BaseName(base: string) {
    !Reserved(base) && base != "filesize"
  }

  lemma NearText(d: Device, e: Device, name: string)
    requires Near(d, e) && !Reserved(name)
    ensures Text(d, Var(name)) == Text(e, Var(name)) && Number(d, Var(name)) == Number(e, Var(name))
  {
    TextErased(d, Var(name));
    assert e.env == Erase(d).env;
  }

  lemma ReceiveNear(d: Device, e: Device, addr: nat, image: bytes)
    requires Near(d, e) && InRam(d, addr, |image|) && InRam(e, addr, |image|)
    ensures Erase(Receive(d, addr, image)) == Receive(e, addr, image)
    ensures TempsKept(d, Receive(d, addr, image))
  {
    ReceiveErased(d, addr, image);
    assert Receive(Erase(d), addr, image) == Receive(e, addr, image) by {
      assert Erase(d).ram == e.ram && Erase(d).env == e.env;
    }
    assert !Reserved("filesize") && !Reserved("fileaddr");
  }

  /** An image fits one exactly when it fits the other, and loading it makes them the same but for the temporaries. */
  lemma LoadNear(d: Device, e: Device, base: string, sh: Shell, time: nat, script: Script, tail: Tail)
    requires Near(d, e) && !Reserved(base)
    ensures
      var a, b := LoadImage(d, base, sh, time, script, tail), LoadImage(e, base, sh, time, script, tail);
      && (a.Some? <==> b.Some?)
      && (a.Some? ==> Erase(a.value) == b.value && TempsKept(d, a.value))
  {
    NearText(d, e, base);
    assert |d.ram| == |e.ram| by {
      assert Erase(d).ram == e.ram;
    }
    match Compile(sh.maker, time, sh.text(script, tail))
    case Err(_) =>
    case Ok(image) =>
      var addr := Number(d, Var(base));
      if addr.Some? && InRam(d, addr.value, |image|) {
        ReceiveNear(d, e, addr.value, image);
      }
  }

  /** What was loaded is what is sourced. */
  lemma LoadedIsSourced(d: Device, base: string, sh: Shell, time: nat, script: Script, tail: Tail)
    requires ValidShell(sh) && BaseName(base) && LoadImage(d, base, sh, time, script, tail).Some?
    ensures Sourced(LoadImage(d, base, sh, time, script, tail).value, base, sh) == Some((script, tail))
  {
    var image := Compile(sh.maker, time, sh.text(script, tail)).value;
    var addr := Number(d, Var(base)).value;
    var loaded := Receive(d, addr, image);
    ParseHexText(addr);
    assert Number(loaded, Var(base)) == Some(addr);
    assert image <= loaded.ram[addr..] by {
      assert loaded.ram[addr..][..|image|] == loaded.ram[addr..addr + |image|];
    }
    CompiledRuns(sh.maker, time, sh.text(script, tail), loaded.ram[addr..]);
    assert sh.parse(sh.text(script, tail)) == Some((script, tail));
  }

  lemma {:induction false} UnwindForgets(d: Device, temps: seq<string>)
    requires forall t :: t in temps ==> Reserved(t)
    ensures Erase(Unwind(d, temps)).(status := 0) == Erase(d).(status := 0)
    ensures forall k :: k in Unwind(d, temps).env ==> k in d.env && k !in temps
    decreases |temps|
  {
    if temps != [] {
      var t, front := temps[|temps| - 1], temps[..|temps| - 1];
      var d1 := Step(d, UnsetEnv(t));
      UnsetRule(d, t);
      assert EraseVars(d1.env) == EraseVars(d.env);
      UnwindForgets(d1, front);
      assert temps == front + [t];
    }
  }

  // ----- requests that arrive as they were meant -----

  predicate PlainKey(key: string) {
    CleanKey(key) && key != "token" && key != "recv" && !Reserved(key)
  }

  predicate CleanReport(d: Device, keys: seq<string>) {
    forall i :: 0 <= i < |keys| ==> PlainKey(keys[i]) && Clean(Text(d, Var(keys[i])))
  }

  /** A request that carries the token, the status and the device's variables, and nothing else. */
  predicate Carried(parsed: Parsed, c: string, token: string, status: string, report: Env) {
    && parsed.clientId == Some(c) && TokenOf(parsed) == Some(token) && StatusOf(parsed) == status
    && Reported(parsed.values) == report && IsContinuation(parsed)
  }

  function RecvText(recv: Option<string>): string {
    if recv.Some? then recv.value else "failed"
  }

  lemma ContinuationArrives(d: Device, e: Device, t: Template)
    requires Near(d, e) && CleanReport(e, t.keys)
    requires Normalized(t.clientId) && Clean(t.token) && (t.recv.Some? ==> Clean(t.recv.value))
    ensures
      var r := ParseRequestPath(Render(t, ValuesOf(d)));
      r.Ok? && Carried(r.value, t.clientId, t.token, RecvText(t.recv), ReportOf(e, t.keys))
  {
    SameValues(d, e, t.keys);
    var values := ValuesOf(d);
    ContinuationRoundTrip(t, values);
    ReportedIs(ParseRequestPath(Render(t, values)).value.values, t.recv, ReportOf(e, t.keys));
  }

  /**
   Exactly when a continuation is recognized, whatever is in the token, the keys and
   the device's variables: the last `token=` segment the path is read as must hold
   the session's token. Otherwise the request is stale and the handler waits for ever.
   */
  lemma RecognizedIff<H>(st: State<H>, d: Device, t: Template)
    requires Normalized(t.clientId) && t.clientId in st.sessions && st.sessions[t.clientId].token.Some?
    ensures
      var r := ParseRequestPath(Render(t, ValuesOf(d)));
      var pieces := AllPieces(MessageOf(t, ValuesOf(d)));
      r.Ok? && (Current(st, r.value) <==>
        exists i: nat :: LastSets(pieces, i, "token") && ValueOf(pieces[i]) == st.sessions[t.clientId].token.value)
  {
    ParseAnyRendered(t, ValuesOf(d));
    ReadIff(AllPieces(MessageOf(t, ValuesOf(d))), "token", st.sessions[t.clientId].token.value);
  }

  /** A value with a slash can bring a token of its own, and then the session is lost. */
  lemma ForeignToken<H>(st: State<H>, d: Device, c: string, token: string, other: string)
    requires Normalized(c) && c in st.sessions && st.sessions[c].token == Some(token)
    requires Clean(token) && Clean(other) && other != token
    requires Text(d, Var("x")) == "a" + ("/" + Pair("token", other))
    ensures
      var r := ParseRequestPath(Render(Template(c, token, None, ["x"]), ValuesOf(d)));
      r.Ok? && !Current(st, r.value)
  {
    var t := Template(c, token, None, ["x"]);
    var mine, theirs, x := Pair("token", token), Pair("token", other), Pair("x", "a" + ("/" + Pair("token", other)));
    MessageOfOne(t, ValuesOf(d), "x");
    assert MessageOf(t, ValuesOf(d)) == [mine, x];
    PiecesOfForeign(token, other);
    var pieces := AllPieces([mine, x]);
    PairIndex("token", other);
    assert pieces[2] == theirs;
    assert LastSets(pieces, 2, "token");
    ReadIff(pieces, "token", other);
    ParseAnyRendered(t, ValuesOf(d));
  }

  lemma MessageOfOne(t: Template, values: string -> string, key: string)
    requires t.keys == [key] && t.recv.None?
    ensures MessageOf(t, values) == [Pair("token", t.token), Pair(key, values(key))]
  {
  }

  lemma PiecesOfForeign(token: string, other: string)
    requires Clean(token) && Clean(other)
    ensures AllPieces([Pair("token", token), Pair("x", "a" + ("/" + Pair("token", other)))]) ==
            [Pair("token", token), Pair("x", "a"), Pair("token", other)]
  {
    var mine, theirs, x := Pair("token", token), Pair("token", other), Pair("x", "a" + ("/" + Pair("token", other)));
    WordPair("token", token);
    WordPair("token", other);
    PiecesPlain(mine);
    PiecesPlain(theirs);
    UnquotePlain("x");
    UnquotePlain("a");
    SlashCuts("x", "a", theirs);
    assert [mine, x][1..] == [x] && [x][1..] == [];
    assert AllPieces([x]) == Pieces(x) + AllPieces([]);
  }

  lemma SameValues(d: Device, e: Device, keys: seq<string>)
    requires Near(d, e) && CleanReport(e, keys)
    ensures "token" !in keys && "recv" !in keys
    ensures forall k :: k in keys ==> ValuesOf(d)(k) == Text(e, Var(k))
    ensures forall i :: 0 <= i < |keys| ==> CleanKey(keys[i]) && Clean(ValuesOf(d)(keys[i]))
  {
    forall k | k in keys
      ensures k != "token" && k != "recv" && ValuesOf(d)(k) == Text(e, Var(k))
    {
      var i :| 0 <= i < |keys| && keys[i] == k;
      assert PlainKey(keys[i]);
      NearText(d, e, k);
    }
    forall i | 0 <= i < |keys|
      ensures CleanKey(keys[i]) && Clean(ValuesOf(d)(keys[i]))
    {
      assert PlainKey(keys[i]) && keys[i] in keys;
    }
  }

  lemma ReportedIs(values: Env, recv: Option<string>, report: Env)
    requires forall k :: k in values <==> k == "token" || (k == "recv" && recv.Some?) || k in report
    requires forall k :: k in report ==> k in values && values[k] == report[k] && k != "token" && k != "recv"
    ensures Reported(values) == report
  {
  }

  lemma UploadArrives(c: string, token: string)
    requires Normalized(c) && Clean(token)
    ensures
      var r := ParseRequestPath(UploadPath(c, token));
      && r.Ok? && r.value.clientId == Some(c) && TokenOf(r.value) == Some(token)
      && EndsWith(r.value.path, UPLOAD_PATH)
  {
    WordPair("token", token);
    WordClean("upload.bin");
    UploadPathJoins(c, token);
    TwoTexts(c, Pair("token", token), "upload.bin");
    UploadValues(token);
    EndsWithLast("/" + Pair("token", token));
  }

  lemma TwoTexts(c: string, first: string, second: string)
    requires Normalized(c) && Plain(first) && '/' !in first && second != "" && Clean(second)
    ensures
      var r := ParseRequestPath(Pair("id", c) + Join([first, second]));
      && r.Ok? && r.value.clientId == Some(c) && r.value.values == Values([first, second])
      && r.value.path == "/" + first + ("/" + second)
  {
    ParseMessage(c, [first, second]);
    JoinOfTwo(first, second);
  }

  lemma UploadPathJoins(c: string, token: string)
    ensures UploadPath(c, token) == Pair("id", c) + Join([Pair("token", token), "upload.bin"])
  {
    JoinOfOne(Pair("token", token));
    JoinOfTwo(Pair("token", token), "upload.bin");
    assert UPLOAD_PATH == "/" + "upload.bin";
    Assoc(Pair("id", c), "/" + Pair("token", token), UPLOAD_PATH);
  }

  lemma EndsWithLast(front: string)
    ensures EndsWith(front + ("/" + "upload.bin"), UPLOAD_PATH)
  {
    assert "/" + "upload.bin" == UPLOAD_PATH;
  }

  lemma JoinOfOne(s: string)
    ensures Join([s]) == "/" + s
  {
    assert [s][1..] == [];
  }

  lemma JoinOfTwo(a: string, b: string)
    ensures Join([a, b]) == "/" + a + ("/" + b)
  {
    assert [a, b][1..] == [b];
    JoinOfOne(b);
  }

  lemma UploadValues(token: string)
    ensures Values([Pair("token", token), "upload.bin"]) == map["token" := token]
  {
    var m := [Pair("token", token), "upload.bin"];
    assert m[..1] == [] + [Pair("token", token)];
    ValuesSnoc([], "token", token);
    assert !HasKey("upload.bin");
  }

  // ----- the server's side of one exchange -----

  function PendingOf(ins: Instruction, draw: Draw): Option<PendingReceive> {
    if ins.receiveSize.Some? then Some(PendingReceive(draw.token, UPLOAD_PATH, ins.receiveSize.value, None)) else None
  }

  /** The session that waits for the script `ins` to have run. */
  ghost predicate Waiting<H>(u: Setup<H>, st: State<H>, env: Env, frame: H, ins: Instruction, draw: Draw) {
    && u.clientId in st.sessions
    && var s := st.sessions[u.clientId];
    && s.handler == Suspended(frame, WaitAfter(ins)) && s.pending == PendingOf(ins, draw)
    && s.token == Some(draw.token) && !s.preflight && s.env == env && s.serverIp == u.serverIp
  }

  /** What the server says and keeps when the handler has come to an outcome. */
  ghost predicate Answered<H>(u: Setup<H>, st: State<H>, reply: Reply, env: Env, outcome: Outcome<H>, draw: Draw)
    requires HIDDEN <= env.Keys
  {
    match outcome
    case Yields(next, ins) =>
      && reply == Served(ins.script, TailOf(LinkFor(u, env), ins, draw))
      && (!LastScript(ins) ==> Waiting(u, st, env, next, ins, draw))
    case _ => !reply.Served?
  }

  lemma ConcludeAnswers<H>(u: Setup<H>, st: State<H>, outcome: Outcome<H>, draw: Draw)
    requires u.clientId in st.sessions && HIDDEN <= st.sessions[u.clientId].env.Keys
    requires
      var s := st.sessions[u.clientId];
      s.clientId == u.clientId && s.serverIp == u.serverIp && s.pending.None? && !s.preflight
    ensures
      var r := Conclude(st, u.clientId, outcome, draw);
      Answered(u, r.0, r.1, st.sessions[u.clientId].env, outcome, draw)
  {
  }

  lemma SettleAnswers<H>(u: Setup<H>, st: State<H>, parsed: Parsed, handler: Coroutine<H>, r: Resumption<H>, draw: Draw)
    requires Inv(st) && u.clientId in st.sessions && st.sessions[u.clientId].serverIp == u.serverIp
    ensures HIDDEN <= (st.sessions[u.clientId].env + Reported(parsed.values)).Keys &&
      HIDDEN <= st.sessions[u.clientId].env.Keys
    ensures
      var a := Settle(Entering(st, u.clientId, parsed, handler), u.clientId, r, draw);
      Answered(u, a.0, a.1, st.sessions[u.clientId].env + Reported(parsed.values), r.outcome, draw)
  {
    assert SessionOk(u.clientId, st.sessions[u.clientId]);
    ConcludeAnswers(u, Asked(Entering(st, u.clientId, parsed, handler), u.clientId, r.asks), r.outcome, draw);
  }

  /** The session that waits for the shell check. */
  ghost predicate Checking<H>(u: Setup<H>, st: State<H>, env: Env, draw: Draw) {
    && u.clientId in st.sessions
    && var s := st.sessions[u.clientId];
    && s.preflight && s.token == Some(draw.token) && s.env == env && s.serverIp == u.serverIp
    && s.requests != [] && CommandOf(s.requests[0]) == u.command
  }

  lemma CreateFails<H>(u: Setup<H>, st: State<H>, parsed: Parsed, draw: Draw)
    requires ValidSetup(u) && Inv(st) && u.clientId in st.sessions
    requires parsed.clientId == Some(u.clientId) && IsContinuation(parsed) && Current(st, parsed)
    requires
      var s := Merged(st.sessions[u.clientId], parsed);
      s.preflight && HushConfirmed(s.env) && u.srv.prog.create(u.clientId, CommandOf(s.requests[0]), s.publicEnv).None?
    ensures Fetch(st, u.srv.cfg, u.srv.prog, parsed, draw).1 == Failure
  {
  }

  lemma CheckAnswered<H>(u: Setup<H>, st: State<H>, env: Env, parsed: Parsed, report: Env, before: Draw, draw: Draw)
    requires ValidSetup(u) && Inv(st) && Checking(u, st, env, before)
    requires Carried(parsed, u.clientId, before.token, "failed", report) && HushConfirmed(env + report)
    ensures HIDDEN <= env.Keys
    ensures
      var a := Fetch(st, u.srv.cfg, u.srv.prog, parsed, draw);
      Answered(u, a.0, a.1, env + report, FirstOutcome(u, env + report, draw), draw)
  {
    var c := u.clientId;
    assert SessionOk(c, st.sessions[c]);
    PublicOfMerged(env, report);
    var s := Merged(st.sessions[c], parsed);
    assert s.requests[0] == st.sessions[c].requests[0];
    match u.srv.prog.create(c, u.command, PublicEnv(env + report))
    case None => CreateFails(u, st, parsed, draw);
    case Some(frame) =>
      CreatedFetch(st, u.srv.cfg, u.srv.prog, c, parsed, draw, frame);
      var r := u.srv.prog.resume(draw.now, frame, PublicEnv(env + report), Started);
      SettleAnswers(u, st, parsed, Suspended(frame, NotStarted), r, draw);
  }

  lemma WaitAnswered<H>(u: Setup<H>, st: State<H>, env: Env, frame: H, at: AwaitPoint, parsed: Parsed, status: string,
                        report: Env, got: Awaited, draw: Draw)
    requires ValidSetup(u) && Inv(st) && u.clientId in st.sessions
    requires
      var s := st.sessions[u.clientId];
      && s.handler == Suspended(frame, at) && s.token.Some? && s.env == env && s.serverIp == u.serverIp
      && Carried(parsed, u.clientId, s.token.value, status, report)
      && got == Deliver(at, if s.pending.Some? && status == "ok" then s.pending.value.uploaded else None)
    ensures HIDDEN <= env.Keys
    ensures
      var a := Fetch(st, u.srv.cfg, u.srv.prog, parsed, draw);
      Answered(u, a.0, a.1, env + report, u.srv.prog.resume(draw.now, frame, PublicEnv(env + report), got).outcome,
        draw)
  {
    var c := u.clientId;
    assert SessionOk(c, st.sessions[c]);
    ReentersFetch(st, u.srv.cfg, u.srv.prog, c, parsed, draw, frame, at);
    var r := u.srv.prog.resume(draw.now, frame, PublicEnv(env + report), got);
    SettleAnswers(u, st, parsed, Suspended(frame, at), r, draw);
  }
}
