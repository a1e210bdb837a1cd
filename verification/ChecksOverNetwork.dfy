/**
 The library's questions to a device, asked by a handler over the network: what the
 handler finds in its environment afterwards.
 */
module ChecksOverNetwork {
  import opened Wrappers
  import opened Bytes
  import opened Protocol
  import opened Device
  import opened Hush
  import opened NorProbe
  import opened Ranges
  import opened SessionModel
  import opened Runs
  import opened Simulation
  import opened EndToEnd
  import BatchCrc

  // ----- an exchange that reports variables -----

  function Asking(script: Script, keys: seq<string>): Instruction {
    Instruction(script, false, None, keys, None)
  }

  /** The handler's environment after the script. */
  function EnvAfter<H>(dir: Direct<H>, script: Script, keys: seq<string>): Env {
    dir.env + ReportOf(Source(dir.device, script), keys)
  }

  /** The direct run is about to run a script that parses and reports the keys. */
  ghost predicate Asks<H>(dir: Direct<H>, frame: H, script: Script, keys: seq<string>) {
    dir.todo == Exec(frame, Asking(script, keys)) && Parse(script).Some?
  }

  lemma AskingStep<H>(u: Setup<H>, dir: Direct<H>, draw: Draw, frame: H, script: Script, keys: seq<string>)
    requires HIDDEN <= dir.env.Keys && Asks(dir, frame, script, keys)
    ensures
      var env := EnvAfter(dir, script, keys);
      DirectStep(u, dir, draw) ==
      GoOn(u, Source(dir.device, script), env, BaseOf(dir.env), OutcomeOf(u, frame, env, Executed, draw), draw,
           dir.ran + [script])
  {
  }

  lemma AskingWent<H>(u: Setup<H>, net: Net<H>, dir: Direct<H>, draws: nat -> Draw, n: nat,
                      frame: H, script: Script, keys: seq<string>)
    requires HIDDEN <= dir.env.Keys && Asks(dir, frame, script, keys)
    requires Sim(u, net, DirectStep(u, dir, draws(n)), draws, n)
    ensures WentOn(u, net, OutcomeOf(u, frame, EnvAfter(dir, script, keys), Executed, draws(n)))
  {
    var env := EnvAfter(dir, script, keys);
    AskingStep(u, dir, draws(n), frame, script, keys);
    GoOnWent(u, net, Source(dir.device, script), env, BaseOf(dir.env), OutcomeOf(u, frame, env, Executed, draws(n)),
             dir.ran + [script], draws, n);
  }

  /** Over the network the handler goes on in the environment that the device's answers make. */
  lemma AskedOverNetwork<H>(u: Setup<H>, st: State<H>, d: Device, first: Parsed, others: nat -> Others<H>,
                            draws: nat -> Draw, n: nat, frame: H, script: Script, keys: seq<string>)
    requires Ready(u, st, d, first, others, draws) && Undisturbed(u, st, d, first, others, draws, n + 1)
    requires Asks(DirectAt(u, d, SessionEnv(u.srv.cfg, first), draws, n), frame, script, keys)
    ensures
      var dir := DirectAt(u, d, SessionEnv(u.srv.cfg, first), draws, n);
      WentOn(u, NetAt(u, st, d, first, others, draws, n + 1),
             OutcomeOf(u, frame, EnvAfter(dir, script, keys), Executed, draws(n + 1)))
  {
    NextMatches(u, st, d, first, others, draws, n);
    AskingWent(u, NetAt(u, st, d, first, others, draws, n + 1), DirectAt(u, d, SessionEnv(u.srv.cfg, first), draws, n),
               draws, n + 1, frame, script, keys);
  }

  /** A reported key is what the device's variable holds, for the handler too. */
  lemma PublicReport<H>(dir: Direct<H>, script: Script, keys: seq<string>, k: string)
    requires k in keys && k !in HIDDEN
    ensures
      var env := PublicEnv(EnvAfter(dir, script, keys));
      k in env && env[k] == Text(Source(dir.device, script), Var(k))
  {
  }

  // ----- checksums -----

  function Keys(n: nat): (keys: seq<string>)
    ensures |keys| == n && forall i :: 0 <= i < n ==> keys[i] == BatchCrc.Key(i)
  {
    seq(n, i requires 0 <= i < n => BatchCrc.Key(i))
  }

  /** The host reads the `i`th variable as the `i`th value. */
  predicate Reads(env: Env, values: seq<nat>, le: bool) {
    forall i: nat :: i < |values| ==>
      && BatchCrc.Key(i) in env
      && var text := env[BatchCrc.Key(i)];
      && AllHex(ZFill(text, 8)) && |ZFill(text, 8)| == 8 && BatchCrc.Unpack(text, le) == values[i]
  }

  lemma KeyShown(i: nat)
    ensures BatchCrc.Key(i) !in HIDDEN
  {
    assert BatchCrc.Key(i)[0] == '_' && "rambase"[0] == 'r' && "cmdtftp"[0] == 'c' && "cmdtftpput"[0] == 'c';
  }

  /** After a checksum script the handler's environment decodes to what the host is to see, in either byte order. */
  lemma ChecksumsReported<H>(dir: Direct<H>, ranges: seq<Range>, rambase: string, at: nat, le: bool)
    requires BatchCrc.BatchReady(dir.device, ranges, rambase, at)
    ensures
      var script := Lines(BatchCrc.BatchScript(ranges, rambase));
      && Parse(script).Some?
      && Source(dir.device, script).ram == dir.device.ram
      && Reads(PublicEnv(EnvAfter(dir, script, Keys(|ranges|))), BatchCrc.HostView(dir.device, ranges, le), le)
  {
    var cmds := BatchCrc.BatchScript(ranges, rambase);
    var script, keys, values := Lines(cmds), Keys(|ranges|), BatchCrc.HostView(dir.device, ranges, le);
    ParseSimple(cmds);
    SourceSimple(dir.device, cmds);
    BatchCrc.BatchEffect(dir.device, ranges, rambase, at);
    var env := PublicEnv(EnvAfter(dir, script, keys));
    forall i: nat | i < |values|
      ensures BatchCrc.Key(i) in env && env[BatchCrc.Key(i)] == BatchCrc.PrintedText(dir.device, ranges[i])
    {
      assert keys[i] == BatchCrc.Key(i);
      KeyShown(i);
      PublicReport(dir, script, keys, BatchCrc.Key(i));
      BatchCrc.ReportedKey(dir.device, ranges, i);
    }
    PrintedReads(env, dir.device, ranges, le);
  }

  lemma PrintedReads(env: Env, d: Device, ranges: seq<Range>, le: bool)
    requires forall j :: 0 <= j < |ranges| ==> InRam(d, ranges[j].addr, ranges[j].size)
    requires forall i: nat :: i < |ranges| ==>
      BatchCrc.Key(i) in env && env[BatchCrc.Key(i)] == BatchCrc.PrintedText(d, ranges[i])
    ensures Reads(env, BatchCrc.HostView(d, ranges, le), le)
  {
    forall i: nat | i < |ranges|
      ensures
        var text := env[BatchCrc.Key(i)];
        && AllHex(ZFill(text, 8)) && |ZFill(text, 8)| == 8
        && BatchCrc.Unpack(text, le) == BatchCrc.HostView(d, ranges, le)[i]
    {
      BatchCrc.DecodeReply(d, ranges, i, le);
      BatchCrc.ReportedKey(d, ranges, i);
    }
  }

  /** A handler that asks for checksums over the network reads those of the memory its script found. */
  lemma ChecksumsOverNetwork<H>(u: Setup<H>, st: State<H>, d: Device, first: Parsed, others: nat -> Others<H>,
                                draws: nat -> Draw, n: nat, frame: H, ranges: seq<Range>, at: nat, le: bool)
    requires Ready(u, st, d, first, others, draws) && Undisturbed(u, st, d, first, others, draws, n + 1)
    requires
      var dir := DirectAt(u, d, SessionEnv(u.srv.cfg, first), draws, n);
      && BatchCrc.BatchReady(dir.device, ranges, BaseOf(dir.env), at)
      && dir.todo == Exec(frame, Asking(Lines(BatchCrc.BatchScript(ranges, BaseOf(dir.env))), Keys(|ranges|)))
    ensures
      var dir := DirectAt(u, d, SessionEnv(u.srv.cfg, first), draws, n);
      var env := EnvAfter(dir, Lines(BatchCrc.BatchScript(ranges, BaseOf(dir.env))), Keys(|ranges|));
      && WentOn(u, NetAt(u, st, d, first, others, draws, n + 1), OutcomeOf(u, frame, env, Executed, draws(n + 1)))
      && Reads(PublicEnv(env), BatchCrc.HostView(dir.device, ranges, le), le)
  {
    var dir := DirectAt(u, d, SessionEnv(u.srv.cfg, first), draws, n);
    ChecksumsReported(dir, ranges, BaseOf(dir.env), at, le);
    AskedOverNetwork(u, st, d, first, others, draws, n, frame, Lines(BatchCrc.BatchScript(ranges, BaseOf(dir.env))),
                     Keys(|ranges|));
  }

  // ----- the byte order -----

  lemma EndianReported<H>(dir: Direct<H>, rambase: string, at: nat)
    requires BatchCrc.ScratchReady(dir.device, rambase, at) && rambase != "_1"
    ensures
      var script := Lines(BatchCrc.EndianScript(rambase));
      var env := PublicEnv(EnvAfter(dir, script, ["_1"]));
      Parse(script).Some? && "_1" in env && (env["_1"] == "44" <==> dir.device.board.littleEndian)
  {
    var cmds := BatchCrc.EndianScript(rambase);
    ParseSimple(cmds);
    SourceSimple(dir.device, cmds);
    BatchCrc.EndianEffect(dir.device, rambase, at);
    assert "_1"[0] == '_' && "rambase"[0] == 'r' && "cmdtftp"[0] == 'c' && "cmdtftpput"[0] == 'c';
    PublicReport(dir, Lines(cmds), ["_1"], "_1");
  }

  /** A handler that asks for the byte order over the network learns the device's. */
  lemma EndianOverNetwork<H>(u: Setup<H>, st: State<H>, d: Device, first: Parsed, others: nat -> Others<H>,
                             draws: nat -> Draw, n: nat, frame: H, at: nat)
    requires Ready(u, st, d, first, others, draws) && Undisturbed(u, st, d, first, others, draws, n + 1)
    requires
      var dir := DirectAt(u, d, SessionEnv(u.srv.cfg, first), draws, n);
      && BatchCrc.ScratchReady(dir.device, BaseOf(dir.env), at) && BaseOf(dir.env) != "_1"
      && dir.todo == Exec(frame, Asking(Lines(BatchCrc.EndianScript(BaseOf(dir.env))), ["_1"]))
    ensures
      var dir := DirectAt(u, d, SessionEnv(u.srv.cfg, first), draws, n);
      var env := EnvAfter(dir, Lines(BatchCrc.EndianScript(BaseOf(dir.env))), ["_1"]);
      && WentOn(u, NetAt(u, st, d, first, others, draws, n + 1), OutcomeOf(u, frame, env, Executed, draws(n + 1)))
      && "_1" in PublicEnv(env) && (PublicEnv(env)["_1"] == "44" <==> dir.device.board.littleEndian)
  {
    var dir := DirectAt(u, d, SessionEnv(u.srv.cfg, first), draws, n);
    EndianReported(dir, BaseOf(dir.env), at);
    AskedOverNetwork(u, st, d, first, others, draws, n, frame, Lines(BatchCrc.EndianScript(BaseOf(dir.env))), ["_1"]);
  }

  // ----- the size of the chip, two exchanges -----

  lemma SelectReported<H>(dir: Direct<H>, pre: seq<Cmd>)
    requires OnlyEchoes(pre)
    ensures
      var script := Lines(SelectScript(pre));
      var env, e := PublicEnv(EnvAfter(dir, script, ["status"])), Source(dir.device, script);
      && Parse(script).Some? && "status" in env && (env["status"] == "1" <==> |dir.device.flash| == 0)
      && e.flash == dir.device.flash && e.probed == (|dir.device.flash| > 0)
  {
    var cmds := SelectScript(pre);
    ParseSimple(cmds);
    SourceSimple(dir.device, cmds);
    SelectRuns(dir.device, pre);
    assert "status"[0] == 's' && "rambase"[0] == 'r' && "cmdtftp"[0] == 'c' && "cmdtftpput"[0] == 'c';
    PublicReport(dir, Lines(cmds), ["status"], "status");
  }

  lemma ProbeScriptParses(rambase: string, max: int, post: seq<Cmd>)
    ensures Parse(ProbeScript(rambase, max, post)).Some?
  {
    ParseSimple(post);
    ProbeParses(Var(rambase), MIB, max, 0, 0, Lines(post));
  }

  /** What the handler reads from `size`. */
  ghost predicate SizeIs(env: Env, flash: nat, max: int) {
    && "size" in env && ParsePrefixed(env["size"]).Some?
    && LargestDoubling(ParsePrefixed(env["size"]).value, MIB, Min(flash, max), 0)
  }

  lemma ProbeReported<H>(dir: Direct<H>, rambase: string, at: nat, max: int, post: seq<Cmd>)
    requires CanProbe(dir.device, rambase, at, 0) && OnlyEchoes(post)
    ensures SizeIs(PublicEnv(EnvAfter(dir, ProbeScript(rambase, max, post), ["size"])), |dir.device.flash|, max)
  {
    var script := ProbeScript(rambase, max, post);
    ProbeScriptFinds(dir.device, rambase, at, max, post);
    assert "size"[0] == 's' && "rambase"[0] == 'r' && "cmdtftp"[0] == 'c' && "cmdtftpput"[0] == 'c';
    PublicReport(dir, script, ["size"], "size");
  }

  /** What one exchange leaves of the chip, when another script follows. */
  lemma ChipAfter<H>(u: Setup<H>, dir: Direct<H>, draw: Draw, frame: H, script: Script, keys: seq<string>)
    requires HIDDEN <= dir.env.Keys && Asks(dir, frame, script, keys)
    ensures
      var next, e := DirectStep(u, dir, draw), Source(dir.device, script);
      next.device.flash == e.flash && next.device.probed == e.probed
  {
    AskingStep(u, dir, draw, frame, script, keys);
  }

  /** The direct run selects a chip, then asks for its size with room to read all of it. */
  ghost predicate AboutToProbe<H>(dir: Direct<H>, next: Direct<H>, frame: H, frame': H, at: nat, max: int,
                                  pre: seq<Cmd>, post: seq<Cmd>)
    requires HIDDEN <= next.env.Keys
  {
    && OnlyEchoes(pre) && OnlyEchoes(post)
    && dir.todo == Exec(frame, Asking(Lines(SelectScript(pre)), ["status"])) && |dir.device.flash| > 0
    && next.todo == Exec(frame', Asking(ProbeScript(BaseOf(next.env), max, post), ["size"]))
    && Number(next.device, Var(BaseOf(next.env))) == Some(at) && at + |dir.device.flash| <= |next.device.ram|
  }

  /** After the first exchange there is still the same chip, and the second one finds its size. */
  lemma ProbeAsked<H>(u: Setup<H>, dir: Direct<H>, next: Direct<H>, draw: Draw, frame: H, frame': H, at: nat, max: int,
                      pre: seq<Cmd>, post: seq<Cmd>)
    requires HIDDEN <= dir.env.Keys && next == DirectStep(u, dir, draw)
    requires AboutToProbe(dir, next, frame, frame', at, max, pre, post)
    ensures
      var script := ProbeScript(BaseOf(next.env), max, post);
      && Asks(next, frame', script, ["size"])
      && SizeIs(PublicEnv(EnvAfter(next, script, ["size"])), |dir.device.flash|, max)
  {
    SelectReported(dir, pre);
    ChipAfter(u, dir, draw, frame, Lines(SelectScript(pre)), ["status"]);
    ProbeScriptParses(BaseOf(next.env), max, post);
    ProbeReported(next, BaseOf(next.env), at, max, post);
  }

  /**
   The whole probe over the network: the first answer says whether there is a chip,
   and if the handler then asks for the size, its environment holds the largest
   doubling that fits the chip and the cap.
   Exchange `n - 1` selects the chip, exchange `n` measures it.
   */
  lemma ProbeOverNetwork<H>(u: Setup<H>, st: State<H>, d: Device, first: Parsed, others: nat -> Others<H>,
                            draws: nat -> Draw, n: nat, frame: H, frame': H, at: nat, max: int,
                            pre: seq<Cmd>, post: seq<Cmd>)
    requires Ready(u, st, d, first, others, draws) && Undisturbed(u, st, d, first, others, draws, n + 1) && n > 0
    requires
      var env := SessionEnv(u.srv.cfg, first);
      AboutToProbe(DirectAt(u, d, env, draws, n - 1), DirectAt(u, d, env, draws, n), frame, frame', at, max, pre, post)
    ensures
      var env := SessionEnv(u.srv.cfg, first);
      var dir, next := DirectAt(u, d, env, draws, n - 1), DirectAt(u, d, env, draws, n);
      var after := EnvAfter(next, ProbeScript(BaseOf(next.env), max, post), ["size"]);
      && WentOn(u, NetAt(u, st, d, first, others, draws, n + 1), OutcomeOf(u, frame', after, Executed, draws(n + 1)))
      && SizeIs(PublicEnv(after), |dir.device.flash|, max)
  {
    var env := SessionEnv(u.srv.cfg, first);
    var dir, next := DirectAt(u, d, env, draws, n - 1), DirectAt(u, d, env, draws, n);
    DirectAtStep(u, d, env, draws, n - 1);
    ProbeAsked(u, dir, next, draws(n), frame, frame', at, max, pre, post);
    AskedOverNetwork(u, st, d, first, others, draws, n, frame', ProbeScript(BaseOf(next.env), max, post), ["size"]);
  }
}
