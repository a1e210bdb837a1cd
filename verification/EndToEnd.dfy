/** The library's NOR operations, run by a handler over the network. */
module EndToEnd {
  import opened Wrappers
  import opened Protocol
  import opened Device
  import opened Hush
  import opened NorScripts
  import opened NorBackup
  import opened SessionModel
  import opened Runs
  import opened Simulation

  // ----- one script in the direct run -----

  /** The instruction `uboot_nor_download` yields. */
  function BackupInstruction(rambase: string, fillTmp: string, readTmp: string, size: nat, pre: seq<Cmd>,
                             post: seq<Cmd>): Instruction {
    Instruction(Lines(BackupScript(Var(rambase), fillTmp, readTmp, size, pre, post)), false, Some(size), [], None)
  }

  /** The instruction `openipc_nor_restore` yields. */
  function RestoreInstruction(rambase: string, fetchTmp: string, writeTmp: string, remote: string,
                              size: nat): Instruction {
    Instruction(Lines(RestoreScript(Var(rambase), fetchTmp, writeTmp, remote, size)), false, None, [], None)
  }

  /** The backup script leaves the chip's first `size` bytes where the upload reads them. */
  lemma BackupTaken(d: Device, rambase: string, at: nat, fillTmp: string, readTmp: string, size: nat, pre: seq<Cmd>,
                    post: seq<Cmd>)
    requires Based(d, Var(rambase), at, size) && fillTmp !in d.env && readTmp !in d.env && OnlyEchoes(pre) &&
      OnlyEchoes(post)
    ensures
      var ins := BackupInstruction(rambase, fillTmp, readTmp, size, pre, post);
      var e := Source(d, ins.script);
      Taken(e, rambase, ins) == Received(BackupImage(d, size)) && e.flash == d.flash && Parse(ins.script).Some?
  {
    var script := BackupScript(Var(rambase), fillTmp, readTmp, size, pre, post);
    ParseSimple(script);
    SourceSimple(d, script);
    BackupRuns(d, rambase, at, fillTmp, readTmp, size, pre, post);
    SameNumber(d, BackedUp(d, at, size), Var(rambase));
  }

  // ----- and over the network -----

  /** What a handler does when it is handed `got`. */
  function OutcomeOf<H>(u: Setup<H>, frame: H, env: Env, got: Awaited, draw: Draw): Outcome<H> {
    u.srv.prog.resume(draw.now, frame, PublicEnv(env), got).outcome
  }

  /** The server's coroutine has gone on to that outcome, unless the next script did not fit. */
  ghost predicate WentOn<H>(u: Setup<H>, net: Net<H>, outcome: Outcome<H>) {
    match outcome
    case Yields(next, ins) =>
      net.at.Some? && !LastScript(ins) ==>
        && u.clientId in net.st.sessions
        && net.st.sessions[u.clientId].handler == Suspended(next, WaitAfter(ins))
    case _ => net.at.None?
  }

  lemma GoOnWent<H>(u: Setup<H>, net: Net<H>, d: Device, env: Env, base: string, outcome: Outcome<H>, ran: seq<Script>,
                    draws: nat -> Draw, n: nat)
    requires HIDDEN <= env.Keys && Sim(u, net, GoOn(u, d, env, base, outcome, draws(n), ran), draws, n)
    ensures WentOn(u, net, outcome)
  {
  }

  lemma NothingReported(d: Device, env: Env)
    ensures env + ReportOf(d, []) == env
  {
  }

  /** The direct run is about to run the backup, the base address is known and the temporaries are free. */
  ghost predicate AboutToBackUp<H>(dir: Direct<H>, frame: H, at: nat, fillTmp: string, readTmp: string, size: nat,
                                   pre: seq<Cmd>, post: seq<Cmd>)
    requires HIDDEN <= dir.env.Keys
  {
    && dir.todo == Exec(frame, BackupInstruction(BaseOf(dir.env), fillTmp, readTmp, size, pre, post))
    && Based(dir.device, Var(BaseOf(dir.env)), at, size)
    && fillTmp !in dir.device.env && readTmp !in dir.device.env && OnlyEchoes(pre) && OnlyEchoes(post)
  }

  lemma BackupStep<H>(u: Setup<H>, dir: Direct<H>, draw: Draw, frame: H, at: nat, fillTmp: string, readTmp: string,
                      size: nat, pre: seq<Cmd>, post: seq<Cmd>)
    requires HIDDEN <= dir.env.Keys && AboutToBackUp(dir, frame, at, fillTmp, readTmp, size, pre, post)
    ensures
      var outcome := OutcomeOf(u, frame, dir.env, Received(BackupImage(dir.device, size)), draw);
      var script := dir.todo.ins.script;
      DirectStep(u, dir, draw) ==
        GoOn(u, Source(dir.device, script), dir.env, BaseOf(dir.env), outcome, draw, dir.ran + [script])
  {
    BackupTaken(dir.device, BaseOf(dir.env), at, fillTmp, readTmp, size, pre, post);
    NothingReported(Source(dir.device, dir.todo.ins.script), dir.env);
  }

  lemma BackupWent<H>(u: Setup<H>, net: Net<H>, dir: Direct<H>, draws: nat -> Draw, n: nat,
                      frame: H, at: nat, fillTmp: string, readTmp: string, size: nat, pre: seq<Cmd>, post: seq<Cmd>)
    requires HIDDEN <= dir.env.Keys && AboutToBackUp(dir, frame, at, fillTmp, readTmp, size, pre, post)
    requires Sim(u, net, DirectStep(u, dir, draws(n)), draws, n)
    ensures WentOn(u, net, OutcomeOf(u, frame, dir.env, Received(BackupImage(dir.device, size)), draws(n)))
  {
    var script := dir.todo.ins.script;
    BackupStep(u, dir, draws(n), frame, at, fillTmp, readTmp, size, pre, post);
    GoOnWent(u, net, Source(dir.device, script), dir.env, BaseOf(dir.env),
             OutcomeOf(u, frame, dir.env, Received(BackupImage(dir.device, size)), draws(n)), dir.ran + [script],
             draws, n);
  }

  /**
   A handler that awaits the backup over the network is resumed with the chip's
   first `size` bytes (0xFF throughout when there is no such chip), although its
   script's image was loaded over the memory the script uses.
   */
  lemma BackupOverNetwork<H>(u: Setup<H>, st: State<H>, d: Device, first: Parsed, others: nat -> Others<H>,
                             draws: nat -> Draw, n: nat,
                             frame: H, at: nat, fillTmp: string, readTmp: string, size: nat,
                             pre: seq<Cmd>, post: seq<Cmd>)
    requires Ready(u, st, d, first, others, draws) && Undisturbed(u, st, d, first, others, draws, n + 1)
    requires AboutToBackUp(DirectAt(u, d, SessionEnv(u.srv.cfg, first), draws, n), frame, at, fillTmp, readTmp, size,
      pre, post)
    ensures
      var dir := DirectAt(u, d, SessionEnv(u.srv.cfg, first), draws, n);
      WentOn(u, NetAt(u, st, d, first, others, draws, n + 1),
             OutcomeOf(u, frame, dir.env, Received(BackupImage(dir.device, size)), draws(n + 1)))
  {
    NextMatches(u, st, d, first, others, draws, n);
    BackupWent(u, NetAt(u, st, d, first, others, draws, n + 1), DirectAt(u, d, SessionEnv(u.srv.cfg, first), draws, n),
               draws, n + 1, frame, at, fillTmp, readTmp, size, pre, post);
  }

  ghost predicate AboutToRestore<H>(dir: Direct<H>, frame: H, at: nat, fetchTmp: string, writeTmp: string,
                                    remote: string, size: nat)
    requires HIDDEN <= dir.env.Keys
  {
    && dir.todo == Exec(frame, RestoreInstruction(BaseOf(dir.env), fetchTmp, writeTmp, remote, size))
    && RestoreReady(dir.device, BaseOf(dir.env), at, fetchTmp, writeTmp, size)
  }

  lemma RestoreStep<H>(u: Setup<H>, dir: Direct<H>, draw: Draw, frame: H, at: nat, fetchTmp: string, writeTmp: string,
                       remote: string, size: nat)
    requires HIDDEN <= dir.env.Keys && AboutToRestore(dir, frame, at, fetchTmp, writeTmp, remote, size)
    ensures
      var after, script := Restored(dir.device, at, remote, size), dir.todo.ins.script;
      DirectStep(u, dir, draw) ==
      GoOn(u, after, dir.env, BaseOf(dir.env), OutcomeOf(u, frame, dir.env, Executed, draw), draw, dir.ran + [script])
  {
    var script := RestoreScript(Var(BaseOf(dir.env)), fetchTmp, writeTmp, remote, size);
    ParseSimple(script);
    SourceSimple(dir.device, script);
    RestoreRuns(dir.device, BaseOf(dir.env), at, fetchTmp, writeTmp, remote, size);
    NothingReported(Restored(dir.device, at, remote, size), dir.env);
  }

  lemma GoOnFlash<H>(u: Setup<H>, net: Net<H>, d: Device, env: Env, base: string, outcome: Outcome<H>, ran: seq<Script>,
                     draws: nat -> Draw, n: nat)
    requires HIDDEN <= env.Keys && Sim(u, net, GoOn(u, d, env, base, outcome, draws(n), ran), draws, n)
    ensures net.device.flash == d.flash
  {
  }

  lemma RestoreWent<H>(u: Setup<H>, net: Net<H>, dir: Direct<H>, draws: nat -> Draw, n: nat,
                       frame: H, at: nat, fetchTmp: string, writeTmp: string, remote: string, size: nat)
    requires HIDDEN <= dir.env.Keys && AboutToRestore(dir, frame, at, fetchTmp, writeTmp, remote, size)
    requires Sim(u, net, DirectStep(u, dir, draws(n)), draws, n)
    ensures WentOn(u, net, OutcomeOf(u, frame, dir.env, Executed, draws(n)))
    ensures net.device.flash == RestoredFlash(dir.device, size, Image(dir.device, at, remote, size))
  {
    RestoreStep(u, dir, draws(n), frame, at, fetchTmp, writeTmp, remote, size);
    var after, outcome := Restored(dir.device, at, remote, size), OutcomeOf(u, frame, dir.env, Executed, draws(n));
    GoOnWent(u, net, after, dir.env, BaseOf(dir.env), outcome, dir.ran + [dir.todo.ins.script], draws, n);
    GoOnFlash(u, net, after, dir.env, BaseOf(dir.env), outcome, dir.ran + [dir.todo.ins.script], draws, n);
  }

  /**
   A handler that awaits the restore over the network has the image written to the
   device's own chip, whatever the server has under that name, before it goes on.
   */
  lemma RestoreOverNetwork<H>(u: Setup<H>, st: State<H>, d: Device, first: Parsed, others: nat -> Others<H>,
                              draws: nat -> Draw, n: nat,
                              frame: H, at: nat, fetchTmp: string, writeTmp: string, remote: string, size: nat)
    requires Ready(u, st, d, first, others, draws) && Undisturbed(u, st, d, first, others, draws, n + 1)
    requires AboutToRestore(DirectAt(u, d, SessionEnv(u.srv.cfg, first), draws, n), frame, at, fetchTmp, writeTmp,
      remote, size)
    ensures
      var dir := DirectAt(u, d, SessionEnv(u.srv.cfg, first), draws, n);
      var net := NetAt(u, st, d, first, others, draws, n + 1);
      && net.device.flash == RestoredFlash(dir.device, size, Image(dir.device, at, remote, size))
      && WentOn(u, net, OutcomeOf(u, frame, dir.env, Executed, draws(n + 1)))
  {
    NextMatches(u, st, d, first, others, draws, n);
    RestoreWent(u, NetAt(u, st, d, first, others, draws, n + 1), DirectAt(u, d, SessionEnv(u.srv.cfg, first), draws, n),
                draws, n + 1, frame, at, fetchTmp, writeTmp, remote, size);
  }
}
