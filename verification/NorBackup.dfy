/**
 Backing up a NOR chip through an upload and restoring it from a file: what the
 server receives, what the chip holds afterwards, and when the two agree.
 */
module NorBackup {
  import opened Wrappers
  import opened Bytes
  import opened Device
  import opened NorScripts

  /** A status message: the text, then the cursor is saved. */
  function Msg(text: string): (cs: seq<Cmd>)
    ensures OnlyEchoes(cs)
  {
    [Echo(text), Echo("save cursor")]
  }

  // ----- backup -----

  function BackupScript(base: Arg, fillTmp: string, readTmp: string, size: nat, pre: seq<Cmd>,
                        post: seq<Cmd>): seq<Cmd> {
    pre + ((MemSet(base, fillTmp, 0, 0xFF, size) + NorRead(base, readTmp, 0, 0, size)) + post)
  }

  method BuildBackup(tmp: TmpCounter, base: Arg, size: nat, pre: seq<Cmd>, post: seq<Cmd>) returns (cs: seq<Cmd>)
    modifies tmp
    ensures tmp.next == old(tmp.next) + 2
    ensures cs == BackupScript(base, TmpName("addr", old(tmp.next)), TmpName("addr", old(tmp.next) + 1), size, pre,
      post)
  {
    var fill := BuildMemSet(tmp, base, 0, 0xFF, size);
    var read := BuildNorRead(tmp, base, 0, 0, size);
    cs := pre + ((fill + read) + post);
  }

  /** What the backup script leaves at the base address. */
  function BackupImage(d: Device, size: nat): bytes {
    if OnChip(d, 0, size) then d.flash[..size] else Fill(size, 0xFF)
  }

  function BackupRam(d: Device, at: nat, size: nat): (ram: bytes)
    requires at + size <= |d.ram|
    ensures |ram| == |d.ram| && ram[at..at + size] == BackupImage(d, size)
  {
    ReadRam(d.(ram := Splice(d.ram, at, Fill(size, 0xFF))), at, 0, size)
  }

  /** The device after the backup script. */
  function BackedUp(d: Device, at: nat, size: nat): Device
    requires at + size <= |d.ram|
  {
    Probed(d).(ram := BackupRam(d, at, size), status := 0)
  }

  lemma ReadsOverFill(d: Device, at: nat, size: nat)
    requires at + size <= |d.ram|
    ensures
      var filled := d.(ram := Splice(d.ram, at, Fill(size, 0xFF)), status := 0);
      Probed(filled).(ram := ReadRam(filled, at, 0, size), status := 0) == BackedUp(d, at, size)
    ensures BackedUp(Done(d), at, size) == BackedUp(d, at, size)
  {
  }

  lemma ReadsTo(d: Device, rambase: string, at: nat, tmp: string, size: nat, after: Device)
    requires Based(d, Var(rambase), at, size) && tmp !in d.env
    requires Probed(d).(ram := ReadRam(d, at, 0, size), status := 0) == after
    ensures Run(d, NorRead(Var(rambase), tmp, 0, 0, size)) == after
  {
    NorReadEffect(d, Var(rambase), at, tmp, 0, 0, size);
  }

  function Filled(d: Device, at: nat, size: nat): Device
    requires at + size <= |d.ram|
  {
    d.(ram := Splice(d.ram, at, Fill(size, 0xFF)), status := 0)
  }

  lemma BackupCore(d: Device, rambase: string, at: nat, fillTmp: string, readTmp: string, size: nat)
    requires Based(d, Var(rambase), at, size) && fillTmp !in d.env && readTmp !in d.env
    ensures Run(d, MemSet(Var(rambase), fillTmp, 0, 0xFF, size) + NorRead(Var(rambase), readTmp, 0, 0, size)) ==
            BackedUp(d, at, size)
  {
    var base := Var(rambase);
    MemSetEffect(d, base, at, fillTmp, 0, 0xFF, size);
    SameNumber(d, Filled(d, at, size), base);
    ReadsOverFill(d, at, size);
    ReadsTo(Filled(d, at, size), rambase, at, readTmp, size, BackedUp(d, at, size));
    Compose(d, MemSet(base, fillTmp, 0, 0xFF, size), Filled(d, at, size), NorRead(base, readTmp, 0, 0, size),
      BackedUp(d, at, size));
  }

  lemma BackupRuns(d: Device, rambase: string, at: nat, fillTmp: string, readTmp: string, size: nat,
                   pre: seq<Cmd>, post: seq<Cmd>)
    requires Based(d, Var(rambase), at, size)
    requires fillTmp !in d.env && readTmp !in d.env && OnlyEchoes(pre) && OnlyEchoes(post)
    ensures Run(d, BackupScript(Var(rambase), fillTmp, readTmp, size, pre, post)) == BackedUp(d, at, size)
  {
    var core := MemSet(Var(rambase), fillTmp, 0, 0xFF, size) + NorRead(Var(rambase), readTmp, 0, 0, size);
    BackupCore(d, rambase, at, fillTmp, readTmp, size);
    SameNumber(d, Done(d), Var(rambase));
    BackupCore(Done(d), rambase, at, fillTmp, readTmp, size);
    ReadsOverFill(d, at, size);
    EchoesAround(d, pre, core, post, BackedUp(d, at, size));
  }

  /**
   The upload that follows the script delivers the chip's first `size` bytes, or
   0xFF throughout when there is no chip that large; nothing else on the device
   changes but memory.
   */
  lemma BackupDelivers(d: Device, rambase: string, at: nat, fillTmp: string, readTmp: string, size: nat,
                       pre: seq<Cmd>, post: seq<Cmd>, remote: string)
    requires Based(d, Var(rambase), at, size)
    requires fillTmp !in d.env && readTmp !in d.env && OnlyEchoes(pre) && OnlyEchoes(post)
    ensures
      var put := TftpPut(Var(rambase), Num(size), remote);
      var e := Run(d, BackupScript(Var(rambase), fillTmp, readTmp, size, pre, post) + [put]);
      && e.sent == d.sent + [Upload(remote, BackupImage(d, size))]
      && e.flash == d.flash && e.env == d.env && e.board == d.board
  {
    var base, n := Var(rambase), Num(size);
    var put := TftpPut(base, n, remote);
    var script := BackupScript(base, fillTmp, readTmp, size, pre, post);
    BackupRuns(d, rambase, at, fillTmp, readTmp, size, pre, post);
    var d1 := BackedUp(d, at, size);
    RunVia(d, script, d1, [put]);
    SameNumber(d, d1, base);
    TftpPutRule(d1, base, n, remote, at, size);
    assert Run(d1, [put]) == Run(Step(d1, put), []);
  }

  /** A number held in a variable only depends on the environment. */
  lemma SameNumber(d: Device, e: Device, a: Arg)
    requires a.Var? && d.env == e.env
    ensures Number(d, a) == Number(e, a)
  {
    assert Text(d, a) == Text(e, a);
  }

  // ----- restore -----

  /** The image goes 1024 bytes above the base, clear of the script's own image. */
  const RAM_OFFSET: nat := 1024

  function RestoreScript(base: Arg, fetchTmp: string, writeTmp: string, remote: string, size: nat): seq<Cmd> {
    Msg("Uploading " + remote + "... ") + (FetchStatic(base, base, fetchTmp, remote, Some(RAM_OFFSET)) + (Msg("OK") + (
    Msg("Erasing flash... ") + (NorErase(0, size) + (Msg("OK") + (
    Msg("Writing flash... ") + (NorWrite(base, writeTmp, 0, RAM_OFFSET, size) + Msg("OK"))))))))
  }

  method BuildRestore(tmp: TmpCounter, base: Arg, remote: string, size: nat) returns (cs: seq<Cmd>)
    modifies tmp
    ensures tmp.next == old(tmp.next) + 2
    ensures cs == RestoreScript(base, TmpName("addr", old(tmp.next)), TmpName("addr", old(tmp.next) + 1), remote, size)
  {
    var fetch := BuildFetchStatic(tmp, base, base, remote, Some(RAM_OFFSET));
    var write := BuildNorWrite(tmp, base, 0, RAM_OFFSET, size);
    cs := Msg("Uploading " + remote + "... ") + (fetch + (Msg("OK") + (
      Msg("Erasing flash... ") + (NorErase(0, size) + (Msg("OK") + (
      Msg("Writing flash... ") + (write + Msg("OK"))))))));
  }

  /** The chip after erasing `size` bytes, which the chip only does block by block. */
  function ErasedFlash(d: Device, size: nat): (flash: bytes)
    ensures |flash| == |d.flash|
  {
    if OnChip(d, 0, size) && Aligned(d, 0) && Aligned(d, size) then Splice(d.flash, 0, Fill(size, 0xFF)) else d.flash
  }

  /** The chip after the restore: the image over what the erase left. */
  function RestoredFlash(d: Device, size: nat, image: bytes): (flash: bytes)
    requires |image| == size
    ensures |flash| == |d.flash|
  {
    var erased := ErasedFlash(d, size);
    if OnChip(d, 0, size) then Splice(erased, 0, AndAll(erased[..size], image)) else d.flash
  }

  lemma SkipMsg(d: Device, text: string, rest: seq<Cmd>)
    ensures Run(d, Msg(text) + rest) == Run(Done(d), rest)
  {
    RunAppend(d, Msg(text), rest);
    EchoesDoNothing(d, Msg(text));
  }

  /** The file that is fetched, if the server has it and there is room. */
  function FileFor(d: Device, at: nat, remote: string): (file: Option<bytes>)
    ensures file.Some? ==> InRam(d, at + RAM_OFFSET, |file.value|)
  {
    if remote in d.board.files && InRam(d, at + RAM_OFFSET, |d.board.files[remote]|) then Some(d.board.files[remote])
      else None
  }

  /** Memory with the file, if there is one, at an address. */
  function Landed(ram: bytes, a: nat, file: Option<bytes>): (after: bytes)
    requires file.Some? ==> a + |file.value| <= |ram|
    ensures |after| == |ram|
  {
    if file.Some? then Splice(ram, a, file.value) else ram
  }

  /** The file as far as it reaches, and then what was there before. */
  function Written(before: bytes, file: Option<bytes>): bytes {
    if file.None? then before
    else if |file.value| >= |before| then file.value[..|before|]
    else file.value + before[|file.value|..]
  }

  /** Memory holds what was fetched, if anything was; the script goes on either way. */
  function Fetched(d: Device, at: nat, remote: string): (e: Device)
    ensures |e.ram| == |d.ram| && e.flash == d.flash && e.board == d.board
  {
    var a, file := at + RAM_OFFSET, FileFor(d, at, remote);
    d.(ram := Landed(d.ram, a, file), env := if file.Some? then Loaded(d.env, a, |file.value|) else d.env, status := 0)
  }

  lemma FetchedIs(d: Device, at: nat, remote: string)
    ensures Done(TftpBootAt(d, Some(at + RAM_OFFSET), remote)) == Fetched(d, at, remote)
  {
  }

  /** What the script writes: the memory it fetched into. */
  function Image(d: Device, at: nat, remote: string, size: nat): (image: bytes)
    requires InRam(d, at + RAM_OFFSET, size)
    ensures |image| == size
  {
    Landed(d.ram, at + RAM_OFFSET, FileFor(d, at, remote))[at + RAM_OFFSET..at + RAM_OFFSET + size]
  }

  /**
   A file of the right length is written as it is, a longer one is cut, a shorter
   one is followed by what memory held, and when there is no file, or no room for
   it, memory itself is written.
   */
  lemma WhatIsWritten(d: Device, at: nat, remote: string, size: nat)
    requires InRam(d, at + RAM_OFFSET, size)
    ensures Image(d, at, remote, size) ==
      Written(d.ram[at + RAM_OFFSET..at + RAM_OFFSET + size], FileFor(d, at, remote))
  {
    WindowOf(d.ram, at + RAM_OFFSET, FileFor(d, at, remote), size);
  }

  lemma WindowOf(ram: bytes, a: nat, file: Option<bytes>, size: nat)
    requires a + size <= |ram| && (file.Some? ==> a + |file.value| <= |ram|)
    ensures Landed(ram, a, file)[a..a + size] == Written(ram[a..a + size], file)
  {
    if file.Some? {
      SplicedWindow(ram, a, file.value, size);
    }
  }

  lemma SplicedWindow(ram: bytes, a: nat, data: bytes, n: nat)
    requires a + |data| <= |ram| && a + n <= |ram|
    ensures Splice(ram, a, data)[a..a + n] == if |data| >= n then data[..n] else data + ram[a..a + n][|data|..]
  {
    var after := Splice(ram, a, data);
    forall i | 0 <= i < |data| ensures after[a + i] == data[i] {
      assert after[a..a + |data|][i] == after[a + i];
    }
  }

  /** The state the restore script ends in. */
  function Restored(d: Device, at: nat, remote: string, size: nat): Device
    requires InRam(d, at + RAM_OFFSET, size)
  {
    Fetched(d, at, remote).(probed := |d.flash| > 0, flash := RestoredFlash(d, size, Image(d, at, remote, size)))
  }

  /** Room for the image, and temporaries nobody else uses. Whether the file is there is not asked. */
  predicate RestoreReady(d: Device, rambase: string, at: nat, fetchTmp: string, writeTmp: string, size: nat) {
    && Based(d, Var(rambase), at, RAM_OFFSET + size)
    && rambase != "filesize" && rambase != "fileaddr"
    && fetchTmp !in d.env && writeTmp !in d.env
    && fetchTmp != "filesize" && fetchTmp != "fileaddr" && writeTmp != "filesize" && writeTmp != "fileaddr"
  }

  lemma FetchKeepsVars(d: Device, at: nat, remote: string, name: string)
    requires name != "filesize" && name != "fileaddr"
    ensures
      var e := Fetched(d, at, remote);
      (name in e.env <==> name in d.env) && Text(e, Var(name)) == Text(d, Var(name))
  {
  }

  function Erased(d: Device, at: nat, remote: string, size: nat): Device {
    Probed(Fetched(d, at, remote)).(flash := ErasedFlash(d, size), status := 0)
  }

  lemma WritesImage(d: Device, at: nat, remote: string, size: nat)
    requires InRam(d, at + RAM_OFFSET, size)
    ensures
      var e := Erased(d, at, remote, size);
      Probed(e).(flash := WrittenFlash(e, at + RAM_OFFSET, 0, size), status := 0) == Restored(d, at, remote, size)
  {
  }

  lemma SameRestored(d: Device, at: nat, remote: string, size: nat)
    requires InRam(d, at + RAM_OFFSET, size)
    ensures Restored(Done(d), at, remote, size) == Restored(d, at, remote, size)
    ensures Done(Fetched(d, at, remote)) == Fetched(d, at, remote) &&
      Done(Erased(d, at, remote, size)) == Erased(d, at, remote, size)
  {
    assert Fetched(Done(d), at, remote) == Fetched(d, at, remote);
  }

  lemma ErasedKeeps(d: Device, rambase: string, at: nat, tmp: string, remote: string, size: nat)
    requires Based(d, Var(rambase), at, RAM_OFFSET + size)
    requires
      var e := Fetched(d, at, remote);
      tmp !in e.env && Number(e, Var(rambase)) == Some(at)
    ensures
      var e := Erased(d, at, remote, size);
      tmp !in e.env && Based(e, Var(rambase), at, RAM_OFFSET + size)
  {
    SameNumber(Fetched(d, at, remote), Erased(d, at, remote, size), Var(rambase));
  }

  lemma WritesTo(e: Device, rambase: string, at: nat, tmp: string, size: nat, after: Device)
    requires tmp !in e.env && Based(e, Var(rambase), at, RAM_OFFSET + size)
    requires Probed(e).(flash := WrittenFlash(e, at + RAM_OFFSET, 0, size), status := 0) == after
    ensures Run(e, NorWrite(Var(rambase), tmp, 0, RAM_OFFSET, size)) == after
  {
    NorWriteEffect(e, Var(rambase), at, tmp, 0, RAM_OFFSET, size);
  }

  lemma RestoreWrites(d: Device, rambase: string, at: nat, tmp: string, remote: string, size: nat)
    requires Based(d, Var(rambase), at, RAM_OFFSET + size)
    requires
      var e := Fetched(d, at, remote);
      tmp !in e.env && Number(e, Var(rambase)) == Some(at)
    ensures Run(Erased(d, at, remote, size), NorWrite(Var(rambase), tmp, 0, RAM_OFFSET, size)) ==
      Restored(d, at, remote, size)
  {
    ErasedKeeps(d, rambase, at, tmp, remote, size);
    WritesImage(d, at, remote, size);
    WritesTo(Erased(d, at, remote, size), rambase, at, tmp, size, Restored(d, at, remote, size));
  }

  lemma RestoreErases(d: Device, at: nat, remote: string, size: nat)
    requires InRam(d, at + RAM_OFFSET, size)
    ensures Done(Run(Fetched(d, at, remote), NorErase(0, size))) == Erased(d, at, remote, size)
  {
    NorEraseEffect(Fetched(d, at, remote), 0, size);
  }

  lemma MsgsBetween(d: Device, text: string, text': string, rest: seq<Cmd>, e: Device)
    requires Done(d) == e
    ensures Run(d, Msg(text) + (Msg(text') + rest)) == Run(e, rest)
  {
    SkipMsg(d, text, Msg(text') + rest);
    SkipMsg(e, text', rest);
  }

  /** Each part runs from the state the previous one left, messages in between. */
  lemma RestoreParts(d: Device, text: string, fetch: seq<Cmd>, e1: Device, erase: seq<Cmd>, e2: Device,
                     write: seq<Cmd>, e3: Device)
    requires Run(Done(d), fetch) == e1 && Done(e1) == e1
    requires Done(Run(e1, erase)) == e2
    requires Run(e2, write) == e3 && e3.status == 0
    ensures Run(d, Msg(text) + (fetch + (Msg("OK") + (Msg("Erasing flash... ") + (erase + (Msg("OK") + (
                   Msg("Writing flash... ") + (write + Msg("OK"))))))))) == e3
  {
    var r3 := write + Msg("OK");
    var r2 := erase + (Msg("OK") + (Msg("Writing flash... ") + r3));
    var r1 := Msg("OK") + (Msg("Erasing flash... ") + r2);
    SkipMsg(d, text, fetch + r1);
    RunVia(Done(d), fetch, e1, r1);
    MsgsBetween(e1, "OK", "Erasing flash... ", r2, e1);
    var m := Run(e1, erase);
    RunVia(e1, erase, m, Msg("OK") + (Msg("Writing flash... ") + r3));
    MsgsBetween(m, "OK", "Writing flash... ", r3, e2);
    RunVia(e2, write, e3, Msg("OK"));
    EchoesDoNothing(e3, Msg("OK"));
  }

  /**
   Running the restore script, whatever the server has under that name: the whole
   final state, temporaries gone and the base variable kept.
   */
  lemma RestoreRuns(d: Device, rambase: string, at: nat, fetchTmp: string, writeTmp: string, remote: string, size: nat)
    requires RestoreReady(d, rambase, at, fetchTmp, writeTmp, size)
    ensures Run(d, RestoreScript(Var(rambase), fetchTmp, writeTmp, remote, size)) == Restored(d, at, remote, size)
    ensures
      var e := Restored(d, at, remote, size);
      Number(e, Var(rambase)) == Some(at) && fetchTmp !in e.env && writeTmp !in e.env
  {
    var d0, base := Done(d), Var(rambase);
    SameNumber(d, d0, base);
    FetchStaticEffect(d0, base, base, at, fetchTmp, remote, RAM_OFFSET);
    FetchedIs(d0, at, remote);
    FetchKeepsVars(d0, at, remote, rambase);
    FetchKeepsVars(d0, at, remote, writeTmp);
    FetchKeepsVars(d0, at, remote, fetchTmp);
    SameRestored(d0, at, remote, size);
    RestoreErases(d0, at, remote, size);
    RestoreWrites(d0, rambase, at, writeTmp, remote, size);
    SameRestored(d, at, remote, size);
    RestoreParts(d, "Uploading " + remote + "... ",
                 FetchStatic(base, base, fetchTmp, remote, Some(RAM_OFFSET)), Fetched(d0, at, remote),
                 NorErase(0, size), Erased(d0, at, remote, size),
                 NorWrite(base, writeTmp, 0, RAM_OFFSET, size), Restored(d, at, remote, size));
    SameNumber(Fetched(d0, at, remote), Restored(d, at, remote, size), base);
  }

  // ----- what restoring achieves -----

  /**
   The chip ends up holding the image exactly when the erase is accepted (the
   size is a whole number of erase blocks) or every bit the image needs is still
   set: a refused erase is not noticed by the script and the write only clears bits.
   */
  lemma RestoreExact(d: Device, size: nat, image: bytes)
    requires OnChip(d, 0, size) && |image| == size
    ensures RestoredFlash(d, size, image)[..size] == image <==>
            (Aligned(d, size) || forall i :: 0 <= i < size ==> And(d.flash[i], image[i]) == image[i])
    ensures RestoredFlash(d, size, image)[size..] == d.flash[size..]
  {
    var flash := RestoredFlash(d, size, image);
    if Aligned(d, size) {
      forall i | 0 <= i < size ensures flash[i] == image[i] {
        AndErased(image[i]);
        assert flash[i] == flash[..size][i];
      }
    } else {
      assert ErasedFlash(d, size) == d.flash;
      forall i | 0 <= i < size ensures flash[i] == And(d.flash[i], image[i]) {
        assert flash[i] == flash[..size][i];
      }
      if flash[..size] == image {
        forall i | 0 <= i < size ensures And(d.flash[i], image[i]) == image[i] {
          assert flash[..size][i] == image[i];
        }
      }
    }
  }

  /** A refused erase can leave neither the old contents nor the image: 0x0F over 0xF0 gives 0x00. */
  lemma UnalignedRestoreDestroys(d: Device)
    requires d.flash == [0xF0] && d.board.eraseSize == 2
    ensures RestoredFlash(d, 1, [0x0F]) == [0]
  {
    assert And(0xF0, 0x0F) == 0;
  }

  /**
   Backup then restore is the identity: the bytes a backup delivered, offered as a
   file and restored on a chip of that size, whatever it was overwritten with in
   between, put the first `size` bytes back and leave the rest as it was.
   */
  lemma BackupThenRestore(d: Device, later: Device, rambase: string, at: nat, at': nat,
                          t1: string, t2: string, t3: string, t4: string, size: nat,
                          pre: seq<Cmd>, post: seq<Cmd>, remote: string, file: string)
    requires OnChip(d, 0, size) && |later.flash| == |d.flash| && Aligned(later, size)
    requires Based(d, Var(rambase), at, size) && t1 !in d.env && t2 !in d.env
    requires OnlyEchoes(pre) && OnlyEchoes(post)
    requires
      var put := TftpPut(Var(rambase), Num(size), remote);
      var received := Run(d, BackupScript(Var(rambase), t1, t2, size, pre, post) + [put]).sent;
      && RestoreReady(later, rambase, at', t3, t4, size) && received != []
      && file in later.board.files && later.board.files[file] == received[|received| - 1].body
    ensures
      var e := Run(later, RestoreScript(Var(rambase), t3, t4, file, size));
      e.flash == d.flash[..size] + later.flash[size..]
  {
    BackupDelivers(d, rambase, at, t1, t2, size, pre, post, remote);
    RestoresFile(later, rambase, at', t3, t4, size, file, d.flash[..size]);
  }

  /** Restoring a file of the right length: the file, and the rest of the chip as it was. */
  lemma RestoresFile(d: Device, rambase: string, at: nat, fetchTmp: string, writeTmp: string, size: nat, file: string,
                     image: bytes)
    requires RestoreReady(d, rambase, at, fetchTmp, writeTmp, size) && OnChip(d, 0, size) && Aligned(d, size)
    requires file in d.board.files && d.board.files[file] == image && |image| == size
    ensures Run(d, RestoreScript(Var(rambase), fetchTmp, writeTmp, file, size)).flash == image + d.flash[size..]
  {
    RestoreRuns(d, rambase, at, fetchTmp, writeTmp, file, size);
    ImageOfFile(d, at, file, size, image);
    RestoredAligned(d, size, image);
  }

  lemma ImageOfFile(d: Device, at: nat, file: string, size: nat, image: bytes)
    requires InRam(d, at + RAM_OFFSET, size) && FileFor(d, at, file) == Some(image) && |image| == size
    ensures Image(d, at, file, size) == image
  {
    WhatIsWritten(d, at, file, size);
    assert image[..size] == image;
  }

  lemma RestoredAligned(d: Device, size: nat, image: bytes)
    requires OnChip(d, 0, size) && Aligned(d, size) && |image| == size
    ensures RestoredFlash(d, size, image) == image + d.flash[size..]
  {
    RestoreExact(d, size, image);
    TwoHalves(RestoredFlash(d, size, image), size, image, d.flash[size..]);
  }

  lemma TwoHalves(whole: bytes, n: nat, front: bytes, back: bytes)
    requires n <= |whole| && whole[..n] == front && whole[n..] == back
    ensures whole == front + back
  {
    assert whole == whole[..n] + whole[n..];
  }
}
