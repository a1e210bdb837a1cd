/**
 The snippets that move data between RAM and NOR flash, the scripts built from
 them to back up and restore a chip, and what running those scripts does.
 */
module NorScripts {
  import opened Wrappers
  import opened Bytes
  import opened Device

  // ----- temporary names -----

  function Decimal(n: nat): (s: string)
    ensures s != "" && forall i :: 0 <= i < |s| ==> '0' <= s[i] <= '9'
    ensures DecimalValue(s) == n
  {
    if n < 10 then ['0' + (n as char)] else
      var s := Decimal(n / 10) + ['0' + ((n % 10) as char)];
      assert s[..|s| - 1] == Decimal(n / 10);
      s
  }

  function DecimalValue(s: string): nat
    requires forall i :: 0 <= i < |s| ==> '0' <= s[i] <= '9'
  {
    if s == "" then 0 else 10 * DecimalValue(s[..|s| - 1]) + (s[|s| - 1] as int - '0' as int)
  }

  function TmpName(kind: string, n: nat): string {
    "__uboot_tftp_" + kind + "_" + Decimal(n)
  }

  lemma SuffixAfterUnderscore(a: string, x: string, b: string, y: string)
    requires a + "_" + x == b + "_" + y
    requires '_' !in x && '_' !in y
    ensures x == y
  {
    var s := a + "_" + x;
    assert s[|a|] == '_' && s[|b|] == '_';
    var u, v := |s| - |x|, |s| - |y|;
    assert s[u..] == x && s[v..] == y;
    assert forall i :: u <= i < |s| ==> s[i] == x[i - u] && s[i] in x;
    assert forall i :: v <= i < |s| ==> s[i] == y[i - v] && s[i] in y;
    assert u - 1 < v && v - 1 < u;
  }

  /** Two draws from the counter never give the same name, whatever they are for. */
  lemma TmpNamesDiffer(kind: string, n: nat, kind': string, n': nat)
    requires n != n'
    ensures TmpName(kind, n) != TmpName(kind', n')
  {
    if TmpName(kind, n) == TmpName(kind', n') {
      SuffixAfterUnderscore("__uboot_tftp_" + kind, Decimal(n), "__uboot_tftp_" + kind', Decimal(n'));
      assert false;
    }
  }

  /** The process-wide counter behind `_next_tmp`. */
  class TmpCounter {
    var next: nat

    constructor ()
      ensures next == 1
    {
      next := 1;
    }

    method Next(kind: string) returns (name: string)
      modifies this
      ensures name == TmpName(kind, old(next)) && next == old(next) + 1
    {
      name := TmpName(kind, next);
      next := next + 1;
    }
  }

  // ----- snippets -----

  function MemSet(base: Arg, tmp: string, offset: nat, value: byte, size: nat): seq<Cmd> {
    [AddTo(tmp, base, Num(offset)), FillBytes(Var(tmp), Num(value), Num(size)), UnsetEnv(tmp)]
  }

  function NorErase(offset: nat, size: nat): seq<Cmd> {
    [SfProbe, SfErase(Num(offset), Num(size))]
  }

  function NorRead(base: Arg, tmp: string, ramOffset: nat, norOffset: nat, size: nat): seq<Cmd> {
    [SfProbe, AddTo(tmp, base, Num(ramOffset)), SfRead(Var(tmp), Num(norOffset), Num(size)), UnsetEnv(tmp)]
  }

  function NorWrite(base: Arg, tmp: string, norOffset: nat, ramOffset: nat, size: nat): seq<Cmd> {
    [SfProbe, AddTo(tmp, base, Num(ramOffset)), SfWrite(Var(tmp), Num(norOffset), Num(size)), UnsetEnv(tmp)]
  }

  /** Without an offset the base that was given does not matter. */
  function FetchStatic(rambase: Arg, base: Arg, tmp: string, remote: string, offset: Option<nat>): seq<Cmd> {
    match offset
    case None => [TftpBoot(rambase, remote)]
    case Some(n) => [AddTo(tmp, base, Num(n)), TftpBoot(Var(tmp), remote), UnsetEnv(tmp)]
  }

  lemma RunTwo(d: Device, a: Cmd, b: Cmd)
    ensures Run(d, [a, b]) == Step(Step(d, a), b)
  {
    assert [a, b][1..] == [b];
    assert Run(Step(d, a), [b]) == Run(Step(Step(d, a), b), []);
  }

  lemma RunThree(d: Device, a: Cmd, b: Cmd, c: Cmd)
    ensures Run(d, [a, b, c]) == Step(Step(Step(d, a), b), c)
  {
    assert [a, b, c][1..] == [b, c];
    RunTwo(Step(d, a), b, c);
  }

  /** `base` names the address `at`, and `at + len` is addressable. */
  predicate Based(d: Device, base: Arg, at: nat, len: nat) {
    && Number(d, base) == Some(at)
    && at + len <= |d.ram|
    && at + len < 0x1_0000_0000
  }

  /** `setexpr` leaves the sum where `${tmp}` reads it back. */
  lemma AddressOf(d: Device, base: Arg, at: nat, tmp: string, offset: nat)
    requires Number(d, base) == Some(at) && at + offset < 0x1_0000_0000
    ensures Step(d, AddTo(tmp, base, Num(offset))) == SetVar(d, tmp, HexText(at + offset))
    ensures Number(SetVar(d, tmp, HexText(at + offset)), Var(tmp)) == Some(at + offset)
  {
    var right := Num(offset);
    assert Number(d, right) == Some(offset);
    AddRule(d, tmp, base, right, at, offset);
    VarNumber(d, tmp, at + offset);
  }

  /** A command bracketed by the making and the unsetting of its address. */
  lemma WithAddress(d: Device, base: Arg, at: nat, tmp: string, offset: nat, c: Cmd, e: Device)
    requires Number(d, base) == Some(at) && at + offset < 0x1_0000_0000
    requires Step(SetVar(d, tmp, HexText(at + offset)), c) == e
    ensures Run(d, [AddTo(tmp, base, Num(offset)), c, UnsetEnv(tmp)]) == e.(env := e.env - {tmp}, status := 0)
  {
    AddressOf(d, base, at, tmp, offset);
    UnsetRule(e, tmp);
    RunThree(d, AddTo(tmp, base, Num(offset)), c, UnsetEnv(tmp));
  }

  lemma UnsetAfterSet(d: Device, tmp: string, value: string, ram: bytes, flash: bytes, status: nat)
    requires tmp !in d.env
    ensures
      var e := SetVar(d, tmp, value).(ram := ram, flash := flash, status := status);
      e.(env := e.env - {tmp}, status := 0) == d.(ram := ram, flash := flash, status := 0)
  {
    assert d.env[tmp := value] - {tmp} == d.env;
  }

  lemma MemSetEffect(d: Device, base: Arg, at: nat, tmp: string, offset: nat, value: byte, size: nat)
    requires Based(d, base, at, offset + size) && tmp !in d.env
    ensures Run(d, MemSet(base, tmp, offset, value, size)) ==
            d.(ram := Splice(d.ram, at + offset, Fill(size, value)), status := 0)
  {
    var v, n := Num(value), Num(size);
    AddressOf(d, base, at, tmp, offset);
    var d1 := SetVar(d, tmp, HexText(at + offset));
    var ram := Splice(d.ram, at + offset, Fill(size, value));
    FillRule(d1, Var(tmp), v, n, at + offset, value, size);
    WithAddress(d, base, at, tmp, offset, FillBytes(Var(tmp), v, n), d1.(ram := ram, status := 0));
    UnsetAfterSet(d, tmp, HexText(at + offset), ram, d.flash, 0);
  }

  /** Selecting the chip. */
  function Probed(d: Device): Device {
    d.(probed := |d.flash| > 0, status := if |d.flash| > 0 then 0 else 1)
  }

  lemma ProbeFirst(d: Device, rest: seq<Cmd>)
    ensures Run(d, [SfProbe] + rest) == Run(Probed(d), rest)
  {
    assert ([SfProbe] + rest)[1..] == rest;
  }

  lemma ProbedNumber(d: Device, a: Arg)
    requires a != ExitStatus
    ensures Number(Probed(d), a) == Number(d, a)
  {
    assert Text(Probed(d), a) == Text(d, a);
  }

  /** A chip is there and holds the range. */
  predicate OnChip(d: Device, offset: nat, size: nat) {
    |d.flash| > 0 && offset + size <= |d.flash|
  }

  /** RAM after reading the chip to `a`. */
  function ReadRam(d: Device, a: nat, offset: nat, size: nat): (ram: bytes)
    requires InRam(d, a, size)
  {
    if OnChip(d, offset, size) then Splice(d.ram, a, d.flash[offset..offset + size]) else d.ram
  }

  /** Flash after writing what RAM holds from `a` on: bits can only be cleared. */
  function WrittenFlash(d: Device, a: nat, offset: nat, size: nat): (flash: bytes)
    requires InRam(d, a, size)
  {
    if OnChip(d, offset, size)
    then Splice(d.flash, offset, AndAll(d.flash[offset..offset + size], d.ram[a..a + size])) else d.flash
  }

  lemma SfReadAtAddress(d: Device, name: string, text: string, a: nat, offset: nat, size: nat)
    requires InRam(d, a, size)
    ensures
      var e := SfReadAt(SetVar(Probed(d), name, text), Some(a), Some(offset), Some(size));
      e == SetVar(Probed(d), name, text).(ram := ReadRam(d, a, offset, size), flash := d.flash, status := e.status)
  {
  }

  lemma SfWriteAtAddress(d: Device, name: string, text: string, a: nat, offset: nat, size: nat)
    requires InRam(d, a, size)
    ensures
      var e := SfWriteAt(SetVar(Probed(d), name, text), Some(a), Some(offset), Some(size));
      e == SetVar(Probed(d), name, text).(ram := d.ram, flash := WrittenFlash(d, a, offset, size), status := e.status)
  {
  }

  lemma NorReadEffect(d: Device, base: Arg, at: nat, tmp: string, ramOffset: nat, norOffset: nat, size: nat)
    requires Based(d, base, at, ramOffset + size) && base != ExitStatus && tmp !in d.env
    ensures Run(d, NorRead(base, tmp, ramOffset, norOffset, size)) ==
            Probed(d).(ram := ReadRam(d, at + ramOffset, norOffset, size), status := 0)
  {
    var o, n := Num(norOffset), Num(size);
    var c := SfRead(Var(tmp), o, n);
    assert NorRead(base, tmp, ramOffset, norOffset, size) ==
           [SfProbe] + [AddTo(tmp, base, Num(ramOffset)), c, UnsetEnv(tmp)];
    ProbeFirst(d, [AddTo(tmp, base, Num(ramOffset)), c, UnsetEnv(tmp)]);
    var p := Probed(d);
    ProbedNumber(d, base);
    AddressOf(p, base, at, tmp, ramOffset);
    var a := at + ramOffset;
    var d1 := SetVar(p, tmp, HexText(a));
    SfReadRule(d1, Var(tmp), o, n, a, norOffset, size);
    var e := SfReadAt(d1, Some(a), Some(norOffset), Some(size));
    WithAddress(p, base, at, tmp, ramOffset, c, e);
    SfReadAtAddress(d, tmp, HexText(a), a, norOffset, size);
    UnsetAfterSet(p, tmp, HexText(a), ReadRam(d, a, norOffset, size), d.flash, e.status);
  }

  lemma NorWriteEffect(d: Device, base: Arg, at: nat, tmp: string, norOffset: nat, ramOffset: nat, size: nat)
    requires Based(d, base, at, ramOffset + size) && base != ExitStatus && tmp !in d.env
    ensures Run(d, NorWrite(base, tmp, norOffset, ramOffset, size)) ==
            Probed(d).(flash := WrittenFlash(d, at + ramOffset, norOffset, size), status := 0)
  {
    var o, n := Num(norOffset), Num(size);
    var c := SfWrite(Var(tmp), o, n);
    assert NorWrite(base, tmp, norOffset, ramOffset, size) ==
           [SfProbe] + [AddTo(tmp, base, Num(ramOffset)), c, UnsetEnv(tmp)];
    ProbeFirst(d, [AddTo(tmp, base, Num(ramOffset)), c, UnsetEnv(tmp)]);
    var p := Probed(d);
    ProbedNumber(d, base);
    AddressOf(p, base, at, tmp, ramOffset);
    var a := at + ramOffset;
    var d1 := SetVar(p, tmp, HexText(a));
    SfWriteRule(d1, Var(tmp), o, n, a, norOffset, size);
    var e := SfWriteAt(d1, Some(a), Some(norOffset), Some(size));
    WithAddress(p, base, at, tmp, ramOffset, c, e);
    SfWriteAtAddress(d, tmp, HexText(a), a, norOffset, size);
    UnsetAfterSet(p, tmp, HexText(a), d.ram, WrittenFlash(d, a, norOffset, size), e.status);
  }

  lemma NorEraseEffect(d: Device, offset: nat, size: nat)
    ensures
      var e := Run(d, NorErase(offset, size));
      && e == Probed(d).(flash := e.flash, status := e.status)
      && e.flash == (if OnChip(d, offset, size) && Aligned(d, offset) && Aligned(d, size)
                     then Splice(d.flash, offset, Fill(size, 0xFF)) else d.flash)
  {
    var o, n := Num(offset), Num(size);
    RunTwo(d, SfProbe, SfErase(o, n));
    SfEraseRule(Probed(d), o, n, offset, size);
  }

  function Loaded(env: Vars, addr: nat, len: nat): Vars {
    env["filesize" := HexText(len)]["fileaddr" := HexText(addr)]
  }

  lemma UnsetAfterLoad(env: Vars, tmp: string, value: string, addr: nat, len: nat)
    requires tmp !in env && tmp != "filesize" && tmp != "fileaddr"
    ensures Loaded(env[tmp := value], addr, len) - {tmp} == Loaded(env, addr, len)
  {
  }

  /** A fetch to base plus offset, whether or not the server has the file and memory has room for it. */
  lemma FetchStaticEffect(d: Device, rambase: Arg, base: Arg, at: nat, tmp: string, remote: string, offset: nat)
    requires Number(d, base) == Some(at) && at + offset < 0x1_0000_0000
    requires tmp !in d.env && tmp != "filesize" && tmp != "fileaddr"
    ensures Run(d, FetchStatic(rambase, base, tmp, remote, Some(offset))) ==
      Done(TftpBootAt(d, Some(at + offset), remote))
  {
    var a := at + offset;
    AddressOf(d, base, at, tmp, offset);
    var d1 := SetVar(d, tmp, HexText(a));
    TftpBootRule(d1, Var(tmp), remote, a);
    WithAddress(d, base, at, tmp, offset, TftpBoot(Var(tmp), remote), TftpBootAt(d1, Some(a), remote));
    LoadUndone(d, tmp, HexText(a), a, remote);
  }

  lemma LoadUndone(d: Device, tmp: string, text: string, a: nat, remote: string)
    requires tmp !in d.env && tmp != "filesize" && tmp != "fileaddr"
    ensures
      var e := TftpBootAt(SetVar(d, tmp, text), Some(a), remote);
      e.(env := e.env - {tmp}, status := 0) == Done(TftpBootAt(d, Some(a), remote))
  {
    if remote in d.board.files && InRam(d, a, |d.board.files[remote]|) {
      UnsetAfterLoad(d.env, tmp, text, a, |d.board.files[remote]|);
    } else {
      assert d.env[tmp := text] - {tmp} == d.env;
    }
  }

  /** Without an offset the file goes to the base itself and the status says whether it arrived. */
  lemma FetchStaticPlain(d: Device, rambase: Arg, base: Arg, tmp: string, remote: string)
    ensures Run(d, FetchStatic(rambase, base, tmp, remote, None)) == TftpBootAt(d, Number(d, rambase), remote)
  {
    var c := TftpBoot(rambase, remote);
    assert [c][1..] == [];
    assert Run(d, [c]) == Run(Step(d, c), []);
  }

  // ----- the builders, drawing their temporaries from the shared counter -----

  method BuildMemSet(tmp: TmpCounter, base: Arg, offset: nat, value: byte, size: nat) returns (cs: seq<Cmd>)
    modifies tmp
    ensures tmp.next == old(tmp.next) + 1
    ensures cs == MemSet(base, TmpName("addr", old(tmp.next)), offset, value, size)
  {
    var name := tmp.Next("addr");
    cs := MemSet(base, name, offset, value, size);
  }

  method BuildNorRead(tmp: TmpCounter, base: Arg, ramOffset: nat, norOffset: nat, size: nat) returns (cs: seq<Cmd>)
    modifies tmp
    ensures tmp.next == old(tmp.next) + 1
    ensures cs == NorRead(base, TmpName("addr", old(tmp.next)), ramOffset, norOffset, size)
  {
    var name := tmp.Next("addr");
    cs := NorRead(base, name, ramOffset, norOffset, size);
  }

  method BuildNorWrite(tmp: TmpCounter, base: Arg, norOffset: nat, ramOffset: nat, size: nat) returns (cs: seq<Cmd>)
    modifies tmp
    ensures tmp.next == old(tmp.next) + 1
    ensures cs == NorWrite(base, TmpName("addr", old(tmp.next)), norOffset, ramOffset, size)
  {
    var name := tmp.Next("addr");
    cs := NorWrite(base, name, norOffset, ramOffset, size);
  }

  /** A name is drawn even when none is needed. */
  method BuildFetchStatic(tmp: TmpCounter, rambase: Arg, base: Arg, remote: string,
                          offset: Option<nat>) returns (cs: seq<Cmd>)
    modifies tmp
    ensures tmp.next == old(tmp.next) + 1
    ensures cs == FetchStatic(rambase, base, TmpName("addr", old(tmp.next)), remote, offset)
  {
    var name := tmp.Next("addr");
    cs := FetchStatic(rambase, base, name, remote, offset);
  }
}
