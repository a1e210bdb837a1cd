/**
 Finding the size of a NOR chip: Python emits a nest of if/else blocks, one per
 doubling of the size, and the device finds the largest size that still reads.
 */
module NorProbe {
  import opened Wrappers
  import opened Bytes
  import opened Device
  import opened Hush
  import opened NorScripts

  function SetSize(size: nat): Cmd {
    SetEnv("size", Lit(HexLiteral(size)))
  }

  /** What the generator emits for sizes `sz`, `2 * sz`, ... up to `max`. */
  function ProbeLines(base: Arg, sz: nat, max: int, good: nat, offset: nat): seq<Line>
    requires sz > 0
    decreases max - sz
  {
    if sz > max then [Simple(SetSize(good))]
    else ProbeHead(base, sz, good, offset) + (ProbeLines(base, 2 * sz, max, sz, offset) + [Fi])
  }

  function ProbeHead(base: Arg, sz: nat, good: nat, offset: nat): (head: seq<Line>)
    ensures |head| == 5
  {
    [Simple(Echo("restore cursor")), Simple(SfRead(base, Num(offset), Num(sz))),
     IfFailed, Simple(SetSize(good)), Else]
  }

  /** The list every recursive call appends to. */
  class ScriptList {
    var lines: seq<Line>

    constructor ()
      ensures lines == []
    {
      lines := [];
    }

    method Append(line: Line)
      modifies this
      ensures lines == old(lines) + [line]
    {
      lines := lines + [line];
    }
  }

  /** The recursive generator: what it finds in the list stays in front of what it adds. */
  method GenProbe(script: ScriptList, base: Arg, sz: nat, max: int, good: nat, offset: nat)
    requires sz > 0
    modifies script
    ensures script.lines == old(script.lines) + ProbeLines(base, sz, max, good, offset)
    decreases max - sz
  {
    if sz > max {
      script.Append(Simple(SetSize(good)));
      return;
    }
    ghost var before := script.lines;
    script.Append(Simple(Echo("restore cursor")));
    script.Append(Simple(SfRead(base, Num(offset), Num(sz))));
    script.Append(IfFailed);
    script.Append(Simple(SetSize(good)));
    script.Append(Else);
    assert script.lines == before + ProbeHead(base, sz, good, offset);
    GenProbe(script, base, 2 * sz, max, sz, offset);
    script.Append(Fi);
    AppendThree(before, ProbeHead(base, sz, good, offset), ProbeLines(base, 2 * sz, max, sz, offset), [Fi]);
  }

  lemma AppendThree(a: seq<Line>, b: seq<Line>, c: seq<Line>, e: seq<Line>)
    ensures a + b + c + e == a + (b + (c + e))
  {
  }

  // ----- the shape of the script -----

  /** How many of `sz`, `2 * sz`, `4 * sz`, ... are at most `max`. */
  function Doublings(sz: nat, max: int): nat
    requires sz > 0
    decreases max - sz
  {
    if sz > max then 0 else 1 + Doublings(2 * sz, max)
  }

  lemma {:induction false} DoublingsCounts(sz: nat, max: int, i: nat)
    requires sz > 0
    ensures i < Doublings(sz, max) <==> sz * Pow2(i) <= max
    decreases i
  {
    if i > 0 {
      assert sz * Pow2(i) == 2 * sz * Pow2(i - 1) by {
        assert Pow2(i) == 2 * Pow2(i - 1);
      }
      if sz <= max {
        DoublingsCounts(2 * sz, max, i - 1);
      } else {
        GrowsByDoubling(sz, i);
      }
    }
  }

  lemma GrowsByDoubling(sz: nat, i: nat)
    ensures sz * Pow2(i) >= sz
  {
    assert Pow2(i) >= 1;
    assert sz * Pow2(i) >= sz * 1;
  }

  lemma {:induction false} ProbeLength(base: Arg, sz: nat, max: int, good: nat, offset: nat)
    requires sz > 0
    ensures |ProbeLines(base, sz, max, good, offset)| == 6 * Doublings(sz, max) + 1
    decreases max - sz
  {
    if sz <= max {
      ProbeLength(base, 2 * sz, max, sz, offset);
    }
  }

  function ProbeTree(base: Arg, sz: nat, max: int, good: nat, offset: nat): seq<Stmt>
    requires sz > 0
    decreases max - sz
  {
    if sz > max then [Do(SetSize(good))]
    else
      [Do(Echo("restore cursor")), Do(SfRead(base, Num(offset), Num(sz))),
       Branch([Do(SetSize(good))], ProbeTree(base, 2 * sz, max, sz, offset))]
  }

  lemma ParseSimpleThen(c: Cmd, rest: seq<Line>)
    requires ParseBlock(rest).Some?
    ensures ParseBlock([Simple(c)] + rest) == Some(([Do(c)] + ParseBlock(rest).value.0, ParseBlock(rest).value.1))
  {
    assert ([Simple(c)] + rest)[1..] == rest;
  }

  lemma ParseBranch(c: Cmd, inner: seq<Line>, tree: seq<Stmt>, rest: seq<Line>)
    requires ParseBlock(rest).Some?
    requires ParseBlock(inner + ([Fi] + rest)) == Some((tree, [Fi] + rest))
    ensures ParseBlock([IfFailed] + ([Simple(c)] + ([Else] + (inner + ([Fi] + rest))))) ==
            Some(([Branch([Do(c)], tree)] + ParseBlock(rest).value.0, ParseBlock(rest).value.1))
  {
    var closing := [Fi] + rest;
    assert closing[1..] == rest;
    var orElse := [Else] + (inner + closing);
    assert orElse[1..] == inner + closing;
    ParseSimpleThen(c, orElse);
    assert ParseBlock(orElse) == Some(([], orElse));
    assert [Do(c)] + [] == [Do(c)];
    var lines := [IfFailed] + ([Simple(c)] + orElse);
    assert lines[1..] == [Simple(c)] + orElse;
  }

  /** Whatever follows it, the emitted text is the nest of branches it stands for. */
  lemma {:induction false} ProbeParses(base: Arg, sz: nat, max: int, good: nat, offset: nat, rest: seq<Line>)
    requires sz > 0 && ParseBlock(rest).Some?
    ensures ParseBlock(ProbeLines(base, sz, max, good, offset) + rest) ==
            Some((ProbeTree(base, sz, max, good, offset) + ParseBlock(rest).value.0, ParseBlock(rest).value.1))
    decreases max - sz
  {
    if sz > max {
      ParseSimpleThen(SetSize(good), rest);
    } else {
      var echo, read := Echo("restore cursor"), SfRead(base, Num(offset), Num(sz));
      var inner := ProbeLines(base, 2 * sz, max, sz, offset);
      var tree := ProbeTree(base, 2 * sz, max, sz, offset);
      ProbeParses(base, 2 * sz, max, sz, offset, [Fi] + rest);
      assert tree + [] == tree;
      ParseBranch(SetSize(good), inner, tree, rest);
      var branch := [IfFailed] + ([Simple(SetSize(good))] + ([Else] + (inner + ([Fi] + rest))));
      ParseSimpleThen(read, branch);
      ParseSimpleThen(echo, [Simple(read)] + branch);
      ProbeLinesAre(base, sz, max, good, offset, rest);
      Flatten(Do(echo), Do(read), Branch([Do(SetSize(good))], tree), ParseBlock(rest).value.0);
    }
  }

  lemma ProbeLinesAre(base: Arg, sz: nat, max: int, good: nat, offset: nat, rest: seq<Line>)
    requires 0 < sz <= max
    ensures
      var inner := ProbeLines(base, 2 * sz, max, sz, offset);
      ProbeLines(base, sz, max, good, offset) + rest ==
      [Simple(Echo("restore cursor"))] + ([Simple(SfRead(base, Num(offset), Num(sz)))] + ([IfFailed] +
      ([Simple(SetSize(good))] + ([Else] + (inner + ([Fi] + rest))))))
  {
  }

  lemma Flatten(a: Stmt, b: Stmt, c: Stmt, rest: seq<Stmt>)
    ensures [a] + ([b] + ([c] + rest)) == [a, b, c] + rest
  {
  }

  // ----- what running it finds -----

  function Min(a: int, b: int): int {
    if a < b then a else b
  }

  /** `v` is the largest of `sz`, `2 * sz`, `4 * sz`, ... that is at most `limit`, or `none` when there is none. */
  ghost predicate LargestDoubling(v: nat, sz: nat, limit: int, none: nat) {
    if sz > limit then v == none
    else (exists k: nat :: v == sz * Pow2(k)) && v <= limit < 2 * v
  }

  lemma LargestIsLargest(v: nat, sz: nat, limit: int, none: nat, k: nat)
    requires sz > 0 && LargestDoubling(v, sz, limit, none) && sz * Pow2(k) <= limit
    ensures sz * Pow2(k) <= v
  {
    GrowsByDoubling(sz, k);
    var j: nat :| v == sz * Pow2(j);
    if k > j {
      NextDoubling(sz, j);
      DoublingMonotone(sz, j + 1, k);
    } else {
      DoublingMonotone(sz, k, j);
    }
  }

  lemma NextDoubling(sz: nat, j: nat)
    ensures sz * Pow2(j + 1) == 2 * (sz * Pow2(j))
  {
    assert Pow2(j + 1) == 2 * Pow2(j);
  }

  lemma {:induction false} DoublingMonotone(sz: nat, i: nat, j: nat)
    requires i <= j
    ensures sz * Pow2(i) <= sz * Pow2(j)
    decreases j
  {
    if i < j {
      DoublingMonotone(sz, i, j - 1);
      NextDoubling(sz, j - 1);
    }
  }

  /** The device can hold at `at` whatever the chip can deliver from `offset`. */
  predicate CanProbe(d: Device, rambase: string, at: nat, offset: nat) {
    && d.probed
    && Number(d, Var(rambase)) == Some(at)
    && at + |d.flash| <= |d.ram| + offset
  }

  /** The device once a read that fits has succeeded and the test has refuted failure. */
  function AfterRead(d: Device, at: nat, offset: nat, sz: nat): Device
    requires d.probed && offset + sz <= |d.flash| && at + |d.flash| <= |d.ram| + offset
  {
    d.(ram := Splice(d.ram, at, d.flash[offset..offset + sz]), status := 1)
  }

  lemma ReadSucceeds(d: Device, rambase: string, at: nat, offset: nat, sz: nat)
    requires CanProbe(d, rambase, at, offset)
    ensures
      var e := SfReadAt(Done(d), Some(at), Some(offset), Some(sz));
      if offset + sz <= |d.flash| then e.status == 0 && e.(status := 1) == AfterRead(d, at, offset, sz)
      else e.status == 1 && e.(status := 0) == d.(status := 0)
  {
  }

  lemma ExecThree(d: Device, a: Stmt, b: Stmt, c: Stmt)
    ensures ExecBlock(d, [a, b, c]) == ExecStmt(ExecStmt(ExecStmt(d, a), b), c)
  {
    assert [a, b, c][1..] == [b, c];
    assert [b, c][1..] == [c];
    LastStmt(ExecStmt(ExecStmt(d, a), b), c);
  }

  lemma LastStmt(d: Device, s: Stmt)
    ensures ExecBlock(d, [s]) == ExecStmt(d, s)
  {
    assert ExecBlock(ExecStmt(d, s), []) == ExecStmt(d, s);
  }

  lemma ReadThenTest(d: Device, rambase: string, at: nat, offset: nat, sz: nat, failed: seq<Stmt>, ok: seq<Stmt>)
    requires CanProbe(d, rambase, at, offset)
    ensures ExecBlock(d,
      [Do(Echo("restore cursor")), Do(SfRead(Var(rambase), Num(offset), Num(sz))), Branch(failed, ok)]) ==
            if offset + sz <= |d.flash| then ExecBlock(AfterRead(d, at, offset, sz), ok)
            else ExecBlock(d.(status := 0), failed)
  {
    var o, n := Num(offset), Num(sz);
    var echo, read := Do(Echo("restore cursor")), Do(SfRead(Var(rambase), o, n));
    var d0 := Done(d);
    assert Number(d0, Var(rambase)) == Some(at) by { assert Text(d0, Var(rambase)) == Text(d, Var(rambase)); }
    SfReadRule(d0, Var(rambase), o, n, at, offset, sz);
    ReadSucceeds(d, rambase, at, offset, sz);
    ExecThree(d, echo, read, Branch(failed, ok));
  }

  lemma SetSizeEffect(d: Device, size: nat)
    ensures ExecBlock(d, [Do(SetSize(size))]) == SetVar(d, "size", HexLiteral(size))
  {
    LastStmt(d, Do(SetSize(size)));
  }

  /**
   On a chip of F bytes the emitted nest leaves in `size` the largest doubling of
   `sz` that is at most F - offset and at most `max`; flash and the other
   variables are untouched.
   */
  lemma {:induction false} ProbeFinds(d: Device, rambase: string, at: nat, sz: nat, max: int, good: nat, offset: nat)
      returns (v: nat)
    requires sz > 0 && CanProbe(d, rambase, at, offset)
    ensures LargestDoubling(v, sz, Min(|d.flash| - offset, max), good)
    ensures
      var e := ExecBlock(d, ProbeTree(Var(rambase), sz, max, good, offset));
      e.env == d.env["size" := HexLiteral(v)] && e.flash == d.flash && |e.ram| == |d.ram| && e.board == d.board
    decreases max - sz
  {
    if sz > max {
      v := good;
      SetSizeEffect(d, good);
    } else {
      var failed, ok := [Do(SetSize(good))], ProbeTree(Var(rambase), 2 * sz, max, sz, offset);
      ReadThenTest(d, rambase, at, offset, sz, failed, ok);
      if offset + sz <= |d.flash| {
        var next := AfterRead(d, at, offset, sz);
        assert Number(next, Var(rambase)) == Some(at) by { assert Text(next, Var(rambase)) == Text(d, Var(rambase)); }
        v := ProbeFinds(next, rambase, at, 2 * sz, max, sz, offset);
        LargestFromDouble(v, sz, Min(|d.flash| - offset, max), good);
      } else {
        v := good;
        SetSizeEffect(d.(status := 0), good);
      }
    }
  }

  lemma LargestFromDouble(v: nat, sz: nat, limit: int, none: nat)
    requires 0 < sz <= limit && LargestDoubling(v, 2 * sz, limit, sz)
    ensures LargestDoubling(v, sz, limit, none)
  {
    if 2 * sz > limit {
      assert v == sz * Pow2(0);
    } else {
      var k: nat :| v == 2 * sz * Pow2(k);
      assert v == sz * Pow2(k + 1) by { assert Pow2(k + 1) == 2 * Pow2(k); }
    }
  }

  /** The emitted text, sourced with messages after it, does what its nest does. */
  lemma SourceProbe(d: Device, base: Arg, sz: nat, max: int, offset: nat, post: seq<Cmd>)
    requires sz > 0
    ensures Source(d, ProbeLines(base, sz, max, 0, offset) + Lines(post)) ==
            Run(ExecBlock(d, ProbeTree(base, sz, max, 0, offset)), post)
  {
    ParseSimple(post);
    ProbeParses(base, sz, max, 0, offset, Lines(post));
    ExecAppend(d, ProbeTree(base, sz, max, 0, offset), Dos(post));
    ExecDos(ExecBlock(d, ProbeTree(base, sz, max, 0, offset)), post);
  }

  /** The emitted nest over the whole chip, with messages after it. */
  function ProbeScript(rambase: string, max: int, post: seq<Cmd>): seq<Line> {
    ProbeLines(Var(rambase), MIB, max, 0, 0) + Lines(post)
  }

  /** What the script leaves in `size` reads as the largest doubling. */
  lemma ProbeScriptFinds(d: Device, rambase: string, at: nat, max: int, post: seq<Cmd>)
    requires CanProbe(d, rambase, at, 0) && OnlyEchoes(post)
    ensures
      var r := ParsePrefixed(Text(Source(d, ProbeScript(rambase, max, post)), Var("size")));
      r.Some? && LargestDoubling(r.value, MIB, Min(|d.flash|, max), 0)
  {
    var v := ProbeFinds(d, rambase, at, MIB, max, 0, 0);
    SourceProbe(d, Var(rambase), MIB, max, 0, post);
    EchoesDoNothing(ExecBlock(d, ProbeTree(Var(rambase), MIB, max, 0, 0)), post);
    ParsePrefixedLiteral(v);
  }

  // ----- the whole operation, two scripts with a reload of the base address between them -----

  const MIB: nat := 0x10_0000

  /** Python's `int(text, 0)` on a text with the 0x prefix. */
  function ParsePrefixed(s: string): Option<nat> {
    if |s| > 2 && s[..2] == "0x" && AllHex(s[2..]) then Some(HexValue(s[2..])) else None
  }

  lemma ParsePrefixedLiteral(n: nat)
    ensures ParsePrefixed(HexLiteral(n)) == Some(n)
  {
    assert HexLiteral(n)[..2] == "0x" && HexLiteral(n)[2..] == HexText(n);
  }

  /** The first script: select the chip and report whether that worked. */
  function SelectScript(pre: seq<Cmd>): seq<Cmd> {
    pre + [SfProbe, SetEnv("status", ExitStatus)]
  }

  lemma SelectRuns(d: Device, pre: seq<Cmd>)
    requires OnlyEchoes(pre)
    ensures Run(d, SelectScript(pre)) == SetVar(Probed(d), "status", if |d.flash| > 0 then "0" else "1")
  {
    EchoesDoNothing(d, pre);
    RunVia(d, pre, Run(d, pre), [SfProbe, SetEnv("status", ExitStatus)]);
    RunTwo(Run(d, pre), SfProbe, SetEnv("status", ExitStatus));
    SelectSteps(Run(d, pre));
  }

  lemma SelectSteps(d: Device)
    ensures Step(Step(d, SfProbe), SetEnv("status", ExitStatus)) ==
            SetVar(Probed(d), "status", if |d.flash| > 0 then "0" else "1")
    ensures Probed(Done(d)) == Probed(d)
  {
    assert Step(d, SfProbe) == Probed(d);
    assert Text(Probed(d), ExitStatus) == if |d.flash| > 0 then "0" else "1";
  }

  /**
   The size the host computes: 0 when the first script reports no chip, otherwise
   what the second script left in `size`, each script run after its image was loaded.
   */
  function ProbedSize(d: Device, rambase: string, at: nat, image1: bytes, image2: bytes,
                      pre: seq<Cmd>, post: seq<Cmd>, max: int): Option<nat>
    requires InRam(d, at, |image1|) && InRam(d, at, |image2|)
  {
    var d1 := Run(Receive(d, at, image1), SelectScript(pre));
    RunKeeps(Receive(d, at, image1), SelectScript(pre));
    if Text(d1, Var("status")) == "1" then Some(0) else
      var d2 := Source(Receive(d1, at, image2), ProbeScript(rambase, max, post));
      ParsePrefixed(Text(d2, Var("size")))
  }

  lemma ReceiveKeepsNumber(d: Device, rambase: string, at: nat, image: bytes)
    requires InRam(d, at, |image|) && rambase != "filesize" && rambase != "fileaddr"
    ensures Number(Receive(d, at, image), Var(rambase)) == Number(d, Var(rambase))
  {
    assert Text(Receive(d, at, image), Var(rambase)) == Text(d, Var(rambase));
  }

  /** `uboot_nor_probe` returns the largest 1 MiB doubling that fits the chip and the cap, or 0. */
  lemma ProbedSizeIsLargest(d: Device, rambase: string, at: nat, image1: bytes, image2: bytes,
                            pre: seq<Cmd>, post: seq<Cmd>, max: int)
    requires Number(d, Var(rambase)) == Some(at) && at + |d.flash| <= |d.ram|
    requires InRam(d, at, |image1|) && InRam(d, at, |image2|)
    requires rambase != "filesize" && rambase != "fileaddr" && rambase != "status"
    requires OnlyEchoes(pre) && OnlyEchoes(post)
    ensures
      var r := ProbedSize(d, rambase, at, image1, image2, pre, post, max);
      r.Some? && LargestDoubling(r.value, MIB, Min(|d.flash|, max), 0)
  {
    var r0 := Receive(d, at, image1);
    ReceiveKeepsNumber(d, rambase, at, image1);
    SelectRuns(r0, pre);
    var d1 := Run(r0, SelectScript(pre));
    RunKeeps(r0, SelectScript(pre));
    if |d.flash| > 0 {
      assert Text(d1, Var(rambase)) == Text(r0, Var(rambase));
      ReceiveKeepsNumber(d1, rambase, at, image2);
      ProbeScriptFinds(Receive(d1, at, image2), rambase, at, max, post);
    }
  }
}
