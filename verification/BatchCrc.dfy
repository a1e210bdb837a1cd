/**
 Checksumming many memory ranges in one script. Each range borrows one word of
 memory for the checksum and puts it back, and the host undoes the device's byte
 order when it reads the printed words.
 */
module BatchCrc {
  import opened Wrappers
  import opened Bytes
  import opened Device
  import opened NorScripts
  import opened Ranges

  function CrcScript(r: Range, rambase: string, result: string): seq<Cmd> {
    [WordOf("dest", Var(rambase)),
     LoadWord("tmp", Var("dest")),
     Crc32(Num(r.addr), Num(r.size), Var("dest")),
     LoadWord(result, Var("dest")),
     StoreWord(Var("dest"), Var("tmp")),
     UnsetEnv("tmp"),
     UnsetEnv("dest")]
  }

  function Key(i: nat): string {
    "_" + Decimal(i)
  }

  lemma KeysDiffer(i: nat, j: nat)
    ensures Key(i) == Key(j) ==> i == j
    ensures Key(i) != "tmp" && Key(i) != "dest"
  {
    if Key(i) == Key(j) {
      assert Key(i)[1..] == Decimal(i) && Key(j)[1..] == Decimal(j);
    }
    assert Key(i)[0] == '_' && "tmp"[0] == 't' && "dest"[0] == 'd';
  }

  /** The commands for a list of ranges, the i-th reporting in `_i`. */
  function BatchScript(ranges: seq<Range>, rambase: string): seq<Cmd> {
    if ranges == [] then [] else
      var n := |ranges| - 1;
      BatchScript(ranges[..n], rambase) + CrcScript(ranges[n], rambase, Key(n))
  }

  // ----- one range -----

  /** The checksum of a range of memory. */
  function Sum(d: Device, r: Range): word
    requires InRam(d, r.addr, r.size)
  {
    d.board.crc(d.ram[r.addr..r.addr + r.size])
  }

  /** A word stored most significant byte first and read back in the device's own order. */
  function Printed(littleEndian: bool, c: word): (w: word) {
    Pow256Four();
    FromBigBound(BigEndian(c, 4));
    FromBigBound(Reverse(BigEndian(c, 4)));
    if littleEndian then FromLittle(BigEndian(c, 4)) else FromBig(BigEndian(c, 4))
  }

  lemma NativeRoundTrip(d: Device, addr: nat)
    requires InRam(d, addr, 4)
    ensures NativeBytes(d, NativeWord(d, addr)) == d.ram[addr..addr + 4]
  {
    BigEndianOfFromBig(d.ram[addr..addr + 4]);
    LittleEndianOfFromLittle(d.ram[addr..addr + 4]);
  }

  lemma WordOfRule(d: Device, name: string, value: Arg, n: word)
    requires Number(d, value) == Some(n)
    ensures Step(d, WordOf(name, value)) == SetVar(d, name, HexText(n))
  {
    SetNumberFits(d, name, n);
  }

  lemma LoadWordRule(d: Device, name: string, addr: Arg, a: nat)
    requires Number(d, addr) == Some(a) && InRam(d, a, 4)
    ensures Step(d, LoadWord(name, addr)) == SetVar(d, name, HexText(NativeWord(d, a)))
  {
    assert WordAt(d, Some(a)) == Some(NativeWord(d, a));
    SetNumberFits(d, name, NativeWord(d, a));
  }

  lemma StoreWordRule(d: Device, addr: Arg, value: Arg, a: nat, v: nat)
    requires Number(d, addr) == Some(a) && Number(d, value) == Some(v) && InRam(d, a, 4)
    ensures Step(d, StoreWord(addr, value)) == d.(ram := Splice(d.ram, a, NativeBytes(d, v)), status := 0)
  {
    assert Step(d, StoreWord(addr, value)) == StoreAt(d, Some(a), Some(v));
  }

  lemma Crc32Rule(d: Device, addr: Arg, len: Arg, dest: Arg, r: Range, t: nat)
    requires Number(d, addr) == Some(r.addr) && Number(d, len) == Some(r.size) && Number(d, dest) == Some(t)
    requires InRam(d, r.addr, r.size) && InRam(d, t, 4)
    ensures Step(d, Crc32(addr, len, dest)) == d.(ram := Splice(d.ram, t, BigEndian(Sum(d, r), 4)), status := 0)
  {
    Crc32Step(d, addr, len, dest);
    CrcAtResult(d, r, t);
  }

  lemma Crc32Step(d: Device, addr: Arg, len: Arg, dest: Arg)
    ensures Step(d, Crc32(addr, len, dest)) == CrcAt(d, Number(d, addr), Number(d, len), Number(d, dest))
  {
  }

  lemma CrcAtResult(d: Device, r: Range, t: nat)
    requires InRam(d, r.addr, r.size) && InRam(d, t, 4)
    ensures CrcAt(d, Some(r.addr), Some(r.size), Some(t)) ==
            d.(ram := Splice(d.ram, t, BigEndian(Sum(d, r), 4)), status := 0)
  {
  }

  /** A variable keeps its number while others change. */
  lemma NumberFrame(d: Device, e: Device, name: string)
    requires name in d.env && name in e.env && d.env[name] == e.env[name]
    ensures Number(e, Var(name)) == Number(d, Var(name))
  {
  }

  predicate ScratchReady(d: Device, rambase: string, at: nat) {
    && Number(d, Var(rambase)) == Some(at) && rambase in d.env
    && InRam(d, at, 4) && at < 0x1_0000_0000
    && rambase != "tmp" && rambase != "dest"
  }

  lemma SevenSteps(c0: Cmd, c1: Cmd, c2: Cmd, c3: Cmd, c4: Cmd, c5: Cmd, c6: Cmd,
                   d: Device, d2: Device, d4: Device, d7: Device)
    requires Step(Step(d, c0), c1) == d2 && Step(Step(d2, c2), c3) == d4
    requires Step(Step(Step(d4, c4), c5), c6) == d7
    ensures Run(d, [c0, c1, c2, c3, c4, c5, c6]) == d7
  {
    RunThree(d4, c4, c5, c6);
    RunTwo(d2, c2, c3);
    RunTwo(d, c0, c1);
    Compose(d2, [c2, c3], d4, [c4, c5, c6], d7);
    Compose(d, [c0, c1], d2, [c2, c3] + [c4, c5, c6], d7);
    assert [c0, c1, c2, c3, c4, c5, c6] == [c0, c1] + ([c2, c3] + [c4, c5, c6]);
  }

  lemma ScratchRestored(ram: bytes, at: nat, sum: bytes)
    requires at + 4 <= |ram| && |sum| == 4
    ensures Splice(Splice(ram, at, sum), at, ram[at..at + 4]) == ram
  {
  }

  /** The variables after one range: the checksum as printed, the temporaries gone. */
  function Reported(env: Vars, result: string, text: string): Vars {
    (env - {"tmp", "dest"})[result := text]
  }

  lemma ReportedEnv(env: Vars, result: string, text: string, dest: string, tmp: string)
    requires result != "tmp" && result != "dest"
    ensures env["dest" := dest]["tmp" := tmp][result := text] - {"tmp"} - {"dest"} == Reported(env, result, text)
  {
  }

  /** The first two commands: the address, and the word that is about to be borrowed. */
  function Borrowed(d: Device, at: nat): Device
    requires InRam(d, at, 4)
  {
    SetVar(SetVar(d, "dest", HexText(at)), "tmp", HexText(NativeWord(d, at)))
  }

  lemma Borrow(d: Device, rambase: string, at: nat)
    requires ScratchReady(d, rambase, at)
    ensures Step(Step(d, WordOf("dest", Var(rambase))), LoadWord("tmp", Var("dest"))) == Borrowed(d, at)
    ensures Number(Borrowed(d, at), Var("dest")) == Some(at)
    ensures Number(Borrowed(d, at), Var("tmp")) == Some(NativeWord(d, at))
  {
    WordOfRule(d, "dest", Var(rambase), at);
    var d1 := SetVar(d, "dest", HexText(at));
    VarNumber(d, "dest", at);
    LoadWordRule(d1, "tmp", Var("dest"), at);
    VarNumber(d1, "tmp", NativeWord(d, at));
    NumberFrame(d1, Borrowed(d, at), "dest");
  }

  /** The next two: the checksum is stored over the borrowed word and printed. */
  function Summed(d: Device, r: Range, at: nat, result: string): Device
    requires InRam(d, r.addr, r.size) && InRam(d, at, 4)
  {
    SetVar(d.(ram := Splice(d.ram, at, BigEndian(Sum(d, r), 4))), result,
           HexText(Printed(d.board.littleEndian, Sum(d, r))))
  }

  lemma StoredSum(d: Device, at: nat, c: word)
    requires InRam(d, at, 4)
    ensures NativeWord(d.(ram := Splice(d.ram, at, BigEndian(c, 4)), status := 0), at) ==
      Printed(d.board.littleEndian, c)
  {
    assert Splice(d.ram, at, BigEndian(c, 4))[at..at + 4] == BigEndian(c, 4);
  }

  lemma SumInto(d: Device, r: Range, at: nat, result: string)
    requires Number(d, Var("dest")) == Some(at) && "dest" in d.env
    requires InRam(d, r.addr, r.size) && InRam(d, at, 4)
    ensures Step(Step(d, Crc32(Num(r.addr), Num(r.size), Var("dest"))), LoadWord(result, Var("dest"))) ==
            Summed(d, r, at, result)
  {
    var a, n := Num(r.addr), Num(r.size);
    Crc32Rule(d, a, n, Var("dest"), r, at);
    var d3 := d.(ram := Splice(d.ram, at, BigEndian(Sum(d, r), 4)), status := 0);
    NumberFrame(d, d3, "dest");
    LoadWordRule(d3, result, Var("dest"), at);
    StoredSum(d, at, Sum(d, r));
  }

  /** The last three: the word goes back and the temporaries go away. */
  lemma PutBack(d: Device, at: nat, w: word)
    requires Number(d, Var("dest")) == Some(at) && Number(d, Var("tmp")) == Some(w) && InRam(d, at, 4)
    ensures Step(Step(Step(d, StoreWord(Var("dest"), Var("tmp"))), UnsetEnv("tmp")), UnsetEnv("dest")) ==
            d.(ram := Splice(d.ram, at, NativeBytes(d, w)), env := d.env - {"tmp"} - {"dest"}, status := 0)
  {
    StoreWordRule(d, Var("dest"), Var("tmp"), at, w);
    var d5 := d.(ram := Splice(d.ram, at, NativeBytes(d, w)), status := 0);
    UnsetRule(d5, "tmp");
    UnsetRule(d5.(env := d5.env - {"tmp"}, status := 0), "dest");
  }

  lemma BorrowedSame(d: Device, r: Range, at: nat, result: string)
    requires InRam(d, r.addr, r.size) && InRam(d, at, 4) && result != "tmp" && result != "dest"
    ensures
      var e := Summed(Borrowed(d, at), r, at, result);
      e.(ram := Splice(e.ram, at, NativeBytes(e, NativeWord(d, at))), env := e.env - {"tmp"} - {"dest"}, status := 0) ==
      d.(env := Reported(d.env, result, HexText(Printed(d.board.littleEndian, Sum(d, r)))), status := 0)
  {
    NativeRoundTrip(d, at);
    ScratchRestored(d.ram, at, BigEndian(Sum(d, r), 4));
    ReportedEnv(d.env, result, HexText(Printed(d.board.littleEndian, Sum(d, r))), HexText(at),
      HexText(NativeWord(d, at)));
  }

  /** One range: memory is as before and the result variable holds the printed checksum. */
  lemma CrcScriptEffect(d: Device, r: Range, rambase: string, at: nat, result: string)
    requires ScratchReady(d, rambase, at) && InRam(d, r.addr, r.size)
    requires result != "tmp" && result != "dest"
    ensures Run(d, CrcScript(r, rambase, result)) ==
            d.(env := Reported(d.env, result, HexText(Printed(d.board.littleEndian, Sum(d, r)))), status := 0)
  {
    Borrow(d, rambase, at);
    var d2 := Borrowed(d, at);
    SumInto(d2, r, at, result);
    var d4 := Summed(d2, r, at, result);
    NumberFrame(d2, d4, "dest");
    NumberFrame(d2, d4, "tmp");
    PutBack(d4, at, NativeWord(d, at));
    BorrowedSame(d, r, at, result);
    SevenSteps(WordOf("dest", Var(rambase)), LoadWord("tmp", Var("dest")),
               Crc32(Num(r.addr), Num(r.size), Var("dest")), LoadWord(result, Var("dest")),
               StoreWord(Var("dest"), Var("tmp")), UnsetEnv("tmp"), UnsetEnv("dest"), d, d2, d4,
               d.(env := Reported(d.env, result, HexText(Printed(d.board.littleEndian, Sum(d, r)))), status := 0));
  }

  // ----- a list of ranges -----

  predicate BatchReady(d: Device, ranges: seq<Range>, rambase: string, at: nat) {
    && ScratchReady(d, rambase, at)
    && (forall i :: 0 <= i < |ranges| ==> InRam(d, ranges[i].addr, ranges[i].size))
    && (forall i: nat :: i < |ranges| ==> rambase != Key(i))
  }

  /** What `_i` prints. */
  function PrintedText(d: Device, r: Range): string
    requires InRam(d, r.addr, r.size)
  {
    HexText(Printed(d.board.littleEndian, Sum(d, r)))
  }

  function ReportedAll(d: Device, ranges: seq<Range>): Vars
    requires forall i :: 0 <= i < |ranges| ==> InRam(d, ranges[i].addr, ranges[i].size)
  {
    if ranges == [] then d.env else
      var n := |ranges| - 1;
      Reported(ReportedAll(d, ranges[..n]), Key(n), PrintedText(d, ranges[n]))
  }

  lemma {:induction false} ReportedKey(d: Device, ranges: seq<Range>, i: nat)
    requires forall j :: 0 <= j < |ranges| ==> InRam(d, ranges[j].addr, ranges[j].size)
    requires i < |ranges|
    ensures Key(i) in ReportedAll(d, ranges) && ReportedAll(d, ranges)[Key(i)] == PrintedText(d, ranges[i])
    decreases |ranges|
  {
    var n := |ranges| - 1;
    KeysDiffer(i, n);
    KeysDiffer(n, n);
    if i < n {
      ReportedKey(d, ranges[..n], i);
      ReportedBoth(ReportedAll(d, ranges[..n]), Key(i), Key(n), PrintedText(d, ranges[n]));
    }
  }

  lemma ReportedBoth(env: Vars, name: string, result: string, text: string)
    requires name in env && name != result && name != "tmp" && name != "dest"
    ensures name in Reported(env, result, text) && Reported(env, result, text)[name] == env[name]
  {
  }

  lemma {:induction false} ReportedOther(d: Device, ranges: seq<Range>, name: string)
    requires forall j :: 0 <= j < |ranges| ==> InRam(d, ranges[j].addr, ranges[j].size)
    requires name != "tmp" && name != "dest" && forall i: nat :: i < |ranges| ==> name != Key(i)
    ensures name in ReportedAll(d, ranges) <==> name in d.env
    ensures name in d.env ==> ReportedAll(d, ranges)[name] == d.env[name]
    decreases |ranges|
  {
    if ranges != [] {
      var n := |ranges| - 1;
      ReportedOther(d, ranges[..n], name);
      assert name != Key(n);
    }
  }

  /** The state after the batch. */
  function Checked(d: Device, ranges: seq<Range>): Device
    requires forall i :: 0 <= i < |ranges| ==> InRam(d, ranges[i].addr, ranges[i].size)
  {
    d.(env := ReportedAll(d, ranges), status := if ranges == [] then d.status else 0)
  }

  lemma CheckedStep(d: Device, ranges: seq<Range>)
    requires ranges != [] && forall i :: 0 <= i < |ranges| ==> InRam(d, ranges[i].addr, ranges[i].size)
    ensures
      var r := ranges[|ranges| - 1];
      InRam(Checked(d, ranges[..|ranges| - 1]), r.addr, r.size)
    ensures
      var n := |ranges| - 1;
      var e := Checked(d, ranges[..n]);
      e.(env := Reported(e.env, Key(n), HexText(Printed(e.board.littleEndian, Sum(e, ranges[n])))), status := 0) ==
      Checked(d, ranges)
  {
  }

  lemma CheckedReady(d: Device, ranges: seq<Range>, rambase: string, at: nat)
    requires BatchReady(d, ranges, rambase, at)
    ensures ScratchReady(Checked(d, ranges), rambase, at)
  {
    ReportedOther(d, ranges, rambase);
    NumberFrame(d, Checked(d, ranges), rambase);
  }

  /**
   The whole batch: memory, flash and the chip state are as before, whatever the
   ranges overlap, and the i-th variable prints the checksum of the i-th range of
   the memory the script found.
   */
  lemma {:induction false} BatchEffect(d: Device, ranges: seq<Range>, rambase: string, at: nat)
    requires BatchReady(d, ranges, rambase, at)
    ensures Run(d, BatchScript(ranges, rambase)) == Checked(d, ranges)
    decreases |ranges|
  {
    if ranges != [] {
      var n := |ranges| - 1;
      BatchEffect(d, ranges[..n], rambase, at);
      CheckedReady(d, ranges[..n], rambase, at);
      KeysDiffer(n, n);
      CrcScriptEffect(Checked(d, ranges[..n]), ranges[n], rambase, at, Key(n));
      CheckedStep(d, ranges);
      Compose(d, BatchScript(ranges[..n], rambase), Checked(d, ranges[..n]),
              CrcScript(ranges[n], rambase, Key(n)), Checked(d, ranges));
    }
  }

  // ----- the host's side -----

  /** `struct.unpack` on what `bytes.fromhex` makes of a printed word. */
  function Unpack(text: string, le: bool): (w: nat)
    requires AllHex(ZFill(text, 8)) && |ZFill(text, 8)| == 8
  {
    if le then FromLittle(FromHex(ZFill(text, 8))) else FromBig(FromHex(ZFill(text, 8)))
  }

  /** The checksum the host computes from a printed word. */
  function Decoded(littleEndian: bool, le: bool, c: word): (w: nat) {
    WordText(Printed(littleEndian, c));
    Unpack(HexText(Printed(littleEndian, c)), le)
  }

  /** With the device's own byte order the host gets the checksum back, dropped leading zeros included. */
  lemma DecodedRight(littleEndian: bool, c: word)
    ensures Decoded(littleEndian, littleEndian, c) == c
  {
    var b := BigEndian(c, 4);
    Pow256Four();
    WordText(Printed(littleEndian, c));
    FromBigOfBigEndian(c, 4);
    ReverseTwice(b);
    BigEndianOfFromBig(b);
    BigEndianOfFromBig(Reverse(b));
  }

  /** With the other order it gets some other number, but still tells different checksums apart. */
  lemma DecodedDistinguishes(littleEndian: bool, le: bool, c: word, c': word)
    ensures Decoded(littleEndian, le, c) == Decoded(littleEndian, le, c') <==> c == c'
  {
    DecodedBytes(littleEndian, le, c);
    DecodedBytes(littleEndian, le, c');
    Pow256Four();
    FromBigOfBigEndian(c, 4);
    FromBigOfBigEndian(c', 4);
    ReverseTwice(BigEndian(c, 4));
    ReverseTwice(BigEndian(c', 4));
  }

  lemma DecodedBytes(littleEndian: bool, le: bool, c: word)
    ensures BigEndian(Decoded(littleEndian, le, c), 4) ==
            if littleEndian == le then BigEndian(c, 4) else Reverse(BigEndian(c, 4))
  {
    var b := BigEndian(c, 4);
    WordText(Printed(littleEndian, c));
    ReverseTwice(b);
    BigEndianOfFromBig(b);
    BigEndianOfFromBig(Reverse(b));
  }

  /** One key's text, read as the host reads it. */
  lemma DecodeReply(d: Device, ranges: seq<Range>, i: nat, le: bool)
    requires forall j :: 0 <= j < |ranges| ==> InRam(d, ranges[j].addr, ranges[j].size)
    requires i < |ranges|
    ensures Key(i) in ReportedAll(d, ranges)
    ensures
      var text := ReportedAll(d, ranges)[Key(i)];
      && AllHex(ZFill(text, 8)) && |ZFill(text, 8)| == 8
      && Unpack(text, le) == Decoded(d.board.littleEndian, le, Sum(d, ranges[i]))
  {
    ReportedKey(d, ranges, i);
    WordText(Printed(d.board.littleEndian, Sum(d, ranges[i])));
  }

  lemma BatchScriptSnoc(ranges: seq<Range>, i: nat, rambase: string)
    requires i < |ranges|
    ensures BatchScript(ranges[..i + 1], rambase) ==
      BatchScript(ranges[..i], rambase) + CrcScript(ranges[i], rambase, Key(i))
  {
    assert ranges[..i + 1][..i] == ranges[..i];
  }

  method BuildBatch(ranges: seq<Range>, rambase: string) returns (cmds: seq<Cmd>)
    ensures cmds == BatchScript(ranges, rambase)
  {
    cmds := [];
    for i := 0 to |ranges|
      invariant cmds == BatchScript(ranges[..i], rambase)
    {
      cmds := cmds + CrcScript(ranges[i], rambase, Key(i));
      BatchScriptSnoc(ranges, i, rambase);
    }
    assert ranges[..|ranges|] == ranges;
  }

  /** What the host makes of the whole reply. */
  function HostView(d: Device, ranges: seq<Range>, le: bool): (res: seq<nat>)
    requires forall j :: 0 <= j < |ranges| ==> InRam(d, ranges[j].addr, ranges[j].size)
    ensures |res| == |ranges|
    ensures forall i :: 0 <= i < |ranges| ==> res[i] == Decoded(d.board.littleEndian, le, Sum(d, ranges[i]))
  {
    seq(|ranges|, i requires 0 <= i < |ranges| => Decoded(d.board.littleEndian, le, Sum(d, ranges[i])))
  }

  method DecodeAll(env: Vars, le: bool, ghost d: Device, ranges: seq<Range>)
    returns (res: seq<nat>)
    requires forall j :: 0 <= j < |ranges| ==> InRam(d, ranges[j].addr, ranges[j].size)
    requires env == ReportedAll(d, ranges)
    ensures res == HostView(d, ranges, le)
  {
    res := [];
    for i := 0 to |ranges|
      invariant res == HostView(d, ranges[..i], le)
    {
      DecodeReply(d, ranges, i, le);
      var text := env[Key(i)];
      res := res + [Unpack(text, le)];
      HostViewSnoc(d, ranges, le, i);
    }
    assert ranges[..|ranges|] == ranges;
  }

  lemma HostViewSnoc(d: Device, ranges: seq<Range>, le: bool, i: nat)
    requires i < |ranges| && forall j :: 0 <= j < |ranges| ==> InRam(d, ranges[j].addr, ranges[j].size)
    ensures HostView(d, ranges[..i + 1], le) ==
            HostView(d, ranges[..i], le) + [Decoded(d.board.littleEndian, le, Sum(d, ranges[i]))]
  {
  }

  /** Several checksums in one script and one reply: `e.env` is what the device reports back. */
  method ChecksumAll(d: Device, rambase: string, ghost at: nat, ranges: seq<Range>, le: bool)
    returns (e: Device, res: seq<nat>)
    requires BatchReady(d, ranges, rambase, at)
    ensures e.ram == d.ram && e.flash == d.flash
    ensures res == HostView(d, ranges, le)
  {
    var cmds := BuildBatch(ranges, rambase);
    BatchEffect(d, ranges, rambase, at);
    e := Run(d, cmds);
    res := DecodeAll(e.env, le, d, ranges);
  }

  /** With the device's own order the results are the checksums themselves. */
  lemma ChecksumsRight(d: Device, ranges: seq<Range>)
    requires forall i :: 0 <= i < |ranges| ==> InRam(d, ranges[i].addr, ranges[i].size)
    ensures forall i :: 0 <= i < |ranges| ==> HostView(d, ranges, d.board.littleEndian)[i] == Sum(d, ranges[i])
  {
    forall i | 0 <= i < |ranges| ensures HostView(d, ranges, d.board.littleEndian)[i] == Sum(d, ranges[i]) {
      DecodedRight(d.board.littleEndian, Sum(d, ranges[i]));
    }
  }

  // ----- which byte order the device has -----

  function EndianScript(rambase: string): seq<Cmd> {
    [LoadWord("tmp", Var(rambase)), StoreWord(Var(rambase), Num(0x11223344)),
     LoadByte("_1", Var(rambase)), StoreWord(Var(rambase), Var("tmp")), UnsetEnv("tmp")]
  }

  lemma ProbeWordBytes()
    ensures BigEndian(0x11223344, 4) == [0x11, 0x22, 0x33, 0x44]
    ensures LittleEndian(0x11223344, 4) == [0x44, 0x33, 0x22, 0x11]
    ensures HexText(0x44) == "44" && HexText(0x11) == "11"
  {
    assert BigEndian(0x11, 1) == [0x11];
    assert BigEndian(0x1122, 2) == [0x11, 0x22];
    assert BigEndian(0x112233, 3) == [0x11, 0x22, 0x33];
    assert HexText(4) == "4" && HexText(1) == "1";
  }

  lemma LoadByteRule(d: Device, name: string, addr: Arg, a: nat)
    requires Number(d, addr) == Some(a) && InRam(d, a, 1)
    ensures Step(d, LoadByte(name, addr)) == SetVar(d, name, HexText(d.ram[a]))
  {
    assert ByteAt(d, Some(a)) == Some(d.ram[a]);
    SetNumberFits(d, name, d.ram[a]);
  }

  lemma EndianFirst(d: Device, rambase: string, at: nat)
    requires ScratchReady(d, rambase, at) && rambase != "_1"
    ensures
      var e := SetVar(d, "tmp", HexText(NativeWord(d, at)))
               .(ram := Splice(d.ram, at, NativeBytes(d, 0x11223344)), status := 0);
      && Step(Step(d, LoadWord("tmp", Var(rambase))), StoreWord(Var(rambase), Num(0x11223344))) == e
      && Number(e, Var(rambase)) == Some(at) && Number(e, Var("tmp")) == Some(NativeWord(d, at))
  {
    var d1 := SetVar(d, "tmp", HexText(NativeWord(d, at)));
    LoadWordRule(d, "tmp", Var(rambase), at);
    VarNumber(d, "tmp", NativeWord(d, at));
    NumberFrame(d, d1, rambase);
    var v := Num(0x11223344);
    StoreWordRule(d1, Var(rambase), v, at, 0x11223344);
    var e := d1.(ram := Splice(d.ram, at, NativeBytes(d, 0x11223344)), status := 0);
    NumberFrame(d, e, rambase);
    NumberFrame(d1, e, "tmp");
  }

  lemma EndianLast(d: Device, rambase: string, at: nat, w: word)
    requires Number(d, Var(rambase)) == Some(at) && rambase in d.env && rambase != "_1" && InRam(d, at, 4)
    requires Number(d, Var("tmp")) == Some(w) && "tmp" in d.env
    ensures
      Step(Step(Step(d, LoadByte("_1", Var(rambase))), StoreWord(Var(rambase), Var("tmp"))), UnsetEnv("tmp")) ==
      d.(ram := Splice(d.ram, at, NativeBytes(d, w)), env := d.env["_1" := HexText(d.ram[at])] - {"tmp"}, status := 0)
  {
    LoadByteRule(d, "_1", Var(rambase), at);
    var d3 := SetVar(d, "_1", HexText(d.ram[at]));
    NumberFrame(d, d3, rambase);
    NumberFrame(d, d3, "tmp");
    StoreWordRule(d3, Var(rambase), Var("tmp"), at, w);
    UnsetRule(d3.(ram := Splice(d.ram, at, NativeBytes(d, w)), status := 0), "tmp");
  }

  lemma FiveSteps(c0: Cmd, c1: Cmd, c2: Cmd, c3: Cmd, c4: Cmd, d: Device, d2: Device, d5: Device)
    requires Step(Step(d, c0), c1) == d2 && Step(Step(Step(d2, c2), c3), c4) == d5
    ensures Run(d, [c0, c1, c2, c3, c4]) == d5
  {
    RunTwo(d, c0, c1);
    RunThree(d2, c2, c3, c4);
    Compose(d, [c0, c1], d2, [c2, c3, c4], d5);
    assert [c0, c1, c2, c3, c4] == [c0, c1] + [c2, c3, c4];
  }

  lemma EndianRuns(d: Device, rambase: string, at: nat)
    requires ScratchReady(d, rambase, at) && rambase != "_1"
    ensures
      var first := HexText(NativeBytes(d, 0x11223344)[0]);
      Run(d, EndianScript(rambase)) ==
      d.(env := d.env["tmp" := HexText(NativeWord(d, at))]["_1" := first] - {"tmp"}, status := 0)
  {
    EndianFirst(d, rambase, at);
    var w := NativeWord(d, at);
    var bytes := NativeBytes(d, 0x11223344);
    var d2 := SetVar(d, "tmp", HexText(w)).(ram := Splice(d.ram, at, bytes), status := 0);
    EndianLast(d2, rambase, at, w);
    NativeRoundTrip(d, at);
    ScratchRestored(d.ram, at, bytes);
    assert d2.ram[at] == d2.ram[at..at + 4][0] == bytes[0];
    FiveSteps(LoadWord("tmp", Var(rambase)), StoreWord(Var(rambase), Num(0x11223344)), LoadByte("_1", Var(rambase)),
              StoreWord(Var(rambase), Var("tmp")), UnsetEnv("tmp"), d, d2,
              d.(env := d2.env["_1" := HexText(bytes[0])] - {"tmp"}, status := 0));
  }

  /** The test reports "44" exactly on a little-endian device and leaves memory as it was. */
  lemma EndianEffect(d: Device, rambase: string, at: nat)
    requires ScratchReady(d, rambase, at) && rambase != "_1"
    ensures
      var e := Run(d, EndianScript(rambase));
      && e.ram == d.ram && e.flash == d.flash
      && "_1" in e.env && (e.env["_1"] == "44" <==> d.board.littleEndian)
  {
    EndianRuns(d, rambase, at);
    ProbeWordBytes();
  }
}
