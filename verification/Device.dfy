/**
 A U-Boot target as the generated scripts see it: memory, one NOR chip,
 environment variables, the exit status of the last command, and a network
 that serves static files and accepts uploads.

 A command whose operands are malformed or out of range fails: it sets the exit
 status to 1 and changes nothing else.
 */
module Device {
  import opened Wrappers
  import opened Bytes

  type Vars = map<string, string>

  /** What does not change while a script runs. */
  datatype Board = Board(
    eraseSize: nat,          // granularity of `sf erase`
    littleEndian: bool,
    crc: bytes -> word,      // the board's crc32 command, an arbitrary function
    files: map<string, bytes>)  // what the server offers under its static root

  datatype Upload = Upload(remote: string, body: bytes)

  datatype Device = Device(
    board: Board,
    ram: bytes,
    flash: bytes,
    probed: bool,            // `sf probe` has selected the chip
    env: Vars,
    status: nat,             // `$?`
    sent: seq<Upload>)       // uploads the server has received, oldest first

  datatype Arg = Lit(text: string) | Var(name: string) | ExitStatus

  datatype Cmd =
    | Echo(message: string)
    | SfProbe
    | SfRead(addr: Arg, offset: Arg, len: Arg)
    | SfErase(offset: Arg, len: Arg)
    | SfWrite(addr: Arg, offset: Arg, len: Arg)
    | FillBytes(addr: Arg, value: Arg, count: Arg)     // mw.b
    | StoreWord(addr: Arg, value: Arg)                 // mw.l ... 1
    | AddTo(name: string, left: Arg, right: Arg)       // setexpr name a + b
    | WordOf(name: string, value: Arg)                 // setexpr.l name a
    | LoadWord(name: string, addr: Arg)                // setexpr.l name *a
    | LoadByte(name: string, addr: Arg)                // setexpr.b name *a
    | SetEnv(name: string, value: Arg)                 // also hush's name=value
    | UnsetEnv(name: string)
    | Crc32(addr: Arg, len: Arg, dest: Arg)
    | TftpBoot(addr: Arg, remote: string)
    | TftpPut(addr: Arg, len: Arg, remote: string)

  // ----- operands -----

  function StatusText(status: nat): string {
    if status == 0 then "0" else "1"
  }

  function Text(d: Device, a: Arg): string {
    match a
    case Lit(text) => text
    case Var(name) => if name in d.env then d.env[name] else ""
    case ExitStatus => StatusText(d.status)
  }

  /** U-Boot reads every number as hexadecimal, with or without a prefix. */
  function ParseNumber(s: string): Option<nat> {
    var digits := if |s| >= 2 && s[..2] == "0x" then s[2..] else s;
    if digits != "" && AllHex(digits) then Some(HexValue(digits)) else None
  }

  function Number(d: Device, a: Arg): Option<nat> {
    ParseNumber(Text(d, a))
  }

  lemma ParseHexText(n: nat)
    ensures ParseNumber(HexText(n)) == Some(n)
    ensures ParseNumber(HexLiteral(n)) == Some(n)
  {
    var s := HexText(n);
    if |s| >= 2 {
      assert HexDigit(s[1]);
      assert s[..2][1] == s[1] != 'x';
    }
    assert HexLiteral(n)[..2] == "0x" && HexLiteral(n)[2..] == s;
  }

  function Num(n: nat): (a: Arg)
    ensures forall d: Device {:trigger Number(d, a)} :: Number(d, a) == Some(n)
  {
    ParseHexText(n);
    Lit(HexLiteral(n))
  }

  predicate InRam(d: Device, addr: nat, len: nat) {
    addr + len <= |d.ram|
  }

  predicate InFlash(d: Device, offset: nat, len: nat) {
    d.probed && offset + len <= |d.flash|
  }

  // ----- one command -----

  function Fail(d: Device): Device {
    d.(status := 1)
  }

  function Done(d: Device): Device {
    d.(status := 0)
  }

  function SetVar(d: Device, name: string, value: string): Device {
    d.(env := d.env[name := value], status := 0)
  }

  function NativeWord(d: Device, addr: nat): (w: word)
    requires InRam(d, addr, 4)
  {
    var b := d.ram[addr..addr + 4];
    Pow256Four();
    FromBigBound(b);
    FromBigBound(Reverse(b));
    if d.board.littleEndian then FromLittle(b) else FromBig(b)
  }

  function NativeBytes(d: Device, w: nat): (b: bytes)
    ensures |b| == 4
  {
    if d.board.littleEndian then LittleEndian(w, 4) else BigEndian(w, 4)
  }

  /** A `tftpboot` that received `body`: it also records what it loaded and where. */
  function Receive(d: Device, addr: nat, body: bytes): Device
    requires InRam(d, addr, |body|)
  {
    d.(ram := Splice(d.ram, addr, body),
       env := d.env["filesize" := HexText(|body|)]["fileaddr" := HexText(addr)],
       status := 0)
  }

  function LowByte(n: nat): byte {
    if n < 256 then n else n % 256
  }

  function LowWord(n: nat): word {
    if n < 0x1_0000_0000 then n else n % 0x1_0000_0000
  }

  function SfReadAt(d: Device, addr: Option<nat>, offset: Option<nat>, len: Option<nat>): Device {
    if addr.Some? && offset.Some? && len.Some? && InRam(d, addr.value, len.value) && InFlash(d, offset.value, len.value)
    then d.(ram := Splice(d.ram, addr.value, d.flash[offset.value..offset.value + len.value]), status := 0)
    else Fail(d)
  }

  function SfEraseAt(d: Device, offset: Option<nat>, len: Option<nat>): Device {
    if && offset.Some? && len.Some? && InFlash(d, offset.value, len.value)
       && Aligned(d, offset.value) && Aligned(d, len.value)
    then d.(flash := Splice(d.flash, offset.value, Fill(len.value, 0xFF)), status := 0)
    else Fail(d)
  }

  function SfWriteAt(d: Device, addr: Option<nat>, offset: Option<nat>, len: Option<nat>): Device {
    if addr.Some? && offset.Some? && len.Some? && InRam(d, addr.value, len.value) && InFlash(d, offset.value, len.value)
    then
      var before := d.flash[offset.value..offset.value + len.value];
      var data := d.ram[addr.value..addr.value + len.value];
      d.(flash := Splice(d.flash, offset.value, AndAll(before, data)), status := 0)
    else Fail(d)
  }

  function FillAt(d: Device, addr: Option<nat>, value: Option<nat>, count: Option<nat>): Device {
    if addr.Some? && value.Some? && count.Some? && InRam(d, addr.value, count.value)
    then d.(ram := Splice(d.ram, addr.value, Fill(count.value, LowByte(value.value))), status := 0)
    else Fail(d)
  }

  function StoreAt(d: Device, addr: Option<nat>, value: Option<nat>): Device {
    if addr.Some? && value.Some? && InRam(d, addr.value, 4)
    then d.(ram := Splice(d.ram, addr.value, NativeBytes(d, value.value)), status := 0)
    else Fail(d)
  }

  /** `setexpr` stores its 32-bit result as bare hexadecimal digits. */
  function SetNumber(d: Device, name: string, value: Option<nat>): Device {
    if value.Some? then SetVar(d, name, HexText(LowWord(value.value))) else Fail(d)
  }

  function Sum(a: Option<nat>, b: Option<nat>): Option<nat> {
    if a.Some? && b.Some? then Some(a.value + b.value) else None
  }

  function WordAt(d: Device, addr: Option<nat>): Option<nat> {
    if addr.Some? && InRam(d, addr.value, 4) then Some(NativeWord(d, addr.value)) else None
  }

  function ByteAt(d: Device, addr: Option<nat>): Option<nat> {
    if addr.Some? && InRam(d, addr.value, 1) then Some(d.ram[addr.value]) else None
  }

  function CrcAt(d: Device, addr: Option<nat>, len: Option<nat>, dest: Option<nat>): Device {
    if addr.Some? && len.Some? && dest.Some? && InRam(d, addr.value, len.value) && InRam(d, dest.value, 4)
    then
      var sum := d.board.crc(d.ram[addr.value..addr.value + len.value]);
      d.(ram := Splice(d.ram, dest.value, BigEndian(sum, 4)), status := 0)
    else Fail(d)
  }

  function TftpBootAt(d: Device, addr: Option<nat>, remote: string): Device {
    if addr.Some? && remote in d.board.files && InRam(d, addr.value, |d.board.files[remote]|)
    then Receive(d, addr.value, d.board.files[remote])
    else Fail(d)
  }

  function TftpPutAt(d: Device, addr: Option<nat>, len: Option<nat>, remote: string): Device {
    if addr.Some? && len.Some? && InRam(d, addr.value, len.value)
    then d.(sent := d.sent + [Upload(remote, d.ram[addr.value..addr.value + len.value])], status := 0)
    else Fail(d)
  }

  function Step(d: Device, c: Cmd): Device {
    match c
    case Echo(_) => Done(d)
    case SfProbe => d.(probed := |d.flash| > 0, status := if |d.flash| > 0 then 0 else 1)
    case SfRead(addr, offset, len) => SfReadAt(d, Number(d, addr), Number(d, offset), Number(d, len))
    case SfErase(offset, len) => SfEraseAt(d, Number(d, offset), Number(d, len))
    case SfWrite(addr, offset, len) => SfWriteAt(d, Number(d, addr), Number(d, offset), Number(d, len))
    case FillBytes(addr, value, count) => FillAt(d, Number(d, addr), Number(d, value), Number(d, count))
    case StoreWord(addr, value) => StoreAt(d, Number(d, addr), Number(d, value))
    case AddTo(name, left, right) => SetNumber(d, name, Sum(Number(d, left), Number(d, right)))
    case WordOf(name, value) => SetNumber(d, name, Number(d, value))
    case LoadWord(name, addr) => SetNumber(d, name, WordAt(d, Number(d, addr)))
    case LoadByte(name, addr) => SetNumber(d, name, ByteAt(d, Number(d, addr)))
    case SetEnv(name, value) => SetVar(d, name, Text(d, value))
    case UnsetEnv(name) => d.(env := d.env - {name}, status := 0)
    case Crc32(addr, len, dest) => CrcAt(d, Number(d, addr), Number(d, len), Number(d, dest))
    case TftpBoot(addr, remote) => TftpBootAt(d, Number(d, addr), remote)
    case TftpPut(addr, len, remote) => TftpPutAt(d, Number(d, addr), Number(d, len), remote)
  }

  // ----- rules: a command with known operands -----

  lemma VarNumber(d: Device, name: string, n: nat)
    ensures Number(SetVar(d, name, HexText(n)), Var(name)) == Some(n)
  {
    ParseHexText(n);
    assert Text(SetVar(d, name, HexText(n)), Var(name)) == HexText(n);
  }

  lemma StepAddTo(d: Device, name: string, left: Arg, right: Arg)
    ensures Step(d, AddTo(name, left, right)) == SetNumber(d, name, Sum(Number(d, left), Number(d, right)))
  {
  }

  lemma SetNumberFits(d: Device, name: string, n: word)
    ensures SetNumber(d, name, Some(n)) == SetVar(d, name, HexText(n))
  {
  }

  lemma AddRule(d: Device, name: string, left: Arg, right: Arg, a: nat, b: nat)
    requires Number(d, left) == Some(a) && Number(d, right) == Some(b) && a + b < 0x1_0000_0000
    ensures Step(d, AddTo(name, left, right)) == SetVar(d, name, HexText(a + b))
  {
    StepAddTo(d, name, left, right);
    assert Sum(Number(d, left), Number(d, right)) == Some(a + b);
    SetNumberFits(d, name, a + b);
  }

  lemma UnsetRule(d: Device, name: string)
    ensures Step(d, UnsetEnv(name)) == d.(env := d.env - {name}, status := 0)
  {
  }

  lemma FillRule(d: Device, addr: Arg, value: Arg, count: Arg, a: nat, v: byte, n: nat)
    requires Number(d, addr) == Some(a) && Number(d, value) == Some(v) && Number(d, count) == Some(n)
    requires InRam(d, a, n)
    ensures Step(d, FillBytes(addr, value, count)) == d.(ram := Splice(d.ram, a, Fill(n, v)), status := 0)
  {
  }

  lemma SfReadRule(d: Device, addr: Arg, offset: Arg, len: Arg, a: nat, o: nat, n: nat)
    requires Number(d, addr) == Some(a) && Number(d, offset) == Some(o) && Number(d, len) == Some(n)
    ensures Step(d, SfRead(addr, offset, len)) == SfReadAt(d, Some(a), Some(o), Some(n))
  {
  }

  lemma SfWriteRule(d: Device, addr: Arg, offset: Arg, len: Arg, a: nat, o: nat, n: nat)
    requires Number(d, addr) == Some(a) && Number(d, offset) == Some(o) && Number(d, len) == Some(n)
    ensures Step(d, SfWrite(addr, offset, len)) == SfWriteAt(d, Some(a), Some(o), Some(n))
  {
  }

  lemma SfEraseRule(d: Device, offset: Arg, len: Arg, o: nat, n: nat)
    requires Number(d, offset) == Some(o) && Number(d, len) == Some(n)
    ensures Step(d, SfErase(offset, len)) == SfEraseAt(d, Some(o), Some(n))
  {
  }

  lemma TftpBootRule(d: Device, addr: Arg, remote: string, a: nat)
    requires Number(d, addr) == Some(a)
    ensures Step(d, TftpBoot(addr, remote)) == TftpBootAt(d, Some(a), remote)
  {
  }

  lemma TftpPutRule(d: Device, addr: Arg, len: Arg, remote: string, a: nat, n: nat)
    requires Number(d, addr) == Some(a) && Number(d, len) == Some(n)
    ensures Step(d, TftpPut(addr, len, remote)) == TftpPutAt(d, Some(a), Some(n), remote)
  {
  }

  predicate Aligned(d: Device, n: nat) {
    d.board.eraseSize > 0 && n % d.board.eraseSize == 0
  }

  // ----- a list of commands, each run whatever the previous one did -----

  function Run(d: Device, cs: seq<Cmd>): Device
    decreases |cs|
  {
    if cs == [] then d else Run(Step(d, cs[0]), cs[1..])
  }

  lemma {:induction false} RunAppend(d: Device, a: seq<Cmd>, b: seq<Cmd>)
    ensures Run(d, a + b) == Run(Run(d, a), b)
    decreases |a|
  {
    if a == [] {
      assert a + b == b;
    } else {
      assert (a + b)[1..] == a[1..] + b;
      RunAppend(Step(d, a[0]), a[1..], b);
    }
  }

  /** Echoes print and do nothing else. */
  predicate OnlyEchoes(cs: seq<Cmd>) {
    forall i :: 0 <= i < |cs| ==> cs[i].Echo?
  }

  lemma {:induction false} EchoesDoNothing(d: Device, cs: seq<Cmd>)
    requires OnlyEchoes(cs)
    ensures Run(d, cs) == if cs == [] then d else Done(d)
    decreases |cs|
  {
    if cs != [] {
      EchoesDoNothing(Step(d, cs[0]), cs[1..]);
    }
  }

  lemma StepKeeps(d: Device, c: Cmd)
    ensures Step(d, c).board == d.board
    ensures |Step(d, c).ram| == |d.ram| && |Step(d, c).flash| == |d.flash|
    ensures d.sent <= Step(d, c).sent
  {
  }

  lemma RunVia(d: Device, a: seq<Cmd>, e: Device, b: seq<Cmd>)
    requires Run(d, a) == e
    ensures Run(d, a + b) == Run(e, b)
  {
    RunAppend(d, a, b);
  }

  lemma Compose(d: Device, a: seq<Cmd>, d1: Device, b: seq<Cmd>, e: Device)
    requires Run(d, a) == d1 && Run(d1, b) == e
    ensures Run(d, a + b) == e
  {
    RunAppend(d, a, b);
  }

  /** Messages around a script make no difference to one that leaves status 0. */
  lemma EchoesAround(d: Device, a: seq<Cmd>, cs: seq<Cmd>, b: seq<Cmd>, e: Device)
    requires OnlyEchoes(a) && OnlyEchoes(b) && e.status == 0
    requires Run(d, cs) == e && Run(Done(d), cs) == e
    ensures Run(d, a + (cs + b)) == e
  {
    EchoesDoNothing(d, a);
    RunAppend(d, a, cs + b);
    var d0 := Run(d, a);
    RunAppend(d0, cs, b);
    EchoesDoNothing(e, b);
  }

  /** No command of a script changes the board or forgets an upload. */
  lemma {:induction false} RunKeeps(d: Device, cs: seq<Cmd>)
    ensures Run(d, cs).board == d.board
    ensures |Run(d, cs).ram| == |d.ram| && |Run(d, cs).flash| == |d.flash|
    ensures d.sent <= Run(d, cs).sent
    decreases |cs|
  {
    if cs != [] {
      StepKeeps(d, cs[0]);
      RunKeeps(Step(d, cs[0]), cs[1..]);
    }
  }
}
