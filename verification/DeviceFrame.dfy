/**
 Variables a script does not mention make no difference to it: running it and
 then forgetting the protocol's temporaries is forgetting them first.
 */
module DeviceFrame {
  import opened Wrappers
  import opened Bytes
  import opened Device
  import opened Hush

  const TMP_PREFIX := "__uboot_tftp_recv_"

  /** The names the protocol makes up for its own temporaries. */
  predicate Reserved(name: string) {
    TMP_PREFIX <= name
  }

  function EraseVars(env: Vars): (r: Vars) {
    map k | k in env && !Reserved(k) :: env[k]
  }

  function Erase(d: Device): Device {
    d.(env := EraseVars(d.env))
  }

  predicate PlainArg(a: Arg) {
    a.Var? ==> !Reserved(a.name)
  }

  /** The command neither reads nor writes a temporary. */
  predicate PlainCmd(c: Cmd) {
    match c
    case Echo(_) => true
    case SfProbe => true
    case SfRead(addr, offset, len) => PlainArg(addr) && PlainArg(offset) && PlainArg(len)
    case SfErase(offset, len) => PlainArg(offset) && PlainArg(len)
    case SfWrite(addr, offset, len) => PlainArg(addr) && PlainArg(offset) && PlainArg(len)
    case FillBytes(addr, value, count) => PlainArg(addr) && PlainArg(value) && PlainArg(count)
    case StoreWord(addr, value) => PlainArg(addr) && PlainArg(value)
    case AddTo(name, left, right) => !Reserved(name) && PlainArg(left) && PlainArg(right)
    case WordOf(name, value) => !Reserved(name) && PlainArg(value)
    case LoadWord(name, addr) => !Reserved(name) && PlainArg(addr)
    case LoadByte(name, addr) => !Reserved(name) && PlainArg(addr)
    case SetEnv(name, value) => !Reserved(name) && PlainArg(value)
    case UnsetEnv(name) => !Reserved(name)
    case Crc32(addr, len, dest) => PlainArg(addr) && PlainArg(len) && PlainArg(dest)
    case TftpBoot(addr, _) => PlainArg(addr)
    case TftpPut(addr, len, _) => PlainArg(addr) && PlainArg(len)
  }

  predicate PlainScript(lines: seq<Line>) {
    forall i :: 0 <= i < |lines| && lines[i].Simple? ==> PlainCmd(lines[i].cmd)
  }

  lemma TextErased(d: Device, a: Arg)
    requires PlainArg(a)
    ensures Text(Erase(d), a) == Text(d, a) && Number(Erase(d), a) == Number(d, a)
  {
  }

  lemma SetErased(d: Device, name: string, value: string)
    requires !Reserved(name)
    ensures Erase(SetVar(d, name, value)) == SetVar(Erase(d), name, value)
  {
    assert EraseVars(d.env[name := value]) == EraseVars(d.env)[name := value];
  }

  lemma UnsetErased(d: Device, name: string)
    requires !Reserved(name)
    ensures EraseVars(d.env - {name}) == EraseVars(d.env) - {name}
  {
  }

  lemma ReceiveErased(d: Device, addr: nat, body: bytes)
    requires InRam(d, addr, |body|)
    ensures Erase(Receive(d, addr, body)) == Receive(Erase(d), addr, body)
  {
    var size, where := HexText(|body|), HexText(addr);
    assert !Reserved("filesize") && !Reserved("fileaddr");
    assert EraseVars(d.env["filesize" := size]["fileaddr" := where]) ==
      EraseVars(d.env)["filesize" := size]["fileaddr" := where];
  }

  lemma FlashErased(d: Device, a: Option<nat>, b: Option<nat>, n: Option<nat>)
    ensures SfReadAt(Erase(d), a, b, n) == Erase(SfReadAt(d, a, b, n))
    ensures SfEraseAt(Erase(d), a, b) == Erase(SfEraseAt(d, a, b))
    ensures SfWriteAt(Erase(d), a, b, n) == Erase(SfWriteAt(d, a, b, n))
  {
  }

  lemma MemoryErased(d: Device, a: Option<nat>, b: Option<nat>, n: Option<nat>, remote: string)
    ensures FillAt(Erase(d), a, b, n) == Erase(FillAt(d, a, b, n))
    ensures StoreAt(Erase(d), a, b) == Erase(StoreAt(d, a, b))
    ensures CrcAt(Erase(d), a, b, n) == Erase(CrcAt(d, a, b, n))
    ensures TftpPutAt(Erase(d), a, b, remote) == Erase(TftpPutAt(d, a, b, remote))
  {
  }

  lemma FlashCmdErased(d: Device, c: Cmd)
    requires PlainCmd(c) && (c.Echo? || c.SfProbe? || c.SfRead? || c.SfErase? || c.SfWrite?)
    ensures Step(Erase(d), c) == Erase(Step(d, c))
  {
    match c
    case SfRead(a, b, n) =>
      TextErased(d, a);
      TextErased(d, b);
      TextErased(d, n);
      FlashErased(d, Number(d, a), Number(d, b), Number(d, n));
    case SfErase(a, b) =>
      TextErased(d, a);
      TextErased(d, b);
      FlashErased(d, Number(d, a), Number(d, b), None);
    case SfWrite(a, b, n) =>
      TextErased(d, a);
      TextErased(d, b);
      TextErased(d, n);
      FlashErased(d, Number(d, a), Number(d, b), Number(d, n));
    case _ =>
  }

  lemma MemoryCmdErased(d: Device, c: Cmd)
    requires PlainCmd(c) && (c.FillBytes? || c.StoreWord? || c.Crc32? || c.TftpPut?)
    ensures Step(Erase(d), c) == Erase(Step(d, c))
  {
    match c
    case FillBytes(a, b, n) =>
      TextErased(d, a);
      TextErased(d, b);
      TextErased(d, n);
      MemoryErased(d, Number(d, a), Number(d, b), Number(d, n), "");
    case StoreWord(a, b) =>
      TextErased(d, a);
      TextErased(d, b);
      MemoryErased(d, Number(d, a), Number(d, b), None, "");
    case Crc32(a, b, n) =>
      TextErased(d, a);
      TextErased(d, b);
      TextErased(d, n);
      MemoryErased(d, Number(d, a), Number(d, b), Number(d, n), "");
    case TftpPut(a, b, remote) =>
      TextErased(d, a);
      TextErased(d, b);
      MemoryErased(d, Number(d, a), Number(d, b), None, remote);
  }

  lemma PeekErased(d: Device, at: Option<nat>)
    ensures WordAt(Erase(d), at) == WordAt(d, at) && ByteAt(Erase(d), at) == ByteAt(d, at)
  {
  }

  lemma VarCmdErased(d: Device, c: Cmd)
    requires PlainCmd(c) && (c.AddTo? || c.WordOf? || c.LoadWord? || c.LoadByte? || c.SetEnv? || c.UnsetEnv?)
    ensures Step(Erase(d), c) == Erase(Step(d, c))
  {
    match c
    case AddTo(name, a, b) =>
      TextErased(d, a);
      TextErased(d, b);
      NumberErased(d, name, Sum(Number(d, a), Number(d, b)));
    case WordOf(name, a) =>
      TextErased(d, a);
      NumberErased(d, name, Number(d, a));
    case LoadWord(name, a) =>
      TextErased(d, a);
      PeekErased(d, Number(d, a));
      NumberErased(d, name, WordAt(d, Number(d, a)));
    case LoadByte(name, a) =>
      TextErased(d, a);
      PeekErased(d, Number(d, a));
      NumberErased(d, name, ByteAt(d, Number(d, a)));
    case SetEnv(name, a) =>
      TextErased(d, a);
      SetErased(d, name, Text(d, a));
    case UnsetEnv(name) => UnsetErased(d, name);
  }

  lemma LoadErased(d: Device, at: Option<nat>, remote: string)
    ensures TftpBootAt(Erase(d), at, remote) == Erase(TftpBootAt(d, at, remote))
  {
    if at.Some? && remote in d.board.files && InRam(d, at.value, |d.board.files[remote]|) {
      ReceiveErased(d, at.value, d.board.files[remote]);
    }
  }

  lemma TftpBootErased(d: Device, a: Arg, remote: string)
    requires PlainArg(a)
    ensures Step(Erase(d), TftpBoot(a, remote)) == Erase(Step(d, TftpBoot(a, remote)))
  {
    TextErased(d, a);
    LoadErased(d, Number(d, a), remote);
  }

  /** Forgetting the temporaries first, or after a command that leaves them alone, is the same. */
  lemma StepErased(d: Device, c: Cmd)
    requires PlainCmd(c)
    ensures Step(Erase(d), c) == Erase(Step(d, c))
  {
    if c.TftpBoot? {
      TftpBootErased(d, c.addr, c.remote);
    } else if c.AddTo? || c.WordOf? || c.LoadWord? || c.LoadByte? || c.SetEnv? || c.UnsetEnv? {
      VarCmdErased(d, c);
    } else if c.FillBytes? || c.StoreWord? || c.Crc32? || c.TftpPut? {
      MemoryCmdErased(d, c);
    } else {
      FlashCmdErased(d, c);
    }
  }

  lemma NumberErased(d: Device, name: string, value: Option<nat>)
    requires !Reserved(name)
    ensures SetNumber(Erase(d), name, value) == Erase(SetNumber(d, name, value))
  {
    if value.Some? {
      SetErased(d, name, HexText(LowWord(value.value)));
    }
  }

  /** A temporary that is set after the command was set before it. */
  predicate TempsKept(d: Device, e: Device) {
    forall k :: k in e.env && Reserved(k) ==> k in d.env && e.env[k] == d.env[k]
  }

  predicate SetsVars(c: Cmd) {
    c.AddTo? || c.WordOf? || c.LoadWord? || c.LoadByte? || c.SetEnv? || c.UnsetEnv? || c.TftpBoot?
  }

  lemma OtherCmdKeepsVars(d: Device, c: Cmd)
    requires !SetsVars(c)
    ensures Step(d, c).env == d.env
  {
  }

  lemma NumberKeepsTemps(d: Device, name: string, value: Option<nat>)
    requires !Reserved(name)
    ensures TempsKept(d, SetNumber(d, name, value))
  {
  }

  lemma LoadKeepsTemps(d: Device, at: Option<nat>, remote: string)
    ensures TempsKept(d, TftpBootAt(d, at, remote))
  {
    assert !Reserved("filesize") && !Reserved("fileaddr");
  }

  lemma StepKeepsTemps(d: Device, c: Cmd)
    requires PlainCmd(c)
    ensures TempsKept(d, Step(d, c))
  {
    match c
    case AddTo(name, a, b) => NumberKeepsTemps(d, name, Sum(Number(d, a), Number(d, b)));
    case WordOf(name, a) => NumberKeepsTemps(d, name, Number(d, a));
    case LoadWord(name, a) => NumberKeepsTemps(d, name, WordAt(d, Number(d, a)));
    case LoadByte(name, a) => NumberKeepsTemps(d, name, ByteAt(d, Number(d, a)));
    case SetEnv(_, _) =>
    case UnsetEnv(_) =>
    case TftpBoot(a, remote) => LoadKeepsTemps(d, Number(d, a), remote);
    case _ => OtherCmdKeepsVars(d, c);
  }

  // ----- scripts -----

  predicate PlainStmt(s: Stmt)
    decreases s
  {
    match s
    case Do(cmd) => PlainCmd(cmd)
    case Branch(failed, ok) => PlainBlock(failed) && PlainBlock(ok)
  }

  predicate PlainBlock(stmts: seq<Stmt>)
    decreases stmts
  {
    forall i :: 0 <= i < |stmts| ==> PlainStmt(stmts[i])
  }

  lemma {:induction false} ParsePlain(lines: seq<Line>)
    requires PlainScript(lines)
    ensures ParseBlock(lines).Some? ==> PlainBlock(ParseBlock(lines).value.0) && PlainScript(ParseBlock(lines).value.1)
    decreases |lines|
  {
    if lines != [] && !lines[0].Else? && !lines[0].Fi? {
      ParsePlain(lines[1..]);
      if lines[0].IfFailed? && ParseBlock(lines[1..]).Some? {
        var (failed, rest) := ParseBlock(lines[1..]).value;
        if rest != [] {
          ParsePlain(rest[1..]);
          if rest[0].Else? && ParseBlock(rest[1..]).Some? {
            var (ok, rest') := ParseBlock(rest[1..]).value;
            if rest' != [] {
              ParsePlain(rest'[1..]);
              assert PlainStmt(Branch(failed, ok));
            }
          } else {
            assert PlainStmt(Branch(failed, []));
          }
        }
      } else if lines[0].Simple? {
        assert PlainStmt(Do(lines[0].cmd));
      }
    }
  }

  lemma TempsTrans(d: Device, e: Device, f: Device)
    requires TempsKept(d, e) && TempsKept(e, f)
    ensures TempsKept(d, f)
  {
  }

  lemma {:induction false} StmtErased(d: Device, s: Stmt)
    requires PlainStmt(s)
    ensures ExecStmt(Erase(d), s) == Erase(ExecStmt(d, s)) && TempsKept(d, ExecStmt(d, s))
    decreases s
  {
    match s
    case Do(cmd) =>
      StepErased(d, cmd);
      StepKeepsTemps(d, cmd);
    case Branch(failed, ok) =>
      BlockErased(d.(status := 0), failed);
      BlockErased(d.(status := 1), ok);
  }

  lemma {:induction false} BlockErased(d: Device, stmts: seq<Stmt>)
    requires PlainBlock(stmts)
    ensures ExecBlock(Erase(d), stmts) == Erase(ExecBlock(d, stmts)) && TempsKept(d, ExecBlock(d, stmts))
    decreases stmts
  {
    if stmts != [] {
      StmtErased(d, stmts[0]);
      BlockErased(ExecStmt(d, stmts[0]), stmts[1..]);
      TempsTrans(d, ExecStmt(d, stmts[0]), ExecBlock(d, stmts));
    }
  }

  /** Sourcing a script that leaves the temporaries alone. */
  lemma SourceErased(d: Device, lines: seq<Line>)
    requires PlainScript(lines)
    ensures Source(Erase(d), lines) == Erase(Source(d, lines)) && TempsKept(d, Source(d, lines))
  {
    ParsePlain(lines);
    match Parse(lines)
    case Some(stmts) => BlockErased(d, stmts);
    case None =>
  }
}
