/**
 The hush shell around the commands: a sourced script is a list of lines that is
 parsed completely before anything runs.
 */
module Hush {
  import opened Wrappers
  import opened Device

  /** One emitted script entry. */
  datatype Line =
    | Simple(cmd: Cmd)
    | IfFailed               // if test $? -eq 1; then
    | Else
    | Fi

  datatype Stmt = Do(cmd: Cmd) | Branch(failed: seq<Stmt>, ok: seq<Stmt>)

  /** Statements up to the first line that closes an enclosing branch, and what is left. */
  function ParseBlock(lines: seq<Line>): (r: Option<(seq<Stmt>, seq<Line>)>)
    ensures r.Some? ==> |r.value.1| <= |lines|
    decreases |lines|
  {
    if lines == [] || lines[0].Else? || lines[0].Fi? then Some(([], lines))
    else if lines[0].Simple? then
      match ParseBlock(lines[1..])
      case Some((stmts, rest)) => Some(([Do(lines[0].cmd)] + stmts, rest))
      case None => None
    else
      match ParseBlock(lines[1..])
      case None => None
      case Some((failed, rest)) =>
        if rest == [] then None
        else if rest[0].Else? then
          match ParseBlock(rest[1..])
          case None => None
          case Some((ok, rest')) =>
            if rest' == [] || !rest'[0].Fi? then None else AfterBranch(Branch(failed, ok), ParseBlock(rest'[1..]))
        else AfterBranch(Branch(failed, []), ParseBlock(rest[1..]))
  }

  function AfterBranch(branch: Stmt, next: Option<(seq<Stmt>, seq<Line>)>): Option<(seq<Stmt>, seq<Line>)> {
    match next
    case None => None
    case Some((stmts, rest)) => Some(([branch] + stmts, rest))
  }

  /** A script is well nested when the whole of it is one block. */
  function Parse(lines: seq<Line>): Option<seq<Stmt>> {
    match ParseBlock(lines)
    case Some((stmts, rest)) => if rest == [] then Some(stmts) else None
    case None => None
  }

  function ExecStmt(d: Device, s: Stmt): Device
    decreases s
  {
    match s
    case Do(cmd) => Step(d, cmd)
    // the test itself leaves status 0 when it holds and 1 when it does not
    case Branch(failed, ok) =>
      if d.status == 1 then ExecBlock(d.(status := 0), failed) else ExecBlock(d.(status := 1), ok)
  }

  function ExecBlock(d: Device, stmts: seq<Stmt>): Device
    decreases stmts
  {
    if stmts == [] then d else ExecBlock(ExecStmt(d, stmts[0]), stmts[1..])
  }

  /** Sourcing: a script that does not parse runs nothing. */
  function Source(d: Device, lines: seq<Line>): Device {
    match Parse(lines)
    case Some(stmts) => ExecBlock(d, stmts)
    case None => d.(status := 1)
  }

  function Lines(cs: seq<Cmd>): (lines: seq<Line>)
    ensures |lines| == |cs| && forall i :: 0 <= i < |cs| ==> lines[i] == Simple(cs[i])
  {
    seq(|cs|, i requires 0 <= i < |cs| => Simple(cs[i]))
  }

  function Dos(cs: seq<Cmd>): (stmts: seq<Stmt>)
    ensures |stmts| == |cs| && forall i :: 0 <= i < |cs| ==> stmts[i] == Do(cs[i])
  {
    seq(|cs|, i requires 0 <= i < |cs| => Do(cs[i]))
  }

  lemma {:induction false} ParseSimple(cs: seq<Cmd>)
    ensures ParseBlock(Lines(cs)) == Some((Dos(cs), []))
    decreases |cs|
  {
    if cs == [] {
      assert Lines(cs) == [] && Dos(cs) == [];
    } else {
      assert Lines(cs)[1..] == Lines(cs[1..]);
      ParseSimple(cs[1..]);
      assert Dos(cs) == [Do(cs[0])] + Dos(cs[1..]);
    }
  }

  lemma {:induction false} ExecDos(d: Device, cs: seq<Cmd>)
    ensures ExecBlock(d, Dos(cs)) == Run(d, cs)
    decreases |cs|
  {
    if cs == [] {
      assert Dos(cs) == [];
    } else {
      assert Dos(cs)[0] == Do(cs[0]) && Dos(cs)[1..] == Dos(cs[1..]);
      assert ExecStmt(d, Do(cs[0])) == Step(d, cs[0]);
      ExecDos(Step(d, cs[0]), cs[1..]);
    }
  }

  /** A script of plain commands runs them in order. */
  lemma SourceSimple(d: Device, cs: seq<Cmd>)
    ensures Source(d, Lines(cs)) == Run(d, cs)
  {
    ParseSimple(cs);
    ExecDos(d, cs);
  }

  lemma {:induction false} ExecAppend(d: Device, a: seq<Stmt>, b: seq<Stmt>)
    ensures ExecBlock(d, a + b) == ExecBlock(ExecBlock(d, a), b)
    decreases |a|
  {
    if a == [] {
      assert a + b == b;
    } else {
      assert (a + b)[1..] == a[1..] + b;
      ExecAppend(ExecStmt(d, a[0]), a[1..], b);
    }
  }
}
