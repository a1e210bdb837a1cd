/** Address ranges and their canonical form. */
module Ranges {
  datatype Range = Range(addr: nat, size: nat) {
    function End(): nat {
      addr + size
    }
  }

  predicate Covers(r: Range, a: nat) {
    r.addr <= a < r.End()
  }

  ghost predicate Has(rs: seq<Range>, a: nat) {
    exists r :: r in rs && Covers(r, a)
  }

  /** Both lists describe the same addresses. */
  ghost predicate SameAddresses(rs: seq<Range>, rs': seq<Range>) {
    forall a :: Has(rs, a) <==> Has(rs', a)
  }

  predicate Positive(rs: seq<Range>) {
    forall i :: 0 <= i < |rs| ==> rs[i].size > 0
  }

  /** In increasing order, with at least one uncovered address between neighbours. */
  predicate Gapped(rs: seq<Range>) {
    forall i :: 0 <= i < |rs| - 1 ==> rs[i].End() < rs[i + 1].addr
  }

  // ----- Python's sorted() on pairs -----

  predicate Before(r: Range, r': Range) {
    r.addr < r'.addr || (r.addr == r'.addr && r.size <= r'.size)
  }

  predicate InOrder(rs: seq<Range>) {
    forall i, j :: 0 <= i < j < |rs| ==> Before(rs[i], rs[j])
  }

  function Insert(r: Range, rs: seq<Range>): (out: seq<Range>)
    requires InOrder(rs)
    ensures InOrder(out)
    ensures forall x :: x in out <==> x == r || x in rs
  {
    if rs == [] then [r]
    else if Before(r, rs[0]) then [r] + rs
    else
      var rest := Insert(r, rs[1..]);
      assert forall x :: x in rs <==> x == rs[0] || x in rs[1..];
      assert forall x :: x in rest ==> Before(rs[0], x);
      [rs[0]] + rest
  }

  function Sorted(rs: seq<Range>): (out: seq<Range>)
    ensures InOrder(out)
    ensures forall x :: x in out <==> x in rs
  {
    if rs == [] then [] else
      assert forall x :: x in rs <==> x == rs[0] || x in rs[1..];
      Insert(rs[0], Sorted(rs[1..]))
  }

  lemma SameMembersSameAddresses(rs: seq<Range>, rs': seq<Range>)
    requires forall x :: x in rs <==> x in rs'
    ensures SameAddresses(rs, rs')
  {
  }

  lemma HasSnoc(rs: seq<Range>, r: Range, a: nat)
    ensures Has(rs + [r], a) <==> Has(rs, a) || Covers(r, a)
  {
    if Has(rs, a) {
      var x :| x in rs && Covers(x, a);
      assert x in rs + [r];
    }
    if Covers(r, a) {
      assert r in rs + [r];
    }
  }

  /** What the loop has closed, together with the range it is still growing, is what it has read. */
  ghost predicate Merging(merged: seq<Range>, cur: Range, read: seq<Range>) {
    && (forall a :: Has(merged, a) || Covers(cur, a) <==> Has(read, a))
    && Gapped(merged + [cur])
  }

  lemma Grow(merged: seq<Range>, cur: Range, read: seq<Range>, r: Range)
    requires Merging(merged, cur, read) && cur.addr <= r.addr <= cur.End()
    ensures Merging(merged, Range(cur.addr, (if cur.End() < r.End() then r.End() else cur.End()) - cur.addr),
      read + [r])
  {
    var grown := Range(cur.addr, (if cur.End() < r.End() then r.End() else cur.End()) - cur.addr);
    forall a ensures Has(merged, a) || Covers(grown, a) <==> Has(read + [r], a) {
      HasSnoc(read, r, a);
    }
    var was, now := merged + [cur], merged + [grown];
    forall i | 0 <= i < |now| - 1 ensures now[i].End() < now[i + 1].addr {
      assert was[i].End() < was[i + 1].addr;
    }
  }

  lemma Close(merged: seq<Range>, cur: Range, read: seq<Range>, r: Range)
    requires Merging(merged, cur, read) && cur.End() < r.addr
    ensures Merging(merged + [cur], r, read + [r])
  {
    forall a ensures Has(merged + [cur], a) || Covers(r, a) <==> Has(read + [r], a) {
      HasSnoc(read, r, a);
      HasSnoc(merged, cur, a);
    }
    var now := merged + [cur] + [r];
    forall i | 0 <= i < |now| - 1 ensures now[i].End() < now[i + 1].addr {
      if i < |merged| {
        assert (merged + [cur])[i].End() < (merged + [cur])[i + 1].addr;
      }
    }
  }

  /** The loop's state after reading the first `i` ranges. */
  ghost predicate Reading(merged: seq<Range>, cur: Range, ranges: seq<Range>, i: nat) {
    && 0 < i <= |ranges| && InOrder(ranges)
    && Merging(merged, cur, ranges[..i])
    && cur.addr <= ranges[i - 1].addr
    && (Positive(ranges) ==> Positive(merged) && cur.size > 0)
  }

  function Grown(cur: Range, r: Range): Range {
    Range(cur.addr, (if cur.End() < r.End() then r.End() else cur.End()) - cur.addr)
  }

  lemma ReadGrow(merged: seq<Range>, cur: Range, ranges: seq<Range>, i: nat)
    requires i < |ranges| && Reading(merged, cur, ranges, i) && ranges[i].addr <= cur.End()
    ensures Reading(merged, Grown(cur, ranges[i]), ranges, i + 1)
  {
    assert ranges[..i + 1] == ranges[..i] + [ranges[i]];
    assert Before(ranges[i - 1], ranges[i]);
    Grow(merged, cur, ranges[..i], ranges[i]);
  }

  lemma ReadClose(merged: seq<Range>, cur: Range, ranges: seq<Range>, i: nat)
    requires i < |ranges| && Reading(merged, cur, ranges, i) && cur.End() < ranges[i].addr
    ensures Reading(merged + [cur], ranges[i], ranges, i + 1)
  {
    assert ranges[..i + 1] == ranges[..i] + [ranges[i]];
    Close(merged, cur, ranges[..i], ranges[i]);
  }

  lemma SamePositive(rs: seq<Range>, rs': seq<Range>)
    requires forall x :: x in rs <==> x in rs'
    ensures Positive(rs) <==> Positive(rs')
  {
    forall i | 0 <= i < |rs| ensures rs[i] in rs' {
      assert rs[i] in rs;
    }
    forall i | 0 <= i < |rs'| ensures rs'[i] in rs {
      assert rs'[i] in rs';
    }
  }

  /** Merging adjacent and overlapping ranges of a sorted list. */
  method Coalesce(input: seq<Range>) returns (merged: seq<Range>)
    ensures SameAddresses(merged, input)
    ensures Gapped(merged)
    ensures Positive(input) ==> Positive(merged)
  {
    if input == [] {
      return [];
    }
    var ranges := Sorted(input);
    assert ranges != [] by { assert input[0] in input; }
    SamePositive(input, ranges);
    merged := [];
    var curAddr: nat, curEnd: nat := ranges[0].addr, ranges[0].End();
    assert ranges[..1] == [ranges[0]];
    StartMerging(ranges[0]);
    for i := 1 to |ranges|
      invariant curAddr <= curEnd && Reading(merged, Range(curAddr, curEnd - curAddr), ranges, i)
    {
      ghost var cur := Range(curAddr, curEnd - curAddr);
      var addr, end := ranges[i].addr, ranges[i].End();
      if addr <= curEnd {
        ReadGrow(merged, cur, ranges, i);
        curEnd := if curEnd < end then end else curEnd;
        assert Range(curAddr, curEnd - curAddr) == Grown(cur, ranges[i]);
      } else {
        ReadClose(merged, cur, ranges, i);
        merged := merged + [Range(curAddr, curEnd - curAddr)];
        curAddr, curEnd := addr, end;
        assert Range(curAddr, curEnd - curAddr) == ranges[i];
      }
    }
    assert ranges[..|ranges|] == ranges;
    FinishMerging(merged, Range(curAddr, curEnd - curAddr), ranges, input);
    merged := merged + [Range(curAddr, curEnd - curAddr)];
  }

  lemma StartMerging(r: Range)
    ensures Merging([], r, [r])
  {
    forall a ensures Has([], a) || Covers(r, a) <==> Has([r], a) {
      HasSnoc([], r, a);
      assert [] + [r] == [r];
    }
  }

  lemma FinishMerging(merged: seq<Range>, cur: Range, ranges: seq<Range>, input: seq<Range>)
    requires Merging(merged, cur, ranges) && forall x :: x in ranges <==> x in input
    ensures SameAddresses(merged + [cur], input)
  {
    SameMembersSameAddresses(ranges, input);
    forall a ensures Has(merged + [cur], a) <==> Has(input, a) {
      HasSnoc(merged, cur, a);
    }
  }

  // ----- the result is canonical -----

  lemma {:induction false} LaterStartsPast(rs: seq<Range>, i: nat, j: nat)
    requires Gapped(rs) && i < j < |rs|
    ensures rs[i].End() < rs[j].addr
    decreases j
  {
    if i < j - 1 {
      LaterStartsPast(rs, i, j - 1);
    }
  }

  lemma TailAddresses(rs: seq<Range>, a: nat)
    requires rs != [] && Gapped(rs)
    ensures Has(rs[1..], a) <==> Has(rs, a) && rs[0].End() <= a
  {
    if Has(rs[1..], a) {
      var j :| 0 <= j < |rs[1..]| && Covers(rs[1..][j], a);
      assert rs[1..][j] == rs[j + 1] && rs[j + 1] in rs;
      LaterStartsPast(rs, 0, j + 1);
    }
    if Has(rs, a) && rs[0].End() <= a {
      var j :| 0 <= j < |rs| && Covers(rs[j], a);
      assert j > 0 && rs[1..][j - 1] == rs[j];
    }
  }

  lemma HeadIsFirst(rs: seq<Range>, a: nat)
    requires rs != [] && Gapped(rs) && Has(rs, a)
    ensures rs[0].addr <= a
  {
    var j :| 0 <= j < |rs| && Covers(rs[j], a);
    if j > 0 {
      LaterStartsPast(rs, 0, j);
    }
  }

  lemma HeadEnds(rs: seq<Range>)
    requires rs != [] && Gapped(rs)
    ensures !Has(rs, rs[0].End())
  {
    if Has(rs, rs[0].End()) {
      var j :| 0 <= j < |rs| && Covers(rs[j], rs[0].End());
      LaterStartsPast(rs, 0, j);
      assert false;
    }
  }

  lemma HeadCovered(rs: seq<Range>)
    requires rs != [] && Positive(rs)
    ensures Has(rs, rs[0].addr)
  {
    assert rs[0] in rs && Covers(rs[0], rs[0].addr);
  }

  /** No later end can be inside the other list's first range. */
  lemma HeadNoLonger(rs: seq<Range>, rs': seq<Range>)
    requires rs != [] && rs' != [] && Gapped(rs) && Gapped(rs') && SameAddresses(rs, rs')
    requires rs[0].addr == rs'[0].addr
    ensures rs'[0].End() <= rs[0].End()
  {
    HeadEnds(rs);
    if rs[0].End() < rs'[0].End() {
      assert rs'[0] in rs' && Covers(rs'[0], rs[0].End());
      assert false;
    }
  }

  lemma SameHead(rs: seq<Range>, rs': seq<Range>)
    requires rs != [] && rs' != []
    requires Gapped(rs) && Gapped(rs') && Positive(rs) && Positive(rs') && SameAddresses(rs, rs')
    ensures rs[0] == rs'[0]
  {
    HeadCovered(rs);
    HeadCovered(rs');
    HeadIsFirst(rs, rs'[0].addr);
    HeadIsFirst(rs', rs[0].addr);
    HeadNoLonger(rs, rs');
    HeadNoLonger(rs', rs);
  }

  lemma SameTail(rs: seq<Range>, rs': seq<Range>)
    requires rs != [] && rs' != [] && rs[0] == rs'[0]
    requires Gapped(rs) && Gapped(rs') && SameAddresses(rs, rs')
    ensures SameAddresses(rs[1..], rs'[1..])
  {
    forall a ensures Has(rs[1..], a) <==> Has(rs'[1..], a) {
      TailAddresses(rs, a);
      TailAddresses(rs', a);
    }
  }

  lemma OneEmpty(rs: seq<Range>, rs': seq<Range>)
    requires Positive(rs) && SameAddresses(rs, rs') && rs' == []
    ensures rs == []
  {
    if rs != [] {
      HeadCovered(rs);
    }
  }

  /** Two gapped lists of positive ranges with the same addresses are the same list. */
  lemma {:induction false} CanonicalUnique(rs: seq<Range>, rs': seq<Range>)
    requires Gapped(rs) && Gapped(rs') && Positive(rs) && Positive(rs')
    requires SameAddresses(rs, rs')
    ensures rs == rs'
    decreases |rs|
  {
    if rs == [] {
      OneEmpty(rs', rs);
    } else if rs' == [] {
      OneEmpty(rs, rs');
    } else {
      SameHead(rs, rs');
      SameTail(rs, rs');
      CanonicalUnique(rs[1..], rs'[1..]);
      assert rs == [rs[0]] + rs[1..] && rs' == [rs'[0]] + rs'[1..];
    }
  }

  /** So the result depends only on the addresses: order, duplicates and overlaps of the input do not matter. */
  lemma CoalesceCanonical(input: seq<Range>, merged: seq<Range>, input': seq<Range>, merged': seq<Range>)
    requires SameAddresses(merged, input) && Gapped(merged) && Positive(merged)
    requires SameAddresses(merged', input') && Gapped(merged') && Positive(merged')
    ensures SameAddresses(input, input') <==> merged == merged'
  {
    if SameAddresses(input, input') {
      CanonicalUnique(merged, merged');
    }
  }

  function Starts(rs: seq<Range>): set<nat> {
    set i | 0 <= i < |rs| :: rs[i].addr
  }

  lemma {:induction false} StartsAtMost(rs: seq<Range>)
    ensures |Starts(rs)| <= |rs|
  {
    if rs != [] {
      var n := |rs| - 1;
      StartsAtMost(rs[..n]);
      assert Starts(rs) == Starts(rs[..n]) + {rs[n].addr};
    }
  }

  lemma {:induction false} StartsOfGapped(rs: seq<Range>)
    requires Gapped(rs)
    ensures |Starts(rs)| == |rs|
  {
    if rs != [] {
      var n := |rs| - 1;
      StartsOfGapped(rs[..n]);
      assert Starts(rs) == Starts(rs[..n]) + {rs[n].addr};
      forall i | 0 <= i < n ensures rs[i].addr != rs[n].addr {
        LaterStartsPast(rs, i, n);
      }
    }
  }

  lemma NothingJustBefore(rs: seq<Range>, i: nat)
    requires Gapped(rs) && i < |rs| && rs[i].addr > 0
    ensures !Has(rs, rs[i].addr - 1)
  {
    if Has(rs, rs[i].addr - 1) {
      var j :| 0 <= j < |rs| && Covers(rs[j], rs[i].addr - 1);
      if j < i {
        LaterStartsPast(rs, j, i);
      } else if i < j {
        LaterStartsPast(rs, i, j);
      }
      assert false;
    }
  }

  /** No list of ranges describes the same addresses with fewer entries. */
  lemma CanonicalShortest(rs: seq<Range>, other: seq<Range>)
    requires Gapped(rs) && Positive(rs) && SameAddresses(rs, other)
    ensures |rs| <= |other|
  {
    forall s | s in Starts(rs) ensures s in Starts(other) {
      var i :| 0 <= i < |rs| && rs[i].addr == s;
      assert rs[i] in rs && Covers(rs[i], s);
      assert Has(rs, s);
      var j :| 0 <= j < |other| && Covers(other[j], s);
      if other[j].addr < s {
        NothingJustBefore(rs, i);
        assert other[j] in other && Covers(other[j], s - 1);
      }
    }
    StartsOfGapped(rs);
    StartsAtMost(other);
    SubsetSize(Starts(rs), Starts(other));
  }

  lemma {:induction false} SubsetSize(a: set<nat>, b: set<nat>)
    requires a <= b
    ensures |a| <= |b|
  {
    if a != {} {
      var x :| x in a;
      SubsetSize(a - {x}, b - {x});
    }
  }
}
