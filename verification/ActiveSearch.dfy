/**
 Finding memory that keeps changing: every range is sampled twice, ranges whose
 samples differ are split, and the search ends at the smallest chunk size.
 */
module ActiveSearch {
  import opened Wrappers
  import opened Ranges
  import opened Sequences

  datatype SearchError = ZeroBatch | Indivisible(size: nat)

  /** A checksum of a range, taken at a point in time; memory may change between any two. */
  type Sampler = (nat, Range) -> nat

  // ----- the list operations -----

  /** `range(0, len, size)` slices: a zero step is an error, a negative one gives no slices. */
  function Batched(items: seq<Range>, size: int): (r: Result<seq<seq<Range>>, SearchError>)
    decreases |items|
  {
    if size == 0 then Err(ZeroBatch)
    else if size < 0 || items == [] then Ok([])
    else if |items| <= size then Ok([items])
    else
      match Batched(items[size..], size)
      case Ok(rest) => Ok([items[..size]] + rest)
      case Err(e) => Err(e)
  }

  function Flatten(batches: seq<seq<Range>>): seq<Range> {
    if batches == [] then [] else batches[0] + Flatten(batches[1..])
  }

  /** Every item is in exactly one batch, in order, and no batch is empty or too large. */
  lemma {:induction false} BatchedPartitions(items: seq<Range>, size: int)
    requires size > 0
    ensures
      var r := Batched(items, size);
      && r.Ok? && Flatten(r.value) == items
      && forall i :: 0 <= i < |r.value| ==> 0 < |r.value[i]| <= size
    decreases |items|
  {
    if items != [] {
      if |items| <= size {
        assert Flatten([items]) == items + Flatten([items][1..]);
      } else {
        BatchedPartitions(items[size..], size);
        var rest := Batched(items[size..], size).value;
        var all := [items[..size]] + rest;
        assert all[1..] == rest;
        assert Flatten(all) == items[..size] + items[size..];
      }
    }
  }

  function SplitRange(r: Range, parts: nat): (out: Result<seq<Range>, SearchError>)
    requires parts > 0
  {
    if r.size % parts != 0 then Err(Indivisible(r.size))
    else Ok(Chunks(r.addr, r.size / parts, parts))
  }

  function Chunks(addr: nat, chunk: nat, parts: nat): (out: seq<Range>)
    ensures |out| == parts
  {
    seq(parts, i requires 0 <= i < parts => Range(addr + i * chunk, chunk))
  }

  lemma MulAtMost(i: nat, j: nat, c: nat)
    requires i <= j
    ensures i * c <= j * c
  {
  }

  lemma ChunkInside(addr: nat, chunk: nat, parts: nat, i: nat)
    requires i < parts
    ensures addr <= addr + i * chunk && addr + i * chunk + chunk <= addr + parts * chunk
  {
    MulAtMost(i + 1, parts, chunk);
    assert (i + 1) * chunk == i * chunk + chunk;
  }

  lemma ChunkAt(a: nat, chunk: nat, parts: nat) returns (i: nat)
    requires a < parts * chunk
    ensures i < parts && i * chunk <= a < i * chunk + chunk
  {
    i := 0;
    while !(a < i * chunk + chunk)
      invariant i < parts && i * chunk <= a
      decreases parts - i
    {
      assert (i + 1) * chunk == i * chunk + chunk;
      if i + 1 == parts {
        assert false;
      }
      i := i + 1;
    }
  }

  /** The chunks cover the range exactly. */
  lemma ChunksCover(addr: nat, chunk: nat, parts: nat, a: nat)
    ensures Has(Chunks(addr, chunk, parts), a) <==> addr <= a < addr + parts * chunk
  {
    var out := Chunks(addr, chunk, parts);
    if Has(out, a) {
      var i :| 0 <= i < |out| && Covers(out[i], a);
      ChunkInside(addr, chunk, parts, i);
    }
    if addr <= a < addr + parts * chunk {
      var i := ChunkAt(a - addr, chunk, parts);
      assert out[i] in out && Covers(out[i], a);
    }
  }

  function SplitAll(rs: seq<Range>, parts: nat): (out: Result<seq<Range>, SearchError>)
    requires parts > 0
  {
    if rs == [] then Ok([]) else
      match SplitRange(rs[0], parts)
      case Err(e) => Err(e)
      case Ok(chunks) =>
        match SplitAll(rs[1..], parts)
        case Err(e) => Err(e)
        case Ok(rest) => Ok(chunks + rest)
  }

  // ----- one round of samples -----

  /** The two samples of a range, taken one after the other, differ. */
  predicate Differs(sample: Sampler, t: nat, r: Range) {
    sample(t, r) != sample(t + 1, r)
  }

  /** When the range at index `p` is first sampled: every batch before its own took two samples. */
  function TimeOf(start: nat, p: nat, max: nat): nat
    requires max > 0
  {
    start + 2 * (p / max)
  }

  /** The range at index `p` is sampled when its batch is reached, and once more just after that. */
  predicate DiffersAt(sample: Sampler, start: nat, cur: seq<Range>, max: nat, p: nat)
    requires max > 0 && p < |cur|
  {
    Differs(sample, TimeOf(start, p, max), cur[p])
  }

  /** The ranges from index `p` on whose two samples differ. */
  function Kept(sample: Sampler, start: nat, cur: seq<Range>, max: nat, p: nat): seq<Range>
    requires max > 0 && p <= |cur|
    decreases |cur| - p
  {
    if p == |cur| then []
    else (if DiffersAt(sample, start, cur, max, p) then [cur[p]] else []) + Kept(sample, start, cur, max, p + 1)
  }

  function Checksums(sample: Sampler, t: nat, batch: seq<Range>): (out: seq<nat>)
    ensures |out| == |batch| && forall i :: 0 <= i < |batch| ==> out[i] == sample(t, batch[i])
  {
    seq(|batch|, i requires 0 <= i < |batch| => sample(t, batch[i]))
  }

  /** The ranges of a batch whose two checksums differ. */
  function Differing(batch: seq<Range>, x: seq<nat>, y: seq<nat>): seq<Range>
    requires |batch| == |x| == |y|
  {
    if batch == [] then []
    else (if x[0] != y[0] then [batch[0]] else []) + Differing(batch[1..], x[1..], y[1..])
  }

  lemma LessByProduct(a: nat, b: nat, m: nat)
    requires a * m < b * m
    ensures a < b
  {
    if b <= a {
      MulAtMost(b, a, m);
    }
  }

  lemma QuotientIs(p: nat, i: nat, max: nat)
    requires max > 0 && i * max <= p < i * max + max
    ensures p / max == i
  {
    var q := p / max;
    assert p == max * q + p % max;
    assert (q + 1) * max == q * max + max && (i + 1) * max == i * max + max;
    LessByProduct(q, i + 1, max);
    LessByProduct(i, q + 1, max);
  }

  /** What a batch sampled at time `t` and just after it leaves. */
  function Twice(sample: Sampler, t: nat, batch: seq<Range>): seq<Range> {
    Differing(batch, Checksums(sample, t, batch), Checksums(sample, t + 1, batch))
  }

  lemma TwiceFirst(sample: Sampler, t: nat, r: Range, rest: seq<Range>)
    ensures Twice(sample, t, [r] + rest) == (if Differs(sample, t, r) then [r] else []) + Twice(sample, t, rest)
  {
    var batch := [r] + rest;
    var x, y := Checksums(sample, t, batch), Checksums(sample, t + 1, batch);
    assert batch[1..] == rest;
    assert x[1..] == Checksums(sample, t, rest) && y[1..] == Checksums(sample, t + 1, rest);
  }

  lemma {:induction false} KeptStretch(sample: Sampler, start: nat, cur: seq<Range>, max: nat, p: nat, n: nat, i: nat)
    requires max > 0 && p + n <= |cur| && forall x: nat :: p <= x < p + n ==> x / max == i
    ensures Kept(sample, start, cur, max, p) ==
      Twice(sample, start + 2 * i, cur[p..p + n]) + Kept(sample, start, cur, max, p + n)
    decreases n
  {
    if n > 0 {
      var rest := cur[p + 1..p + n];
      KeptStretch(sample, start, cur, max, p + 1, n - 1, i);
      assert p / max == i;
      assert cur[p..p + n] == [cur[p]] + rest;
      TwiceFirst(sample, start + 2 * i, cur[p], rest);
      KeptFirst(sample, start, cur, max, p, i);
      var head := if Differs(sample, start + 2 * i, cur[p]) then [cur[p]] else [];
      Assoc(head, Twice(sample, start + 2 * i, rest), Kept(sample, start, cur, max, p + n));
    }
  }

  lemma KeptFirst(sample: Sampler, start: nat, cur: seq<Range>, max: nat, p: nat, i: nat)
    requires max > 0 && p < |cur| && p / max == i
    ensures Kept(sample, start, cur, max, p) ==
            (if Differs(sample, start + 2 * i, cur[p]) then [cur[p]] else []) + Kept(sample, start, cur, max, p + 1)
  {
  }

  /** Batch `i`, sampled at its own two times, and what is left after it. */
  lemma KeptBatch(sample: Sampler, start: nat, cur: seq<Range>, max: nat, p: nat, n: nat, i: nat)
    requires max > 0 && p == i * max && n <= max && p + n <= |cur|
    ensures Kept(sample, start, cur, max, p) ==
      Twice(sample, start + 2 * i, cur[p..p + n]) + Kept(sample, start, cur, max, p + n)
  {
    forall x: nat | p <= x < p + n ensures x / max == i {
      QuotientIs(x, i, max);
    }
    KeptStretch(sample, start, cur, max, p, n, i);
  }

  lemma SliceShift(items: seq<Range>, k: nat, a: nat, b: nat)
    requires a <= b && k + b <= |items|
    ensures items[k..][a..b] == items[k + a..k + b]
  {
  }

  /** Where a batch comes from, and how many there are. */
  lemma {:induction false} BatchAt(items: seq<Range>, size: nat, i: nat)
    requires size > 0 && Batched(items, size).Ok? && i < |Batched(items, size).value|
    ensures
      var end := i * size + size;
      && i * size < |items|
      && Batched(items, size).value[i] == items[i * size..if end <= |items| then end else |items|]
      && (i + 1 < |Batched(items, size).value| <==> end < |items|)
    decreases i
  {
    if |items| > size {
      var tail := items[size..];
      BatchedFails(tail, size);
      var rest := Batched(tail, size).value;
      assert tail != [];
      if i > 0 {
        BatchAt(tail, size, i - 1);
        var a := (i - 1) * size;
        assert i * size == a + size;
        SliceShift(items, size, a, if a + size <= |tail| then a + size else |tail|);
        assert Batched(items, size).value[i] == rest[i - 1];
      }
    } else if i > 0 {
      assert false;
    }
  }

  function BatchCount(items: seq<Range>, size: int): nat {
    match Batched(items, size)
    case Ok(batches) => |batches|
    case Err(_) => 0
  }

  /**
   One round: every batch is checksummed twice, at consecutive times. What is kept
   is exactly the ranges whose own two samples differ, in order.
   */
  method SampleAll(sample: Sampler, start: nat, cur: seq<Range>, maxRanges: int)
    returns (r: Result<seq<Range>, SearchError>, t: nat)
    ensures r.Err? <==> maxRanges == 0
    ensures r.Err? ==> r.error == ZeroBatch
    ensures maxRanges > 0 ==> r == Ok(Kept(sample, start, cur, maxRanges, 0))
    ensures maxRanges < 0 ==> r == Ok([])
    ensures t == start + 2 * BatchCount(cur, maxRanges)
  {
    t := start;
    var batches := Batched(cur, maxRanges);
    BatchedFails(cur, maxRanges);
    if batches.Err? {
      return Err(batches.error), t;
    }
    var changed: seq<Range> := [];
    if maxRanges > 0 {
      ReadNothing(sample, start, cur, maxRanges);
    }
    for i := 0 to |batches.value|
      invariant t == start + 2 * i
      invariant maxRanges > 0 ==> Reading(sample, start, cur, maxRanges, i, changed)
      invariant i == 0 ==> changed == []
    {
      var batch := batches.value[i];
      var res1 := Checksums(sample, t, batch);
      var res2 := Checksums(sample, t + 1, batch);
      if maxRanges > 0 {
        ReadBatch(sample, start, cur, maxRanges, i, changed);
      }
      changed := changed + Differing(batch, res1, res2);
      t := t + 2;
    }
    if maxRanges > 0 {
      ReadAll(sample, start, cur, maxRanges, |batches.value|, changed);
    }
    r := Ok(changed);
  }

  /** How many ranges the first `i` batches hold. */
  function ReadBy(cur: seq<Range>, max: nat, i: nat): nat {
    if i * max <= |cur| then i * max else |cur|
  }

  /** After `i` batches: what was kept, and what is left to keep. */
  ghost predicate Reading(sample: Sampler, start: nat, cur: seq<Range>, max: nat, i: nat, changed: seq<Range>)
    requires max > 0
  {
    && (i == BatchCount(cur, max) ==> ReadBy(cur, max, i) == |cur|)
    && Kept(sample, start, cur, max, 0) == changed + Kept(sample, start, cur, max, ReadBy(cur, max, i))
  }

  lemma ReadNothing(sample: Sampler, start: nat, cur: seq<Range>, max: nat)
    requires max > 0
    ensures Reading(sample, start, cur, max, 0, [])
  {
    BatchedFails(cur, max);
  }

  lemma ReadAll(sample: Sampler, start: nat, cur: seq<Range>, max: nat, i: nat, changed: seq<Range>)
    requires max > 0 && i == BatchCount(cur, max) && Reading(sample, start, cur, max, i, changed)
    ensures changed == Kept(sample, start, cur, max, 0)
  {
    assert Kept(sample, start, cur, max, |cur|) == [];
  }

  /** The next batch starts where the ones before it end. */
  lemma BatchPlace(cur: seq<Range>, max: nat, i: nat)
    requires max > 0 && Batched(cur, max).Ok? && i < |Batched(cur, max).value|
    ensures
      var batch, p := Batched(cur, max).value[i], ReadBy(cur, max, i);
      && |batch| <= max && p == i * max && p + |batch| <= |cur| && batch == cur[p..p + |batch|]
      && ReadBy(cur, max, i + 1) == p + |batch|
      && (i + 1 == |Batched(cur, max).value| ==> p + |batch| == |cur|)
  {
    BatchAt(cur, max, i);
    assert (i + 1) * max == i * max + max;
  }

  /** What reading one batch adds. */
  lemma ReadBatch(sample: Sampler, start: nat, cur: seq<Range>, max: nat, i: nat, changed: seq<Range>)
    requires max > 0 && Batched(cur, max).Ok? && i < |Batched(cur, max).value|
    requires Reading(sample, start, cur, max, i, changed)
    ensures Reading(sample, start, cur, max, i + 1, changed + Twice(sample, start + 2 * i, Batched(cur, max).value[i]))
  {
    BatchPlace(cur, max, i);
    ReadMore(sample, start, cur, max, i, ReadBy(cur, max, i), Batched(cur, max).value[i], changed);
  }

  lemma ReadMore(sample: Sampler, start: nat, cur: seq<Range>, max: nat, i: nat, p: nat, batch: seq<Range>,
                 changed: seq<Range>)
    requires max > 0 && p == i * max && |batch| <= max && p + |batch| <= |cur| && batch == cur[p..p + |batch|]
    requires Kept(sample, start, cur, max, 0) == changed + Kept(sample, start, cur, max, p)
    ensures Kept(sample, start, cur, max, 0) ==
            changed + Twice(sample, start + 2 * i, batch) + Kept(sample, start, cur, max, p + |batch|)
  {
    KeptBatch(sample, start, cur, max, p, |batch|, i);
    Assoc(changed, Twice(sample, start + 2 * i, batch), Kept(sample, start, cur, max, p + |batch|));
  }

  lemma {:induction false} KeptMembers(sample: Sampler, start: nat, cur: seq<Range>, max: nat, p: nat, x: Range)
    requires max > 0 && p <= |cur|
    ensures x in Kept(sample, start, cur, max, p) <==>
            exists i: nat :: p <= i < |cur| && cur[i] == x && DiffersAt(sample, start, cur, max, i)
    decreases |cur| - p
  {
    if p < |cur| {
      KeptMembers(sample, start, cur, max, p + 1, x);
    }
  }

  lemma {:induction false} BatchedFails(items: seq<Range>, size: int)
    ensures Batched(items, size) == Err(ZeroBatch) <==> size == 0
    ensures size != 0 ==> Batched(items, size).Ok?
    ensures size < 0 ==> Batched(items, size) == Ok([])
    decreases |items|
  {
    if size > 0 && |items| > size {
      BatchedFails(items[size..], size);
    }
  }

  // ----- splitting a level -----

  ghost predicate Within(c: Range, ranges: seq<Range>) {
    exists r :: r in ranges && r.addr <= c.addr && c.End() <= r.End()
  }

  /** All ranges of one size, each inside one of the ranges given at the start. */
  ghost predicate Level(cur: seq<Range>, chunk: nat, ranges: seq<Range>) {
    forall c :: c in cur ==> c.size == chunk && Within(c, ranges)
  }

  lemma {:induction false} SplitAllLevel(rs: seq<Range>, chunk: nat, parts: nat, ranges: seq<Range>)
    requires parts > 0 && Level(rs, chunk, ranges)
    ensures
      var out := SplitAll(rs, parts);
      && (out.Err? <==> rs != [] && chunk % parts != 0)
      && (out.Err? ==> out.error == Indivisible(chunk))
      && (out.Ok? ==> Level(out.value, chunk / parts, ranges) && SameAddresses(out.value, rs))
    decreases |rs|
  {
    if rs != [] {
      assert rs[0] in rs;
      assert forall c :: c in rs[1..] ==> c in rs;
      SplitAllLevel(rs[1..], chunk, parts, ranges);
      if chunk % parts == 0 {
        var rest := SplitAll(rs[1..], parts).value;
        Divides(chunk, parts);
        ChunksWithin(rs[0], chunk / parts, parts, ranges);
        LevelAppend(Chunks(rs[0].addr, chunk / parts, parts), rest, chunk / parts, ranges);
        SplitHead(rs, chunk / parts, parts, rest);
      }
    }
  }

  lemma Divides(chunk: nat, parts: nat)
    requires parts > 0 && chunk % parts == 0
    ensures parts * (chunk / parts) == chunk
  {
  }

  lemma LevelAppend(rs: seq<Range>, rs': seq<Range>, chunk: nat, ranges: seq<Range>)
    requires Level(rs, chunk, ranges) && Level(rs', chunk, ranges)
    ensures Level(rs + rs', chunk, ranges)
  {
  }

  lemma SplitHead(rs: seq<Range>, chunk: nat, parts: nat, rest: seq<Range>)
    requires rs != [] && rs[0].size == parts * chunk && SameAddresses(rest, rs[1..])
    ensures SameAddresses(Chunks(rs[0].addr, chunk, parts) + rest, rs)
  {
    var chunks := Chunks(rs[0].addr, chunk, parts);
    forall a ensures Has(chunks + rest, a) <==> Has(rs, a) {
      ChunksCover(rs[0].addr, chunk, parts, a);
      HasAppend(chunks, rest, a);
      HasAppend([rs[0]], rs[1..], a);
      assert [rs[0]] + rs[1..] == rs;
      assert Has([rs[0]], a) <==> Covers(rs[0], a) by { assert rs[0] in [rs[0]]; }
    }
  }

  lemma HasAppend(rs: seq<Range>, rs': seq<Range>, a: nat)
    ensures Has(rs + rs', a) <==> Has(rs, a) || Has(rs', a)
  {
    if Has(rs, a) {
      var x :| x in rs && Covers(x, a);
      assert x in rs + rs';
    }
    if Has(rs', a) {
      var x :| x in rs' && Covers(x, a);
      assert x in rs + rs';
    }
  }

  lemma ChunksWithin(r: Range, chunk: nat, parts: nat, ranges: seq<Range>)
    requires Within(r, ranges) && r.size == parts * chunk
    ensures Level(Chunks(r.addr, chunk, parts), chunk, ranges)
  {
    var out := Chunks(r.addr, chunk, parts);
    forall c | c in out ensures c.size == chunk && Within(c, ranges) {
      var i :| 0 <= i < |out| && out[i] == c;
      ChunkInside(r.addr, chunk, parts, i);
    }
  }

  // ----- the rounds of a search -----

  datatype Search = Search(sample: Sampler, ranges: seq<Range>, minChunk: int, parts: nat, maxRanges: int)

  /** What a round samples, and when it starts. */
  datatype Round = Round(start: nat, cur: seq<Range>)

  predicate Proper(q: Search) {
    q.parts >= 2 && q.maxRanges > 0
  }

  function Changed(q: Search, r: Round): seq<Range>
    requires Proper(q)
  {
    Kept(q.sample, r.start, r.cur, q.maxRanges, 0)
  }

  /** Round `k`, if every split before it was possible. */
  function RoundAt(q: Search, k: nat): Option<Round>
    requires Proper(q)
  {
    if k == 0 then Some(Round(0, q.ranges)) else
      match RoundAt(q, k - 1)
      case None => None
      case Some(r) =>
        match SplitAll(Changed(q, r), q.parts)
        case Err(_) => None
        case Ok(cur) => Some(Round(r.start + 2 * BatchCount(r.cur, q.maxRanges), cur))
  }

  /** The size of the ranges in round `k`. */
  function SizeAt(size: nat, parts: nat, k: nat): nat
    requires parts > 0
  {
    if k == 0 then size else SizeAt(size, parts, k - 1) / parts
  }

  /** Round `k` comes about: its ranges are not parts of ranges that were small enough already. */
  predicate Due(q: Search, size: nat, k: nat)
    requires q.parts > 0
  {
    k == 0 || SizeAt(size, q.parts, k - 1) > q.minChunk
  }

  /** The ranges of round `k` are too large and can be split evenly. */
  predicate Splits(q: Search, size: nat, k: nat)
    requires q.parts > 0
  {
    SizeAt(size, q.parts, k) > q.minChunk && SizeAt(size, q.parts, k) % q.parts == 0
  }

  lemma {:induction false} SizeFalls(size: nat, parts: nat, i: nat, j: nat)
    requires parts >= 2 && i <= j
    ensures SizeAt(size, parts, j) <= SizeAt(size, parts, i)
    decreases j
  {
    if i < j {
      SizeFalls(size, parts, i, j - 1);
      QuotientSmaller(SizeAt(size, parts, j - 1), parts);
    }
  }

  lemma QuotientSmaller(n: nat, parts: nat)
    requires parts >= 2
    ensures n / parts <= n && (n > 0 ==> n / parts < n)
  {
    assert n == parts * (n / parts) + n % parts;
    Regroup(n / parts, parts, 1);
  }

  /** In round `k` a range around the address is sampled and its two samples differ. */
  ghost predicate ChangedIn(q: Search, k: nat, a: nat)
    requires Proper(q)
  {
    && RoundAt(q, k).Some?
    && var r := RoundAt(q, k).value;
    exists p: nat :: p < |r.cur| && Covers(r.cur[p], a) && DiffersAt(q.sample, r.start, r.cur, q.maxRanges, p)
  }

  ghost predicate Survives(q: Search, n: nat, a: nat)
    requires Proper(q)
  {
    forall k: nat :: k < n ==> ChangedIn(q, k, a)
  }

  /** In every round that comes about the address lies in a range whose two samples differ. */
  ghost predicate Reported(q: Search, size: nat, a: nat)
    requires Proper(q)
  {
    forall k: nat :: Due(q, size, k) ==> ChangedIn(q, k, a)
  }

  lemma SurvivesOneMore(q: Search, n: nat, a: nat)
    requires Proper(q)
    ensures Survives(q, n + 1, a) <==> Survives(q, n, a) && ChangedIn(q, n, a)
  {
  }

  lemma ChangedCovers(q: Search, k: nat, a: nat)
    requires Proper(q) && RoundAt(q, k).Some?
    ensures Has(Changed(q, RoundAt(q, k).value), a) <==> ChangedIn(q, k, a)
  {
    var r := RoundAt(q, k).value;
    var changed := Changed(q, r);
    if Has(changed, a) {
      var x :| x in changed && Covers(x, a);
      KeptMembers(q.sample, r.start, r.cur, q.maxRanges, 0, x);
    }
    if ChangedIn(q, k, a) {
      var p: nat :| p < |r.cur| && Covers(r.cur[p], a) && DiffersAt(q.sample, r.start, r.cur, q.maxRanges, p);
      KeptMembers(q.sample, r.start, r.cur, q.maxRanges, 0, r.cur[p]);
    }
  }

  lemma KeptLevel(q: Search, r: Round, chunk: nat)
    requires Proper(q) && Level(r.cur, chunk, q.ranges)
    ensures Level(Changed(q, r), chunk, q.ranges)
  {
    forall x | x in Changed(q, r) ensures x in r.cur {
      KeptMembers(q.sample, r.start, r.cur, q.maxRanges, 0, x);
    }
  }

  /** The ranges of a round have its size and lie inside the input. */
  lemma {:induction false} RoundLevel(q: Search, size: nat, k: nat)
    requires Proper(q) && Level(q.ranges, size, q.ranges) && RoundAt(q, k).Some?
    ensures Level(RoundAt(q, k).value.cur, SizeAt(size, q.parts, k), q.ranges)
    decreases k
  {
    if k > 0 {
      RoundLevel(q, size, k - 1);
      KeptLevel(q, RoundAt(q, k - 1).value, SizeAt(size, q.parts, k - 1));
      SplitAllLevel(Changed(q, RoundAt(q, k - 1).value), SizeAt(size, q.parts, k - 1), q.parts, q.ranges);
    }
  }

  /** What one round leaves for the next. */
  lemma NextRound(q: Search, size: nat, k: nat)
    requires Proper(q) && Level(q.ranges, size, q.ranges) && RoundAt(q, k).Some?
    ensures
      var changed := Changed(q, RoundAt(q, k).value);
      && (RoundAt(q, k + 1).None? <==> changed != [] && SizeAt(size, q.parts, k) % q.parts != 0)
      && (RoundAt(q, k + 1).Some? ==> SameAddresses(RoundAt(q, k + 1).value.cur, changed))
  {
    RoundLevel(q, size, k);
    KeptLevel(q, RoundAt(q, k).value, SizeAt(size, q.parts, k));
    SplitAllLevel(Changed(q, RoundAt(q, k).value), SizeAt(size, q.parts, k), q.parts, q.ranges);
  }

  lemma AddressesAfter(q: Search, size: nat, k: nat, next: nat, a: nat)
    requires Proper(q) && Level(q.ranges, size, q.ranges) && next == k + 1 && RoundAt(q, next).Some?
    ensures RoundAt(q, k).Some?
    ensures Has(RoundAt(q, next).value.cur, a) <==> ChangedIn(q, k, a)
    ensures Has(RoundAt(q, next).value.cur, a) ==> Has(RoundAt(q, k).value.cur, a)
  {
    assert RoundAt(q, k).Some?;
    ChangedCovers(q, k, a);
    NextRound(q, size, k);
    if ChangedIn(q, k, a) {
      KeptInside(q, k, a);
    }
  }

  /** The addresses a round is about are those that changed in every round before it. */
  lemma {:induction false} RoundAddresses(q: Search, size: nat, k: nat, a: nat)
    requires Proper(q) && Level(q.ranges, size, q.ranges) && RoundAt(q, k).Some?
    ensures Has(RoundAt(q, k).value.cur, a) <==> Has(q.ranges, a) && Survives(q, k, a)
    decreases k
  {
    if k > 0 {
      AddressesAfter(q, size, k - 1, k, a);
      RoundAddresses(q, size, k - 1, a);
      SurvivesOneMore(q, k - 1, a);
    }
  }

  lemma KeptInside(q: Search, k: nat, a: nat)
    requires Proper(q) && ChangedIn(q, k, a)
    ensures Has(RoundAt(q, k).value.cur, a)
  {
  }

  /** Once nothing is left, nothing changes any more. */
  lemma {:induction false} EmptyStays(q: Search, k: nat, j: nat)
    requires Proper(q) && k <= j && RoundAt(q, k).Some? && RoundAt(q, k).value.cur == []
    ensures RoundAt(q, j).Some? && RoundAt(q, j).value.cur == []
    decreases j
  {
    if j > k {
      EmptyStays(q, k, j - 1);
    }
  }

  /** Something changed in round `k`, whose ranges are too large and cannot be split evenly. */
  ghost predicate StuckAt(q: Search, size: nat, k: nat)
    requires Proper(q)
  {
    && SizeAt(size, q.parts, k) > q.minChunk && SizeAt(size, q.parts, k) % q.parts != 0
    && RoundAt(q, k).Some? && Changed(q, RoundAt(q, k).value) != []
  }

  /** Every way of sampling around the address sees a change, every time. */
  ghost predicate AlwaysChanging(sample: Sampler, a: nat, ranges: seq<Range>) {
    forall c, t: nat :: Covers(c, a) && Within(c, ranges) ==> Differs(sample, t, c)
  }

  lemma RoundAfter(q: Search, size: nat, k: nat, next: nat, a: nat)
    requires Proper(q) && Level(q.ranges, size, q.ranges) && ChangedIn(q, k, a) && Splits(q, size, k) && next == k + 1
    ensures RoundAt(q, next).Some?
  {
    NextRound(q, size, k);
  }

  /** Such an address survives every round that comes about. */
  lemma {:induction false} AlwaysChangingSurvives(q: Search, size: nat, k: nat, a: nat)
    requires Proper(q) && Level(q.ranges, size, q.ranges)
    requires Has(q.ranges, a) && AlwaysChanging(q.sample, a, q.ranges)
    requires forall j: nat :: j < k ==> Splits(q, size, j)
    ensures Survives(q, k + 1, a)
    decreases k
  {
    if k > 0 {
      AlwaysChangingSurvives(q, size, k - 1, a);
      assert ChangedIn(q, k - 1, a) && Splits(q, size, k - 1);
      RoundAfter(q, size, k - 1, k, a);
    }
    StillChanging(q, size, k, a);
    SurvivesOneMore(q, k, a);
  }

  lemma StillChanging(q: Search, size: nat, k: nat, a: nat)
    requires Proper(q) && Level(q.ranges, size, q.ranges) && RoundAt(q, k).Some?
    requires Has(q.ranges, a) && AlwaysChanging(q.sample, a, q.ranges) && Survives(q, k, a)
    ensures ChangedIn(q, k, a)
  {
    RoundAddresses(q, size, k, a);
    RoundLevel(q, size, k);
    ChangesNow(q, size, k, a);
  }

  lemma ChangesNow(q: Search, size: nat, k: nat, a: nat)
    requires Proper(q) && AlwaysChanging(q.sample, a, q.ranges) && RoundAt(q, k).Some?
    requires Has(RoundAt(q, k).value.cur, a) && Level(RoundAt(q, k).value.cur, SizeAt(size, q.parts, k), q.ranges)
    ensures ChangedIn(q, k, a)
  {
    var r := RoundAt(q, k).value;
    var c :| c in r.cur && Covers(c, a);
    var p :| 0 <= p < |r.cur| && r.cur[p] == c;
    assert Within(c, q.ranges);
    assert Differs(q.sample, TimeOf(r.start, p, q.maxRanges), c);
  }

  /** The addresses that survive every round, among them all that always change. */
  ghost predicate Reports(q: Search, size: nat, out: seq<Range>)
    requires Proper(q)
  {
    && (forall a :: Has(out, a) <==> Reported(q, size, a))
    && (forall a :: Has(q.ranges, a) && AlwaysChanging(q.sample, a, q.ranges) ==> Has(out, a))
  }

  /** Right answers: the addresses to be reported, or the size at which a round is stuck. */
  ghost predicate Answers(q: Search, size: nat, r: Result<seq<Range>, SearchError>)
    requires Proper(q)
  {
    match r
    case Ok(out) => Reports(q, size, out) && forall k: nat :: !StuckAt(q, size, k)
    case Err(error) =>
      exists k: nat ::
        StuckAt(q, size, k) && error == Indivisible(SizeAt(size, q.parts, k)) &&
          size == SizeAt(size, q.parts, k) * Pow(q.parts, k)
  }

  function Pow(b: nat, k: nat): nat {
    if k == 0 then 1 else b * Pow(b, k - 1)
  }

  lemma InitialLevel(ranges: seq<Range>, size: nat)
    requires forall r :: r in ranges ==> r.size == size
    ensures Level(ranges, size, ranges)
  {
  }

  // ----- the search -----

  /**
   The adaptive search over ranges of one positive size. It ends because the chunk
   size falls at every split. It reports exactly the addresses that lay, in every
   round up to the one with small enough ranges, in a range whose two samples of
   that round differed; and it fails exactly when a changed range that is still too
   large cannot be split evenly.
   */
  method FindActive(sample: Sampler, ranges: seq<Range>, ghost size: nat, minChunk: int, parts: nat, maxRanges: int)
    returns (r: Result<seq<Range>, SearchError>)
    requires size > 0 && parts >= 2
    requires forall x :: x in ranges ==> x.size == size
    ensures r.Ok? ==> Gapped(r.value) && Positive(r.value)
    ensures maxRanges > 0 ==> Answers(Search(sample, ranges, minChunk, parts, maxRanges), size, r)
    ensures r == Err(ZeroBatch) <==> maxRanges == 0 && ranges != []
    ensures maxRanges < 0 ==> r == Ok([])
  {
    var cur := ranges;
    var t: nat := 0;
    ghost var chunk: nat := size;
    ghost var q := Search(sample, ranges, minChunk, parts, maxRanges);
    InitialLevel(ranges, size);
    while cur != []
      invariant Level(cur, chunk, ranges) && chunk > 0
      invariant maxRanges > 0 ==> Outcome(q, Round(t, cur), chunk) == Outcome(q, Round(0, ranges), size)
      invariant maxRanges <= 0 ==> cur == ranges
      decreases chunk
    {
      ghost var now := Round(t, cur);
      var round;
      round, t := SampleAll(sample, t, cur, maxRanges);
      if round.Err? {
        return Err(round.error);
      }
      var changed := round.value;
      if changed == [] {
        if maxRanges > 0 {
          OutcomeAnswers(q, size, Ok([]));
        }
        return Ok([]);
      }
      ChangedLevel(q, now, chunk);
      if changed[0].size <= minChunk {
        var merged := Coalesce(changed);
        OutcomeAnswers(q, size, Ok(merged));
        return Ok(merged);
      }
      var split := SplitAll(changed, parts);
      if split.Err? {
        OutcomeAnswers(q, size, Err(split.error));
        return Err(split.error);
      }
      ghost var smaller := PartsLevel(q, now, chunk, split.value);
      OutcomeStep(q, now, chunk, Round(t, split.value), smaller);
      cur, chunk := split.value, smaller;
    }
    if maxRanges > 0 {
      OutcomeAnswers(q, size, Ok([]));
    }
    r := Ok([]);
  }

  /** The loop as a recursion: what changed in the last round, or the split that is impossible. */
  function Outcome(q: Search, now: Round, chunk: nat): Result<seq<Range>, SearchError>
    requires Proper(q)
    decreases chunk
  {
    var changed := Changed(q, now);
    if changed == [] || chunk <= q.minChunk || chunk == 0 then Ok(changed) else
    match SplitAll(changed, q.parts)
    case Err(e) => Err(e)
    case Ok(cur) =>
      QuotientSmaller(chunk, q.parts);
      Outcome(q, Round(now.start + 2 * BatchCount(now.cur, q.maxRanges), cur), chunk / q.parts)
  }

  lemma OutcomeStep(q: Search, now: Round, chunk: nat, next: Round, smaller: nat)
    requires Proper(q) && Changed(q, now) != [] && chunk > q.minChunk && chunk > 0 && smaller == chunk / q.parts
    requires SplitAll(Changed(q, now), q.parts) == Ok(next.cur) &&
      next.start == now.start + 2 * BatchCount(now.cur, q.maxRanges)
    ensures Outcome(q, now, chunk) == Outcome(q, next, smaller)
  {
  }

  /** The same addresses, or the same failure. */
  ghost predicate Same(found: Result<seq<Range>, SearchError>, r: Result<seq<Range>, SearchError>) {
    match found
    case Ok(changed) => r.Ok? && SameAddresses(r.value, changed)
    case Err(e) => r == Err(e)
  }

  lemma ChangedLevel(q: Search, now: Round, chunk: nat)
    requires Proper(q) && Level(now.cur, chunk, q.ranges) && chunk > 0 && Changed(q, now) != []
    ensures Positive(Changed(q, now)) && Changed(q, now)[0].size == chunk
  {
    KeptLevel(q, now, chunk);
    assert Changed(q, now)[0] in Changed(q, now);
  }

  lemma OutcomeAnswers(q: Search, size: nat, r: Result<seq<Range>, SearchError>)
    requires Proper(q) && Level(q.ranges, size, q.ranges) && size > 0 && Same(Outcome(q, Round(0, q.ranges), size), r)
    ensures Answers(q, size, r) && (r.Err? ==> r.error.Indivisible?)
  {
    OutcomeFrom(q, size, 0, Round(0, q.ranges), size, r);
  }

  /** The search is at the beginning of round `k`, whose ranges have size `chunk`. */
  ghost predicate InRound(q: Search, size: nat, k: nat, now: Round, chunk: nat) {
    && Proper(q) && RoundAt(q, k) == Some(now)
    && Level(q.ranges, size, q.ranges) && Level(now.cur, chunk, q.ranges)
    && chunk > 0 && chunk == SizeAt(size, q.parts, k)
    && forall j: nat :: j < k ==> Splits(q, size, j)
  }

  predicate LastStep(q: Search, now: Round, chunk: nat)
    requires Proper(q)
  {
    Changed(q, now) == [] || chunk <= q.minChunk || SplitAll(Changed(q, now), q.parts).Err?
  }

  lemma OutcomeLast(q: Search, size: nat, k: nat, now: Round, chunk: nat, r: Result<seq<Range>, SearchError>)
    requires InRound(q, size, k, now, chunk) && LastStep(q, now, chunk) && Same(Outcome(q, now, chunk), r)
    ensures Answers(q, size, r) && (r.Err? ==> r.error.Indivisible?)
  {
    if Changed(q, now) == [] {
      NothingReported(q, size, k, now, chunk, r.value);
    } else if chunk <= q.minChunk {
      LastReported(q, size, k, now, chunk, r.value);
    } else {
      SplitFails(q, size, k, now, chunk);
    }
  }

  lemma {:induction false} OutcomeFrom(q: Search, size: nat, k: nat, now: Round, chunk: nat,
                                       r: Result<seq<Range>, SearchError>)
    requires InRound(q, size, k, now, chunk) && Same(Outcome(q, now, chunk), r)
    ensures Answers(q, size, r) && (r.Err? ==> r.error.Indivisible?)
    decreases chunk
  {
    if LastStep(q, now, chunk) {
      OutcomeLast(q, size, k, now, chunk, r);
    } else {
      var next := Round(now.start + 2 * BatchCount(now.cur, q.maxRanges), SplitAll(Changed(q, now), q.parts).value);
      var smaller := SplitRound(q, size, k, now, chunk, next);
      OutcomeStep(q, now, chunk, next, smaller);
      OutcomeFrom(q, size, k + 1, next, smaller, r);
    }
  }

  lemma SplitFails(q: Search, size: nat, k: nat, now: Round, chunk: nat)
    requires InRound(q, size, k, now, chunk) && chunk > q.minChunk && SplitAll(Changed(q, now), q.parts).Err?
    ensures Answers(q, size, Err(SplitAll(Changed(q, now), q.parts).error))
  {
    KeptLevel(q, now, chunk);
    SplitAllLevel(Changed(q, now), chunk, q.parts, q.ranges);
    assert StuckAt(q, size, k);
    StuckSize(q, size, k);
  }

  /** A stuck round's size is what splitting evenly made of the input's. */
  lemma StuckSize(q: Search, size: nat, k: nat)
    requires Proper(q) && Level(q.ranges, size, q.ranges) && StuckAt(q, size, k)
    ensures size == SizeAt(size, q.parts, k) * Pow(q.parts, k)
  {
    RoundsSplit(q, size, k);
    SizeReached(q, size, k);
  }

  /** A round in which something changes comes after rounds that were split evenly. */
  lemma {:induction false} RoundsSplit(q: Search, size: nat, k: nat)
    requires Proper(q) && Level(q.ranges, size, q.ranges)
    requires RoundAt(q, k).Some? && Changed(q, RoundAt(q, k).value) != []
    ensures forall j: nat :: j < k ==> Even(q, size, j)
    decreases k
  {
    if k > 0 {
      RoundsSplit(q, size, k - 1);
      NextRound(q, size, k - 1);
      assert Even(q, size, k - 1);
    }
  }

  predicate Even(q: Search, size: nat, k: nat)
    requires q.parts > 0
  {
    SizeAt(size, q.parts, k) % q.parts == 0
  }

  lemma {:induction false} SizeReached(q: Search, size: nat, k: nat)
    requires q.parts >= 2 && forall j: nat :: j < k ==> Even(q, size, j)
    ensures size == SizeAt(size, q.parts, k) * Pow(q.parts, k)
    decreases k
  {
    if k > 0 {
      SizeReached(q, size, k - 1);
      assert Even(q, size, k - 1);
      Divides(SizeAt(size, q.parts, k - 1), q.parts);
      Regroup(SizeAt(size, q.parts, k), q.parts, Pow(q.parts, k - 1));
    }
  }

  lemma SplitRound(q: Search, size: nat, k: nat, now: Round, chunk: nat, next: Round) returns (smaller: nat)
    requires InRound(q, size, k, now, chunk) && chunk > q.minChunk && Changed(q, now) != []
    requires SplitAll(Changed(q, now), q.parts) == Ok(next.cur)
    requires next.start == now.start + 2 * BatchCount(now.cur, q.maxRanges)
    ensures InRound(q, size, k + 1, next, smaller) && smaller == chunk / q.parts < chunk
  {
    smaller := PartsLevel(q, now, chunk, next.cur);
    SizeNext(q, size, k, chunk, smaller);
    RoundIs(q, k, now, next);
  }

  lemma RoundIs(q: Search, k: nat, now: Round, next: Round)
    requires Proper(q) && RoundAt(q, k) == Some(now) && SplitAll(Changed(q, now), q.parts) == Ok(next.cur)
    requires next.start == now.start + 2 * BatchCount(now.cur, q.maxRanges)
    ensures RoundAt(q, k + 1) == Some(next)
  {
  }

  lemma PartsLevel(q: Search, now: Round, chunk: nat, split: seq<Range>) returns (smaller: nat)
    requires Proper(q) && Level(now.cur, chunk, q.ranges) && chunk > 0
    requires Changed(q, now) != [] && SplitAll(Changed(q, now), q.parts) == Ok(split)
    ensures chunk % q.parts == 0 && smaller == chunk / q.parts && 0 < smaller < chunk
    ensures Level(split, smaller, q.ranges)
  {
    KeptLevel(q, now, chunk);
    SplitAllLevel(Changed(q, now), chunk, q.parts, q.ranges);
    smaller := Smaller(chunk, q.parts);
  }

  lemma Smaller(chunk: nat, parts: nat) returns (smaller: nat)
    requires parts >= 2 && chunk > 0 && chunk % parts == 0
    ensures smaller == chunk / parts && 0 < smaller < chunk
  {
    Divides(chunk, parts);
    smaller := chunk / parts;
    Regroup(smaller, parts, 1);
  }

  lemma SizeNext(q: Search, size: nat, k: nat, chunk: nat, smaller: nat)
    requires q.parts >= 2 && chunk == SizeAt(size, q.parts, k) && chunk > q.minChunk
    requires chunk % q.parts == 0 && smaller == chunk / q.parts && forall j: nat :: j < k ==> Splits(q, size, j)
    ensures smaller == SizeAt(size, q.parts, k + 1) && forall j: nat :: j < k + 1 ==> Splits(q, size, j)
  {
    assert Splits(q, size, k);
  }

  /** The rounds that come about are those up to the one with small enough ranges. */
  lemma DueRounds(q: Search, size: nat, k: nat, j: nat)
    requires q.parts >= 2 && forall i: nat :: i < k ==> Splits(q, size, i)
    ensures j <= k ==> Due(q, size, j)
    ensures j > k && SizeAt(size, q.parts, k) <= q.minChunk ==> !Due(q, size, j)
  {
    if 0 < j <= k {
      assert Splits(q, size, j - 1);
    }
    if j > k {
      SizeFalls(size, q.parts, k, j - 1);
    }
  }

  /** No address is reported when nothing changes in a round. */
  lemma NoneReported(q: Search, size: nat, k: nat, a: nat)
    requires Proper(q) && RoundAt(q, k).Some? && Changed(q, RoundAt(q, k).value) == []
    requires forall i: nat :: i < k ==> Splits(q, size, i)
    ensures !Reported(q, size, a) && !Survives(q, k + 1, a)
  {
    ChangedCovers(q, k, a);
    DueRounds(q, size, k, k);
    assert !Has([], a);
  }

  lemma NeverStuck(q: Search, size: nat, k: nat, j: nat)
    requires Proper(q) && RoundAt(q, k).Some?
    requires SizeAt(size, q.parts, k) <= q.minChunk || Changed(q, RoundAt(q, k).value) == []
    requires forall i: nat :: i < k ==> Splits(q, size, i)
    ensures !StuckAt(q, size, j)
  {
    if j < k {
      assert Splits(q, size, j);
    } else {
      SizeFalls(size, q.parts, k, j);
      if j > k && Changed(q, RoundAt(q, k).value) == [] {
        assert RoundAt(q, k + 1).value.cur == [];
        EmptyStays(q, k + 1, j);
      }
    }
  }

  /** When nothing changes in a round, no address is to be reported and no round is stuck. */
  lemma NothingReported(q: Search, size: nat, k: nat, now: Round, chunk: nat, out: seq<Range>)
    requires InRound(q, size, k, now, chunk) && Changed(q, now) == [] && SameAddresses(out, [])
    ensures Reports(q, size, out)
    ensures forall j: nat :: !StuckAt(q, size, j)
  {
    forall a
      ensures Reported(q, size, a) ==> Has([], a)
      ensures Has(q.ranges, a) ==> !AlwaysChanging(q.sample, a, q.ranges)
    {
      NoneReported(q, size, k, a);
      if Has(q.ranges, a) && AlwaysChanging(q.sample, a, q.ranges) {
        AlwaysChangingSurvives(q, size, k, a);
      }
    }
    ReportsNothing(q, size, out);
    forall j: nat ensures !StuckAt(q, size, j) {
      NeverStuck(q, size, k, j);
    }
  }

  lemma ReportsNothing(q: Search, size: nat, out: seq<Range>)
    requires Proper(q) && SameAddresses(out, [])
    requires forall a :: Reported(q, size, a) ==> Has([], a)
    requires forall a :: Has(q.ranges, a) ==> !AlwaysChanging(q.sample, a, q.ranges)
    ensures Reports(q, size, out)
  {
  }

  /** What changed in the round with small enough ranges is what is to be reported. */
  lemma LastReported(q: Search, size: nat, k: nat, now: Round, chunk: nat, out: seq<Range>)
    requires InRound(q, size, k, now, chunk) && chunk <= q.minChunk && SameAddresses(out, Changed(q, now))
    ensures Reports(q, size, out)
    ensures forall j: nat :: !StuckAt(q, size, j)
  {
    forall a
      ensures Has(out, a) <==> Reported(q, size, a)
      ensures Has(q.ranges, a) && AlwaysChanging(q.sample, a, q.ranges) ==> Has(out, a)
    {
      LastSurvivor(q, size, k, a);
      SurvivorReported(q, size, k, a);
      if Has(q.ranges, a) && AlwaysChanging(q.sample, a, q.ranges) {
        AlwaysChangingSurvives(q, size, k, a);
      }
    }
    forall j: nat ensures !StuckAt(q, size, j) {
      NeverStuck(q, size, k, j);
    }
  }

  lemma SurvivorReported(q: Search, size: nat, k: nat, a: nat)
    requires Proper(q) && SizeAt(size, q.parts, k) <= q.minChunk
    requires forall i: nat :: i < k ==> Splits(q, size, i)
    ensures Survives(q, k + 1, a) <==> Reported(q, size, a)
  {
    forall j: nat ensures Due(q, size, j) <==> j < k + 1 {
      DueRounds(q, size, k, j);
    }
  }

  lemma LastSurvivor(q: Search, size: nat, k: nat, a: nat)
    requires Proper(q) && Level(q.ranges, size, q.ranges) && RoundAt(q, k).Some?
    ensures Has(Changed(q, RoundAt(q, k).value), a) <==> Survives(q, k + 1, a)
  {
    ChangedCovers(q, k, a);
    RoundAddresses(q, size, k, a);
    SurvivesOneMore(q, k, a);
    if ChangedIn(q, k, a) {
      KeptInside(q, k, a);
    }
  }

  lemma Regroup(q: nat, parts: nat, p: nat)
    requires parts >= 2
    ensures (parts * q) * p == q * (parts * p)
    ensures q > 0 ==> q < parts * q
  {
    assert parts * q == q + (parts - 1) * q;
  }

  lemma DividePower(c: nat, parts: nat, m: nat)
    requires parts >= 2 && m > 0
    ensures c * Pow(parts, m) % parts == 0 && c * Pow(parts, m) / parts == c * Pow(parts, m - 1)
  {
    var p := c * Pow(parts, m - 1);
    assert c * Pow(parts, m) == parts * p;
    EvenParts(p, parts);
  }

  lemma EvenParts(p: nat, parts: nat)
    requires parts > 0
    ensures (parts * p) % parts == 0 && (parts * p) / parts == p
  {
    QuotientIs(parts * p, p, parts);
  }

  lemma {:induction false} SizeOfPower(c: nat, parts: nat, m: nat, k: nat)
    requires parts >= 2 && k <= m
    ensures SizeAt(c * Pow(parts, m), parts, k) == c * Pow(parts, m - k)
    decreases k
  {
    if k > 0 {
      SizeOfPower(c, parts, m, k - 1);
      DividePower(c, parts, m - k + 1);
    }
  }

  /**
   The search over ranges whose size is at most the minimum, times a power of the
   number of parts, never fails to split: no round gets stuck.
   */
  lemma PowerSizesNeverFail(q: Search, c: nat, m: nat, k: nat)
    requires Proper(q) && c <= q.minChunk
    ensures !StuckAt(q, c * Pow(q.parts, m), k)
  {
    if k < m {
      SizeOfPower(c, q.parts, m, k);
      DividePower(c, q.parts, m - k);
    } else {
      SizeOfPower(c, q.parts, m, m);
      SizeFalls(c * Pow(q.parts, m), q.parts, m, k);
    }
  }
}
