/**
 The active-memory search over a device's own checksums: what is reported is where
 checksums changed, whatever byte order the host assumes.
 */
module MemorySearch {
  import opened Wrappers
  import opened Device
  import opened Ranges
  import opened BatchCrc
  import opened ActiveSearch

  /** The device at the time of each checksum script; memory may change between any two. */
  type Timeline = nat -> Device

  ghost predicate SameBoard(at: Timeline, size: nat) {
    forall t: nat, t': nat :: at(t).board == at(t').board && |at(t).ram| == size
  }

  /** What the host computes for a range: the byte order it assumes need not be the device's. */
  function CrcSampler(at: Timeline, le: bool): Sampler {
    (t: nat, r: Range) =>
      if InRam(at(t), r.addr, r.size) then Decoded(at(t).board.littleEndian, le, BatchCrc.Sum(at(t), r)) else 0
  }

  predicate AllInRam(d: Device, ranges: seq<Range>) {
    forall i :: 0 <= i < |ranges| ==> InRam(d, ranges[i].addr, ranges[i].size)
  }

  /** The search's samples of a batch are the values that one script and one reply deliver. */
  lemma SamplesAreReplies(at: Timeline, le: bool, t: nat, batch: seq<Range>)
    requires AllInRam(at(t), batch)
    ensures Checksums(CrcSampler(at, le), t, batch) == HostView(at(t), batch, le)
  {
    var sample := CrcSampler(at, le);
    forall i | 0 <= i < |batch| ensures Checksums(sample, t, batch)[i] == HostView(at(t), batch, le)[i] {
      assert InRam(at(t), batch[i].addr, batch[i].size);
    }
  }

  /** Some byte of the range differs between the two devices. */
  ghost predicate MemoryChanged(d: Device, e: Device, r: Range) {
    exists i: nat :: r.addr <= i < r.End() && i < |d.ram| && i < |e.ram| && d.ram[i] != e.ram[i]
  }

  lemma SumsDiffer(d: Device, e: Device, r: Range)
    requires InRam(d, r.addr, r.size) && InRam(e, r.addr, r.size) && d.board == e.board &&
      BatchCrc.Sum(d, r) != BatchCrc.Sum(e, r)
    ensures MemoryChanged(d, e, r)
  {
    var x, y := d.ram[r.addr..r.addr + r.size], e.ram[r.addr..r.addr + r.size];
    assert x != y;
    var i: nat :| i < |x| && x[i] != y[i];
    assert d.ram[r.addr + i] != e.ram[r.addr + i];
  }

  lemma InsideMemory(r: Range, ranges: seq<Range>, size: nat)
    requires Within(r, ranges) && forall x :: x in ranges ==> x.End() <= size
    ensures r.End() <= size
  {
  }

  /** In round `k` a range around the address had another checksum the second time its batch was asked for. */
  ghost predicate ChecksumChanged(q: Search, at: Timeline, k: nat, a: nat)
    requires Proper(q)
  {
    && RoundAt(q, k).Some?
    && var now := RoundAt(q, k).value;
    exists p: nat ::
      && p < |now.cur| && Covers(now.cur[p], a)
      && SumChanged(at, TimeOf(now.start, p, q.maxRanges), now.cur[p])
  }

  predicate SumChanged(at: Timeline, t: nat, r: Range) {
    && InRam(at(t), r.addr, r.size) && InRam(at(t + 1), r.addr, r.size)
    && BatchCrc.Sum(at(t), r) != BatchCrc.Sum(at(t + 1), r)
  }

  /** What the host sees of a range in memory is whether its checksum changed. */
  lemma DiffersIff(at: Timeline, le: bool, ram: nat, t: nat, r: Range)
    requires SameBoard(at, ram) && r.End() <= ram
    ensures Differs(CrcSampler(at, le), t, r) <==> SumChanged(at, t, r)
    ensures SumChanged(at, t, r) ==> MemoryChanged(at(t), at(t + 1), r)
  {
    var d, e := at(t), at(t + 1);
    assert d.board == e.board && |d.ram| == ram && |e.ram| == ram;
    DecodedDistinguishes(d.board.littleEndian, le, BatchCrc.Sum(d, r), BatchCrc.Sum(e, r));
    if SumChanged(at, t, r) {
      SumsDiffer(d, e, r);
    }
  }

  /** A round's samples show exactly which checksums changed, and a changed checksum is changed memory. */
  lemma ChangedInIff(q: Search, at: Timeline, le: bool, ram: nat, size: nat, k: nat, a: nat)
    requires Proper(q) && q.sample == CrcSampler(at, le) && SameBoard(at, ram)
    requires Level(q.ranges, size, q.ranges) && forall x :: x in q.ranges ==> x.End() <= ram
    ensures ChangedIn(q, k, a) <==> ChecksumChanged(q, at, k, a)
  {
    if RoundAt(q, k).Some? {
      var now := RoundAt(q, k).value;
      RoundLevel(q, size, k);
      forall p: nat | p < |now.cur|
        ensures DiffersAt(q.sample, now.start, now.cur, q.maxRanges, p) <==>
                SumChanged(at, TimeOf(now.start, p, q.maxRanges), now.cur[p])
      {
        assert now.cur[p] in now.cur;
        InsideMemory(now.cur[p], q.ranges, ram);
        DiffersIff(at, le, ram, TimeOf(now.start, p, q.maxRanges), now.cur[p]);
      }
    }
  }

  /** In every round that comes about a range around the address had its checksum changed. */
  ghost predicate ChangesInAll(q: Search, at: Timeline, size: nat, a: nat)
    requires Proper(q)
  {
    forall k: nat :: Due(q, size, k) ==> ChecksumChanged(q, at, k, a)
  }

  lemma ReportedIff(q: Search, at: Timeline, le: bool, ram: nat, size: nat, a: nat)
    requires Proper(q) && q.sample == CrcSampler(at, le) && SameBoard(at, ram)
    requires Level(q.ranges, size, q.ranges) && forall x :: x in q.ranges ==> x.End() <= ram
    ensures ActiveSearch.Reported(q, size, a) <==> ChangesInAll(q, at, size, a)
  {
    forall k: nat ensures ChangedIn(q, k, a) <==> ChecksumChanged(q, at, k, a) {
      ChangedInIff(q, at, le, ram, size, k, a);
    }
  }

  /**
   The search over a device's checksums, in either byte order: an address is reported
   exactly if in every round that comes about it lies in a range whose checksum
   changed between the two times its batch was asked for.
   */
  method SearchMemory(at: Timeline, le: bool, ghost ram: nat, ranges: seq<Range>, ghost size: nat,
                      minChunk: int, parts: nat, maxRanges: int)
    returns (r: Result<seq<Range>, SearchError>)
    requires size > 0 && parts >= 2 && maxRanges > 0 && SameBoard(at, ram)
    requires forall x :: x in ranges ==> x.size == size && x.End() <= ram
    ensures Answers(Search(CrcSampler(at, le), ranges, minChunk, parts, maxRanges), size, r)
    ensures r.Ok? ==>
      var q := Search(CrcSampler(at, le), ranges, minChunk, parts, maxRanges);
      forall a :: Has(r.value, a) <==> ChangesInAll(q, at, size, a)
  {
    r := FindActive(CrcSampler(at, le), ranges, size, minChunk, parts, maxRanges);
    ghost var q := Search(CrcSampler(at, le), ranges, minChunk, parts, maxRanges);
    InitialLevel(ranges, size);
    if r.Ok? {
      forall a ensures ActiveSearch.Reported(q, size, a) <==> ChangesInAll(q, at, size, a) {
        ReportedIff(q, at, le, ram, size, a);
      }
    }
  }
}
