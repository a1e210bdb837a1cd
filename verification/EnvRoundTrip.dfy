/** Parsing what the builder built: when the environment comes back, exactly. */
module EnvRoundTrip {
  import opened Wrappers
  import opened Bytes
  import opened Utf8
  import opened EnvImage
  import opened Sequences

  // ----- splitting at NULs -----

  predicate NulFree(segs: seq<bytes>) {
    forall i :: 0 <= i < |segs| ==> 0 !in segs[i]
  }

  lemma IndexOfAppend(a: bytes, x: byte, rest: bytes)
    requires x !in a
    ensures IndexOf(a + [x] + rest, x) == |a|
  {
    var b := a + [x] + rest;
    assert b[..|a|] == a;
    IndexUnique(b, x, |a|);
  }

  lemma IndexOfNone(a: bytes, x: byte)
    requires x !in a
    ensures IndexOf(a, x) == |a|
  {
    assert a[..|a|] == a;
    IndexUnique(a, x, |a|);
  }

  lemma SplitStep(s: bytes, tail: bytes)
    requires 0 !in s
    ensures Split(s + [0] + tail) == [s] + Split(tail)
  {
    var whole := s + [0] + tail;
    IndexOfAppend(s, 0, tail);
    assert whole[..|s|] == s;
    assert whole[|s| + 1..] == tail;
  }

  lemma {:induction false} SplitTerminated(segs: seq<bytes>, rest: bytes)
    requires NulFree(segs)
    ensures Split(Terminated(segs) + rest) == segs + Split(rest)
    decreases |segs|
  {
    if segs == [] {
      assert Terminated(segs) + rest == rest;
    } else {
      SplitStep(segs[0], Terminated(segs[1..]) + rest);
      Assoc(segs[0] + [0], Terminated(segs[1..]), rest);
      SplitTerminated(segs[1..], rest);
      ConsAppend(segs, Split(rest));
    }
  }

  lemma SplitOne(s: bytes)
    requires 0 !in s
    ensures Split(s) == [s]
  {
    IndexOfNone(s, 0);
  }

  // ----- stripping the padding -----

  predicate Strippable(b: byte) {
    b == 0 || b == 0xFF
  }

  /** The segments before the double NUL, and then what padding is left over. */
  predicate LastKept(segs: seq<bytes>) {
    && segs != []
    && segs[|segs| - 1] != []
    && !Strippable(segs[|segs| - 1][|segs[|segs| - 1]| - 1])
  }

  lemma TerminatedOne(s: bytes)
    ensures Terminated([s]) == s + [0]
  {
    assert s + [0] + [] == s + [0];
  }

  lemma TerminatedLast(segs: seq<bytes>)
    requires segs != []
    ensures Terminated(segs) == Terminated(segs[..|segs| - 1]) + segs[|segs| - 1] + [0]
  {
    var n := |segs| - 1;
    FrontLast(segs);
    TerminatedAppend(segs[..n], [segs[n]]);
    TerminatedOne(segs[n]);
    Assoc(Terminated(segs[..n]), segs[n], [0]);
  }

  /** A padding run is one segment the parser cannot use. */
  lemma PaddingIgnored(env: Dict, n: nat, pad: byte)
    ensures Apply(env, Fill(n, pad)) == env
  {
    if pad == EQ {
      IndexUnique(Fill(n, pad), EQ, 0);
    } else {
      IndexOfNone(Fill(n, pad), EQ);
    }
  }

  lemma ParseSnoc(segs: seq<bytes>, s: bytes)
    ensures ParseSegments(segs + [s]) == Apply(ParseSegments(segs), s)
  {
    assert (segs + [s])[..|segs|] == segs;
  }

  lemma RStripKept(b: bytes)
    requires b != [] && !Strippable(b[|b| - 1])
    ensures RStrip(b) == b
  {
  }

  lemma {:induction false} RStripTail(kept: bytes, tail: bytes)
    requires kept != [] && !Strippable(kept[|kept| - 1]) && forall i :: 0 <= i < |tail| ==> Strippable(tail[i])
    ensures RStrip(kept + tail) == kept
    decreases |tail|
  {
    if tail == [] {
      assert kept + tail == kept;
      RStripKept(kept);
    } else {
      DropLast(kept, tail);
      RStripTail(kept, tail[..|tail| - 1]);
    }
  }

  lemma DropLast(a: bytes, b: bytes)
    requires b != []
    ensures
      var whole := a + b;
      whole[..|whole| - 1] == a + b[..|b| - 1] && whole[|whole| - 1] == b[|b| - 1]
  {
  }

  lemma LastOf(front: bytes, last: bytes)
    requires last != []
    ensures front + last != [] && (front + last)[|front + last| - 1] == last[|last| - 1]
  {
  }

  lemma RStripPadded(segs: seq<bytes>, n: nat, pad: byte)
    requires LastKept(segs) && Strippable(pad)
    ensures RStrip(Terminated(segs) + [0] + Fill(n, pad)) == Terminated(segs[..|segs| - 1]) + segs[|segs| - 1]
  {
    TerminatedLast(segs);
    LastOf(Terminated(segs[..|segs| - 1]), segs[|segs| - 1]);
    RStripBody(Terminated(segs), Terminated(segs[..|segs| - 1]) + segs[|segs| - 1], n, pad);
  }

  lemma RStripBody(body: bytes, kept: bytes, n: nat, pad: byte)
    requires body == kept + [0] && kept != [] && !Strippable(kept[|kept| - 1]) && Strippable(pad)
    ensures RStrip(body + [0] + Fill(n, pad)) == kept
  {
    var tail := [0] + ([0] + Fill(n, pad));
    Assoc(body, [0], Fill(n, pad));
    Assoc(kept, [0], [0] + Fill(n, pad));
    assert body + [0] + Fill(n, pad) == kept + tail;
    RStripTail(kept, tail);
  }

  lemma ParseStripped(segs: seq<bytes>)
    requires NulFree(segs) && LastKept(segs)
    ensures Split(Terminated(segs[..|segs| - 1]) + segs[|segs| - 1]) == segs
  {
    SplitTerminated(segs[..|segs| - 1], segs[|segs| - 1]);
    SplitOne(segs[|segs| - 1]);
    FrontLast(segs);
  }

  lemma NoPadding(b: bytes, pad: byte)
    ensures b + Fill(0, pad) == b + Fill(0, 0)
  {
  }

  lemma SplitUnstripped(segs: seq<bytes>, padding: bytes)
    requires NulFree(segs) && 0 !in padding
    ensures Split(Terminated(segs) + [0] + padding) == segs + [[]] + [padding]
  {
    SplitStep([], padding);
    assert [] + [0] + padding == [0] + padding;
    SplitOne(padding);
    Assoc(Terminated(segs), [0], padding);
    SplitTerminated(segs, [0] + padding);
    Assoc(segs, [[]], [padding]);
  }

  /** However the image is padded, the parser sees the entries' segments and nothing else that counts. */
  lemma ParsePadded(segs: seq<bytes>, n: nat, pad: byte)
    requires NulFree(segs) && LastKept(segs)
    ensures ParseNulDelimited(Terminated(segs) + [0] + Fill(n, pad)) == ParseSegments(segs)
  {
    if Strippable(pad) {
      RStripPadded(segs, n, pad);
      ParseStripped(segs);
    } else if n == 0 {
      NoPadding(Terminated(segs) + [0], pad);
      RStripPadded(segs, 0, 0);
      ParseStripped(segs);
    } else {
      RStripKept(Terminated(segs) + [0] + Fill(n, pad));
      SplitUnstripped(segs, Fill(n, pad));
      ParseSnoc(segs, []);
      ParseSnoc(segs + [[]], Fill(n, pad));
      PaddingIgnored(ParseSegments(segs + [[]]), n, pad);
    }
  }

  // ----- reading entries -----

  lemma ApplySegment(dict: Dict, e: Entry)
    requires ValidKey(e.key)
    ensures Apply(dict, Segment(e)) == dict[e.key := e.value]
  {
    assert EQ !in e.key;
    var s := Segment(e);
    assert s == e.key + [EQ] + Encode(e.value);
    IndexOfAppend(e.key, EQ, Encode(e.value));
    assert s[..|e.key|] == e.key && s[|e.key| + 1..] == Encode(e.value);
    DecodeEncode(e.value);
  }

  lemma {:induction false} ParseEntries(env: seq<Entry>)
    requires forall i :: 0 <= i < |env| ==> ValidKey(env[i].key)
    ensures ParseSegments(Segments(env)) == DictOf(env)
    decreases |env|
  {
    if env != [] {
      var n := |env| - 1;
      SegmentsSnoc(env);
      ParseEntries(env[..n]);
      ParseSnoc(Segments(env[..n]), Segment(env[n]));
      ApplySegment(DictOf(env[..n]), env[n]);
    }
  }

  lemma SegmentsSnoc(env: seq<Entry>)
    requires env != []
    ensures Segments(env) == Segments(env[..|env| - 1]) + [Segment(env[|env| - 1])]
  {
  }

  lemma {:induction false} FirstIgnored(s: bytes, segs: seq<bytes>)
    requires Apply(map[], s) == map[]
    ensures ParseSegments([s] + segs) == ParseSegments(segs)
    decreases |segs|
  {
    if segs == [] {
      assert [s] + segs == [s] && [s][..0] == [];
    } else {
      var n := |segs| - 1;
      FirstIgnored(s, segs[..n]);
      FrontLast(segs);
      Assoc([s], segs[..n], [segs[n]]);
      ParseSnoc([s] + segs[..n], segs[n]);
      ParseSnoc(segs[..n], segs[n]);
    }
  }

  lemma {:induction false} DictKeys(env: seq<Entry>, k: bytes)
    ensures k in DictOf(env) <==> exists i :: 0 <= i < |env| && env[i].key == k
    decreases |env|
  {
    if env != [] {
      DictKeys(env[..|env| - 1], k);
    }
  }

  lemma SegmentsUsable(env: seq<Entry>)
    requires env != [] && forall i :: 0 <= i < |env| ==> ValidEntry(env[i])
    ensures NulFree(Segments(env)) && LastKept(Segments(env))
  {
    var segs := Segments(env);
    forall i | 0 <= i < |segs| ensures 0 !in segs[i] {
      assert 0 !in env[i].key && 0 !in Encode(env[i].value);
    }
    var e := env[|env| - 1];
    var last := segs[|segs| - 1];
    assert last == e.key + [EQ] + Encode(e.value);
    if Encode(e.value) != [] {
      assert last[|last| - 1] == Encode(e.value)[|Encode(e.value)| - 1];
      assert last[|last| - 1] in Encode(e.value);
    }
  }

  // ----- a flags byte in front, read as part of the first entry -----

  /** The entries a 4-byte header reading of a flagged image sees. */
  function Shifted(f: byte, env: seq<Entry>): seq<Entry>
    requires env != []
  {
    if f == 0 then env
    else if KeyChar(f) then [Entry([f] + env[0].key, env[0].value)] + env[1..]
    else env[1..]
  }

  /** The segments of a flagged image read with the flags byte in front. */
  function ShiftedSegs(f: byte, env: seq<Entry>): seq<bytes>
    requires env != []
  {
    [[f] + Segment(env[0])] + Segments(env[1..])
  }

  lemma SegmentsCons(env: seq<Entry>)
    requires env != []
    ensures Segments(env) == [Segment(env[0])] + Segments(env[1..])
  {
  }

  lemma ShiftedSegments(f: byte, env: seq<Entry>)
    requires env != []
    ensures [f] + Terminated(Segments(env)) == Terminated(ShiftedSegs(f, env))
  {
    SegmentsCons(env);
    var s, rest := Segment(env[0]), Segments(env[1..]);
    assert ([s] + rest)[1..] == rest;
    assert ShiftedSegs(f, env)[1..] == rest;
    Assoc([f], s, [0]);
    Assoc([f], s + [0], Terminated(rest));
  }

  lemma ShiftedUsable(f: byte, env: seq<Entry>)
    requires env != [] && f != 0 && forall i :: 0 <= i < |env| ==> ValidEntry(env[i])
    ensures NulFree(ShiftedSegs(f, env)) && LastKept(ShiftedSegs(f, env))
  {
    SegmentsUsable(env);
    SegmentsCons(env);
    var segs, shifted := Segments(env), ShiftedSegs(f, env);
    assert shifted[1..] == segs[1..];
    forall i | 0 <= i < |shifted| ensures 0 !in shifted[i] {
      assert 0 !in segs[i];
    }
  }

  lemma ShiftedKeyChar(f: byte, env: seq<Entry>)
    requires env != [] && KeyChar(f)
    ensures ShiftedSegs(f, env) == Segments(Shifted(f, env))
  {
    var e := Entry([f] + env[0].key, env[0].value);
    Assoc([f], env[0].key, [EQ]);
    Assoc([f], env[0].key + [EQ], Encode(env[0].value));
    SegmentsCons([e] + env[1..]);
    assert ([e] + env[1..])[1..] == env[1..];
  }

  lemma OtherByteIgnored(f: byte, e: Entry)
    requires !KeyChar(f) && ValidKey(e.key)
    ensures Apply(map[], [f] + Segment(e)) == map[]
  {
    var s := [f] + Segment(e);
    if f == EQ {
      IndexUnique(s, EQ, 0);
    } else {
      assert s == ([f] + e.key) + [EQ] + Encode(e.value);
      IndexOfAppend([f] + e.key, EQ, Encode(e.value));
      assert s[..1 + |e.key|][0] == f;
    }
  }

  lemma ShiftedFirst(f: byte, env: seq<Entry>)
    requires env != [] && f != 0 && forall i :: 0 <= i < |env| ==> ValidEntry(env[i])
    ensures ParseSegments(ShiftedSegs(f, env)) == DictOf(Shifted(f, env))
  {
    if KeyChar(f) {
      ShiftedKeyChar(f, env);
      ParseEntries(Shifted(f, env));
    } else {
      OtherByteIgnored(f, env[0]);
      FirstIgnored([f] + Segment(env[0]), Segments(env[1..]));
      ParseEntries(env[1..]);
    }
  }

  lemma ZeroInFront(segs: seq<bytes>)
    ensures [0] + Terminated(segs) == Terminated([[]] + segs)
  {
    assert ([[]] + segs)[1..] == segs;
    assert [] + [0] + Terminated(segs) == [0] + Terminated(segs);
  }

  lemma ZeroUsable(segs: seq<bytes>)
    requires NulFree(segs) && LastKept(segs)
    ensures NulFree([[]] + segs) && LastKept([[]] + segs)
  {
    var more := [[]] + segs;
    assert more[|more| - 1] == segs[|segs| - 1];
  }

  lemma ParseZero(env: seq<Entry>, n: nat, pad: byte)
    requires env != [] && forall i :: 0 <= i < |env| ==> ValidEntry(env[i])
    ensures ParseNulDelimited([0] + Terminated(Segments(env)) + [0] + Fill(n, pad)) == DictOf(env)
  {
    SegmentsUsable(env);
    ParseZeroFirst(Segments(env), n, pad);
    FirstIgnored([], Segments(env));
    ParseEntries(env);
  }

  lemma ParseZeroFirst(segs: seq<bytes>, n: nat, pad: byte)
    requires NulFree(segs) && LastKept(segs)
    ensures ParseNulDelimited([0] + Terminated(segs) + [0] + Fill(n, pad)) == ParseSegments([[]] + segs)
  {
    ZeroInFront(segs);
    ZeroUsable(segs);
    ParsePaddedAs([0] + Terminated(segs), [[]] + segs, n, pad);
  }

  lemma ParsePaddedAs(body: bytes, segs: seq<bytes>, n: nat, pad: byte)
    requires NulFree(segs) && LastKept(segs) && body == Terminated(segs)
    ensures ParseNulDelimited(body + [0] + Fill(n, pad)) == ParseSegments(segs)
  {
    ParsePadded(segs, n, pad);
  }

  /** What the parser makes of the data with one more byte in front. */
  lemma ParseShifted(f: byte, env: seq<Entry>, n: nat, pad: byte)
    requires env != [] && forall i :: 0 <= i < |env| ==> ValidEntry(env[i])
    ensures ParseNulDelimited([f] + (Terminated(Segments(env)) + [0] + Fill(n, pad))) == DictOf(Shifted(f, env))
  {
    Assoc([f], Terminated(Segments(env)), [0]);
    Assoc([f], Terminated(Segments(env)) + [0], Fill(n, pad));
    if f == 0 {
      ParseZero(env, n, pad);
    } else {
      ShiftedSegments(f, env);
      ShiftedUsable(f, env);
      ParsePaddedAs([f] + Terminated(Segments(env)), ShiftedSegs(f, env), n, pad);
      ShiftedFirst(f, env);
    }
  }

  lemma FirstKeyOnce(env: seq<Entry>)
    requires env != [] && ValidEnv(env)
    ensures env[0].key in DictOf(env) && env[0].key !in DictOf(env[1..])
  {
    DictKeys(env, env[0].key);
    DictKeys(env[1..], env[0].key);
    assert forall i :: 0 <= i < |env| - 1 ==> env[1..][i] == env[i + 1];
  }

  lemma RenamedKey(f: byte, env: seq<Entry>)
    requires env != [] && ValidEnv(env) && KeyChar(f)
    ensures env[0].key !in DictOf(Shifted(f, env)) && DictOf(Shifted(f, env)) != map[]
  {
    var renamed := Shifted(f, env);
    DictKeys(renamed, env[0].key);
    DictKeys(renamed, renamed[0].key);
    assert renamed[0].key in DictOf(renamed);
    assert forall i :: 0 < i < |env| ==> renamed[i] == env[i];
    assert |renamed[0].key| > |env[0].key|;
  }

  /** The misreading differs from the environment unless the flags byte is zero. */
  lemma ShiftedDiffers(f: byte, env: seq<Entry>)
    requires env != [] && ValidEnv(env) && f != 0
    ensures DictOf(Shifted(f, env)) != DictOf(env)
    ensures DictOf(Shifted(f, env)) == map[] <==> |env| == 1 && !KeyChar(f)
  {
    FirstKeyOnce(env);
    if KeyChar(f) {
      RenamedKey(f, env);
    } else if |env| > 1 {
      DictKeys(env[1..], env[1].key);
      assert env[1..][0] == env[1];
    }
  }

  // ----- the built image -----

  /** What a successful build put together. */
  lemma BuiltParts(crc: Crc, env: seq<Entry>, size: Option<int>, flags: Option<int>, pad: int) returns (n: nat)
    requires Build(crc, env, size, flags, pad).Ok?
    ensures 0 <= pad <= 0xFF && (flags.Some? ==> 0 <= flags.value <= 0xFF)
    ensures forall i :: 0 <= i < |env| ==> ValidEntry(env[i])
    ensures
      var data := Terminated(Segments(env)) + [0] + Fill(n, pad);
      Build(crc, env, size, flags, pad).value == Header(crc(data), flags) + data
    ensures size.Some? ==> |Build(crc, env, size, flags, pad).value| == size.value
  {
    NoneBad(env);
    var payload := Terminated(Segments(env)) + [0];
    n := if size.None? then 0 else size.value - HeaderSize(flags) - |payload|;
    assert payload + Fill(0, pad) == payload;
  }

  lemma {:induction false} NoneBad(env: seq<Entry>)
    ensures FirstBad(env).None? <==> forall i :: 0 <= i < |env| ==> ValidEntry(env[i])
    decreases |env|
  {
    if env != [] {
      NoneBad(env[1..]);
      assert forall i :: 0 < i < |env| ==> env[i] == env[1..][i - 1];
    }
  }

  /** When building succeeds: every error condition of the source, and no other. */
  lemma BuildSucceeds(crc: Crc, env: seq<Entry>, size: Option<int>, flags: Option<int>, pad: int)
    ensures Build(crc, env, size, flags, pad).Ok? <==>
            && 0 <= pad <= 0xFF
            && (flags.Some? ==> 0 <= flags.value <= 0xFF)
            && (forall i :: 0 <= i < |env| ==> ValidEntry(env[i]))
            && (size.Some? ==> |Terminated(Segments(env))| + 1 + HeaderSize(flags) <= size.value)
  {
    NoneBad(env);
  }

  /** A header read with the wrong size matches by accident. */
  predicate Misread(crc: Crc, image: bytes) {
    |image| > 5 && CrcMatches(crc, image, 4)
  }

  lemma HeaderReads(crc: word, flags: Option<int>, data: bytes)
    requires flags.Some? ==> 0 <= flags.value <= 0xFF
    ensures
      var image := Header(crc, flags) + data;
      && |image| == HeaderSize(flags) + |data|
      && image[..4] == LittleEndian(crc, 4) && FromLittle(image[..4]) == crc
      && image[HeaderSize(flags)..] == data
      && (flags.Some? ==> image[4..] == [flags.value] + data)
  {
    Pow256Four();
    FromLittleOfLittleEndian(crc, 4);
    var image := Header(crc, flags) + data;
    assert image[..4] == LittleEndian(crc, 4);
  }

  lemma NotErased(a: bytes, b: bytes, e: byte)
    requires e in b && e != 0 && e != 0xFF
    ensures !IsErased(a + b)
  {
    var i :| 0 <= i < |b| && b[i] == e;
    assert (a + b)[|a| + i] == e;
  }

  lemma DataHasEq(env: seq<Entry>, tail: bytes)
    requires env != []
    ensures EQ in Terminated(Segments(env)) + tail
  {
    var segs := Segments(env);
    assert segs[0] == env[0].key + [EQ] + Encode(env[0].value);
    assert segs[0][|env[0].key|] == EQ;
    assert Terminated(segs)[|env[0].key|] == EQ;
    assert (Terminated(segs) + tail)[|env[0].key|] == EQ;
  }

  lemma NonEmptyDict(env: seq<Entry>)
    requires env != []
    ensures DictOf(env) != map[]
  {
    DictKeys(env, env[0].key);
    assert env[0].key in DictOf(env);
  }

  /**
   The environment comes back, whatever the size, the padding and the values,
   exactly when there is no flags byte, or it is zero, or the shorter header does
   not match by accident, or it matches but leaves nothing readable.
   */
  lemma RoundTrip(crc: Crc, raw: bytes -> Option<Dict>, env: seq<Entry>, size: Option<int>, flags: Option<int>,
                  pad: int)
    requires env != [] && ValidEnv(env)
    requires Build(crc, env, size, flags, pad).Ok?
    ensures
      var image := Build(crc, env, size, flags, pad).value;
      ParsePart(crc, raw, image) == Ok(DictOf(env)) <==>
      (flags.None? || flags.value == 0 || !Misread(crc, image) || (|env| == 1 && !KeyChar(flags.value)))
  {
    var n := BuiltParts(crc, env, size, flags, pad);
    ReadBack(crc, env, flags, n, pad);
  }

  /** Both readings of an image made of these parts. */
  lemma ReadBack(crc: Crc, env: seq<Entry>, flags: Option<int>, n: nat, pad: byte)
    requires env != [] && ValidEnv(env) && (flags.Some? ==> 0 <= flags.value <= 0xFF)
    ensures
      var data := Terminated(Segments(env)) + [0] + Fill(n, pad);
      var image := Header(crc(data), flags) + data;
      && |image| > HeaderSize(flags) && !IsErased(image)
      && TryHeader(crc, image, HeaderSize(flags)) == Some(DictOf(env))
      && (flags.Some? ==> ParseNulDelimited(image[4..]) == DictOf(Shifted(flags.value, env)))
      && (flags.Some? && flags.value != 0 ==>
          DictOf(Shifted(flags.value, env)) != DictOf(env) &&
          (DictOf(Shifted(flags.value, env)) == map[] <==> |env| == 1 && !KeyChar(flags.value)))
      && DictOf(env) != map[]
  {
    var data := Terminated(Segments(env)) + [0] + Fill(n, pad);
    HeaderReads(crc(data), flags, data);
    Assoc(Terminated(Segments(env)), [0], Fill(n, pad));
    DataHasEq(env, [0] + Fill(n, pad));
    NotErased(Header(crc(data), flags), data, EQ);
    NonEmptyDict(env);
    DataParses(env, n, pad);
    if flags.Some? {
      ParseShifted(flags.value, env, n, pad);
      if flags.value != 0 {
        ShiftedDiffers(flags.value, env);
      }
    }
  }

  lemma DataParses(env: seq<Entry>, n: nat, pad: byte)
    requires env != [] && ValidEnv(env)
    ensures ParseNulDelimited(Terminated(Segments(env)) + [0] + Fill(n, pad)) == DictOf(env)
  {
    SegmentsUsable(env);
    ParsePadded(Segments(env), n, pad);
    ParseEntries(env);
  }
}
