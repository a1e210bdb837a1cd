/**
 The environment image: a checksum header, an optional flags byte, NUL-ended
 key=value entries and padding. Building one and parsing it back are inverse,
 except where the header's size can be misread.
 */
module EnvImage {
  import opened Wrappers
  import opened Bytes
  import opened Utf8
  import opened Sequences

  const EQ: byte := 0x3D

  /** An environment as Python holds it: a dictionary in insertion order. */
  datatype Entry = Entry(key: bytes, value: Text)

  type Dict = map<bytes, Text>

  datatype EnvError =
    BadPad | BadFlags | BadKey(key: bytes) | NulInValue(key: bytes) | TooSmall | Empty | ErasedPart | NotAnEnv

  type Crc = bytes -> word

  /** The characters of `[A-Za-z0-9_.-]`. */
  predicate KeyChar(b: byte) {
    0x41 <= b <= 0x5A || 0x61 <= b <= 0x7A || 0x30 <= b <= 0x39 || b == 0x5F || b == 0x2E || b == 0x2D
  }

  predicate ValidKey(k: bytes) {
    k != [] && forall i :: 0 <= i < |k| ==> KeyChar(k[i])
  }

  predicate ValidEntry(e: Entry) {
    ValidKey(e.key) && 0 !in e.value
  }

  predicate ValidEnv(env: seq<Entry>) {
    && (forall i :: 0 <= i < |env| ==> ValidEntry(env[i]))
    && (forall i, j :: 0 <= i < j < |env| ==> env[i].key != env[j].key)
  }

  function DictOf(env: seq<Entry>): Dict {
    if env == [] then map[] else DictOf(env[..|env| - 1])[env[|env| - 1].key := env[|env| - 1].value]
  }

  // ----- building -----

  /** One entry without its terminator. */
  function Segment(e: Entry): bytes {
    e.key + [EQ] + Encode(e.value)
  }

  function Segments(env: seq<Entry>): (segs: seq<bytes>)
    ensures |segs| == |env| && forall i :: 0 <= i < |env| ==> segs[i] == Segment(env[i])
  {
    seq(|env|, i requires 0 <= i < |env| => Segment(env[i]))
  }

  /** Every segment followed by a NUL. */
  function Terminated(segs: seq<bytes>): bytes {
    if segs == [] then [] else segs[0] + [0] + Terminated(segs[1..])
  }

  function FirstBad(env: seq<Entry>): Option<EnvError> {
    if env == [] then None
    else if !ValidKey(env[0].key) then Some(BadKey(env[0].key))
    else if 0 in Encode(env[0].value) then Some(NulInValue(env[0].key))
    else FirstBad(env[1..])
  }

  function EncodePayload(env: seq<Entry>): Result<bytes, EnvError> {
    match FirstBad(env)
    case Some(e) => Err(e)
    case None => Ok(Terminated(Segments(env)) + [0])
  }

  function Header(crc: word, flags: Option<int>): (h: bytes)
    requires flags.Some? ==> 0 <= flags.value <= 0xFF
    ensures |h| == if flags.None? then 4 else 5
  {
    LittleEndian(crc, 4) + (if flags.None? then [] else [flags.value])
  }

  function HeaderSize(flags: Option<int>): nat {
    if flags.None? then 4 else 5
  }

  /** The data after the header: the payload, padded to `size` when one is given. */
  function Padded(payload: bytes, size: Option<int>, headerSize: nat, pad: byte): Result<bytes, EnvError> {
    match size
    case None => Ok(payload)
    case Some(n) =>
      if n - headerSize < |payload| then Err(TooSmall)
      else Ok(payload + Fill(n - headerSize - |payload|, pad))
  }

  function Build(crc: Crc, env: seq<Entry>, size: Option<int>, flags: Option<int>, pad: int): Result<bytes, EnvError> {
    if !(0 <= pad <= 0xFF) then Err(BadPad)
    else if flags.Some? && !(0 <= flags.value <= 0xFF) then Err(BadFlags)
    else
      match EncodePayload(env)
      case Err(e) => Err(e)
      case Ok(payload) =>
        match Padded(payload, size, HeaderSize(flags), pad)
        case Err(e) => Err(e)
        case Ok(data) => Ok(Header(crc(data), flags) + data)
  }

  // ----- parsing -----

  /** Python's `rstrip(b"\x00\xff")`. */
  function RStrip(b: bytes): bytes {
    if b != [] && (b[|b| - 1] == 0 || b[|b| - 1] == 0xFF) then RStrip(b[..|b| - 1]) else b
  }

  /** Python's `split(b"\x00")`. */
  function Split(b: bytes): (segs: seq<bytes>)
    decreases |b|
  {
    var i := IndexOf(b, 0);
    if i == |b| then [b] else [b[..i]] + Split(b[i + 1..])
  }

  /** One segment's effect on the dictionary read so far. */
  function Apply(env: Dict, segment: bytes): Dict {
    var i := IndexOf(segment, EQ);
    if i < |segment| && ValidKey(segment[..i]) then env[segment[..i] := Decode(segment[i + 1..])] else env
  }

  function ParseSegments(segs: seq<bytes>): Dict {
    if segs == [] then map[] else Apply(ParseSegments(segs[..|segs| - 1]), segs[|segs| - 1])
  }

  function ParseNulDelimited(body: bytes): Dict {
    ParseSegments(Split(RStrip(body)))
  }

  predicate IsErased(b: bytes) {
    (forall i :: 0 <= i < |b| ==> b[i] == 0xFF) || (forall i :: 0 <= i < |b| ==> b[i] == 0)
  }

  /** One reading of the header: the checksum of what follows must match in either byte order. */
  predicate CrcMatches(crc: Crc, partition: bytes, headerSize: nat)
    requires 4 <= headerSize < |partition|
  {
    var c := crc(partition[headerSize..]);
    c == FromBig(partition[..4]) || c == FromLittle(partition[..4])
  }

  function TryHeader(crc: Crc, partition: bytes, headerSize: nat): Option<Dict>
    requires headerSize >= 4
  {
    if |partition| <= headerSize || !CrcMatches(crc, partition, headerSize) then None
    else
      var env := ParseNulDelimited(partition[headerSize..]);
      if env == map[] then None else Some(env)
  }

  /** `raw` stands for the reading of partitions without a checksum. */
  function ParsePart(crc: Crc, raw: bytes -> Option<Dict>, partition: bytes): Result<Dict, EnvError> {
    if partition == [] then Err(Empty)
    else if IsErased(partition) then Err(ErasedPart)
    else
      match TryHeader(crc, partition, 4)
      case Some(env) => Ok(env)
      case None =>
        match TryHeader(crc, partition, 5)
        case Some(env) => Ok(env)
        case None => if raw(partition).Some? then Ok(raw(partition).value) else Err(NotAnEnv)
  }

  // ----- the loops of the source, against the functions above -----

  method EncodeEnvPayload(env: seq<Entry>) returns (r: Result<bytes, EnvError>)
    ensures r == EncodePayload(env)
  {
    var joined: bytes := [];
    for i := 0 to |env|
      invariant FirstBad(env) == FirstBad(env[i..])
      invariant joined == Terminated(Segments(env[..i]))
    {
      assert env[i..][1..] == env[i + 1..];
      if !ValidKey(env[i].key) {
        return Err(BadKey(env[i].key));
      }
      if 0 in Encode(env[i].value) {
        return Err(NulInValue(env[i].key));
      }
      TerminatedSnoc(env, i);
      joined := joined + Segment(env[i]) + [0];
    }
    assert env[..|env|] == env;
    r := Ok(joined + [0]);
  }

  lemma TerminatedSnoc(env: seq<Entry>, i: nat)
    requires i < |env|
    ensures Terminated(Segments(env[..i + 1])) == Terminated(Segments(env[..i])) + Segment(env[i]) + [0]
  {
    assert Segments(env[..i + 1]) == Segments(env[..i]) + [Segment(env[i])];
    TerminatedAppend(Segments(env[..i]), [Segment(env[i])]);
    assert [Segment(env[i])][1..] == [];
  }

  lemma {:induction false} TerminatedAppend(a: seq<bytes>, b: seq<bytes>)
    ensures Terminated(a + b) == Terminated(a) + Terminated(b)
    decreases |a|
  {
    if a == [] {
      assert a + b == b;
    } else {
      assert (a + b)[1..] == a[1..] + b;
      TerminatedAppend(a[1..], b);
    }
  }

  method ParseEnv(body: bytes) returns (env: Dict)
    ensures env == ParseNulDelimited(body)
  {
    var segs := Split(RStrip(body));
    env := map[];
    for n := 0 to |segs|
      invariant env == ParseSegments(segs[..n])
    {
      assert segs[..n + 1][..n] == segs[..n];
      var i := IndexOf(segs[n], EQ);
      if i < |segs[n]| && ValidKey(segs[n][..i]) {
        env := env[segs[n][..i] := Decode(segs[n][i + 1..])];
      }
    }
    assert segs[..|segs|] == segs;
  }
}
