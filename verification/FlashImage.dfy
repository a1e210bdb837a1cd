/**
 A whole flash image: finding the environment partition, reading it and replacing it.
 */
module FlashImage {
  import opened Wrappers
  import opened Bytes
  import opened EnvImage
  import opened EnvRoundTrip

  datatype ImageError =
    | EmptyImage | NegativeBootOffset | InvalidBoundaries
    | ProbeBeyond | NoDefaultEnv | NoMarkers | NotInferred
    | PartitionBeyond | BootBeyond
    | BuildFailed(error: EnvError)

  /** What this model does not look into: checksums, and the readers of unstructured regions. */
  datatype Tools = Tools(
    crc: Crc,
    raw: bytes -> Option<Dict>,               // partitions without a checksum
    defaultEnv: bytes -> Option<Dict>,        // the environment embedded in a boot loader
    mtdparts: Dict -> Option<(int, int)>)     // boot and env sizes named by an environment

  /** The boundaries a caller may supply. */
  datatype Bounds = Bounds(bootOffset: int, bootSize: Option<int>, envOffset: Option<int>, envSize: Option<int>)

  datatype Layout = Layout(bootSize: int, envOffset: int, envSize: int, defaultEnv: Option<Dict>)

  /** Python's `image[a:b]` for non-negative bounds. */
  function Slice(image: bytes, a: nat, b: nat): bytes {
    var hi := if b < |image| then b else |image|;
    if a < hi then image[a..hi] else []
  }

  // ----- the boundary after the boot loader and the environment -----

  const MAGICS: seq<bytes> := [
    [0x27, 0x05, 0x19, 0x56],     // uImage
    [0xD0, 0x0D, 0xFE, 0xED],     // FDT
    [0x68, 0x73, 0x71, 0x73],     // hsqs
    [0x55, 0x42, 0x49, 0x23]]     // UBI#

  predicate Occurs(image: bytes, magic: bytes, i: nat) {
    i + |magic| <= |image| && image[i..i + |magic|] == magic
  }

  /** Python's `image.find(magic, start)`. */
  function Find(image: bytes, magic: bytes, start: nat): (r: Option<nat>)
    ensures r.Some? ==> r.value >= start && Occurs(image, magic, r.value)
    ensures r.Some? ==> forall j :: start <= j < r.value ==> !Occurs(image, magic, j)
    ensures r.None? ==> forall j :: start <= j ==> !Occurs(image, magic, j)
    decreases |image| - start
  {
    if start > |image| then None
    else if Occurs(image, magic, start) then Some(start)
    else Find(image, magic, start + 1)
  }

  function Least(a: Option<nat>, b: Option<nat>): Option<nat> {
    if a.None? then b else if b.None? then a else if a.value < b.value then a else b
  }

  function FirstOf(image: bytes, magics: seq<bytes>, start: nat): Option<nat> {
    if magics == [] then None else Least(Find(image, magics[0], start), FirstOf(image, magics[1..], start))
  }

  const MIN_BOOT: nat := 0x1_0000

  function Boundary(image: bytes, bootOffset: nat): Option<nat> {
    FirstOf(image, MAGICS, bootOffset + MIN_BOOT)
  }

  ghost predicate AnyMagicAt(image: bytes, magics: seq<bytes>, i: nat) {
    exists m :: m in magics && Occurs(image, m, i)
  }

  lemma {:induction false} FirstOfIsLeast(image: bytes, magics: seq<bytes>, start: nat)
    ensures
      match FirstOf(image, magics, start)
      case None => forall j :: start <= j ==> !AnyMagicAt(image, magics, j)
      case Some(b) => start <= b && AnyMagicAt(image, magics, b)
                      && forall j :: start <= j < b ==> !AnyMagicAt(image, magics, j)
    decreases |magics|
  {
    if magics != [] {
      FirstOfIsLeast(image, magics[1..], start);
      forall j: nat
        ensures AnyMagicAt(image, magics, j) <==> Occurs(image, magics[0], j) || AnyMagicAt(image, magics[1..], j)
      {
        AnyMagicCons(image, magics, j);
      }
    }
  }

  lemma AnyMagicCons(image: bytes, magics: seq<bytes>, j: nat)
    requires magics != []
    ensures AnyMagicAt(image, magics, j) <==> Occurs(image, magics[0], j) || AnyMagicAt(image, magics[1..], j)
  {
    assert magics == [magics[0]] + magics[1..];
    if Occurs(image, magics[0], j) {
      assert magics[0] in magics;
    }
    if AnyMagicAt(image, magics[1..], j) {
      var m :| m in magics[1..] && Occurs(image, m, j);
      assert m in magics;
    }
  }

  // ----- inferring a layout -----

  const COMMON_SIZES: seq<nat> := [0x1_0000, 0x2_0000, 0x4_0000]
  const MAX_PROBE: nat := 0x20_0000

  function GuessProbeSize(image: bytes, bootOffset: nat): int {
    match Boundary(image, bootOffset)
    case Some(b) => b - bootOffset
    case None => if |image| - bootOffset < MAX_PROBE then |image| - bootOffset else MAX_PROBE
  }

  /** The first candidate size that leaves a boot region with a readable environment. */
  function FirstSize(tools: Tools, image: bytes, bootOffset: nat, boundary: nat, sizes: seq<nat>): Option<Layout> {
    if sizes == [] then None else
      var envOffset := boundary - sizes[0];
      if envOffset > bootOffset && tools.defaultEnv(Slice(image, bootOffset, envOffset)).Some?
      then Some(Layout(envOffset - bootOffset, envOffset, sizes[0],
        tools.defaultEnv(Slice(image, bootOffset, envOffset))))
      else FirstSize(tools, image, bootOffset, boundary, sizes[1..])
  }

  function Infer(tools: Tools, image: bytes, bootOffset: nat, bootSize: Option<int>): Result<Layout, ImageError> {
    var probeSize := if bootSize.Some? then bootSize.value else GuessProbeSize(image, bootOffset);
    // a region's length is never negative, so a negative size always reads as too long
    if probeSize < 0 || |Slice(image, bootOffset, bootOffset + probeSize)| != probeSize then Err(ProbeBeyond) else
    var found := tools.defaultEnv(Slice(image, bootOffset, bootOffset + probeSize));
    if found.None? then Err(NoDefaultEnv) else
    match tools.mtdparts(found.value)
    case Some((boot, env)) => Ok(Layout(boot, bootOffset + boot, env, found))
    case None =>
      match Boundary(image, bootOffset)
      case None => Err(NoMarkers)
      case Some(boundary) =>
        match FirstSize(tools, image, bootOffset, boundary, COMMON_SIZES)
        case Some(layout) => Ok(layout)
        case None => Err(NotInferred)
  }

  function OrElse<T>(a: Option<T>, b: T): T {
    if a.Some? then a.value else b
  }

  function Checked(layout: Layout, bootOffset: int): Result<Layout, ImageError> {
    if layout.bootSize <= 0 || layout.envSize <= 0 || layout.envOffset < bootOffset then Err(InvalidBoundaries)
    else Ok(layout)
  }

  /** Boundaries the caller gave imply one another before anything is inferred. */
  function Completed(b: Bounds): Bounds {
    var bootSize := if b.bootSize.None? && b.envOffset.Some? then Some(b.envOffset.value - b.bootOffset)
      else b.bootSize;
    var envOffset := if b.envOffset.None? && bootSize.Some? then Some(b.bootOffset + bootSize.value) else b.envOffset;
    b.(bootSize := bootSize, envOffset := envOffset)
  }

  function Resolve(tools: Tools, image: bytes, b: Bounds): (r: Result<Layout, ImageError>)
    ensures r.Ok? ==>
      image != [] && 0 <= b.bootOffset <= r.value.envOffset && r.value.envSize > 0 && r.value.bootSize > 0
  {
    if image == [] then Err(EmptyImage)
    else if b.bootOffset < 0 then Err(NegativeBootOffset)
    else
      var c := Completed(b);
      if c.bootSize.Some? && c.envOffset.Some? && c.envSize.Some? then
        Checked(Layout(c.bootSize.value, c.envOffset.value, c.envSize.value, None), b.bootOffset)
      else
        match Infer(tools, image, b.bootOffset, c.bootSize)
        case Err(e) => Err(e)
        case Ok(inferred) =>
          Checked(Layout(OrElse(c.bootSize, inferred.bootSize), OrElse(c.envOffset, inferred.envOffset),
                         OrElse(c.envSize, inferred.envSize), inferred.defaultEnv), b.bootOffset)
  }

  // ----- reading and replacing -----

  function Extract(tools: Tools, image: bytes, b: Bounds): Result<Dict, ImageError> {
    match Resolve(tools, image, b)
    case Err(e) => Err(e)
    case Ok(layout) =>
      var partition := Slice(image, layout.envOffset, layout.envOffset + layout.envSize);
      if |partition| != layout.envSize then Err(PartitionBeyond) else
      match ParsePart(tools.crc, tools.raw, partition)
      case Ok(env) => Ok(env)
      case Err(_) =>
        if layout.defaultEnv.Some? then Ok(layout.defaultEnv.value) else
        var boot := Slice(image, b.bootOffset, b.bootOffset + layout.bootSize);
        if |boot| != layout.bootSize then Err(BootBeyond) else
        match tools.defaultEnv(boot)
        case Some(env) => Ok(env)
        case None => Err(NoDefaultEnv)
  }

  function Replace(image: bytes, offset: nat, size: nat, part: bytes): bytes {
    Slice(image, 0, offset) + part + Slice(image, offset + size, |image|)
  }

  function Patch(tools: Tools, image: bytes, env: seq<Entry>, b: Bounds, flags: Option<int>,
                 pad: int): Result<bytes, ImageError> {
    match Resolve(tools, image, b)
    case Err(e) => Err(e)
    case Ok(layout) =>
      match Build(tools.crc, env, Some(layout.envSize), flags, pad)
      case Err(e) => Err(BuildFailed(e))
      case Ok(part) => Ok(Replace(image, layout.envOffset, layout.envSize, part))
  }

  // ----- replacing at boundaries the caller gave -----

  /** Enough boundaries for nothing to be inferred. */
  predicate Explicit(b: Bounds) {
    b.envSize.Some? && (b.bootSize.Some? || b.envOffset.Some?)
  }

  /** Then the layout does not depend on the image's contents. */
  lemma ExplicitResolves(tools: Tools, image: bytes, image': bytes, b: Bounds)
    requires Explicit(b) && image != [] && image' != []
    ensures Resolve(tools, image, b) == Resolve(tools, image', b)
  {
  }

  lemma ReplaceParts(image: bytes, offset: nat, size: nat, part: bytes)
    requires |part| == size && offset <= |image|
    ensures
      var r := Replace(image, offset, size, part);
      && r[..offset] == image[..offset]
      && Slice(r, offset, offset + size) == part
      && |r| == (if offset + size <= |image| then |image| else offset + size)
      && (offset + size <= |image| ==> r[offset + size..] == image[offset + size..])
  {
    var r := Replace(image, offset, size, part);
    assert Slice(image, 0, offset) == image[..offset];
    assert r[offset..offset + size] == part;
  }

  lemma ReplaceBeyond(image: bytes, offset: nat, size: nat, part: bytes)
    requires |part| == size && offset > |image|
    ensures Replace(image, offset, size, part) == image + part
  {
  }

  /**
   Patching keeps the image's length exactly when the partition lies inside it, and
   then every byte outside the partition; the partition itself is the built image.
   */
  lemma PatchExplicit(tools: Tools, image: bytes, env: seq<Entry>, b: Bounds, flags: Option<int>, pad: int)
    requires Patch(tools, image, env, b, flags, pad).Ok?
    ensures
      var layout := Resolve(tools, image, b).value;
      var patched := Patch(tools, image, env, b, flags, pad).value;
      var end := layout.envOffset + layout.envSize;
      && (|patched| == |image| <==> end <= |image|)
      && (end <= |image| ==> patched[..layout.envOffset] == image[..layout.envOffset] && patched[end..] == image[end..])
      && (end <= |image| ==>
          Ok(patched[layout.envOffset..end]) == Build(tools.crc, env, Some(layout.envSize), flags, pad))
  {
    var layout := Resolve(tools, image, b).value;
    var part := Build(tools.crc, env, Some(layout.envSize), flags, pad).value;
    var n := BuiltParts(tools.crc, env, Some(layout.envSize), flags, pad);
    if layout.envOffset <= |image| {
      ReplaceParts(image, layout.envOffset, layout.envSize, part);
    } else {
      ReplaceBeyond(image, layout.envOffset, layout.envSize, part);
    }
  }

  /**
   Reading with the same explicit boundaries gives the new environment back exactly
   when the partition starts inside the image (or at its end), for environments
   that survive building and parsing.
   */
  lemma ExtractAfterPatch(tools: Tools, image: bytes, env: seq<Entry>, b: Bounds, flags: Option<int>, pad: int)
    requires Explicit(b) && Patch(tools, image, env, b, flags, pad).Ok?
    requires
      var part := Build(tools.crc, env, Some(Resolve(tools, image, b).value.envSize), flags, pad).value;
      ParsePart(tools.crc, tools.raw, part) == Ok(DictOf(env))
    ensures
      var patched := Patch(tools, image, env, b, flags, pad).value;
      Extract(tools, patched, b) == Ok(DictOf(env)) <==> Resolve(tools, image, b).value.envOffset <= |image|
  {
    var layout := Resolve(tools, image, b).value;
    var part := Build(tools.crc, env, Some(layout.envSize), flags, pad).value;
    var n := BuiltParts(tools.crc, env, Some(layout.envSize), flags, pad);
    var patched := Patch(tools, image, env, b, flags, pad).value;
    if layout.envOffset <= |image| {
      ReplaceParts(image, layout.envOffset, layout.envSize, part);
    } else {
      ReplaceBeyond(image, layout.envOffset, layout.envSize, part);
    }
    assert patched != [];
    ExplicitResolves(tools, image, patched, b);
  }

  /** Patching twice is patching once with the later environment, under exactly the same condition. */
  lemma PatchTwice(tools: Tools, image: bytes, env1: seq<Entry>, env2: seq<Entry>, b: Bounds,
                   flags1: Option<int>, pad1: int, flags2: Option<int>, pad2: int)
    requires Explicit(b)
    requires Patch(tools, image, env1, b, flags1, pad1).Ok? && Patch(tools, image, env2, b, flags2, pad2).Ok?
    ensures
      var once := Patch(tools, image, env1, b, flags1, pad1).value;
      Patch(tools, once, env2, b, flags2, pad2) == Patch(tools, image, env2, b, flags2, pad2) <==>
      Resolve(tools, image, b).value.envOffset <= |image|
  {
    var layout := Resolve(tools, image, b).value;
    var part1 := Build(tools.crc, env1, Some(layout.envSize), flags1, pad1).value;
    var part2 := Build(tools.crc, env2, Some(layout.envSize), flags2, pad2).value;
    var n1 := BuiltParts(tools.crc, env1, Some(layout.envSize), flags1, pad1);
    var n2 := BuiltParts(tools.crc, env2, Some(layout.envSize), flags2, pad2);
    var once := Patch(tools, image, env1, b, flags1, pad1).value;
    assert |part1| == |part2| == layout.envSize;
    assert once != [];
    ExplicitResolves(tools, image, once, b);
    ReplaceTwice(image, layout.envOffset, layout.envSize, part1, part2);
  }

  lemma ReplaceTwice(image: bytes, offset: nat, size: nat, part1: bytes, part2: bytes)
    requires size > 0 && |part1| == size && |part2| == size
    ensures
      Replace(Replace(image, offset, size, part1), offset, size, part2) == Replace(image, offset, size, part2) <==>
      offset <= |image|
  {
    var once := Replace(image, offset, size, part1);
    if offset <= |image| {
      ReplaceParts(image, offset, size, part1);
      assert Slice(once, 0, offset) == Slice(image, 0, offset);
      assert Slice(once, offset + size, |once|) == Slice(image, offset + size, |image|);
    } else {
      ReplaceBeyond(image, offset, size, part1);
      ReplaceBeyond(image, offset, size, part2);
      assert |Replace(once, offset, size, part2)| != |image + part2|;
    }
  }

  // ----- an inferred layout -----

  /** A size that leaves a boot region, and one whose environment can be read. */
  predicate Fits(tools: Tools, image: bytes, bootOffset: nat, boundary: nat, size: nat) {
    boundary - size > bootOffset && tools.defaultEnv(Slice(image, bootOffset, boundary - size)).Some?
  }

  function LayoutFor(tools: Tools, image: bytes, bootOffset: nat, boundary: nat, size: nat): Layout
    requires boundary - size > bootOffset
  {
    Layout(boundary - size - bootOffset, boundary - size, size,
      tools.defaultEnv(Slice(image, bootOffset, boundary - size)))
  }

  /** The i-th size is the first that fits. */
  predicate FirstFit(tools: Tools, image: bytes, bootOffset: nat, boundary: nat, sizes: seq<nat>, i: nat) {
    && i < |sizes| && Fits(tools, image, bootOffset, boundary, sizes[i])
    && forall j :: 0 <= j < i ==> !Fits(tools, image, bootOffset, boundary, sizes[j])
  }

  lemma {:induction false} FirstSizeIsFirst(tools: Tools, image: bytes, bootOffset: nat, boundary: nat, sizes: seq<nat>)
    returns (i: nat)
    ensures
      var r := FirstSize(tools, image, bootOffset, boundary, sizes);
      if r.None? then forall j :: 0 <= j < |sizes| ==> !Fits(tools, image, bootOffset, boundary, sizes[j])
      else
        FirstFit(tools, image, bootOffset, boundary, sizes, i) &&
        r.value == LayoutFor(tools, image, bootOffset, boundary, sizes[i])
    decreases |sizes|
  {
    i := 0;
    if sizes != [] && !Fits(tools, image, bootOffset, boundary, sizes[0]) {
      var k := FirstSizeIsFirst(tools, image, bootOffset, boundary, sizes[1..]);
      assert forall j :: 0 < j < |sizes| ==> sizes[j] == sizes[1..][j - 1];
      i := k + 1;
    }
  }

  /** The least index at or after the minimal boot size where any marker occurs. */
  ghost predicate FirstMarker(image: bytes, bootOffset: nat, i: nat) {
    && bootOffset + MIN_BOOT <= i && AnyMagicAt(image, MAGICS, i)
    && forall j :: bootOffset + MIN_BOOT <= j < i ==> !AnyMagicAt(image, MAGICS, j)
  }

  lemma MarkerInside(image: bytes, i: nat)
    requires AnyMagicAt(image, MAGICS, i)
    ensures i + 4 <= |image|
  {
    var m :| m in MAGICS && Occurs(image, m, i);
    assert |m| == 4;
  }

  lemma OneFirstMarker(image: bytes, bootOffset: nat, i: nat)
    ensures FirstMarker(image, bootOffset, i) <==> Boundary(image, bootOffset) == Some(i)
  {
    FirstOfIsLeast(image, MAGICS, bootOffset + MIN_BOOT);
  }

  lemma OneFirstFit(tools: Tools, image: bytes, bootOffset: nat, boundary: nat, sizes: seq<nat>, i: nat)
    requires FirstFit(tools, image, bootOffset, boundary, sizes, i)
    ensures FirstSize(tools, image, bootOffset, boundary, sizes) ==
      Some(LayoutFor(tools, image, bootOffset, boundary, sizes[i]))
  {
    var k := FirstSizeIsFirst(tools, image, bootOffset, boundary, sizes);
    if k < i {
    } else if i < k {
    }
  }

  /** Nothing but markers and sizes decides: a region reads as an environment that names no layout. */
  predicate ProbesWithoutLayout(tools: Tools, image: bytes, bootOffset: nat) {
    var probe := Slice(image, bootOffset, bootOffset + GuessProbeSize(image, bootOffset));
    && image != [] && |probe| == GuessProbeSize(image, bootOffset)
    && tools.defaultEnv(probe).Some? && tools.mtdparts(tools.defaultEnv(probe).value).None?
  }

  lemma InferredBySizes(tools: Tools, image: bytes, bootOffset: nat)
    requires ProbesWithoutLayout(tools, image, bootOffset)
    ensures
      var r := Resolve(tools, image, Bounds(bootOffset, None, None, None));
      match Boundary(image, bootOffset)
      case None => r == Err(NoMarkers)
      case Some(b) =>
        match FirstSize(tools, image, bootOffset, b, COMMON_SIZES)
        case None => r == Err(NotInferred)
        case Some(layout) => r == Ok(layout)
  {
    var b := Boundary(image, bootOffset);
    if b.Some? {
      var i := FirstSizeIsFirst(tools, image, bootOffset, b.value, COMMON_SIZES);
    }
  }

  /**
   With no boundaries given and none named by the embedded environment, inference
   succeeds exactly when a marker follows and a common size fits before it; then
   the partition ends at the first marker, lies inside the image after the boot
   offset, and has the first common size that fits.
   */
  lemma InferredLayout(tools: Tools, image: bytes, bootOffset: nat)
    requires ProbesWithoutLayout(tools, image, bootOffset)
    ensures
      var r := Resolve(tools, image, Bounds(bootOffset, None, None, None));
      && (r.Ok? <==> exists b: nat, i: nat ::
            FirstMarker(image, bootOffset, b) && FirstFit(tools, image, bootOffset, b, COMMON_SIZES, i))
      && (forall b: nat, i: nat ::
            FirstMarker(image, bootOffset, b) && FirstFit(tools, image, bootOffset, b, COMMON_SIZES, i) ==>
            && r == Ok(LayoutFor(tools, image, bootOffset, b, COMMON_SIZES[i]))
            && r.value.envOffset + r.value.envSize == b < |image|
            && bootOffset < r.value.envOffset && r.value.bootSize == r.value.envOffset - bootOffset)
  {
    InferredBySizes(tools, image, bootOffset);
    var r := Resolve(tools, image, Bounds(bootOffset, None, None, None));
    var boundary := Boundary(image, bootOffset);
    if r.Ok? {
      OneFirstMarker(image, bootOffset, boundary.value);
      var i := FirstSizeIsFirst(tools, image, bootOffset, boundary.value, COMMON_SIZES);
      assert FirstFit(tools, image, bootOffset, boundary.value, COMMON_SIZES, i);
    }
    forall b: nat, i: nat | FirstMarker(image, bootOffset, b) && FirstFit(tools, image, bootOffset, b, COMMON_SIZES, i)
      ensures r == Ok(LayoutFor(tools, image, bootOffset, b, COMMON_SIZES[i])) && b < |image|
    {
      OneFirstMarker(image, bootOffset, b);
      MarkerInside(image, b);
      OneFirstFit(tools, image, bootOffset, b, COMMON_SIZES, i);
    }
  }
}
