/** Legacy script images: a 64-byte header, one component length, a terminator, the script. */
module MkImage {
  import opened Wrappers
  import opened Bytes

  const MAGIC: nat := 0x27051956
  const SCRIPT_TYPE: byte := 6

  datatype ImageError = TooLarge | TooShort | NoTerminator | Truncated

  /** What is the same in every image: the checksum, the name, and the system and architecture codes. */
  datatype Maker = Maker(crc: bytes -> word, name: bytes, os: byte, arch: byte)

  function U32(n: nat): (b: bytes)
    ensures |b| == 4
  {
    BigEndian(n, 4)
  }

  /** Cut to 32 bytes, or filled up with zeros. */
  function PadName(name: bytes): (b: bytes)
    ensures |b| == 32
  {
    if |name| >= 32 then name[..32] else name + Fill(32 - |name|, 0)
  }

  function Header(m: Maker, headerCrc: nat, timestamp: nat, size: nat, dataCrc: nat): (h: bytes)
    ensures |h| == 64
  {
    U32(MAGIC) + U32(headerCrc) + U32(timestamp) + U32(size) + U32(0) + U32(0) + U32(dataCrc) +
    [m.os, m.arch, SCRIPT_TYPE, 0] + PadName(m.name)
  }

  function ScriptPayload(script: bytes): bytes {
    U32(|script|) + U32(0) + script
  }

  /** Numbers that do not fit their 32-bit field are refused. */
  function Compile(m: Maker, timestamp: nat, script: bytes): Result<bytes, ImageError> {
    var payload := ScriptPayload(script);
    if |payload| >= 0x1_0000_0000 || timestamp >= 0x1_0000_0000 then Err(TooLarge) else
    var dataCrc := m.crc(payload);
    var headerCrc := m.crc(Header(m, 0, timestamp, |payload|, dataCrc));
    Ok(Header(m, headerCrc, timestamp, |payload|, dataCrc) + payload)
  }

  function ExtractScript(image: bytes): Result<bytes, ImageError> {
    var payload := if |image| >= 64 then image[64..] else [];
    if |payload| < 8 then Err(TooShort)
    else if FromBig(payload[4..8]) != 0 then Err(NoTerminator)
    else
      var size := FromBig(payload[..4]);
      if |payload| < 8 + size then Err(Truncated) else Ok(payload[8..8 + size])
  }

  /** The checks `source` makes before it runs an image that starts here. */
  predicate Accepted(m: Maker, memory: bytes) {
    && |memory| >= 64
    && FromBig(memory[..4]) == MAGIC
    && FromBig(memory[4..8]) == m.crc(memory[..4] + U32(0) + memory[8..64])
    && var size := FromBig(memory[12..16]);
    && 64 + size <= |memory|
    && FromBig(memory[24..28]) == m.crc(memory[64..64 + size])
    && memory[30] == SCRIPT_TYPE
  }

  lemma U32Back(n: nat)
    requires n < 0x1_0000_0000
    ensures FromBig(U32(n)) == n
  {
    Pow256Four();
    FromBigOfBigEndian(n, 4);
  }

  /** The header around its own checksum. */
  function AfterCrc(m: Maker, timestamp: nat, size: nat, dataCrc: nat): (h: bytes)
    ensures |h| == 56
  {
    U32(timestamp) + U32(size) + U32(0) + U32(0) + U32(dataCrc) + [m.os, m.arch, SCRIPT_TYPE, 0] + PadName(m.name)
  }

  lemma HeaderParts(m: Maker, headerCrc: nat, timestamp: nat, size: nat, dataCrc: nat)
    ensures Header(m, headerCrc, timestamp, size, dataCrc) ==
      U32(MAGIC) + U32(headerCrc) + AfterCrc(m, timestamp, size, dataCrc)
  {
  }

  lemma AfterCrcFields(m: Maker, timestamp: nat, size: nat, dataCrc: nat)
    ensures
      var h := AfterCrc(m, timestamp, size, dataCrc);
      h[4..8] == U32(size) && h[16..20] == U32(dataCrc) && h[22] == SCRIPT_TYPE
  {
  }

  lemma PartsAt(a: bytes, b: bytes, c: bytes)
    requires |a| == 4 && |b| == 4 && |c| == 56
    ensures
      var h := a + b + c;
      && h[..4] == a && h[4..8] == b && h[8..64] == c
      && h[12..16] == c[4..8] && h[24..28] == c[16..20] && h[30] == c[22]
  {
  }

  lemma HeaderFields(m: Maker, headerCrc: nat, timestamp: nat, size: nat, dataCrc: nat)
    ensures
      var h := Header(m, headerCrc, timestamp, size, dataCrc);
      && h[..4] == U32(MAGIC) && h[4..8] == U32(headerCrc) && h[12..16] == U32(size) && h[24..28] == U32(dataCrc)
      && h[30] == SCRIPT_TYPE
      && h[..4] + U32(0) + h[8..64] == Header(m, 0, timestamp, size, dataCrc)
  {
    HeaderParts(m, headerCrc, timestamp, size, dataCrc);
    HeaderParts(m, 0, timestamp, size, dataCrc);
    AfterCrcFields(m, timestamp, size, dataCrc);
    PartsAt(U32(MAGIC), U32(headerCrc), AfterCrc(m, timestamp, size, dataCrc));
  }

  lemma HeaderInMemory(h: bytes, payload: bytes, memory: bytes)
    requires |h| == 64 && h + payload <= memory
    ensures memory[..4] == h[..4] && memory[4..8] == h[4..8] && memory[8..64] == h[8..64]
    ensures memory[12..16] == h[12..16] && memory[24..28] == h[24..28] && memory[30] == h[30]
    ensures memory[64..64 + |payload|] == payload && payload <= memory[64..]
  {
    var image := h + payload;
    assert memory[..|image|] == image;
    assert memory[..64] == memory[..|image|][..64] == h;
    assert memory[64..64 + |payload|] == memory[..|image|][64..] == payload;
  }

  lemma ScriptInPayload(script: bytes, rest: bytes)
    requires |script| < 0x1_0000_0000 && ScriptPayload(script) <= rest
    ensures |rest| >= 8 + |script|
    ensures FromBig(rest[..4]) == |script| && FromBig(rest[4..8]) == 0 && rest[8..8 + |script|] == script
  {
    var payload := ScriptPayload(script);
    U32Back(|script|);
    U32Back(0);
    assert rest[..|payload|] == payload;
    assert rest[..4] == payload[..4] == U32(|script|);
    assert rest[4..8] == payload[4..8] == U32(0);
    assert rest[8..8 + |script|] == payload[8..] == script;
  }

  /** Whatever follows it in memory, a compiled image is accepted and gives its script back. */
  lemma CompiledRuns(m: Maker, timestamp: nat, script: bytes, memory: bytes)
    requires Compile(m, timestamp, script).Ok? && Compile(m, timestamp, script).value <= memory
    ensures Accepted(m, memory) && ExtractScript(memory) == Ok(script)
  {
    var payload := ScriptPayload(script);
    var dataCrc := m.crc(payload);
    var headerCrc := m.crc(Header(m, 0, timestamp, |payload|, dataCrc));
    HeaderFields(m, headerCrc, timestamp, |payload|, dataCrc);
    HeaderInMemory(Header(m, headerCrc, timestamp, |payload|, dataCrc), payload, memory);
    U32Back(MAGIC);
    U32Back(headerCrc);
    U32Back(|payload|);
    U32Back(dataCrc);
    ScriptInPayload(script, memory[64..]);
  }

  /** Exactly the scripts whose payload length, and the times, that fit 32 bits are compiled. */
  lemma CompilesIff(m: Maker, timestamp: nat, script: bytes)
    ensures Compile(m, timestamp, script).Ok? <==> |script| + 8 < 0x1_0000_0000 && timestamp < 0x1_0000_0000
    ensures Compile(m, timestamp, script).Ok? ==> |Compile(m, timestamp, script).value| == |script| + 72
  {
  }
}
