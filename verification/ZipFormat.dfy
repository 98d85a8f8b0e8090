/**
 * The parts of the ZIP format that src/main/services/godot-projects.ts reads, as PKWARE APPNOTE
 * lays them out: local file headers (section 4.3.7), central directory headers (4.3.12) and the
 * end of central directory record (4.3.16). Fields the reader ignores are arbitrary bytes.
 */
module ZipFormat {
  import opened Wrappers

  type Byte = b: int | 0 <= b < 256
  type Bytes = seq<Byte>

  // ---- little-endian numbers ----

  function Read16(buffer: Bytes, offset: int): Option<int> {
    if 0 <= offset && offset + 2 <= |buffer| then Some(buffer[offset] as int + 256 * buffer[offset + 1] as int) else None
  }

  function Read32(buffer: Bytes, offset: int): Option<int> {
    if 0 <= offset && offset + 4 <= |buffer|
    then Some(buffer[offset] as int + 0x100 * buffer[offset + 1] as int
              + 0x1_0000 * buffer[offset + 2] as int + 0x100_0000 * buffer[offset + 3] as int)
    else None
  }

  function Print16(v: int): (r: Bytes)
    requires 0 <= v < 0x1_0000
    ensures |r| == 2
  {
    [v % 256, v / 256]
  }

  function Print32(v: int): (r: Bytes)
    requires 0 <= v < 0x1_0000_0000
    ensures |r| == 4
  {
    [v % 0x100, v / 0x100 % 0x100, v / 0x1_0000 % 0x100, v / 0x100_0000]
  }

  /** `piece` lies in the buffer at `offset`. */
  predicate At(buffer: Bytes, offset: int, piece: Bytes) {
    0 <= offset && offset + |piece| <= |buffer| && buffer[offset..offset + |piece|] == piece
  }

  lemma AtSplit(buffer: Bytes, offset: int, a: Bytes, b: Bytes)
    requires At(buffer, offset, a + b)
    ensures At(buffer, offset, a) && At(buffer, offset + |a|, b)
  {
    var whole := buffer[offset..offset + |a + b|];
    assert whole[..|a|] == a && whole[|a|..] == b;
    assert buffer[offset..offset + |a|] == whole[..|a|];
    assert buffer[offset + |a|..offset + |a| + |b|] == whole[|a|..];
  }

  lemma AtMiddle(before: Bytes, piece: Bytes, after: Bytes)
    ensures At(before + piece + after, |before|, piece)
  {
  }

  lemma Reads16(buffer: Bytes, offset: int, v: int)
    requires 0 <= v < 0x1_0000 && At(buffer, offset, Print16(v))
    ensures Read16(buffer, offset) == Some(v)
  {
    var p := buffer[offset..offset + 2];
    assert p[0] == buffer[offset] && p[1] == buffer[offset + 1];
  }

  lemma Reads32(buffer: Bytes, offset: int, v: int)
    requires 0 <= v < 0x1_0000_0000 && At(buffer, offset, Print32(v))
    ensures Read32(buffer, offset) == Some(v)
  {
    var p := buffer[offset..offset + 4];
    assert p == Print32(v);
    assert p[0] == buffer[offset] && p[1] == buffer[offset + 1] && p[2] == buffer[offset + 2] && p[3] == buffer[offset + 3];
    Digits(v);
  }

  lemma Digits(v: int)
    requires 0 <= v < 0x1_0000_0000
    ensures v % 0x100 + 0x100 * (v / 0x100 % 0x100) + 0x1_0000 * (v / 0x1_0000 % 0x100) + 0x100_0000 * (v / 0x100_0000) == v
  {
    assert v / 0x1_0000 == v / 0x100 / 0x100 && v / 0x100_0000 == v / 0x1_0000 / 0x100;
  }

  // ---- records ----

  const LOCAL_SIGNATURE := 0x04034b50
  const CENTRAL_SIGNATURE := 0x02014b50
  const END_SIGNATURE := 0x06054b50

  /** An archive member: what the reader uses, and the bytes of the fields it does not. */
  datatype Member = Member(
    name: Bytes,
    compression: int,
    data: Bytes,         // as stored in the archive
    size: int,           // uncompressed
    attributes: int,
    localVersion: Bytes, // version needed and flags
    localTimes: Bytes,   // modification time and date, CRC-32
    localExtra: Bytes,
    centralVersion: Bytes,
    centralTimes: Bytes,
    centralMiddle: Bytes, // disk number, internal attributes
    centralExtra: Bytes,
    comment: Bytes)
  {
    predicate Printable() {
      && |name| < 0x1_0000 && |localExtra| < 0x1_0000 && |centralExtra| < 0x1_0000 && |comment| < 0x1_0000
      && 0 <= compression < 0x1_0000 && |data| < 0x1_0000_0000
      && 0 <= size < 0x1_0000_0000 && 0 <= attributes < 0x1_0000_0000
      && |localVersion| == 4 && |localTimes| == 8
      && |centralVersion| == 6 && |centralTimes| == 8 && |centralMiddle| == 4
    }
  }

  function LocalHeader(m: Member): (r: Bytes)
    requires m.Printable()
  {
    Print32(LOCAL_SIGNATURE) + (m.localVersion + (Print16(m.compression) + (m.localTimes
      + (Print32(|m.data|) + (Print32(m.size) + (Print16(|m.name|) + (Print16(|m.localExtra|)
      + (m.name + m.localExtra))))))))
  }

  function LocalRecord(m: Member): Bytes
    requires m.Printable()
  {
    LocalHeader(m) + m.data
  }

  function CentralTail(m: Member, localOffset: int): Bytes
    requires m.Printable() && 0 <= localOffset < 0x1_0000_0000
  {
    m.centralMiddle + (Print32(m.attributes) + (Print32(localOffset) + (m.name + (m.centralExtra + m.comment))))
  }

  function CentralRecord(m: Member, localOffset: int): Bytes
    requires m.Printable() && 0 <= localOffset < 0x1_0000_0000
  {
    Print32(CENTRAL_SIGNATURE) + (m.centralVersion + (Print16(m.compression) + (m.centralTimes
      + (Print32(|m.data|) + (Print32(m.size) + (Print16(|m.name|) + (Print16(|m.centralExtra|)
      + (Print16(|m.comment|) + CentralTail(m, localOffset)))))))))
  }

  function EndRecord(disks: Bytes, count: int, directorySize: Bytes, directoryOffset: int, comment: Bytes): Bytes
    requires |disks| == 6 && |directorySize| == 4
    requires 0 <= count < 0x1_0000 && 0 <= directoryOffset < 0x1_0000_0000 && |comment| < 0x1_0000
  {
    Print32(END_SIGNATURE) + (disks + (Print16(count) + (directorySize + (Print32(directoryOffset)
      + (Print16(|comment|) + comment)))))
  }

  /** What the reader finds at a central record that was printed at `o`. */
  lemma CentralFields(buffer: Bytes, o: int, m: Member, localOffset: int)
    requires m.Printable() && 0 <= localOffset < 0x1_0000_0000
    requires At(buffer, o, CentralRecord(m, localOffset))
    ensures Read32(buffer, o) == Some(CENTRAL_SIGNATURE)
    ensures Read16(buffer, o + 10) == Some(m.compression)
    ensures Read32(buffer, o + 20) == Some(|m.data|) && Read32(buffer, o + 24) == Some(m.size)
    ensures Read16(buffer, o + 28) == Some(|m.name|)
    ensures Read16(buffer, o + 30) == Some(|m.centralExtra|) && Read16(buffer, o + 32) == Some(|m.comment|)
    ensures At(buffer, o + 34, CentralTail(m, localOffset))
  {
    var i := CentralTail(m, localOffset);
    var h := Print16(|m.comment|) + i;
    var g := Print16(|m.centralExtra|) + h;
    var f := Print16(|m.name|) + g;
    var e := Print32(m.size) + f;
    var d := Print32(|m.data|) + e;
    var c := m.centralTimes + d;
    var b := Print16(m.compression) + c;
    var a := m.centralVersion + b;
    AtSplit(buffer, o, Print32(CENTRAL_SIGNATURE), a);
    AtSplit(buffer, o + 4, m.centralVersion, b);
    AtSplit(buffer, o + 10, Print16(m.compression), c);
    AtSplit(buffer, o + 12, m.centralTimes, d);
    AtSplit(buffer, o + 20, Print32(|m.data|), e);
    AtSplit(buffer, o + 24, Print32(m.size), f);
    AtSplit(buffer, o + 28, Print16(|m.name|), g);
    AtSplit(buffer, o + 30, Print16(|m.centralExtra|), h);
    AtSplit(buffer, o + 32, Print16(|m.comment|), i);
    Reads32(buffer, o, CENTRAL_SIGNATURE);
    Reads16(buffer, o + 10, m.compression);
    Reads32(buffer, o + 20, |m.data|);
    Reads32(buffer, o + 24, m.size);
    Reads16(buffer, o + 28, |m.name|);
    Reads16(buffer, o + 30, |m.centralExtra|);
    Reads16(buffer, o + 32, |m.comment|);
  }

  lemma TailFields(buffer: Bytes, o: int, m: Member, localOffset: int)
    requires m.Printable() && 0 <= localOffset < 0x1_0000_0000
    requires At(buffer, o + 34, CentralTail(m, localOffset))
    ensures Read32(buffer, o + 38) == Some(m.attributes) && Read32(buffer, o + 42) == Some(localOffset)
    ensures At(buffer, o + 46, m.name)
  {
    var c := m.name + (m.centralExtra + m.comment);
    var b := Print32(localOffset) + c;
    var a := Print32(m.attributes) + b;
    AtSplit(buffer, o + 34, m.centralMiddle, a);
    AtSplit(buffer, o + 38, Print32(m.attributes), b);
    AtSplit(buffer, o + 42, Print32(localOffset), c);
    AtSplit(buffer, o + 46, m.name, m.centralExtra + m.comment);
    Reads32(buffer, o + 38, m.attributes);
    Reads32(buffer, o + 42, localOffset);
  }

  /** The second half of a local header: the sizes, the lengths, and what they measure. */
  function LocalTail(m: Member): Bytes
    requires m.Printable()
  {
    Print32(|m.data|) + (Print32(m.size) + (Print16(|m.name|) + (Print16(|m.localExtra|) + (m.name + m.localExtra))))
  }

  lemma LocalTailFields(buffer: Bytes, o: int, m: Member)
    requires m.Printable() && At(buffer, o + 18, LocalTail(m))
    ensures Read16(buffer, o + 26) == Some(|m.name|) && Read16(buffer, o + 28) == Some(|m.localExtra|)
  {
    var g := m.name + m.localExtra;
    var f := Print16(|m.localExtra|) + g;
    var e := Print16(|m.name|) + f;
    var d := Print32(m.size) + e;
    AtSplit(buffer, o + 18, Print32(|m.data|), d);
    AtSplit(buffer, o + 22, Print32(m.size), e);
    AtSplit(buffer, o + 26, Print16(|m.name|), f);
    AtSplit(buffer, o + 28, Print16(|m.localExtra|), g);
    Reads16(buffer, o + 26, |m.name|);
    Reads16(buffer, o + 28, |m.localExtra|);
  }

  lemma LocalFields(buffer: Bytes, o: int, m: Member)
    requires m.Printable() && At(buffer, o, LocalRecord(m))
    ensures Read32(buffer, o) == Some(LOCAL_SIGNATURE)
    ensures Read16(buffer, o + 26) == Some(|m.name|) && Read16(buffer, o + 28) == Some(|m.localExtra|)
    ensures At(buffer, o + 30 + |m.name| + |m.localExtra|, m.data)
  {
    var c := LocalTail(m);
    var b := m.localTimes + c;
    var b' := Print16(m.compression) + b;
    var a := m.localVersion + b';
    AtSplit(buffer, o, LocalHeader(m), m.data);
    AtSplit(buffer, o, Print32(LOCAL_SIGNATURE), a);
    AtSplit(buffer, o + 4, m.localVersion, b');
    AtSplit(buffer, o + 8, Print16(m.compression), b);
    AtSplit(buffer, o + 10, m.localTimes, c);
    Reads32(buffer, o, LOCAL_SIGNATURE);
    LocalTailFields(buffer, o, m);
  }

  lemma EndFields(buffer: Bytes, o: int, disks: Bytes, count: int, directorySize: Bytes, directoryOffset: int, comment: Bytes)
    requires |disks| == 6 && |directorySize| == 4
    requires 0 <= count < 0x1_0000 && 0 <= directoryOffset < 0x1_0000_0000 && |comment| < 0x1_0000
    requires At(buffer, o, EndRecord(disks, count, directorySize, directoryOffset, comment))
    ensures Read32(buffer, o) == Some(END_SIGNATURE)
    ensures Read16(buffer, o + 10) == Some(count) && Read32(buffer, o + 16) == Some(directoryOffset)
  {
    var e := Print16(|comment|) + comment;
    var d := Print32(directoryOffset) + e;
    var c := directorySize + d;
    var b := Print16(count) + c;
    var a := disks + b;
    AtSplit(buffer, o, Print32(END_SIGNATURE), a);
    AtSplit(buffer, o + 4, disks, b);
    AtSplit(buffer, o + 10, Print16(count), c);
    AtSplit(buffer, o + 12, directorySize, d);
    AtSplit(buffer, o + 16, Print32(directoryOffset), e);
    Reads32(buffer, o, END_SIGNATURE);
    Reads16(buffer, o + 10, count);
    Reads32(buffer, o + 16, directoryOffset);
  }
}
