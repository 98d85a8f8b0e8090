/**
 * The ZIP reader of src/main/services/godot-projects.ts: the backward scan for the end record, the
 * walk over the central directory, and extraction into a directory tree. Names are byte strings;
 * inflating is a parameter.
 */
module ZipReader {
  import opened Wrappers
  import opened ZipFormat

  const MAX_ARCHIVE_BYTES := 64 * 1024 * 1024
  const MAX_FILE_COUNT := 2000
  const MAX_EXTRACTED_BYTES := 128 * 1024 * 1024

  datatype Error =
    | TooLarge | NoCentralDirectory | TooManyFiles | BadCentralDirectory | OutOfRange | UnsafePath | SymbolicLink
    | UnsupportedCompression | ExpandsTooMuch | Escapes | BadLocalHeader | InflateFailed | SizeMismatch | PathOccupied

  datatype Result<+T> = Ok(value: T) | Err(error: Error)

  datatype Entry = Entry(
    name: Bytes, compression: int, compressedSize: int, uncompressedSize: int, localHeaderOffset: int, attributes: int)

  // ---- the end of the central directory ----

  function Lowest(length: int): int {
    if length - 65557 > 0 then length - 65557 else 0
  }

  ghost predicate IsLastSignature(buffer: Bytes, offset: int) {
    && Lowest(|buffer|) <= offset <= |buffer| - 22
    && Read32(buffer, offset) == Some(END_SIGNATURE)
    && forall later :: offset < later <= |buffer| - 22 ==> Read32(buffer, later) != Some(END_SIGNATURE)
  }

  method FindEndOfCentralDirectory(buffer: Bytes) returns (r: Result<int>)
    ensures r.Ok? ==> IsLastSignature(buffer, r.value)
    ensures r.Err? ==> r.error.NoCentralDirectory? && forall offset :: !IsLastSignature(buffer, offset)
  {
    var minimum := Lowest(|buffer|);
    var offset := |buffer| - 22;
    while offset >= minimum
      invariant minimum - 1 <= offset <= |buffer| - 22 || |buffer| < 22
      invariant forall later :: offset < later <= |buffer| - 22 ==> Read32(buffer, later) != Some(END_SIGNATURE)
    {
      if Read32(buffer, offset) == Some(END_SIGNATURE) {
        return Ok(offset);
      }
      offset := offset - 1;
    }
    return Err(NoCentralDirectory);
  }

  lemma LastSignatureUnique(buffer: Bytes, a: int, b: int)
    requires IsLastSignature(buffer, a) && IsLastSignature(buffer, b)
    ensures a == b
  {
  }

  // ---- names ----

  const SLASH: Byte := 47
  const BACKSLASH: Byte := 92
  const COLON: Byte := 58
  const DOT: Byte := 46

  function Slashed(name: Bytes): Bytes {
    if name == [] then [] else [if name[0] == BACKSLASH then SLASH else name[0]] + Slashed(name[1..])
  }

  lemma {:induction false} SlashedPlain(name: Bytes)
    ensures BACKSLASH !in Slashed(name) && (BACKSLASH !in name ==> Slashed(name) == name)
  {
    if name != [] {
      SlashedPlain(name[1..]);
    }
  }

  /** The parts between slashes. */
  function Parts(name: Bytes): (r: seq<Bytes>)
    ensures r != []
  {
    if name == [] then [[]]
    else
      var rest := Parts(name[1..]);
      if name[0] == SLASH then [[]] + rest else [[name[0]] + rest[0]] + rest[1..]
  }

  predicate Letter(b: Byte) {
    65 <= b <= 90 || 97 <= b <= 122
  }

  predicate SafeName(name: Bytes) {
    && name != []
    && name[0] != SLASH
    && !(|name| >= 2 && Letter(name[0]) && name[1] == COLON)
    && [DOT, DOT] !in Parts(name)
  }

  function ValidateArchivePath(name: Bytes): Result<Bytes> {
    if SafeName(Slashed(name)) then Ok(Slashed(name)) else Err(UnsafePath)
  }

  /** A safe name with plain slashes is accepted as it is; whatever is accepted is such a name. */
  lemma ValidationExact(name: Bytes)
    ensures ValidateArchivePath(name).Ok? ==>
              SafeName(ValidateArchivePath(name).value) && BACKSLASH !in ValidateArchivePath(name).value
    ensures BACKSLASH !in name ==> (ValidateArchivePath(name) == Ok(name) <==> SafeName(name))
  {
    SlashedPlain(name);
  }

  // ---- the central directory ----

  /** Buffer.subarray: both ends are cut to the buffer. */
  function Subarray(buffer: Bytes, start: int, end: int): Bytes {
    var a := if start < 0 then 0 else if start > |buffer| then |buffer| else start;
    var b := if end < a then a else if end > |buffer| then |buffer| else end;
    buffer[a..b]
  }

  predicate IsSymbolicLink(attributes: int) {
    (attributes / 0x1_0000) / 0x1000 % 16 == 10
  }

  /** The fields of a central header that are used, with its raw name. */
  datatype Fields = Fields(
    rawName: Bytes, compression: int, compressedSize: int, uncompressedSize: int, attributes: int,
    localHeaderOffset: int, length: int)

  function ReadFields(buffer: Bytes, offset: int): Result<Fields> {
    if Read32(buffer, offset).None? then Err(OutOfRange)
    else if Read32(buffer, offset) != Some(CENTRAL_SIGNATURE) then Err(BadCentralDirectory)
    else if Read32(buffer, offset + 42).None? then Err(OutOfRange)
    else
      var nameLength := Read16(buffer, offset + 28).value;
      var extraLength := Read16(buffer, offset + 30).value;
      var commentLength := Read16(buffer, offset + 32).value;
      Ok(Fields(
        Subarray(buffer, offset + 46, offset + 46 + nameLength),
        Read16(buffer, offset + 10).value, Read32(buffer, offset + 20).value, Read32(buffer, offset + 24).value,
        Read32(buffer, offset + 38).value, Read32(buffer, offset + 42).value,
        46 + nameLength + extraLength + commentLength))
  }

  function Checked(f: Fields, offset: int, total: int): Result<(Entry, int)> {
    var name := ValidateArchivePath(f.rawName);
    if name.Err? then Err(name.error)
    else if IsSymbolicLink(f.attributes) then Err(SymbolicLink)
    else if f.compression != 0 && f.compression != 8 then Err(UnsupportedCompression)
    else if total + f.uncompressedSize > MAX_EXTRACTED_BYTES then Err(ExpandsTooMuch)
    else
      Ok((Entry(name.value, f.compression, f.compressedSize, f.uncompressedSize, f.localHeaderOffset, f.attributes),
          offset + f.length))
  }

  /** One central header at `offset`, with the offset of the next. */
  function ReadCentral(buffer: Bytes, offset: int, total: int): Result<(Entry, int)> {
    var f := ReadFields(buffer, offset);
    if f.Err? then Err(f.error) else Checked(f.value, offset, total)
  }

  function Prefixed(entries: seq<Entry>, rest: Result<seq<Entry>>): Result<seq<Entry>> {
    if rest.Err? then rest else Ok(entries + rest.value)
  }

  /** How the header at an offset reads, after entries of a total size: the walk's one parameter. */
  type HeaderReader = (int, int) -> Result<(Entry, int)>

  function ReadEntries(central: HeaderReader, offset: int, count: nat, total: int): Result<seq<Entry>>
    decreases count
  {
    if count == 0 then Ok([])
    else
      var first := central(offset, total);
      if first.Err? then Err(first.error)
      else Prefixed([first.value.0], ReadEntries(central, first.value.1, count - 1, total + first.value.0.uncompressedSize))
  }

  function HeadersOf(buffer: Bytes): HeaderReader {
    (offset, total) => ReadCentral(buffer, offset, total)
  }

  lemma PrefixedTwice(a: seq<Entry>, b: seq<Entry>, rest: Result<seq<Entry>>)
    ensures Prefixed(a, Prefixed(b, rest)) == Prefixed(a + b, rest)
  {
    if rest.Ok? {
      assert a + (b + rest.value) == (a + b) + rest.value;
    }
  }

  /** What inspection answers, given where the end record is. */
  function Inspected(buffer: Bytes, end: int): Result<seq<Entry>>
    requires Lowest(|buffer|) <= end <= |buffer| - 22
  {
    var count := Read16(buffer, end + 10).value;
    if count > MAX_FILE_COUNT then Err(TooManyFiles)
    else ReadEntries(HeadersOf(buffer), Read32(buffer, end + 16).value, count, 0)
  }

  method InspectZipEntries(buffer: Bytes) returns (r: Result<seq<Entry>>)
    ensures |buffer| > 67108864 ==> r == Err(TooLarge)
    ensures |buffer| <= 67108864 && (forall end :: !IsLastSignature(buffer, end)) ==> r == Err(NoCentralDirectory)
    ensures forall end :: |buffer| <= 67108864 && IsLastSignature(buffer, end) ==> r == Inspected(buffer, end)
  {
    if |buffer| > MAX_ARCHIVE_BYTES {
      return Err(TooLarge);
    }
    var end := FindEndOfCentralDirectory(buffer);
    if end.Err? {
      return Err(end.error);
    }
    forall other | IsLastSignature(buffer, other)
      ensures other == end.value
    {
      LastSignatureUnique(buffer, other, end.value);
    }
    var count := Read16(buffer, end.value + 10).value;
    if count > MAX_FILE_COUNT {
      return Err(TooManyFiles);
    }
    r := ReadDirectory(HeadersOf(buffer), Read32(buffer, end.value + 16).value, count);
  }

  method ReadDirectory(central: HeaderReader, centralOffset: int, count: nat) returns (r: Result<seq<Entry>>)
    ensures r == ReadEntries(central, centralOffset, count, 0)
  {
    var offset := centralOffset;
    var entries: seq<Entry> := [];
    var total := 0;
    ghost var whole := ReadEntries(central, offset, count, 0);
    if whole.Ok? {
      assert [] + whole.value == whole.value;
    }
    for i := 0 to count
      invariant whole == Prefixed(entries, ReadEntries(central, offset, count - i, total))
    {
      var next := central(offset, total);
      if next.Err? {
        return Err(next.error);
      }
      PrefixedTwice(entries, [next.value.0],
                    ReadEntries(central, next.value.1, count - i - 1, total + next.value.0.uncompressedSize));
      entries := entries + [next.value.0];
      total := total + next.value.0.uncompressedSize;
      offset := next.value.1;
    }
    assert entries + [] == entries;
    return Ok(entries);
  }

  // ---- inspection undoes printing ----

  predicate Archivable(m: Member) {
    && m.Printable()
    && SafeName(m.name) && BACKSLASH !in m.name
    && !IsSymbolicLink(m.attributes)
    && (m.compression == 0 || m.compression == 8)
  }

  // Records one after the other.

  function Concat(records: seq<Bytes>): Bytes {
    if records == [] then [] else records[0] + Concat(records[1..])
  }

  function PrefixLength(records: seq<Bytes>, i: nat): nat
    requires i <= |records|
  {
    if i == 0 then 0 else PrefixLength(records, i - 1) + |records[i - 1]|
  }

  lemma {:induction false} PrefixShift(records: seq<Bytes>, i: nat)
    requires 0 < i <= |records|
    ensures PrefixLength(records, i) == |records[0]| + PrefixLength(records[1..], i - 1)
  {
    if i > 1 {
      PrefixShift(records, i - 1);
    }
  }

  lemma {:induction false} RecordAt(buffer: Bytes, o: int, records: seq<Bytes>, i: nat)
    requires i < |records| && At(buffer, o, Concat(records))
    ensures At(buffer, o + PrefixLength(records, i), records[i])
    decreases i
  {
    AtSplit(buffer, o, records[0], Concat(records[1..]));
    if i > 0 {
      PrefixShift(records, i);
      RecordAt(buffer, o + |records[0]|, records[1..], i - 1);
    }
  }

  lemma {:induction false} PrefixBound(records: seq<Bytes>, i: nat)
    requires i <= |records|
    ensures PrefixLength(records, i) <= |Concat(records)|
    decreases |records|
  {
    if i > 0 {
      PrefixShift(records, i);
      PrefixBound(records[1..], i - 1);
    }
  }

  function LocalRecords(ms: seq<Member>): (r: seq<Bytes>)
    requires forall j :: 0 <= j < |ms| ==> ms[j].Printable()
    ensures |r| == |ms|
  {
    seq(|ms|, i requires 0 <= i < |ms| => LocalRecord(ms[i]))
  }

  function Locals(ms: seq<Member>): Bytes
    requires forall j :: 0 <= j < |ms| ==> ms[j].Printable()
  {
    Concat(LocalRecords(ms))
  }

  function OffsetOf(ms: seq<Member>, i: nat): nat
    requires i <= |ms| && forall j :: 0 <= j < |ms| ==> ms[j].Printable()
  {
    PrefixLength(LocalRecords(ms), i)
  }

  ghost predicate AllPrintable(ms: seq<Member>) {
    (forall i :: 0 <= i < |ms| ==> ms[i].Printable()) && |Locals(ms)| < 0x1_0000_0000
  }

  ghost predicate AllArchivable(ms: seq<Member>) {
    AllPrintable(ms) && forall i :: 0 <= i < |ms| ==> Archivable(ms[i])
  }

  ghost function CentralOf(ms: seq<Member>, i: nat): Bytes
    requires i < |ms| && AllPrintable(ms)
  {
    PrefixBound(LocalRecords(ms), i);
    CentralRecord(ms[i], OffsetOf(ms, i))
  }

  ghost function CentralRecords(ms: seq<Member>): (r: seq<Bytes>)
    requires AllPrintable(ms)
    ensures |r| == |ms|
  {
    seq(|ms|, i requires 0 <= i < |ms| => CentralOf(ms, i))
  }

  ghost function Central(ms: seq<Member>): Bytes
    requires AllPrintable(ms)
  {
    Concat(CentralRecords(ms))
  }

  function TotalSize(entries: seq<Entry>): int {
    if entries == [] then 0 else entries[0].uncompressedSize + TotalSize(entries[1..])
  }

  function EntryFor(m: Member, localOffset: int): Entry {
    Entry(m.name, m.compression, |m.data|, m.size, localOffset, m.attributes)
  }

  function EntryOf(ms: seq<Member>, i: nat): Entry
    requires i < |ms| && forall j :: 0 <= j < |ms| ==> ms[j].Printable()
  {
    EntryFor(ms[i], OffsetOf(ms, i))
  }

  function EntriesOf(ms: seq<Member>): seq<Entry>
    requires forall j :: 0 <= j < |ms| ==> ms[j].Printable()
  {
    seq(|ms|, i requires 0 <= i < |ms| => EntryOf(ms, i))
  }

  function FieldsOf(m: Member, localOffset: int): Fields {
    Fields(m.name, m.compression, |m.data|, m.size, m.attributes, localOffset,
           46 + |m.name| + |m.centralExtra| + |m.comment|)
  }

  lemma FieldsRoundTrip(buffer: Bytes, o: int, m: Member, localOffset: int)
    requires m.Printable() && 0 <= localOffset < 0x1_0000_0000 && At(buffer, o, CentralRecord(m, localOffset))
    ensures ReadFields(buffer, o) == Ok(FieldsOf(m, localOffset))
    ensures |CentralRecord(m, localOffset)| == FieldsOf(m, localOffset).length
  {
    CentralFields(buffer, o, m, localOffset);
    TailFields(buffer, o, m, localOffset);
    assert Subarray(buffer, o + 46, o + 46 + |m.name|) == m.name;
  }

  lemma CheckPasses(m: Member, localOffset: int, o: int, total: int)
    requires Archivable(m) && total + m.size <= MAX_EXTRACTED_BYTES
    ensures var f := FieldsOf(m, localOffset);
            Checked(f, o, total)
            == Ok((Entry(m.name, m.compression, |m.data|, m.size, localOffset, m.attributes), o + f.length))
  {
    ValidationExact(m.name);
  }

  lemma CentralRoundTrip(buffer: Bytes, o: int, m: Member, localOffset: int, total: int)
    requires Archivable(m) && 0 <= localOffset < 0x1_0000_0000
    requires At(buffer, o, CentralRecord(m, localOffset)) && total + m.size <= MAX_EXTRACTED_BYTES
    ensures ReadCentral(buffer, o, total)
         == Ok((Entry(m.name, m.compression, |m.data|, m.size, localOffset, m.attributes), o + |CentralRecord(m, localOffset)|))
  {
    FieldsRoundTrip(buffer, o, m, localOffset);
    CheckPasses(m, localOffset, o, total);
  }

  lemma {:induction false} SizesPositive(entries: seq<Entry>)
    requires forall j :: 0 <= j < |entries| ==> entries[j].uncompressedSize >= 0
    ensures TotalSize(entries) >= 0
  {
    if entries != [] {
      SizesPositive(entries[1..]);
    }
  }

  /** With room for its size, `central` reads `e` at `here` and goes on to `next`. */
  ghost predicate ReadsAt(central: HeaderReader, e: Entry, here: int, next: int) {
    forall t :: t + e.uncompressedSize <= MAX_EXTRACTED_BYTES ==> central(here, t) == Ok((e, next))
  }

  lemma OneRead(central: HeaderReader, e: Entry, here: int, next: int, count: nat, total: int)
    requires ReadsAt(central, e, here, next) && total + e.uncompressedSize <= MAX_EXTRACTED_BYTES && count > 0
    ensures ReadEntries(central, here, count, total)
         == Prefixed([e], ReadEntries(central, next, count - 1, total + e.uncompressedSize))
  {
  }

  /** The walk over headers at given positions, each of which reads back. */
  lemma {:induction false} WalkReads(central: HeaderReader, pos: seq<int>, entries: seq<Entry>, i: nat, total: int)
    requires |pos| == |entries| + 1 && i <= |entries|
    requires forall j :: 0 <= j < |entries| ==> entries[j].uncompressedSize >= 0
    requires forall j :: 0 <= j < |entries| ==> ReadsAt(central, entries[j], pos[j], pos[j + 1])
    requires total + TotalSize(entries[i..]) <= MAX_EXTRACTED_BYTES
    ensures ReadEntries(central, pos[i], |entries| - i, total) == Ok(entries[i..])
    decreases |entries| - i
  {
    if i < |entries| {
      assert entries[i..][1..] == entries[i + 1..];
      SizesPositive(entries[i + 1..]);
      OneRead(central, entries[i], pos[i], pos[i + 1], |entries| - i, total);
      WalkReads(central, pos, entries, i + 1, total + entries[i].uncompressedSize);
      assert [entries[i]] + entries[i + 1..] == entries[i..];
    }
  }

  /** Wherever `record` lies in the buffer, `central` reads `e` from it and goes to its end. */
  ghost predicate ReadsRecord(central: HeaderReader, buffer: Bytes, record: Bytes, e: Entry) {
    forall o :: At(buffer, o, record) ==> ReadsAt(central, e, o, o + |record|)
  }

  /** A directory of readable records reads back as their entries. */
  lemma DirectoryReads(central: HeaderReader, buffer: Bytes, start: int, records: seq<Bytes>, entries: seq<Entry>)
    requires |records| == |entries| && At(buffer, start, Concat(records)) && TotalSize(entries) <= MAX_EXTRACTED_BYTES
    requires forall j :: 0 <= j < |records| ==> ReadsRecord(central, buffer, records[j], entries[j])
    requires forall j :: 0 <= j < |entries| ==> entries[j].uncompressedSize >= 0
    ensures ReadEntries(central, start, |entries|, 0) == Ok(entries)
  {
    var pos := seq(|records| + 1, i requires 0 <= i <= |records| => start + PrefixLength(records, i));
    forall j | 0 <= j < |records|
      ensures ReadsAt(central, entries[j], pos[j], pos[j + 1])
    {
      RecordAt(buffer, start, records, j);
      assert ReadsRecord(central, buffer, records[j], entries[j]);
    }
    assert entries[0..] == entries;
    WalkReads(central, pos, entries, 0, 0);
  }

  /** Fields that pass the checks whatever the total so far. */
  ghost predicate Passes(f: Fields, o: int, e: Entry) {
    forall t :: t + e.uncompressedSize <= MAX_EXTRACTED_BYTES ==> Checked(f, o, t) == Ok((e, o + f.length))
  }

  lemma FieldsDecide(buffer: Bytes, o: int, f: Fields, e: Entry, next: int)
    requires ReadFields(buffer, o) == Ok(f) && Passes(f, o, e) && next == o + f.length
    ensures ReadsAt(HeadersOf(buffer), e, o, next)
  {
    forall t | t + e.uncompressedSize <= MAX_EXTRACTED_BYTES
      ensures HeadersOf(buffer)(o, t) == Ok((e, next))
    {
      assert Checked(f, o, t) == Ok((e, o + f.length));
      assert ReadCentral(buffer, o, t) == Checked(f, o, t);
    }
  }

  lemma MemberPasses(m: Member, localOffset: int, o: int)
    requires Archivable(m)
    ensures Passes(FieldsOf(m, localOffset), o, EntryFor(m, localOffset))
  {
    forall t | t + m.size <= MAX_EXTRACTED_BYTES
      ensures Checked(FieldsOf(m, localOffset), o, t) == Ok((EntryFor(m, localOffset), o + FieldsOf(m, localOffset).length))
    {
      CheckPasses(m, localOffset, o, t);
    }
  }

  /** Wherever `record` lies in the buffer, these are the fields read there. */
  ghost predicate HoldsFields(buffer: Bytes, record: Bytes, f: Fields) {
    |record| == f.length && forall o :: At(buffer, o, record) ==> ReadFields(buffer, o) == Ok(f)
  }

  lemma RecordHoldsFields(buffer: Bytes, m: Member, localOffset: int)
    requires m.Printable() && 0 <= localOffset < 0x1_0000_0000
    ensures HoldsFields(buffer, CentralRecord(m, localOffset), FieldsOf(m, localOffset))
  {
    forall o | At(buffer, o, CentralRecord(m, localOffset))
      ensures ReadFields(buffer, o) == Ok(FieldsOf(m, localOffset))
    {
      FieldsRoundTrip(buffer, o, m, localOffset);
    }
    assert |CentralRecord(m, localOffset)| == FieldsOf(m, localOffset).length;
  }

  lemma RecordRead(buffer: Bytes, record: Bytes, f: Fields, e: Entry)
    requires HoldsFields(buffer, record, f) && forall o :: Passes(f, o, e)
    ensures ReadsRecord(HeadersOf(buffer), buffer, record, e)
  {
    forall o | At(buffer, o, record)
      ensures ReadsAt(HeadersOf(buffer), e, o, o + |record|)
    {
      FieldsDecide(buffer, o, f, e, o + |record|);
    }
  }

  lemma HeadersRead(buffer: Bytes, m: Member, localOffset: int)
    requires Archivable(m) && 0 <= localOffset < 0x1_0000_0000
    ensures ReadsRecord(HeadersOf(buffer), buffer, CentralRecord(m, localOffset), EntryFor(m, localOffset))
  {
    RecordHoldsFields(buffer, m, localOffset);
    forall o
      ensures Passes(FieldsOf(m, localOffset), o, EntryFor(m, localOffset))
    {
      MemberPasses(m, localOffset, o);
    }
    RecordRead(buffer, CentralRecord(m, localOffset), FieldsOf(m, localOffset), EntryFor(m, localOffset));
  }

  lemma DirectoryRoundTrip(buffer: Bytes, start: int, ms: seq<Member>)
    requires AllArchivable(ms) && At(buffer, start, Central(ms)) && TotalSize(EntriesOf(ms)) <= MAX_EXTRACTED_BYTES
    ensures ReadEntries(HeadersOf(buffer), start, |ms|, 0) == Ok(EntriesOf(ms))
  {
    forall i | 0 <= i < |ms|
      ensures ReadsRecord(HeadersOf(buffer), buffer, CentralRecords(ms)[i], EntriesOf(ms)[i])
    {
      PrefixBound(LocalRecords(ms), i);
      HeadersRead(buffer, ms[i], OffsetOf(ms, i));
    }
    DirectoryReads(HeadersOf(buffer), buffer, start, CentralRecords(ms), EntriesOf(ms));
  }

  /** A whole archive: local records, central directory, end record. */
  datatype Archive = Archive(members: seq<Member>, disks: Bytes, directorySize: Bytes, comment: Bytes)
  {
    /** The fields have the widths of the format. */
    ghost predicate Printable() {
      && AllPrintable(members) && |members| < 0x1_0000
      && |disks| == 6 && |directorySize| == 4 && |comment| < 0x1_0000
    }

    ghost predicate Valid() {
      && Printable() && AllArchivable(members) && |members| <= MAX_FILE_COUNT
      && TotalSize(EntriesOf(members)) <= MAX_EXTRACTED_BYTES
      && |Print()| <= MAX_ARCHIVE_BYTES
    }

    ghost function Front(): Bytes
      requires Printable()
    {
      Locals(members) + Central(members)
    }

    ghost function End(): Bytes
      requires Printable()
    {
      EndRecord(disks, |members|, directorySize, |Locals(members)|, comment)
    }

    ghost function Print(): Bytes
      requires Printable()
    {
      Front() + End()
    }

    /** Nothing in the archive's comment looks like a later end record. */
    ghost predicate NoLaterSignature()
      requires Printable()
    {
      forall later :: |Front()| < later <= |Print()| - 22 ==> Read32(Print(), later) != Some(END_SIGNATURE)
    }
  }

  lemma EndFound(a: Archive)
    requires a.Printable() && a.NoLaterSignature()
    ensures IsLastSignature(a.Print(), |a.Front()|)
    ensures Read16(a.Print(), |a.Front()| + 10) == Some(|a.members|)
    ensures Read32(a.Print(), |a.Front()| + 16) == Some(|Locals(a.members)|)
  {
    AtMiddle(a.Front(), a.End(), []);
    assert a.Front() + a.End() + [] == a.Print();
    EndFields(a.Print(), |a.Front()|, a.disks, |a.members|, a.directorySize, |Locals(a.members)|, a.comment);
  }

  /** Inspecting a printed archive gives back its members, in order. */
  lemma InspectionRoundTrip(a: Archive)
    requires a.Valid() && a.NoLaterSignature()
    ensures IsLastSignature(a.Print(), |a.Front()|)
    ensures Inspected(a.Print(), |a.Front()|) == Ok(EntriesOf(a.members))
  {
    EndFound(a);
    var locals, central := Locals(a.members), Central(a.members);
    AtMiddle(locals, central, a.End());
    assert locals + central + a.End() == a.Print();
    DirectoryRoundTrip(a.Print(), |locals|, a.members);
  }
}
