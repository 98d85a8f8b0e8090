/**
 * What inspecting an archive refuses (inspectZipEntries of src/main/services/godot-projects.ts), for
 * any archive that the format can hold.
 */
module ZipRefusals {
  import opened Wrappers
  import opened ZipFormat
  import opened ZipReader

  // ---- names ----

  /** A slash of either kind: 47 or 92. */
  predicate Separator(b: Byte) {
    b == 47 || b == 92
  }

  /** Two dots alone between separators, or at an end of the name. */
  predicate DotsAt(name: Bytes, i: nat) {
    && i + 2 <= |name| && name[i] == 46 && name[i + 1] == 46
    && (i == 0 || Separator(name[i - 1])) && (i + 2 == |name| || Separator(name[i + 2]))
  }

  /** Two dots as the first part. */
  predicate DotsFirst(name: Bytes) {
    DotsAt(name, 0)
  }

  ghost predicate HasDots(name: Bytes) {
    exists i: nat :: DotsAt(name, i)
  }

  /** The first part of a name with plain slashes. */
  lemma {:induction false} FirstPartOf(name: Bytes)
    ensures |Parts(name)[0]| <= |name| && Parts(name)[0] == name[..|Parts(name)[0]|]
    ensures SLASH !in Parts(name)[0]
    ensures |Parts(name)[0]| == |name| || name[|Parts(name)[0]|] == SLASH
  {
    if name != [] && name[0] != SLASH {
      FirstPartOf(name[1..]);
      assert Parts(name)[0] == [name[0]] + Parts(name[1..])[0];
    }
  }

  lemma DotsFirstExactly(name: Bytes)
    requires BACKSLASH !in name
    ensures DotsFirst(name) <==> Parts(name)[0] == [DOT, DOT]
  {
    FirstPartOf(name);
  }

  ghost predicate DotsBehind(name: Bytes) {
    exists i: nat :: i > 0 && DotsAt(name, i)
  }

  lemma {:induction false} DotsAreParts(name: Bytes)
    requires BACKSLASH !in name
    ensures [DOT, DOT] in Parts(name)[1..] <==> DotsBehind(name)
  {
    if name != [] {
      var rest := name[1..];
      DotsAreParts(rest);
      DotsFirstExactly(rest);
      forall i: nat | i > 0 && DotsAt(name, i)
        ensures DotsAt(rest, i - 1) && (i - 1 > 0 || name[0] == SLASH)
      {
      }
      forall i: nat | DotsAt(rest, i) && (i > 0 || name[0] == SLASH)
        ensures DotsAt(name, i + 1)
      {
      }
      if name[0] == SLASH {
        assert Parts(name)[1..] == Parts(rest);
        assert Parts(rest) == [Parts(rest)[0]] + Parts(rest)[1..];
      } else {
        assert Parts(name)[1..] == Parts(rest)[1..];
      }
    }
  }

  lemma DotsExactly(name: Bytes)
    requires BACKSLASH !in name
    ensures [DOT, DOT] in Parts(name) <==> HasDots(name)
  {
    DotsAreParts(name);
    DotsFirstExactly(name);
    assert Parts(name) == [Parts(name)[0]] + Parts(name)[1..];
    if HasDots(name) {
      var i: nat :| DotsAt(name, i);
      assert i == 0 ==> DotsFirst(name);
    }
  }

  lemma {:induction false} SlashedAt(name: Bytes)
    ensures |Slashed(name)| == |name|
    ensures forall i :: 0 <= i < |name| ==> Slashed(name)[i] == if name[i] == 92 then 47 else name[i]
  {
    if name != [] {
      SlashedAt(name[1..]);
    }
  }

  /** The names inspection takes, byte by byte. */
  ghost predicate SafeBytes(name: Bytes) {
    && name != [] && !Separator(name[0])
    && !(|name| >= 2 && (65 <= name[0] <= 90 || 97 <= name[0] <= 122) && name[1] == 58)
    && !HasDots(name)
  }

  lemma NamesExactly(name: Bytes)
    ensures ValidateArchivePath(name).Ok? <==> SafeBytes(name)
  {
    var plain := Slashed(name);
    SlashedAt(name);
    SlashedPlain(name);
    DotsExactly(plain);
    forall i: nat
      ensures DotsAt(plain, i) <==> DotsAt(name, i)
    {
    }
  }

  // ---- members ----

  /** A member that is taken: a safe name, no symbolic link, stored or deflated. */
  ghost predicate Taken(m: Member) {
    && SafeBytes(m.name)
    && m.attributes / 0x1000_0000 % 16 != 10
    && (m.compression == 0 || m.compression == 8)
  }

  predicate Checks(f: Fields) {
    ValidateArchivePath(f.rawName).Ok? && !IsSymbolicLink(f.attributes) && (f.compression == 0 || f.compression == 8)
  }

  lemma TakenExactly(m: Member, localOffset: int)
    requires m.Printable()
    ensures Checks(FieldsOf(m, localOffset)) <==> Taken(m)
  {
    NamesExactly(m.name);
    assert m.attributes / 0x1_0000 / 0x1000 == m.attributes / 0x1000_0000;
  }

  function SizeFrom(fs: seq<Fields>, i: nat): int
    requires i <= |fs|
    decreases |fs| - i
  {
    if i == |fs| then 0 else fs[i].uncompressedSize + SizeFrom(fs, i + 1)
  }

  ghost predicate ReadsFields(central: HeaderReader, f: Fields, here: int) {
    forall t :: central(here, t) == Checked(f, here, t)
  }

  lemma {:induction false} SizesPositiveFrom(fs: seq<Fields>, i: nat)
    requires i <= |fs| && forall j :: 0 <= j < |fs| ==> fs[j].uncompressedSize >= 0
    ensures SizeFrom(fs, i) >= 0
    decreases |fs| - i
  {
    if i < |fs| {
      SizesPositiveFrom(fs, i + 1);
    }
  }

  lemma FirstDecides(central: HeaderReader, here: int, f: Fields, next: int, count: nat, total: int)
    requires ReadsFields(central, f, here) && next == here + f.length && count > 0
    ensures ReadEntries(central, here, count, total).Ok? <==>
            && Checks(f) && total + f.uncompressedSize <= MAX_EXTRACTED_BYTES
            && ReadEntries(central, next, count - 1, total + f.uncompressedSize).Ok?
  {
    assert central(here, total) == Checked(f, here, total);
  }

  /** The walk succeeds exactly if every header passes its checks and the sizes stay within the limit. */
  lemma {:induction false} WalkDecides(central: HeaderReader, pos: seq<int>, fs: seq<Fields>, i: nat, total: int)
    requires |pos| == |fs| + 1 && i <= |fs| && total <= MAX_EXTRACTED_BYTES
    requires forall j :: 0 <= j < |fs| ==> fs[j].uncompressedSize >= 0 && pos[j + 1] == pos[j] + fs[j].length
    requires forall j :: 0 <= j < |fs| ==> ReadsFields(central, fs[j], pos[j])
    ensures ReadEntries(central, pos[i], |fs| - i, total).Ok? <==>
            (forall j :: i <= j < |fs| ==> Checks(fs[j])) && total + SizeFrom(fs, i) <= MAX_EXTRACTED_BYTES
    decreases |fs| - i
  {
    if i < |fs| {
      SizesPositiveFrom(fs, i + 1);
      FirstDecides(central, pos[i], fs[i], pos[i + 1], |fs| - i, total);
      if total + fs[i].uncompressedSize <= MAX_EXTRACTED_BYTES {
        WalkDecides(central, pos, fs, i + 1, total + fs[i].uncompressedSize);
      }
    }
  }

  // ---- archives ----

  lemma HeaderDecides(buffer: Bytes, o: int, f: Fields)
    requires ReadFields(buffer, o) == Ok(f)
    ensures ReadsFields(HeadersOf(buffer), f, o)
  {
  }

  /** Records that lie one after the other and hold these fields are read at their positions. */
  lemma RecordDecides(buffer: Bytes, start: int, records: seq<Bytes>, fs: seq<Fields>, j: nat)
    requires |records| == |fs| && j < |fs| && At(buffer, start, Concat(records)) && HoldsFields(buffer, records[j], fs[j])
    ensures ReadsFields(HeadersOf(buffer), fs[j], start + PrefixLength(records, j))
  {
    RecordAt(buffer, start, records, j);
    HeaderDecides(buffer, start + PrefixLength(records, j), fs[j]);
  }

  /** Headers that are read one after the other, whatever reads them. */
  lemma HeadersDecide(central: HeaderReader, start: int, records: seq<Bytes>, fs: seq<Fields>)
    requires |records| == |fs|
    requires forall j :: 0 <= j < |fs| ==> |records[j]| == fs[j].length && fs[j].uncompressedSize >= 0
    requires forall j :: 0 <= j < |fs| ==> ReadsFields(central, fs[j], start + PrefixLength(records, j))
    ensures ReadEntries(central, start, |fs|, 0).Ok? <==>
            (forall j :: 0 <= j < |fs| ==> Checks(fs[j])) && SizeFrom(fs, 0) <= MAX_EXTRACTED_BYTES
  {
    var pos := seq(|records| + 1, i requires 0 <= i <= |records| => start + PrefixLength(records, i));
    forall j | 0 <= j < |fs|
      ensures pos[j + 1] == pos[j] + fs[j].length && ReadsFields(central, fs[j], pos[j])
    {
      assert ReadsFields(central, fs[j], start + PrefixLength(records, j));
    }
    WalkDecides(central, pos, fs, 0, 0);
  }

  lemma DirectoryDecides(buffer: Bytes, start: int, records: seq<Bytes>, fs: seq<Fields>)
    requires |records| == |fs| && At(buffer, start, Concat(records))
    requires forall j :: 0 <= j < |fs| ==> HoldsFields(buffer, records[j], fs[j]) && fs[j].uncompressedSize >= 0
    ensures ReadEntries(HeadersOf(buffer), start, |fs|, 0).Ok? <==>
            (forall j :: 0 <= j < |fs| ==> Checks(fs[j])) && SizeFrom(fs, 0) <= MAX_EXTRACTED_BYTES
  {
    forall j | 0 <= j < |fs|
      ensures |records[j]| == fs[j].length && ReadsFields(HeadersOf(buffer), fs[j], start + PrefixLength(records, j))
    {
      assert HoldsFields(buffer, records[j], fs[j]);
      RecordDecides(buffer, start, records, fs, j);
    }
    HeadersDecide(HeadersOf(buffer), start, records, fs);
  }

  ghost function AllFields(ms: seq<Member>): (fs: seq<Fields>)
    requires AllPrintable(ms)
    ensures |fs| == |ms| && forall j :: 0 <= j < |ms| ==> fs[j] == FieldsOf(ms[j], OffsetOf(ms, j))
  {
    seq(|ms|, j requires 0 <= j < |ms| => FieldsOf(ms[j], OffsetOf(ms, j)))
  }

  lemma MemberHolds(buffer: Bytes, ms: seq<Member>, j: nat)
    requires j < |ms| && AllPrintable(ms)
    ensures HoldsFields(buffer, CentralRecords(ms)[j], FieldsOf(ms[j], OffsetOf(ms, j)))
  {
    PrefixBound(LocalRecords(ms), j);
    RecordHoldsFields(buffer, ms[j], OffsetOf(ms, j));
  }

  function Unpacked(ms: seq<Member>, i: nat): int
    requires i <= |ms|
    decreases |ms| - i
  {
    if i == |ms| then 0 else ms[i].size + Unpacked(ms, i + 1)
  }

  lemma {:induction false} UnpackedIsSize(ms: seq<Member>, fs: seq<Fields>, i: nat)
    requires i <= |ms| == |fs| && forall j :: 0 <= j < |ms| ==> fs[j].uncompressedSize == ms[j].size
    ensures SizeFrom(fs, i) == Unpacked(ms, i)
    decreases |ms| - i
  {
    if i < |ms| {
      UnpackedIsSize(ms, fs, i + 1);
    }
  }

  lemma MembersDecide(buffer: Bytes, start: int, ms: seq<Member>)
    requires AllPrintable(ms) && At(buffer, start, Central(ms))
    ensures ReadEntries(HeadersOf(buffer), start, |ms|, 0).Ok? <==>
            (forall j :: 0 <= j < |ms| ==> Taken(ms[j])) && Unpacked(ms, 0) <= 134217728
  {
    var fs := AllFields(ms);
    forall j | 0 <= j < |ms|
      ensures HoldsFields(buffer, CentralRecords(ms)[j], fs[j])
      ensures Checks(fs[j]) <==> Taken(ms[j])
    {
      MemberHolds(buffer, ms, j);
      TakenExactly(ms[j], OffsetOf(ms, j));
    }
    DirectoryDecides(buffer, start, CentralRecords(ms), fs);
    UnpackedIsSize(ms, fs, 0);
  }

  /**
   * Inspecting a printed archive succeeds exactly if it has at most 2000 members, every one with a
   * safe name, no symbolic link, stored or deflated, that unpack to at most 128 MB.
   */
  lemma InspectionDecides(a: Archive)
    requires a.Printable() && a.NoLaterSignature()
    ensures IsLastSignature(a.Print(), |a.Front()|)
    ensures Inspected(a.Print(), |a.Front()|).Ok? <==>
            |a.members| <= 2000 && (forall j :: 0 <= j < |a.members| ==> Taken(a.members[j])) && Unpacked(a.members, 0) <= 134217728
  {
    EndFound(a);
    var locals, central := Locals(a.members), Central(a.members);
    AtMiddle(locals, central, a.End());
    assert locals + central + a.End() == a.Print();
    MembersDecide(a.Print(), |locals|, a.members);
  }
}
