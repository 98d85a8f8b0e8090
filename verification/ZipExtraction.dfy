/**
 * extractZip of src/main/services/godot-projects.ts: every entry of an inspected archive is
 * written below the target directory, which is empty at first. Paths are relative to it; an
 * existing file is never overwritten.
 */
module ZipExtraction {
  import opened Wrappers
  import opened ZipFormat
  import opened ZipReader

  type Path = seq<Bytes>

  datatype Node = Folder | File(content: Bytes)

  type Tree = map<Path, Node>

  type Inflate = Bytes -> Option<Bytes>

  // ---- where a name leads ----

  /**
   * The directory that is extracted into, resolved: its components and, on Windows, its drive
   * letter; a network share has none, which no letter equals.
   */
  datatype Target = Posix(root: Path) | Windows(root: Path, drive: Byte)

  /** A part that Windows takes for a path relative to a drive. */
  predicate DrivePart(part: Bytes) {
    |part| >= 2 && Letter(part[0]) && part[1] == COLON
  }

  function LowerLetter(b: Byte): Byte {
    if 65 <= b <= 90 then b + 32 else b
  }

  /** Drive letters are the same in either case. */
  lemma LettersFold(a: Byte, b: Byte)
    requires Letter(a) && Letter(b)
    ensures LowerLetter(a) == LowerLetter(b) <==> a == b || (a <= 90 && b == a + 32) || (b <= 90 && a == b + 32)
  {
  }

  /** The drive of the last part that has one: it decides on which drive the path is. */
  function LastDrive(parts: seq<Bytes>): Option<Byte> {
    if parts == [] then None
    else
      var last := parts[|parts| - 1];
      if DrivePart(last) then Some(last[0]) else LastDrive(parts[..|parts| - 1])
  }

  /** The parts that apply on a drive: those of other drives are passed over, its own lose their prefix. */
  function Applicable(parts: seq<Bytes>, drive: Byte): seq<Bytes> {
    if parts == [] then []
    else
      var last := parts[|parts| - 1];
      Applicable(parts[..|parts| - 1], drive)
      + if !DrivePart(last) then [last]
        else if LowerLetter(last[0]) == LowerLetter(drive) then [last[2..]]
        else []
  }

  /** Empty and dot parts vanish, two dots go up, but not above the root of the drive. */
  function Walked(base: Path, parts: seq<Bytes>): Path {
    if parts == [] then base
    else
      var path, last := Walked(base, parts[..|parts| - 1]), parts[|parts| - 1];
      if last == [] || last == [DOT] then path
      else if last == [DOT, DOT] then (if path == [] then [] else path[..|path| - 1])
      else path + [last]
  }

  predicate PrefixOf(a: Path, b: Path) {
    |a| <= |b| && a == b[..|a|]
  }

  /** isInside: a parent that is a root already ends in a separator, and then holds nothing but itself. */
  predicate IsInside(parent: Path, child: Path) {
    child == parent || (parent != [] && PrefixOf(parent, child))
  }

  /** path.resolve and isInside: the path below the target, or nothing where the check fires. */
  function Location(target: Target, parts: seq<Bytes>): Option<Path> {
    if target.Windows? && LastDrive(parts).Some? && LastDrive(parts).value != target.drive then None
    else
      var full := Walked(target.root, if target.Windows? then Applicable(parts, target.drive) else parts);
      if IsInside(target.root, full) then Some(full[|target.root|..]) else None
  }

  predicate IsFolderName(name: Bytes) {
    name != [] && name[|name| - 1] == SLASH
  }

  /** mkdir with parents: fails where a file is in the way. */
  function WithFolders(tree: Tree, path: Path): Option<Tree> {
    if path == [] then Some(tree)
    else
      var parents := WithFolders(tree, path[..|path| - 1]);
      if parents.None? then None
      else if path !in parents.value then Some(parents.value[path := Folder])
      else if parents.value[path].Folder? then parents
      else None
  }

  /** How an entry's bytes are found: the extraction's one parameter. */
  type ContentReader = Entry -> Result<Bytes>

  function ReadContent(buffer: Bytes, inflate: Inflate, e: Entry): Result<Bytes> {
    var at := e.localHeaderOffset;
    if Read32(buffer, at).None? then Err(OutOfRange)
    else if Read32(buffer, at) != Some(LOCAL_SIGNATURE) then Err(BadLocalHeader)
    else if Read16(buffer, at + 26).None? || Read16(buffer, at + 28).None? then Err(OutOfRange)
    else
      var dataOffset := at + 30 + Read16(buffer, at + 26).value + Read16(buffer, at + 28).value;
      var compressed := Subarray(buffer, dataOffset, dataOffset + e.compressedSize);
      var content := if e.compression == 0 then Some(compressed) else inflate(compressed);
      if content.None? then Err(InflateFailed)
      else if |content.value| != e.uncompressedSize then Err(SizeMismatch)
      else Ok(content.value)
  }

  function ContentsOf(buffer: Bytes, inflate: Inflate): ContentReader {
    e => ReadContent(buffer, inflate, e)
  }

  /** What one entry asks for: a folder, or a new file with its content. */
  datatype Item = Item(path: Path, folder: bool, content: Bytes)

  function ItemOf(target: Target, e: Entry, contents: ContentReader): Result<Item> {
    var path := Location(target, Parts(e.name));
    if path.None? then Err(Escapes)
    else if IsFolderName(e.name) then Ok(Item(path.value, true, []))
    else
      var content := contents(e);
      if content.Err? then Err(content.error) else Ok(Item(path.value, false, content.value))
  }

  function Placed(tree: Tree, item: Item): Result<Tree> {
    if item.folder then
      var made := WithFolders(tree, item.path);
      if made.None? then Err(PathOccupied) else Ok(made.value)
    else if item.path == [] then Err(PathOccupied)
    else
      var made := WithFolders(tree, item.path[..|item.path| - 1]);
      if made.None? || item.path in made.value then Err(PathOccupied)
      else Ok(made.value[item.path := File(item.content)])
  }

  function Extracted(target: Target, tree: Tree, e: Entry, contents: ContentReader): Result<Tree> {
    var item := ItemOf(target, e, contents);
    if item.Err? then Err(item.error) else Placed(tree, item.value)
  }

  function ExtractedAll(target: Target, tree: Tree, entries: seq<Entry>, contents: ContentReader): Result<Tree>
    decreases |entries|
  {
    if entries == [] then Ok(tree)
    else
      var first := Extracted(target, tree, entries[0], contents);
      if first.Err? then first else ExtractedAll(target, first.value, entries[1..], contents)
  }

  method ExtractEntries(target: Target, entries: seq<Entry>, contents: ContentReader) returns (r: Result<Tree>)
    ensures r == ExtractedAll(target, map[], entries, contents)
  {
    var tree: Tree := map[];
    for i := 0 to |entries|
      invariant ExtractedAll(target, map[], entries, contents) == ExtractedAll(target, tree, entries[i..], contents)
    {
      assert entries[i..][1..] == entries[i + 1..];
      var next := Extracted(target, tree, entries[i], contents);
      if next.Err? {
        return next;
      }
      tree := next.value;
    }
    return Ok(tree);
  }

  method ExtractZip(target: Target, buffer: Bytes, inflate: Inflate) returns (r: Result<Tree>)
    ensures |buffer| > MAX_ARCHIVE_BYTES ==> r == Err(TooLarge)
    ensures forall end :: |buffer| <= MAX_ARCHIVE_BYTES && IsLastSignature(buffer, end) ==>
              r == if Inspected(buffer, end).Err? then Err(Inspected(buffer, end).error)
                   else ExtractedAll(target, map[], Inspected(buffer, end).value, ContentsOf(buffer, inflate))
  {
    var entries := InspectZipEntries(buffer);
    if entries.Err? {
      return Err(entries.error);
    }
    r := ExtractEntries(target, entries.value, ContentsOf(buffer, inflate));
  }

  // ---- when the check against escaping fires ----

  /** Without two dots a path only goes down. */
  lemma {:induction false} WalkedDown(base: Path, parts: seq<Bytes>)
    requires [DOT, DOT] !in parts
    ensures PrefixOf(base, Walked(base, parts))
  {
    if parts != [] {
      WalkedDown(base, parts[..|parts| - 1]);
    }
  }

  lemma {:induction false} NoDrive(parts: seq<Bytes>, drive: Byte)
    requires LastDrive(parts).None?
    ensures Applicable(parts, drive) == parts
  {
    if parts != [] {
      var init, last := parts[..|parts| - 1], parts[|parts| - 1];
      NoDrive(init, drive);
      assert !DrivePart(last) && Applicable(parts, drive) == Applicable(init, drive) + [last];
      assert parts == init + [last];
    }
  }

  /** An own-drive part that hides two dots behind its prefix, as in `C:..`. */
  predicate HidesDots(target: Target, parts: seq<Bytes>) {
    target.Windows? && [DOT, DOT] in Applicable(parts, target.drive)
  }

  /**
   * For a name that inspection has accepted and a target that is no root, the check fires exactly on
   * Windows, for a name whose last drive prefix is not the target's own, or whose parts hide steps
   * out of the target behind the target's own prefix. At a root it also fires for all that is not
   * the root itself.
   */
  lemma CheckFiresExactly(target: Target, raw: Bytes)
    requires ValidateArchivePath(raw).Ok?
    ensures var parts := Parts(ValidateArchivePath(raw).value);
            var foreign := target.Windows? && LastDrive(parts).Some? && LastDrive(parts).value != target.drive;
            var full := Walked(target.root, if target.Windows? then Applicable(parts, target.drive) else parts);
            && (target.root != [] ==>
                 (Location(target, parts).None? <==>
                   foreign || (target.Windows? && LastDrive(parts).Some? && !PrefixOf(target.root, full))))
            && (target.root != [] && !HidesDots(target, parts) ==> (Location(target, parts).None? <==> foreign))
            && (target.root == [] ==> (Location(target, parts).None? <==> foreign || full != []))
  {
    ValidationExact(raw);
    var parts := Parts(ValidateArchivePath(raw).value);
    WalkedDown(target.root, parts);
    if target.Windows? {
      if LastDrive(parts).None? {
        NoDrive(parts, target.drive);
      }
      if !HidesDots(target, parts) {
        WalkedDown(target.root, Applicable(parts, target.drive));
      }
    }
  }

  /** The parts that name something: not empty, and not a dot. */
  function Named(parts: seq<Bytes>): Path {
    if parts == [] then []
    else Named(parts[..|parts| - 1]) + if parts[|parts| - 1] == [] || parts[|parts| - 1] == [46] then [] else [parts[|parts| - 1]]
  }

  lemma {:induction false} WalkedNamed(base: Path, parts: seq<Bytes>)
    requires [DOT, DOT] !in parts
    ensures Walked(base, parts) == base + Named(parts)
  {
    if parts != [] {
      WalkedNamed(base, parts[..|parts| - 1]);
    }
  }

  /** An ordinary name leads, below the target, through its own parts. */
  lemma LocationOfPlain(target: Target, parts: seq<Bytes>)
    requires [DOT, DOT] !in parts && LastDrive(parts).None? && target.root != []
    ensures Location(target, parts) == Some(Named(parts))
  {
    WalkedNamed(target.root, parts);
    if target.Windows? {
      NoDrive(parts, target.drive);
    }
    assert (target.root + Named(parts))[|target.root|..] == Named(parts);
    assert (target.root + Named(parts))[..|target.root|] == target.root;
  }

  /** The parts without drive prefixes. */
  function Stripped(parts: seq<Bytes>): seq<Bytes> {
    if parts == [] then []
    else
      var last := parts[|parts| - 1];
      Stripped(parts[..|parts| - 1]) + [if |last| >= 2 && Letter(last[0]) && last[1] == 58 then last[2..] else last]
  }

  predicate OnlyOwnDrive(parts: seq<Bytes>, drive: Byte) {
    forall i :: 0 <= i < |parts| && |parts[i]| >= 2 && Letter(parts[i][0]) && parts[i][1] == 58 ==> parts[i][0] == drive
  }

  lemma {:induction false} OwnDriveStripped(parts: seq<Bytes>, drive: Byte)
    requires OnlyOwnDrive(parts, drive)
    ensures Applicable(parts, drive) == Stripped(parts)
    ensures LastDrive(parts).Some? ==> LastDrive(parts).value == drive
  {
    if parts != [] {
      var n := |parts| - 1;
      assert forall i :: 0 <= i < n ==> parts[..n][i] == parts[i];
      OwnDriveStripped(parts[..n], drive);
    }
  }

  /** A name with prefixes of the target's own drive only leads where it would without them. */
  lemma LocationOfOwnDrive(root: Path, drive: Byte, parts: seq<Bytes>)
    requires OnlyOwnDrive(parts, drive) && [DOT, DOT] !in Stripped(parts) && root != []
    ensures Location(Windows(root, drive), parts) == Some(Named(Stripped(parts)))
  {
    OwnDriveStripped(parts, drive);
    WalkedNamed(root, Stripped(parts));
    assert (root + Named(Stripped(parts)))[|root|..] == Named(Stripped(parts));
    assert (root + Named(Stripped(parts)))[..|root|] == root;
  }

  /** A name is a folder's exactly if nothing follows its last slash. */
  lemma {:induction false} FolderNames(name: Bytes)
    requires name != []
    ensures IsFolderName(name) <==> Parts(name)[|Parts(name)| - 1] == []
  {
    if |name| > 1 {
      FolderNames(name[1..]);
    } else {
      assert Parts(name[1..]) == [[]];
    }
  }

  lemma {:induction false} OnePart(a: Bytes)
    requires SLASH !in a
    ensures Parts(a) == [a]
  {
    if a != [] {
      OnePart(a[1..]);
      assert [a[0]] + a[1..] == a;
    }
  }

  lemma {:induction false} FirstPart(a: Bytes, rest: Bytes)
    requires SLASH !in a
    ensures Parts(a + [SLASH] + rest) == [a] + Parts(rest)
  {
    var name := a + [SLASH] + rest;
    if a == [] {
      assert name[1..] == rest;
    } else {
      assert name[1..] == a[1..] + [SLASH] + rest;
      FirstPart(a[1..], rest);
      assert [a[0]] + a[1..] == a;
    }
  }

  const SMALL_A: Byte := 97
  const CAPITAL_C: Byte := 67
  const CAPITAL_D: Byte := 68

  /** `a/D:/a` */
  function ForeignName(): Bytes {
    [SMALL_A] + [SLASH] + ([CAPITAL_D, COLON] + [SLASH] + [SMALL_A])
  }

  lemma ForeignParts()
    ensures Parts(ForeignName()) == [[SMALL_A], [CAPITAL_D, COLON], [SMALL_A]]
  {
    OnePart([SMALL_A]);
    FirstPart([CAPITAL_D, COLON], [SMALL_A]);
    FirstPart([SMALL_A], [CAPITAL_D, COLON] + [SLASH] + [SMALL_A]);
  }

  /** That name passes inspection, and fires the check for every target on drive C. */
  lemma ForeignDriveFires(root: Path)
    ensures ValidateArchivePath(ForeignName()) == Ok(ForeignName())
    ensures Location(Windows(root, CAPITAL_C), Parts(ForeignName())).None?
  {
    ForeignParts();
    var parts := Parts(ForeignName());
    assert DrivePart(parts[..2][1]) && !DrivePart(parts[2]);
    ValidationExact(ForeignName());
  }

  // ---- folders ----

  /** Where no file is in the way, exactly the missing parents are added. */
  lemma {:induction false} FoldersAdded(tree: Tree, path: Path)
    requires forall q :: q in tree && PrefixOf(q, path) ==> tree[q].Folder?
    ensures var r := WithFolders(tree, path);
            r.Some? && (forall q :: q in r.value <==> q in tree || (q != [] && PrefixOf(q, path)))
            && (forall q :: q in r.value ==> r.value[q] == if q in tree then tree[q] else Folder)
    decreases |path|
  {
    if path != [] {
      var init := path[..|path| - 1];
      forall q | PrefixOf(q, init)
        ensures PrefixOf(q, path)
      {
        assert init[..|q|] == path[..|q|];
      }
      FoldersAdded(tree, init);
      forall q | PrefixOf(q, path)
        ensures q == path || PrefixOf(q, init)
      {
        if |q| < |path| {
          assert init[..|q|] == path[..|q|];
        } else {
          assert path[..|q|] == path;
        }
      }
    }
  }

  // ---- what extraction produces ----

  /** Items that do not get in each other's way: no file lies at or above another item's path. */
  ghost predicate Compatible(items: seq<Item>) {
    && (forall i :: 0 <= i < |items| && !items[i].folder ==> items[i].path != [])
    && (forall i, j :: 0 <= i < |items| && 0 <= j < |items| && i != j && !items[i].folder ==>
          !PrefixOf(items[i].path, items[j].path))
  }

  ghost predicate Present(tree: Tree, item: Item) {
    if item.folder then item.path == [] || (item.path in tree && tree[item.path] == Folder)
    else item.path in tree && tree[item.path] == File(item.content)
  }

  /** A node that an item asks for: its own, or a folder above it. */
  ghost predicate AskedBy(q: Path, node: Node, item: Item) {
    PrefixOf(q, item.path) && node == if q == item.path && !item.folder then File(item.content) else Folder
  }

  ghost predicate Asked(q: Path, node: Node, items: seq<Item>, n: nat)
    requires n <= |items|
  {
    exists i :: 0 <= i < n && AskedBy(q, node, items[i])
  }

  /** The tree holds what the first `n` items ask for, and nothing else. */
  ghost predicate Holds(tree: Tree, items: seq<Item>, n: nat)
    requires n <= |items|
  {
    && (forall i :: 0 <= i < n ==> Present(tree, items[i]))
    && (forall q :: q in tree ==> Asked(q, tree[q], items, n))
  }

  lemma PrefixSelf(p: Path)
    ensures PrefixOf(p, p)
  {
  }

  lemma PrefixTransitive(a: Path, b: Path, c: Path)
    requires PrefixOf(a, b) && PrefixOf(b, c)
    ensures PrefixOf(a, c)
  {
    assert b[..|a|] == c[..|a|];
  }

  /** Above the path of the next item there are only folders. */
  lemma NoFileAbove(tree: Tree, items: seq<Item>, n: nat, q: Path)
    requires n < |items| && Compatible(items) && Holds(tree, items, n)
    requires q in tree && PrefixOf(q, items[n].path)
    ensures tree[q].Folder? && (items[n].folder || q != items[n].path)
  {
    assert Asked(q, tree[q], items, n);
    var i :| 0 <= i < n && AskedBy(q, tree[q], items[i]);
    assert items[i].folder || !PrefixOf(items[i].path, items[n].path);
    assert items[n].folder || !PrefixOf(items[n].path, items[i].path);
  }

  lemma AskedLater(q: Path, node: Node, items: seq<Item>, n: nat)
    requires n < |items| && (Asked(q, node, items, n) || AskedBy(q, node, items[n]))
    ensures Asked(q, node, items, n + 1)
  {
  }

  /** A tree that only gained what the next item asks for holds the items up to it. */
  lemma HoldsNext(tree: Tree, r: Tree, items: seq<Item>, n: nat)
    requires n < |items| && Holds(tree, items, n) && Present(r, items[n])
    requires forall q :: q in tree ==> q in r && r[q] == tree[q]
    requires forall q :: q in r && q !in tree ==> AskedBy(q, r[q], items[n])
    ensures Holds(r, items, n + 1)
  {
    forall i | 0 <= i < n + 1
      ensures Present(r, items[i])
    {
      if i < n {
        assert Present(tree, items[i]);
      }
    }
    forall q | q in r
      ensures Asked(q, r[q], items, n + 1)
    {
      AskedLater(q, r[q], items, n);
    }
  }

  lemma FolderStep(tree: Tree, items: seq<Item>, n: nat)
    requires n < |items| && Compatible(items) && Holds(tree, items, n) && items[n].folder
    ensures Placed(tree, items[n]).Ok? && Holds(Placed(tree, items[n]).value, items, n + 1)
  {
    var path := items[n].path;
    forall q | q in tree && PrefixOf(q, path)
      ensures tree[q].Folder?
    {
      NoFileAbove(tree, items, n, q);
    }
    FoldersAdded(tree, path);
    PrefixSelf(path);
    HoldsNext(tree, WithFolders(tree, path).value, items, n);
  }

  lemma FileStep(tree: Tree, items: seq<Item>, n: nat)
    requires n < |items| && Compatible(items) && Holds(tree, items, n) && !items[n].folder
    ensures Placed(tree, items[n]).Ok? && Holds(Placed(tree, items[n]).value, items, n + 1)
  {
    var path := items[n].path;
    var parent := path[..|path| - 1];
    PrefixSelf(path);
    forall q | PrefixOf(q, parent)
      ensures PrefixOf(q, path)
    {
      PrefixTransitive(q, parent, path);
    }
    forall q | q in tree && PrefixOf(q, path)
      ensures tree[q].Folder? && q != path
    {
      NoFileAbove(tree, items, n, q);
    }
    FoldersAdded(tree, parent);
    var made := WithFolders(tree, parent).value;
    HoldsNext(tree, made[path := File(items[n].content)], items, n);
  }

  lemma PlacedNext(tree: Tree, items: seq<Item>, n: nat)
    requires n < |items| && Compatible(items) && Holds(tree, items, n)
    ensures Placed(tree, items[n]).Ok? && Holds(Placed(tree, items[n]).value, items, n + 1)
  {
    if items[n].folder {
      FolderStep(tree, items, n);
    } else {
      FileStep(tree, items, n);
    }
  }

  function PlacedAll(tree: Tree, items: seq<Item>, n: nat): Result<Tree>
    requires n <= |items|
    decreases |items| - n
  {
    if n == |items| then Ok(tree)
    else
      var next := Placed(tree, items[n]);
      if next.Err? then next else PlacedAll(next.value, items, n + 1)
  }

  lemma {:induction false} PlacingFrom(tree: Tree, items: seq<Item>, n: nat)
    requires n <= |items| && Compatible(items) && Holds(tree, items, n)
    ensures PlacedAll(tree, items, n).Ok? && Holds(PlacedAll(tree, items, n).value, items, |items|)
    decreases |items| - n
  {
    if n < |items| {
      PlacedNext(tree, items, n);
      PlacingFrom(Placed(tree, items[n]).value, items, n + 1);
    }
  }

  // ---- items in each other's way never come through ----

  ghost predicate FoldersAbove(tree: Tree, path: Path) {
    forall q :: q != [] && PrefixOf(q, path) ==> q in tree && tree[q].Folder?
  }

  ghost predicate Grown(tree: Tree, r: Tree) {
    forall q :: q in tree ==> q in r && r[q] == tree[q]
  }

  lemma {:induction false} FoldersMade(tree: Tree, path: Path)
    requires WithFolders(tree, path).Some?
    ensures Grown(tree, WithFolders(tree, path).value) && FoldersAbove(WithFolders(tree, path).value, path)
    decreases |path|
  {
    if path != [] {
      var init := path[..|path| - 1];
      FoldersMade(tree, init);
      forall q | PrefixOf(q, path)
        ensures q == path || PrefixOf(q, init)
      {
        assert |q| < |path| ==> init[..|q|] == path[..|q|];
      }
    }
  }

  /** The item's own node and the folders above it are there. */
  ghost predicate Rooted(tree: Tree, item: Item) {
    && (item.folder || item.path != [])
    && forall q :: q != [] && PrefixOf(q, item.path) ==> q in tree && AskedBy(q, tree[q], item)
  }

  lemma PlacedIsRooted(tree: Tree, item: Item)
    requires Placed(tree, item).Ok?
    ensures Grown(tree, Placed(tree, item).value) && Rooted(Placed(tree, item).value, item)
    ensures !item.folder ==> item.path !in tree
  {
    if item.folder {
      FoldersMade(tree, item.path);
    } else {
      var init := item.path[..|item.path| - 1];
      FoldersMade(tree, init);
      forall q | PrefixOf(q, item.path)
        ensures q == item.path || PrefixOf(q, init)
      {
        assert |q| < |item.path| ==> init[..|q|] == item.path[..|q|];
      }
    }
  }

  /** Two placed items are out of each other's way. */
  lemma PlacedApart(tree: Tree, r: Tree, a: Item, b: Item)
    requires Rooted(tree, a) && Rooted(r, b) && Grown(tree, r) && (!b.folder ==> b.path !in tree)
    ensures !a.folder ==> !PrefixOf(a.path, b.path)
    ensures !b.folder ==> !PrefixOf(b.path, a.path)
  {
    PrefixSelf(a.path);
  }

  lemma {:induction false} PlacingNeedsRoom(tree: Tree, items: seq<Item>, n: nat)
    requires n <= |items| && (forall i :: 0 <= i < n ==> Rooted(tree, items[i])) && Compatible(items[..n])
    requires PlacedAll(tree, items, n).Ok?
    ensures Compatible(items)
    decreases |items| - n
  {
    if n == |items| {
      assert items[..n] == items;
    } else {
      var r := Placed(tree, items[n]).value;
      PlacedIsRooted(tree, items[n]);
      var next := items[..n + 1];
      forall i | 0 <= i < n
        ensures Rooted(r, items[i])
        ensures !items[i].folder ==> !PrefixOf(items[i].path, items[n].path)
        ensures !items[n].folder ==> !PrefixOf(items[n].path, items[i].path)
      {
        PlacedApart(tree, r, items[i], items[n]);
      }
      assert forall i :: 0 <= i < n ==> next[i] == items[..n][i];
      PlacingNeedsRoom(r, items, n + 1);
    }
  }

  /** Where every entry's item is known, extraction places these items in order. */
  lemma {:induction false} ExtractionPlaces(target: Target, tree: Tree, entries: seq<Entry>, items: seq<Item>, n: nat,
                                            read: ContentReader)
    requires n <= |entries| == |items|
    requires forall i :: 0 <= i < |entries| ==> ItemOf(target, entries[i], read) == Ok(items[i])
    ensures ExtractedAll(target, tree, entries[n..], read) == PlacedAll(tree, items, n)
    decreases |entries| - n
  {
    if n < |entries| {
      var rest := entries[n..];
      assert rest[0] == entries[n] && rest[1..] == entries[n + 1..];
      var next := Extracted(target, tree, entries[n], read);
      assert next == Placed(tree, items[n]);
      if next.Ok? {
        ExtractionPlaces(target, next.value, entries, items, n + 1, read);
      }
    }
  }

  /** An entry for which the check fires fails the extraction. */
  lemma {:induction false} ExtractionFails(target: Target, tree: Tree, entries: seq<Entry>, i: nat, read: ContentReader)
    requires i < |entries| && ItemOf(target, entries[i], read).Err?
    ensures ExtractedAll(target, tree, entries, read).Err?
    decreases i
  {
    var first := Extracted(target, tree, entries[0], read);
    if i > 0 && first.Ok? {
      ExtractionFails(target, first.value, entries[1..], i - 1, read);
    }
  }

  // ---- the archive round trip ----

  /** `content` is what the member's data stands for. */
  predicate Unpacks(m: Member, content: Bytes, inflate: Inflate) {
    |content| == m.size && (if m.compression == 0 then m.data == content else inflate(m.data) == Some(content))
  }

  lemma ContentReads(buffer: Bytes, m: Member, localOffset: int, content: Bytes, inflate: Inflate)
    requires m.Printable() && At(buffer, localOffset, LocalRecord(m)) && Unpacks(m, content, inflate)
    ensures ReadContent(buffer, inflate, EntryFor(m, localOffset)) == Ok(content)
  {
    LocalFields(buffer, localOffset, m);
    var dataOffset := localOffset + 30 + |m.name| + |m.localExtra|;
    assert Subarray(buffer, dataOffset, dataOffset + |m.data|) == m.data;
  }

  ghost predicate AllInside(target: Target, names: seq<Bytes>) {
    forall i :: 0 <= i < |names| ==> Location(target, Parts(names[i])).Some?
  }

  /** What the member is meant to become. */
  function ItemFor(target: Target, name: Bytes, content: Bytes): Item
    requires Location(target, Parts(name)).Some?
  {
    Item(Location(target, Parts(name)).value, IsFolderName(name), if IsFolderName(name) then [] else content)
  }

  ghost function ItemsFor(target: Target, names: seq<Bytes>, contents: seq<Bytes>): (r: seq<Item>)
    requires |names| == |contents| && AllInside(target, names)
    ensures |r| == |names| && forall i :: 0 <= i < |names| ==> r[i] == ItemFor(target, names[i], contents[i])
  {
    seq(|names|, i requires 0 <= i < |names| => ItemFor(target, names[i], contents[i]))
  }

  lemma ItemReads(target: Target, buffer: Bytes, m: Member, localOffset: int, content: Bytes, inflate: Inflate)
    requires m.Printable() && Location(target, Parts(m.name)).Some? && At(buffer, localOffset, LocalRecord(m))
    requires IsFolderName(m.name) || Unpacks(m, content, inflate)
    ensures ItemOf(target, EntryFor(m, localOffset), ContentsOf(buffer, inflate)) == Ok(ItemFor(target, m.name, content))
  {
    if !IsFolderName(m.name) {
      ContentReads(buffer, m, localOffset, content, inflate);
    }
  }

  lemma RecordInFront(records: seq<Bytes>, rest: Bytes, i: nat)
    requires i < |records|
    ensures At(Concat(records) + rest, PrefixLength(records, i), records[i])
  {
    var buffer := Concat(records) + rest;
    assert buffer[0..|Concat(records)|] == Concat(records);
    RecordAt(buffer, 0, records, i);
  }

  /** The members' local records lie at the offsets that the directory names. */
  lemma LocalsPrinted(buffer: Bytes, ms: seq<Member>, central: Bytes, end: Bytes, i: nat)
    requires i < |ms| && (forall j :: 0 <= j < |ms| ==> ms[j].Printable())
    requires buffer == Locals(ms) + central + end
    ensures At(buffer, OffsetOf(ms, i), LocalRecord(ms[i]))
  {
    assert Locals(ms) + central + end == Concat(LocalRecords(ms)) + (central + end);
    RecordInFront(LocalRecords(ms), central + end, i);
  }

  ghost function NamesOf(ms: seq<Member>): (r: seq<Bytes>)
    ensures |r| == |ms| && forall i :: 0 <= i < |ms| ==> r[i] == ms[i].name
  {
    seq(|ms|, i requires 0 <= i < |ms| => ms[i].name)
  }

  /**
   * Printing an archive and extracting it succeeds exactly when the check against escaping fires
   * for no name and no file lies at or above another member's path; it then recovers every file's
   * content at its path under the target, with nothing besides these files and their folders.
   */
  lemma ExtractionRoundTrip(target: Target, a: Archive, contents: seq<Bytes>, inflate: Inflate)
    requires a.Valid() && a.NoLaterSignature() && |contents| == |a.members|
    requires forall i :: 0 <= i < |contents| ==>
               IsFolderName(a.members[i].name) || Unpacks(a.members[i], contents[i], inflate)
    ensures IsLastSignature(a.Print(), |a.Front()|)
    ensures Inspected(a.Print(), |a.Front()|) == Ok(EntriesOf(a.members))
    ensures var r := ExtractedAll(target, map[], EntriesOf(a.members), ContentsOf(a.Print(), inflate));
            var names := NamesOf(a.members);
            && (r.Ok? <==> AllInside(target, names) && Compatible(ItemsFor(target, names, contents)))
            && (r.Ok? ==> Holds(r.value, ItemsFor(target, names, contents), |contents|))
  {
    InspectionRoundTrip(a);
    if AllInside(target, NamesOf(a.members)) {
      InsideRoundTrip(target, a, contents, inflate);
    } else {
      var i :| 0 <= i < |a.members| && Location(target, Parts(NamesOf(a.members)[i])).None?;
      ExtractionFails(target, map[], EntriesOf(a.members), i, ContentsOf(a.Print(), inflate));
    }
  }

  lemma InsideRoundTrip(target: Target, a: Archive, contents: seq<Bytes>, inflate: Inflate)
    requires a.Valid() && |contents| == |a.members| && AllInside(target, NamesOf(a.members))
    requires forall i :: 0 <= i < |contents| ==>
               IsFolderName(a.members[i].name) || Unpacks(a.members[i], contents[i], inflate)
    ensures var r := ExtractedAll(target, map[], EntriesOf(a.members), ContentsOf(a.Print(), inflate));
            var items := ItemsFor(target, NamesOf(a.members), contents);
            (r.Ok? <==> Compatible(items)) && (r.Ok? ==> Holds(r.value, items, |contents|))
  {
    var entries, read := EntriesOf(a.members), ContentsOf(a.Print(), inflate);
    var items := ItemsFor(target, NamesOf(a.members), contents);
    forall i | 0 <= i < |entries|
      ensures ItemOf(target, entries[i], read) == Ok(items[i])
    {
      LocalsPrinted(a.Print(), a.members, Central(a.members), a.End(), i);
      assert NamesOf(a.members)[i] == a.members[i].name;
      ItemReads(target, a.Print(), a.members[i], OffsetOf(a.members, i), contents[i], inflate);
    }
    assert entries[0..] == entries;
    ExtractionPlaces(target, map[], entries, items, 0, read);
    if Compatible(items) {
      PlacingFrom(map[], items, 0);
    } else if PlacedAll(map[], items, 0).Ok? {
      PlacingNeedsRoom(map[], items, 0);
    }
  }
}
