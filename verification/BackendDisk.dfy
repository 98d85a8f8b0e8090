/**
 * The files the backend switch works on (src/main/services/backend-binary-store.ts) and the file
 * operations it performs, one atomic step each. A recursive directory removal is two steps: first
 * the directory stops being intact, later it is gone.
 */
module BackendDisk {
  import opened Wrappers

  type Version = string
  type Digest = string

  /** current.json: the active version; the executable's directory is that version's directory. */
  datatype Marker = Marker(version: Version, previousVersion: Option<Version>)

  /** pending-update.json */
  datatype PendingUpdate = PendingUpdate(candidate: Marker, previous: Option<Marker>)

  /** A file that is missing, holds something the parser refuses, or holds a value. */
  datatype File<T> = Absent | Unreadable | Holds(value: T)

  function Read<T>(file: File<T>): Option<T> {
    if file.Holds? then Some(file.value) else None
  }

  /** A version directory passes inspection with a payload, or does not. */
  datatype Payload = Broken | Intact(digest: Digest)

  datatype Disk = Disk(
    current: File<Marker>,
    pending: File<PendingUpdate>,
    dirs: map<Version, Payload>,
    native: set<Version>)

  datatype FileOp =
    | WriteCurrent(marker: Marker)
    | RemoveCurrent
    | WritePending(update: PendingUpdate)
    | RemovePending
    | SpoilDir(version: Version)
    | RemoveDir(version: Version)
    | RemoveNative(version: Version)
    | PlaceDir(version: Version, digest: Digest)

  function Apply(d: Disk, op: FileOp): Disk {
    match op
    case WriteCurrent(m) => d.(current := Holds(m))
    case RemoveCurrent => d.(current := Absent)
    case WritePending(u) => d.(pending := Holds(u))
    case RemovePending => d.(pending := Absent)
    case SpoilDir(v) => if v in d.dirs then d.(dirs := d.dirs[v := Broken]) else d
    case RemoveDir(v) => d.(dirs := d.dirs - {v})
    case RemoveNative(v) => d.(native := d.native - {v})
    case PlaceDir(v, digest) => d.(dirs := d.dirs[v := Intact(digest)])
  }

  function ApplyAll(d: Disk, ops: seq<FileOp>): Disk
    decreases |ops|
  {
    if ops == [] then d else ApplyAll(Apply(d, ops[0]), ops[1..])
  }

  lemma {:induction false} ApplyConcat(d: Disk, a: seq<FileOp>, b: seq<FileOp>)
    ensures ApplyAll(d, a + b) == ApplyAll(ApplyAll(d, a), b)
    decreases |a|
  {
    if a == [] {
      assert a + b == b;
    } else {
      assert (a + b)[1..] == a[1..] + b;
      ApplyConcat(Apply(d, a[0]), a[1..], b);
    }
  }

  predicate IntactDir(d: Disk, v: Version) {
    v in d.dirs && d.dirs[v].Intact?
  }

  predicate IntactMarker(d: Disk, m: Option<Marker>) {
    m.Some? ==> IntactDir(d, m.value.version)
  }

  // ---- the operations, as the file steps they perform from a given disk ----

  function Settled(m: Marker): Marker {
    m.(previousVersion := None)
  }

  function RemoveVersion(v: Version): seq<FileOp> {
    [SpoilDir(v), RemoveDir(v), RemoveNative(v)]
  }

  function VersionOf(m: Option<Marker>): Option<Version> {
    if m.Some? then Some(m.value.version) else None
  }

  function ActivatePlan(d: Disk, v: Version): seq<FileOp> {
    var previous := Read(d.current);
    var candidate := Marker(v, VersionOf(previous));
    [WritePending(PendingUpdate(candidate, previous)), WriteCurrent(candidate)]
  }

  /** commit throws before any file step when the version is not the active candidate. */
  predicate CommitRefused(d: Disk, expected: Version) {
    || Read(d.current).None?
    || d.current.value.version != expected
    || (d.pending.Holds? && d.pending.value.candidate.version != expected)
  }

  function CommitPlan(d: Disk, expected: Version): seq<FileOp>
    requires !CommitRefused(d, expected)
  {
    var previous := if d.pending.Holds? then d.pending.value.previous else None;
    [WriteCurrent(Settled(d.current.value))]
    + (if previous.Some? && previous.value.version != expected then RemoveVersion(previous.value.version) else [])
    + [RemovePending]
  }

  function RollbackPlan(d: Disk): seq<FileOp> {
    if !d.pending.Holds? then []
    else
      var u := d.pending.value;
      [if u.previous.None? then RemoveCurrent else WriteCurrent(Settled(u.previous.value))]
      + (if Some(u.candidate.version) != VersionOf(u.previous) then RemoveVersion(u.candidate.version) else [])
      + [RemovePending]
  }

  // ---- what every moment of a safe run keeps ----

  /**
   * Either no update is pending and the active version is intact, or one is pending and the disk
   * is on the previous side (active and intact) or on the candidate's (active and intact, with the
   * previous version intact too unless the candidate has been judged healthy).
   */
  ghost predicate Recoverable(d: Disk, judged: iset<Version>) {
    match d.pending
    case Unreadable => false
    case Absent => !d.current.Unreadable? && IntactMarker(d, Read(d.current))
    case Holds(u) =>
      && !d.current.Unreadable?
      && IntactMarker(d, Read(d.current))
      && (VersionOf(Read(d.current)) == VersionOf(u.previous) || OnCandidate(d, u))
      && (IntactMarker(d, u.previous) || (OnCandidate(d, u) && u.candidate.version in judged))
  }

  predicate OnCandidate(d: Disk, u: PendingUpdate) {
    VersionOf(Read(d.current)) == Some(u.candidate.version)
  }

  /** A rollback can be started: what it goes back to is intact. */
  predicate SafeToRollback(d: Disk) {
    if d.pending.Holds? then IntactMarker(d, d.pending.value.previous) else IntactMarker(d, Read(d.current))
  }

  // ---- crash points: the disks that a prefix of a plan leaves behind ----

  lemma ApplyNext(d: Disk, ops: seq<FileOp>, k: nat)
    requires k < |ops|
    ensures ApplyAll(d, ops[..k + 1]) == Apply(ApplyAll(d, ops[..k]), ops[k])
  {
    assert ops[..k + 1] == ops[..k] + [ops[k]];
    ApplyConcat(d, ops[..k], [ops[k]]);
    var e := ApplyAll(d, ops[..k]);
    assert [ops[k]][1..] == [];
    assert ApplyAll(e, [ops[k]]) == ApplyAll(Apply(e, ops[k]), []);
  }

  lemma Peel(d: Disk, op: FileOp, rest: seq<FileOp>)
    ensures ApplyAll(d, [op] + rest) == ApplyAll(Apply(d, op), rest)
  {
    assert ([op] + rest)[1..] == rest;
  }

  /** A property that every step of a plan keeps holds at every crash point after the first `n`. */
  lemma {:induction false} KeptByPlan(d: Disk, ops: seq<FileOp>, n: nat, k: nat, good: Disk -> bool)
    requires n <= k <= |ops| && good(ApplyAll(d, ops[..n]))
    requires forall i, e :: n <= i < k && good(e) ==> good(Apply(e, ops[i]))
    ensures good(ApplyAll(d, ops[..k]))
    decreases k - n
  {
    if n < k {
      ApplyNext(d, ops, n);
      KeptByPlan(d, ops, n + 1, k, good);
    }
  }

  lemma ActivateCrashSafe(d: Disk, judged: iset<Version>, v: Version, k: nat)
    requires Recoverable(d, judged) && IntactDir(d, v) && k <= 2
    ensures Recoverable(ApplyAll(d, ActivatePlan(d, v)[..k]), judged)
    ensures k == 2 ==> ApplyAll(d, ActivatePlan(d, v)) == Activated(d, v)
  {
    var ops := ActivatePlan(d, v);
    assert ops[..0] == [];
    ApplyNext(d, ops, 0);
    ApplyNext(d, ops, 1);
    assert ops[..2] == ops;
  }

  function Activated(d: Disk, v: Version): Disk {
    var candidate := Marker(v, VersionOf(Read(d.current)));
    d.(current := Holds(candidate), pending := Holds(PendingUpdate(candidate, Read(d.current))))
  }

  /** The crash points of a commit after its first write: the candidate is active and intact. */
  predicate Committing(d: Disk, e: Disk, expected: Version) {
    && d.current.Holds?
    && e.current == Holds(Settled(d.current.value))
    && e.pending == d.pending
    && IntactDir(e, expected)
  }

  /** Between a commit's first and last step come the removals of the previous version. */
  lemma CommitRemoves(d: Disk, expected: Version, i: nat)
    requires !CommitRefused(d, expected) && 1 <= i < |CommitPlan(d, expected)| - 1
    ensures d.pending.Holds? && d.pending.value.previous.Some?
    ensures var v := d.pending.value.previous.value.version;
            v != expected && CommitPlan(d, expected)[i] in RemoveVersion(v)
  {
    var v := d.pending.value.previous.value.version;
    assert CommitPlan(d, expected)[1..4] == RemoveVersion(v);
    assert CommitPlan(d, expected)[i] == RemoveVersion(v)[i - 1];
  }

  lemma StaysCommitting(d: Disk, e: Disk, expected: Version, v: Version, op: FileOp)
    requires Committing(d, e, expected) && op in RemoveVersion(v) && v != expected
    ensures Committing(d, Apply(e, op), expected)
  {
  }

  lemma CommitMiddle(d: Disk, expected: Version, k: nat)
    requires !CommitRefused(d, expected) && IntactDir(d, expected) && 0 < k < |CommitPlan(d, expected)|
    ensures Committing(d, ApplyAll(d, CommitPlan(d, expected)[..k]), expected)
  {
    var ops := CommitPlan(d, expected);
    assert ops[..0] == [];
    ApplyNext(d, ops, 0);
    forall i, e | 1 <= i < k && Committing(d, e, expected)
      ensures Committing(d, Apply(e, ops[i]), expected)
    {
      CommitRemoves(d, expected, i);
      StaysCommitting(d, e, expected, d.pending.value.previous.value.version, ops[i]);
    }
    KeptByPlan(d, ops, 1, k, e => Committing(d, e, expected));
  }

  /** Once the candidate has been judged healthy, a commit can crash anywhere. */
  lemma CommitCrashSafe(d: Disk, judged: iset<Version>, expected: Version, k: nat)
    requires Recoverable(d, judged) && !CommitRefused(d, expected) && expected in judged
    requires k <= |CommitPlan(d, expected)|
    ensures var e := ApplyAll(d, CommitPlan(d, expected)[..k]);
            Recoverable(e, judged)
            && (k == |CommitPlan(d, expected)| ==>
                 e.pending.Absent? && e.current == Holds(Marker(d.current.value.version, None)) && IntactDir(e, expected))
  {
    var ops := CommitPlan(d, expected);
    assert ops[..0] == [];
    if 0 < k < |ops| {
      CommitMiddle(d, expected, k);
    } else if k == |ops| {
      CommitMiddle(d, expected, k - 1);
      ApplyNext(d, ops, k - 1);
    }
  }

  /** The crash points of a rollback after its first write: the previous version is active. */
  predicate RollingBack(d: Disk, e: Disk) {
    && d.pending.Holds?
    && e.pending == d.pending
    && !e.current.Unreadable?
    && VersionOf(Read(e.current)) == VersionOf(d.pending.value.previous)
    && IntactMarker(e, d.pending.value.previous)
  }

  lemma RollbackStarts(d: Disk)
    requires d.pending.Holds? && SafeToRollback(d)
    ensures RollingBack(d, Apply(d, RollbackPlan(d)[0]))
  {
  }

  /** Between a rollback's first and last step come the removals of the candidate. */
  lemma RollbackRemoves(d: Disk, i: nat)
    requires d.pending.Holds? && 1 <= i < |RollbackPlan(d)| - 1
    ensures var v := d.pending.value.candidate.version;
            Some(v) != VersionOf(d.pending.value.previous) && RollbackPlan(d)[i] in RemoveVersion(v)
  {
    var v := d.pending.value.candidate.version;
    assert RollbackPlan(d)[1..4] == RemoveVersion(v);
    assert RollbackPlan(d)[i] == RemoveVersion(v)[i - 1];
  }

  lemma StaysRollingBack(d: Disk, e: Disk, v: Version, op: FileOp)
    requires RollingBack(d, e) && op in RemoveVersion(v) && Some(v) != VersionOf(d.pending.value.previous)
    ensures RollingBack(d, Apply(e, op))
  {
  }

  lemma RollbackMiddle(d: Disk, k: nat)
    requires d.pending.Holds? && SafeToRollback(d) && 0 < k < |RollbackPlan(d)|
    ensures RollingBack(d, ApplyAll(d, RollbackPlan(d)[..k]))
  {
    var ops := RollbackPlan(d);
    assert ops[..0] == [];
    ApplyNext(d, ops, 0);
    RollbackStarts(d);
    forall i, e | 1 <= i < k && RollingBack(d, e)
      ensures RollingBack(d, Apply(e, ops[i]))
    {
      RollbackRemoves(d, i);
      StaysRollingBack(d, e, d.pending.value.candidate.version, ops[i]);
    }
    KeptByPlan(d, ops, 1, k, e => RollingBack(d, e));
  }

  function RolledBackTo(d: Disk): Option<Marker> {
    if d.pending.Holds? then d.pending.value.previous else Read(d.current)
  }

  /** A rollback towards an intact version can crash anywhere, and be started again anywhere. */
  lemma RollbackCrashSafe(d: Disk, judged: iset<Version>, k: nat)
    requires Recoverable(d, judged) && SafeToRollback(d) && k <= |RollbackPlan(d)|
    ensures var e := ApplyAll(d, RollbackPlan(d)[..k]);
            Recoverable(e, judged) && SafeToRollback(e)
            && (k == |RollbackPlan(d)| ==>
                 e.pending.Absent? && VersionOf(Read(e.current)) == VersionOf(RolledBackTo(d)))
  {
    var ops := RollbackPlan(d);
    assert ops[..0] == [];
    if 0 < k < |ops| {
      RollbackMiddle(d, k);
    } else if d.pending.Holds? && k == |ops| {
      RollbackMiddle(d, k - 1);
      ApplyNext(d, ops, k - 1);
    }
  }

  /**
   * What a rollback goes back to is intact afterwards exactly when it was intact before: the check
   * a caller would have to make, since rollback itself makes none.
   */
  lemma RollbackExact(d: Disk)
    requires d.pending.Holds?
    ensures IntactMarker(ApplyAll(d, RollbackPlan(d)), Read(ApplyAll(d, RollbackPlan(d)).current))
            <==> SafeToRollback(d)
  {
    var ops := RollbackPlan(d);
    var n := |ops| - 1;
    assert ops[..0] == [] && ops[..n + 1] == ops;
    ApplyNext(d, ops, 0);
    KeptByPlan(d, ops, 1, n, e => RollbackTarget(d, e));
    ApplyNext(d, ops, n);
  }

  predicate RollbackTarget(d: Disk, e: Disk) {
    && d.pending.Holds?
    && VersionOf(Read(e.current)) == VersionOf(d.pending.value.previous)
    && (IntactMarker(e, d.pending.value.previous) <==> IntactMarker(d, d.pending.value.previous))
  }

  // ---- running an operation again from any of its own crash points ----

  function Commit(d: Disk, expected: Version): Disk
    requires !CommitRefused(d, expected)
  {
    ApplyAll(d, CommitPlan(d, expected))
  }

  function Rollback(d: Disk): Disk {
    ApplyAll(d, RollbackPlan(d))
  }

  /** Applying an operation a second time changes nothing. */
  function Erased(d: Disk, gone: set<Version>): Disk {
    d.(dirs := d.dirs - gone, native := d.native - gone)
  }

  /** The end state of a commit in one expression: marker settled, previous version erased. */
  lemma CommitEnd(d: Disk, expected: Version)
    requires !CommitRefused(d, expected)
    ensures Commit(d, expected) == CommitResult(d, expected)
  {
    var ops := CommitPlan(d, expected);
    var first := Apply(d, ops[0]);
    if |ops| == 2 {
      assert ops == [ops[0]] + ([RemovePending] + []);
      Peel(d, ops[0], [RemovePending] + []);
      Peel(first, RemovePending, []);
    } else {
      var v := d.pending.value.previous.value.version;
      assert ops == [ops[0]] + RemoveVersion(v) + [RemovePending];
      RemoveThenClear(first, v);
      assert ops[1..] == RemoveVersion(v) + [RemovePending];
    }
  }

  function CommitResult(d: Disk, expected: Version): Disk
    requires !CommitRefused(d, expected)
  {
    var previous := if d.pending.Holds? then VersionOf(d.pending.value.previous) else None;
    var gone := if previous.Some? && previous.value != expected then {previous.value} else {};
    Erased(d, gone).(current := Holds(Marker(d.current.value.version, None)), pending := Absent)
  }

  lemma RemoveThenClear(d: Disk, v: Version)
    ensures ApplyAll(d, RemoveVersion(v) + [RemovePending]) == Erased(d, {v}).(pending := Absent)
  {
    var ops := RemoveVersion(v) + [RemovePending];
    assert ops == [SpoilDir(v)] + ([RemoveDir(v)] + ([RemoveNative(v)] + ([RemovePending] + [])));
    var a := Apply(d, SpoilDir(v));
    var b := Apply(a, RemoveDir(v));
    var c := Apply(b, RemoveNative(v));
    Peel(d, SpoilDir(v), [RemoveDir(v)] + ([RemoveNative(v)] + ([RemovePending] + [])));
    Peel(a, RemoveDir(v), [RemoveNative(v)] + ([RemovePending] + []));
    Peel(b, RemoveNative(v), [RemovePending] + []);
    Peel(c, RemovePending, []);
    assert b.dirs == d.dirs - {v};
  }

  function RollbackResult(d: Disk): Disk {
    if !d.pending.Holds? then d
    else
      var u := d.pending.value;
      var gone := if Some(u.candidate.version) != VersionOf(u.previous) then {u.candidate.version} else {};
      Erased(d, gone).(
        current := if u.previous.None? then Absent else Holds(Marker(u.previous.value.version, None)), pending := Absent)
  }

  lemma RollbackEnd(d: Disk)
    ensures Rollback(d) == RollbackResult(d)
  {
    if d.pending.Holds? {
      var ops := RollbackPlan(d);
      var v := d.pending.value.candidate.version;
      var first := Apply(d, ops[0]);
      if |ops| == 2 {
        assert ops == [ops[0]] + ([RemovePending] + []);
        Peel(d, ops[0], [RemovePending] + []);
        Peel(first, RemovePending, []);
      } else {
        assert ops[1..] == RemoveVersion(v) + [RemovePending];
        RemoveThenClear(first, v);
      }
    }
  }

  /** Between two crash points of removing `v`, the disk differs from the start at `v` only. */
  predicate Shrinking(first: Disk, e: Disk, v: Version) {
    && e.current == first.current && e.pending == first.pending
    && Erased(e, {v}) == Erased(first, {v})
  }

  lemma KeepsShrinking(first: Disk, e: Disk, v: Version, op: FileOp)
    requires Shrinking(first, e, v) && op in RemoveVersion(v)
    ensures Shrinking(first, Apply(e, op), v)
  {
    assert op == SpoilDir(v) || op == RemoveDir(v) || op == RemoveNative(v);
    assert Erased(Apply(e, op), {v}).dirs == Erased(e, {v}).dirs;
    assert Erased(Apply(e, op), {v}).native == Erased(e, {v}).native;
  }

  /** A commit interrupted anywhere and run again ends where an uninterrupted one does. */
  lemma CommitRestart(d: Disk, expected: Version, k: nat)
    requires !CommitRefused(d, expected) && k <= |CommitPlan(d, expected)|
    ensures var e := ApplyAll(d, CommitPlan(d, expected)[..k]);
            !CommitRefused(e, expected) && Commit(e, expected) == Commit(d, expected)
  {
    var ops := CommitPlan(d, expected);
    var n := |ops|;
    CommitEnd(d, expected);
    assert ops[..0] == [] && ops[..n] == ops;
    if 0 < k < n {
      ApplyNext(d, ops, 0);
      var first := Apply(d, ops[0]);
      if n > 2 {
        var v := d.pending.value.previous.value.version;
        forall i, e | 1 <= i < k && Shrinking(first, e, v)
          ensures Shrinking(first, Apply(e, ops[i]), v)
        {
          KeepsShrinking(first, e, v, ops[i]);
        }
        KeptByPlan(d, ops, 1, k, e => Shrinking(first, e, v));
      }
    }
    var e := ApplyAll(d, ops[..k]);
    CommitEnd(e, expected);
  }

  /** So does a rollback. */
  lemma RollbackRestart(d: Disk, k: nat)
    requires k <= |RollbackPlan(d)|
    ensures Rollback(ApplyAll(d, RollbackPlan(d)[..k])) == Rollback(d)
  {
    var ops := RollbackPlan(d);
    var n := |ops|;
    RollbackEnd(d);
    assert ops[..0] == [] && ops[..n] == ops;
    if 0 < k < n {
      ApplyNext(d, ops, 0);
      var first := Apply(d, ops[0]);
      if n > 2 {
        var v := d.pending.value.candidate.version;
        forall i, e | 1 <= i < k && Shrinking(first, e, v)
          ensures Shrinking(first, Apply(e, ops[i]), v)
        {
          KeepsShrinking(first, e, v, ops[i]);
        }
        KeptByPlan(d, ops, 1, k, e => Shrinking(first, e, v));
      }
    }
    RollbackEnd(ApplyAll(d, ops[..k]));
  }

  // ---- a rollback that starts inside a commit ----

  /** The crash points of a commit at which the previous version is damaged and still to go back to. */
  predicate InRemovalWindow(d: Disk, expected: Version, k: nat)
    requires !CommitRefused(d, expected)
  {
    && d.pending.Holds? && d.pending.value.previous.Some? && d.pending.value.previous.value.version != expected
    && 2 <= k < |CommitPlan(d, expected)|
  }

  lemma WindowSpoils(d: Disk, expected: Version, k: nat)
    requires !CommitRefused(d, expected) && InRemovalWindow(d, expected, k)
    ensures var e := ApplyAll(d, CommitPlan(d, expected)[..k]);
            e.pending == d.pending && !IntactDir(e, d.pending.value.previous.value.version)
  {
    var ops := CommitPlan(d, expected);
    var v := d.pending.value.previous.value.version;
    assert ops[..0] == [];
    ApplyNext(d, ops, 0);
    ApplyNext(d, ops, 1);
    assert ops[1] == SpoilDir(v);
    forall i, e: Disk | 2 <= i < k && e.pending == d.pending && !IntactDir(e, v)
      ensures Apply(e, ops[i]).pending == d.pending && !IntactDir(Apply(e, ops[i]), v)
    {
      assert ops[i] in RemoveVersion(v);
    }
    KeptByPlan(d, ops, 2, k, (e: Disk) => e.pending == d.pending && !IntactDir(e, v));
  }

  lemma OutsideWindowSafe(d: Disk, expected: Version, k: nat)
    requires !CommitRefused(d, expected) && SafeToRollback(d) && IntactDir(d, expected)
    requires k <= |CommitPlan(d, expected)| && !InRemovalWindow(d, expected, k)
    ensures SafeToRollback(ApplyAll(d, CommitPlan(d, expected)[..k]))
  {
    var ops := CommitPlan(d, expected);
    assert ops[..0] == [];
    if k == |ops| {
      CommitEnd(d, expected);
      assert ops[..k] == ops;
    } else if k > 0 {
      CommitMiddle(d, expected, 1);
      ApplyNext(d, ops, 0);
    }
  }

  /**
   * A rollback begun at crash point `k` of a commit restores an intact version exactly when `k` is
   * outside the removal window; inside it, it leaves neither version intact. It makes no difference
   * whether the commit threw there, or a repair or a relapse came upon the half-finished commit.
   */
  lemma RollbackInsideCommit(d: Disk, expected: Version, k: nat)
    requires !CommitRefused(d, expected) && SafeToRollback(d) && IntactDir(d, expected)
    requires d.pending.Holds? && k <= |CommitPlan(d, expected)|
    ensures var end := Rollback(ApplyAll(d, CommitPlan(d, expected)[..k]));
            && (IntactMarker(end, Read(end.current)) <==> !InRemovalWindow(d, expected, k))
            && (InRemovalWindow(d, expected, k) ==>
                 !IntactDir(end, expected) && !IntactDir(end, d.pending.value.previous.value.version))
  {
    var e := ApplyAll(d, CommitPlan(d, expected)[..k]);
    RollbackEnd(e);
    if InRemovalWindow(d, expected, k) {
      WindowSpoils(d, expected, k);
    } else {
      OutsideWindowSafe(d, expected, k);
    }
    if e.pending.Holds? {
      RollbackExact(e);
    }
  }

  // ---- staging ----

  datatype Release = Release(version: Version, digest: Digest)

  predicate Reusable(d: Disk, r: Release) {
    r.version in d.dirs && d.dirs[r.version] == Intact(r.digest)
  }

  /** finalizeStagingDirectory; when a reused payload fails its self-test, its directory is removed. */
  function StagePlan(d: Disk, r: Release, selfTest: bool): seq<FileOp> {
    if r.version !in d.dirs then [PlaceDir(r.version, r.digest)]
    else if Reusable(d, r) then
      if selfTest then [] else [SpoilDir(r.version), RemoveDir(r.version)]
    else [SpoilDir(r.version), RemoveDir(r.version), PlaceDir(r.version, r.digest)]
  }

  predicate IsPrevious(d: Disk, v: Version) {
    d.pending.Holds? && VersionOf(d.pending.value.previous) == Some(v)
  }

  /** The version is in use: it is active, or an intact version that a rollback would restore. */
  predicate Needed(d: Disk, v: Version) {
    VersionOf(Read(d.current)) == Some(v) || (IsPrevious(d, v) && IntactDir(d, v))
  }

  /** What a caller can check before staging: the version is not in use, or will just be reused. */
  predicate SafeToStage(d: Disk, r: Release, selfTest: bool) {
    !Needed(d, r.version) || (Reusable(d, r) && selfTest)
  }

  lemma StageCrashSafe(d: Disk, judged: iset<Version>, r: Release, selfTest: bool, k: nat)
    requires Recoverable(d, judged) && SafeToStage(d, r, selfTest) && k <= |StagePlan(d, r, selfTest)|
    ensures Recoverable(ApplyAll(d, StagePlan(d, r, selfTest)[..k]), judged)
  {
    var ops := StagePlan(d, r, selfTest);
    assert ops[..0] == [];
    if k > 0 {
      KeptByPlan(d, ops, 0, k, (e: Disk) => e.current == d.current && e.pending == d.pending && OthersKept(d, e, r.version));
      var e := ApplyAll(d, ops[..k]);
      assert OthersKept(d, e, r.version);
    }
  }

  ghost predicate OthersKept(d: Disk, e: Disk, v: Version) {
    forall w :: w != v ==> (w in e.dirs <==> w in d.dirs) && (w in d.dirs ==> e.dirs[w] == d.dirs[w])
  }

  /** With no update pending, staging is safe at every crash point exactly under that check. */
  lemma StageExact(d: Disk, judged: iset<Version>, r: Release, selfTest: bool)
    requires Recoverable(d, judged) && d.pending.Absent?
    ensures SafeToStage(d, r, selfTest) <==>
            forall k :: 0 <= k <= |StagePlan(d, r, selfTest)| ==> Recoverable(ApplyAll(d, StagePlan(d, r, selfTest)[..k]), judged)
  {
    var ops := StagePlan(d, r, selfTest);
    if SafeToStage(d, r, selfTest) {
      forall k | 0 <= k <= |ops|
        ensures Recoverable(ApplyAll(d, ops[..k]), judged)
      {
        StageCrashSafe(d, judged, r, selfTest, k);
      }
    } else {
      assert IntactDir(d, r.version);
      assert ops[..0] == [];
      ApplyNext(d, ops, 0);
      assert !Recoverable(ApplyAll(d, ops[..0 + 1]), judged);
    }
  }

  lemma StageEnd(d: Disk, r: Release, selfTest: bool)
    requires !Reusable(d, r) || selfTest
    ensures var e := ApplyAll(d, StagePlan(d, r, selfTest));
            e.current == d.current && e.pending == d.pending && IntactDir(e, r.version)
  {
    var ops := StagePlan(d, r, selfTest);
    var n := |ops|;
    assert ops[..0] == [] && ops[..n] == ops;
    if n > 0 {
      KeptByPlan(d, ops, 0, n - 1, (e: Disk) => e.current == d.current && e.pending == d.pending);
      ApplyNext(d, ops, n - 1);
    }
  }

  // ---- removing every version but the active one ----

  function SweepOver(active: Option<Version>, names: seq<Version>): seq<FileOp> {
    if names == [] then []
    else (if active == Some(names[0]) then [] else RemoveVersion(names[0])) + SweepOver(active, names[1..])
  }

  lemma {:induction false} SweepSpares(active: Option<Version>, names: seq<Version>, op: FileOp)
    requires op in SweepOver(active, names)
    ensures exists v :: op in RemoveVersion(v) && active != Some(v)
  {
    if active != Some(names[0]) && op in RemoveVersion(names[0]) {
    } else {
      SweepSpares(active, names[1..], op);
    }
  }

  ghost predicate Swept(d: Disk, e: Disk) {
    && e.current == d.current && e.pending == d.pending
    && forall v :: VersionOf(Read(d.current)) == Some(v) ==>
         (v in e.dirs <==> v in d.dirs) && (v in d.dirs ==> e.dirs[v] == d.dirs[v])
  }

  lemma StaysSwept(d: Disk, e: Disk, v: Version, op: FileOp)
    requires Swept(d, e) && op in RemoveVersion(v) && VersionOf(Read(d.current)) != Some(v)
    ensures Swept(d, Apply(e, op))
  {
  }

  /** Wherever it is cut off, the removal leaves the markers and the active version alone. */
  lemma SweepCrashSafe(d: Disk, names: seq<Version>, k: nat)
    requires k <= |SweepOver(VersionOf(Read(d.current)), names)|
    ensures Swept(d, ApplyAll(d, SweepOver(VersionOf(Read(d.current)), names)[..k]))
  {
    var active := VersionOf(Read(d.current));
    var ops := SweepOver(active, names);
    assert ops[..0] == [];
    forall i, e | 0 <= i < k && Swept(d, e)
      ensures Swept(d, Apply(e, ops[i]))
    {
      SweepSpares(active, names, ops[i]);
      var v :| ops[i] in RemoveVersion(v) && active != Some(v);
      StaysSwept(d, e, v, ops[i]);
    }
    KeptByPlan(d, ops, 0, k, e => Swept(d, e));
  }

  /** Whole, it leaves no listed version but the active one. */
  lemma {:induction false} SweepEnd(d: Disk, active: Option<Version>, names: seq<Version>, v: Version)
    requires active != Some(v) && (v in names || v !in d.dirs)
    ensures v !in ApplyAll(d, SweepOver(active, names)).dirs
    decreases |names|
  {
    if names != [] {
      var first := if active == Some(names[0]) then [] else RemoveVersion(names[0]);
      ApplyConcat(d, first, SweepOver(active, names[1..]));
      if first != [] {
        RemovedEnd(d, names[0]);
      }
      SweepEnd(ApplyAll(d, first), active, names[1..], v);
    }
  }

  lemma RemovedEnd(d: Disk, v: Version)
    ensures ApplyAll(d, RemoveVersion(v)) == Erased(d, {v})
  {
    var a := Apply(d, SpoilDir(v));
    var b := Apply(a, RemoveDir(v));
    assert RemoveVersion(v) == [SpoilDir(v)] + ([RemoveDir(v)] + ([RemoveNative(v)] + []));
    Peel(d, SpoilDir(v), [RemoveDir(v)] + ([RemoveNative(v)] + []));
    Peel(a, RemoveDir(v), [RemoveNative(v)] + []);
    Peel(b, RemoveNative(v), []);
    assert b.dirs == d.dirs - {v};
  }
}
