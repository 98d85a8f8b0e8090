/**
 * Whole runs of the backend switch, as functions of what happens to every file step and every
 * start: the store's operations (src/main/services/backend-binary-store.ts), the boot driver
 * (src/main/services/backend-bootstrap.ts) and the update flow (src/main/services/app-update.ts).
 */
module BackendRuns {
  import opened Wrappers
  import opened BackendDisk

  /** A file step succeeds, throws, or never returns because the process died. */
  datatype Fault = Fine | Throws | Dies

  datatype Outcome = Completed | Thrown | Crashed

  datatype Phase = Staging | Activating | Committing | RollingBack | Sweeping | Marking

  /** What does not change: a version's payload and self-test, and how a directory is listed. */
  datatype World = World(digest: Version -> Digest, selfTest: Version -> bool, listing: set<Version> -> seq<Version>)
  {
    ghost predicate Valid() {
      forall names: set<Version>, v: Version :: v in listing(names) <==> v in names
    }
  }

  /** What happens while one process runs: to its n-th file step, and at its n-th start of a version. */
  datatype Script = Script(fault: (Phase, nat) -> Fault, healthy: (Version, nat) -> bool)

  datatype Run = Run(disk: Disk, steps: nat, starts: nat)

  // ---- steps ----

  /** A step that may fail and changes no file of the transaction. */
  function Tick(c: Script, r: Run, phase: Phase): (Run, Outcome) {
    (r.(steps := r.steps + 1),
     match c.fault(phase, r.steps) case Fine => Completed case Throws => Thrown case Dies => Crashed)
  }

  function Do(c: Script, r: Run, phase: Phase, op: FileOp): (Run, Outcome) {
    var (s, o) := Tick(c, r, phase);
    (if o.Completed? then s.(disk := Apply(r.disk, op)) else s, o)
  }

  function DoAll(c: Script, r: Run, phase: Phase, ops: seq<FileOp>): (Run, Outcome)
    decreases |ops|
  {
    if ops == [] then (r, Completed)
    else
      var (s, o) := Do(c, r, phase, ops[0]);
      if o.Completed? then DoAll(c, s, phase, ops[1..]) else (s, o)
  }

  /** Starts the active version. */
  function Start(c: Script, r: Run, v: Version): (Run, bool) {
    (r.(starts := r.starts + 1), c.healthy(v, r.starts))
  }

  // ---- the store's operations ----

  function Stage(w: World, c: Script, r: Run, v: Version): (Run, Outcome) {
    var (s, o) := Tick(c, r, Staging);
    if !o.Completed? then (s, o)
    else
      var (t, p) := DoAll(c, s, Staging, StagePlan(s.disk, Release(v, w.digest(v)), w.selfTest(v)));
      (t, if p.Completed? && !w.selfTest(v) then Thrown else p)
  }

  function Activate(c: Script, r: Run, v: Version): (Run, Outcome) {
    DoAll(c, r, Activating, ActivatePlan(r.disk, v))
  }

  function CommitRun(c: Script, r: Run, v: Version): (Run, Outcome) {
    if CommitRefused(r.disk, v) then (r, Thrown) else DoAll(c, r, Committing, CommitPlan(r.disk, v))
  }

  function RollbackRun(c: Script, r: Run): (Run, Outcome) {
    DoAll(c, r, RollingBack, RollbackPlan(r.disk))
  }

  function Sweep(w: World, c: Script, r: Run): (Run, Outcome) {
    DoAll(c, r, Sweeping, SweepOver(VersionOf(Read(r.disk.current)), w.listing(r.disk.dirs.Keys)))
  }

  // ---- the boot driver ----

  /** What startAndCommitCurrent does once the version is healthy. */
  function Finish(w: World, c: Script, r: Run, v: Version, hasPending: bool): (Run, Outcome) {
    var (s, o) := if hasPending then CommitRun(c, r, v) else (r, Completed);
    if !o.Completed? then (s, o)
    else
      var (t, p) := Sweep(w, c, s);
      if !p.Completed? then (t, p) else Tick(c, t, Marking)
  }

  function StartAndCommit(w: World, c: Script, r: Run, v: Version, hasPending: bool): (Run, Outcome) {
    var (s, healthy) := Start(c, r, v);
    var (t, o) := if healthy then Finish(w, c, s, v, hasPending) else (s, Thrown);
    if !o.Thrown? || !hasPending then (t, o)
    else
      var restored := RolledBackTo(t.disk);
      var (u, p) := RollbackRun(c, t);
      if !p.Completed? then (u, p)
      else if restored.None? then (u, Thrown)
      else
        var (x, up) := Start(c, u, restored.value.version);
        (x, if up then Completed else Thrown)
  }

  datatype Recovery = Recovered | NotRecovered | Failed | Died

  function GoBack(c: Script, r: Run): (Run, Recovery) {
    var restored := RolledBackTo(r.disk);
    var (s, o) := RollbackRun(c, r);
    match o
    case Crashed => (s, Died)
    case Thrown => (s, Failed)
    case Completed =>
      if restored.None? || !IntactMarker(s.disk, Read(s.disk.current)) then (s, NotRecovered)
      else
        var (t, up) := Start(c, s, restored.value.version);
        (t, if up then Recovered else NotRecovered)
  }

  predicate OnIntactCandidate(d: Disk) {
    && d.pending.Holds? && d.current.Holds?
    && d.current.value.version == d.pending.value.candidate.version
    && IntactDir(d, d.current.value.version)
  }

  function Recover(w: World, c: Script, r: Run): (Run, Recovery) {
    if OnIntactCandidate(r.disk) then
      var (s, o) := StartAndCommit(w, c, r, r.disk.current.value.version, true);
      match o
      case Completed => (s, Recovered)
      case Crashed => (s, Died)
      case Thrown => GoBack(c, s)
    else GoBack(c, r)
  }

  function Install(w: World, c: Script, r: Run, bundled: Version): (Run, Outcome) {
    var (s, o) := Stage(w, c, r, bundled);
    if !o.Completed? then (s, o)
    else
      var (t, p) := Activate(c, s, bundled);
      if !p.Completed? then (t, p) else StartAndCommit(w, c, t, bundled, true)
  }

  /** What a boot finds outside the model: the bundled version and how the active one compares. */
  datatype Surroundings = Surroundings(bundled: Version, olderThanBundled: bool, incompatible: bool, legacyMarker: bool)

  datatype BootResult = Ready | Refused | Failure | Lost

  function Result(o: Outcome): BootResult {
    match o
    case Completed => Ready
    case Thrown => Failure
    case Crashed => Lost
  }

  /** runPrepare once no update is pending. */
  function Prepare(w: World, c: Script, r: Run, env: Surroundings): (Run, BootResult) {
    var d := r.disk;
    if d.current.Holds? then
      var passes := IntactDir(d, d.current.value.version);
      if !passes && !env.incompatible then (r, Refused)
      else if !passes || env.olderThanBundled then
        var (s, o) := Install(w, c, r, env.bundled);
        (s, Result(o))
      else
        var (s, o) := StartAndCommit(w, c, r, d.current.value.version, false);
        (s, Result(o))
    else if d.current.Unreadable? && !env.legacyMarker then (r, Refused)
    else
      var (s, o) := Install(w, c, r, env.bundled);
      (s, Result(o))
  }

  /** runPrepare of a packaged build whose service is not already healthy; `repair` is the forced variant. */
  function Boot(w: World, c: Script, r: Run, repair: bool, env: Surroundings): (Run, BootResult) {
    if repair then
      var (s, o) := RollbackRun(c, r);
      if !o.Completed? then (s, Result(o))
      else
        var (t, p) := Install(w, c, s, env.bundled);
        (t, Result(p))
    else if r.disk.pending.Unreadable? then (r, Refused)
    else if r.disk.pending.Holds? then
      var (s, recovery) := Recover(w, c, r);
      match recovery
      case Recovered => (s, Ready)
      case Died => (s, Lost)
      case Failed => (s, Failure)
      case NotRecovered => Prepare(w, c, s, env)
    else Prepare(w, c, r, env)
  }

  // ---- the update flow ----

  /** A failed update is rolled back and the backend restarted; the update has failed either way. */
  function UndoUpdate(c: Script, r: Run): (Run, BootResult) {
    var (s, o) := RollbackRun(c, r);
    if o.Crashed? then (s, Lost)
    else if o.Thrown? || !s.disk.current.Holds? then (s, Failure)
    else (Start(c, s, s.disk.current.value.version).0, Failure)
  }

  function Update(w: World, c: Script, r: Run, v: Version): (Run, BootResult) {
    var (s, o) := Stage(w, c, r, v);
    if !o.Completed? then (s, Result(o))
    else
      var (t, p) := Activate(c, s, v);
      if !p.Completed? then (t, Result(p))
      else
        var (u, healthy) := Start(c, t, v);
        var (x, q) := if healthy then CommitRun(c, u, v) else (u, Thrown);
        var (y, last) := if q.Completed? then Sweep(w, c, x) else (x, q);
        if last.Thrown? then UndoUpdate(c, y) else (y, Result(last))
  }

  // ---- lifetimes ----

  datatype Activity = Booting(repair: bool, env: Surroundings) | Updating(version: Version)

  /** One process: a boot or an update, with what happens to it. */
  datatype Session = Session(activity: Activity, script: Script)

  function Lived(w: World, d: Disk, session: Session): (Run, BootResult) {
    match session.activity
    case Booting(repair, env) => Boot(w, session.script, Run(d, 0, 0), repair, env)
    case Updating(v) => Update(w, session.script, Run(d, 0, 0), v)
  }

  /** The last process of a sequence of them. */
  function Lifetime(w: World, first: Disk, sessions: seq<Session>): Run {
    if sessions == [] then Run(first, 0, 0)
    else Lived(w, Lifetime(w, first, sessions[..|sessions| - 1]).disk, sessions[|sessions| - 1]).0
  }

  // ---- a plan under a script ----

  /** `plan` was carried out up to some step; completed exactly when to its end. */
  ghost predicate Reached(before: Disk, after: Disk, plan: seq<FileOp>, o: Outcome) {
    exists k :: 0 <= k <= |plan| && after == ApplyAll(before, plan[..k]) && (o.Completed? <==> k == |plan|)
  }

  ghost predicate Faultless(c: Script, phase: Phase) {
    forall n: nat :: c.fault(phase, n).Fine?
  }

  ghost predicate NeverThrows(c: Script, phase: Phase) {
    forall n: nat :: !c.fault(phase, n).Throws?
  }

  /** A scripted plan is carried out up to its k-th step. */
  lemma {:induction false} DoAllPrefix(c: Script, r: Run, phase: Phase, ops: seq<FileOp>) returns (k: nat)
    ensures var (s, o) := DoAll(c, r, phase, ops);
            k <= |ops| && s.disk == ApplyAll(r.disk, ops[..k]) && (o.Completed? <==> k == |ops|)
    decreases |ops|
  {
    k := 0;
    assert ops[..0] == [];
    if ops != [] {
      var (t, p) := Do(c, r, phase, ops[0]);
      if p.Completed? {
        var n := DoAllPrefix(c, t, phase, ops[1..]);
        k := n + 1;
        assert ops[..k] == [ops[0]] + ops[1..][..n];
        Peel(r.disk, ops[0], ops[1..][..n]);
      }
    }
  }

  lemma {:induction false} DoAllOutcome(c: Script, r: Run, phase: Phase, ops: seq<FileOp>)
    ensures var (s, o) := DoAll(c, r, phase, ops);
            s.starts == r.starts && (NeverThrows(c, phase) ==> !o.Thrown?) && (Faultless(c, phase) ==> o.Completed?)
    decreases |ops|
  {
    if ops != [] {
      DoAllOutcome(c, Do(c, r, phase, ops[0]).0, phase, ops[1..]);
    }
  }

  lemma DoAllReaches(c: Script, r: Run, phase: Phase, ops: seq<FileOp>)
    ensures var (s, o) := DoAll(c, r, phase, ops);
            && s.starts == r.starts && Reached(r.disk, s.disk, ops, o)
            && (NeverThrows(c, phase) ==> !o.Thrown?) && (Faultless(c, phase) ==> o.Completed?)
  {
    var k := DoAllPrefix(c, r, phase, ops);
    DoAllOutcome(c, r, phase, ops);
  }

  /** With steps fine up to the k-th, exactly the first k are carried out. */
  lemma {:induction false} DoAllStops(c: Script, r: Run, phase: Phase, ops: seq<FileOp>, k: nat)
    requires k <= |ops| && forall i: nat :: r.steps <= i < r.steps + k ==> c.fault(phase, i).Fine?
    requires k < |ops| ==> !c.fault(phase, r.steps + k).Fine?
    ensures var (s, o) := DoAll(c, r, phase, ops);
            && s.disk == ApplyAll(r.disk, ops[..k]) && s.starts == r.starts
            && o == if k == |ops| then Completed
                    else if c.fault(phase, r.steps + k).Throws? then Thrown else Crashed
    decreases k
  {
    if k == 0 {
      assert ops[..0] == [];
    } else {
      var s := Do(c, r, phase, ops[0]).0;
      DoAllStops(c, s, phase, ops[1..], k - 1);
      assert ops[..k] == [ops[0]] + ops[1..][..k - 1];
      Peel(r.disk, ops[0], ops[1..][..k - 1]);
    }
  }

  // ---- hypotheses ----

  /**
   * What a script may do. Either commits always run whole, or they may die but not throw, and a
   * version once healthy stays so.
   */
  ghost predicate Kind(strict: bool, c: Script) {
    if strict then Faultless(c, Committing)
    else
      && NeverThrows(c, Committing)
      && forall v: Version, m: nat, n: nat :: m <= n && c.healthy(v, m) ==> c.healthy(v, n)
  }

  /** The versions that count as judged: those that are and stay healthy, when commits may die. */
  ghost function Judged(strict: bool, c: Script, n: nat): iset<Version> {
    iset v: Version | !strict && c.healthy(v, n)
  }

  /** Payloads are their version's, and the versions in use have passed their self-test. */
  ghost predicate Genuine(w: World, d: Disk) {
    && (forall v :: v in d.dirs && d.dirs[v].Intact? ==> d.dirs[v].digest == w.digest(v))
    && (d.current.Holds? ==> w.selfTest(d.current.value.version))
    && (d.pending.Holds? && d.pending.value.previous.Some? ==> w.selfTest(d.pending.value.previous.value.version))
  }

  /** What every moment of a run keeps. */
  ghost predicate Sound(w: World, strict: bool, c: Script, r: Run) {
    Recoverable(r.disk, Judged(strict, c, r.starts)) && Genuine(w, r.disk)
  }

  lemma RecoverableGrows(d: Disk, fewer: iset<Version>, more: iset<Version>)
    requires Recoverable(d, fewer) && fewer <= more
    ensures Recoverable(d, more)
  {
  }

  lemma StartKeeps(w: World, strict: bool, c: Script, r: Run, v: Version)
    requires Kind(strict, c) && Sound(w, strict, c, r)
    ensures Sound(w, strict, c, Start(c, r, v).0)
  {
    RecoverableGrows(r.disk, Judged(strict, c, r.starts), Judged(strict, c, r.starts + 1));
  }

  /** The step writes nothing that would not be genuine. */
  predicate Honest(w: World, op: FileOp) {
    match op
    case WriteCurrent(m) => w.selfTest(m.version)
    case WritePending(u) => u.previous.Some? ==> w.selfTest(u.previous.value.version)
    case PlaceDir(v, digest) => digest == w.digest(v)
    case _ => true
  }

  lemma HonestStep(w: World, d: Disk, op: FileOp)
    requires Genuine(w, d) && Honest(w, op)
    ensures Genuine(w, Apply(d, op))
  {
  }

  lemma GenuineKept(w: World, d: Disk, ops: seq<FileOp>, k: nat)
    requires Genuine(w, d) && k <= |ops| && forall i :: 0 <= i < |ops| ==> Honest(w, ops[i])
    ensures Genuine(w, ApplyAll(d, ops[..k]))
  {
    assert ops[..0] == [];
    forall i, e | 0 <= i < k && Genuine(w, e)
      ensures Genuine(w, Apply(e, ops[i]))
    {
      HonestStep(w, e, ops[i]);
    }
    KeptByPlan(d, ops, 0, k, e => Genuine(w, e));
  }

  // ---- the store's operations keep a run sound ----

  lemma StageReuses(w: World, strict: bool, c: Script, r: Run, v: Version)
    requires Sound(w, strict, c, r)
    ensures SafeToStage(r.disk, Release(v, w.digest(v)), w.selfTest(v))
  {
  }

  lemma StageSound(w: World, strict: bool, c: Script, r: Run, v: Version, k: nat)
    requires Sound(w, strict, c, r)
    requires k <= |StagePlan(r.disk, Release(v, w.digest(v)), w.selfTest(v))|
    ensures var d := ApplyAll(r.disk, StagePlan(r.disk, Release(v, w.digest(v)), w.selfTest(v))[..k]);
            && Recoverable(d, Judged(strict, c, r.starts)) && Genuine(w, d)
            && d.current == r.disk.current && d.pending == r.disk.pending
  {
    var release := Release(v, w.digest(v));
    var plan := StagePlan(r.disk, release, w.selfTest(v));
    StageReuses(w, strict, c, r, v);
    StageCrashSafe(r.disk, Judged(strict, c, r.starts), release, w.selfTest(v), k);
    GenuineKept(w, r.disk, plan, k);
    assert plan[..0] == [];
    KeptByPlan(r.disk, plan, 0, k, (e: Disk) => e.current == r.disk.current && e.pending == r.disk.pending);
  }

  lemma StageKeeps(w: World, strict: bool, c: Script, r: Run, v: Version)
    requires Sound(w, strict, c, r)
    ensures var (s, o) := Stage(w, c, r, v);
            && Sound(w, strict, c, s) && s.starts == r.starts
            && s.disk.current == r.disk.current && s.disk.pending == r.disk.pending
            && (o.Completed? ==> IntactDir(s.disk, v) && w.selfTest(v))
            && (Faultless(c, Staging) && w.selfTest(v) ==> o.Completed?) && (Faultless(c, Staging) ==> !o.Crashed?)
  {
    var s := Tick(c, r, Staging).0;
    var release := Release(v, w.digest(v));
    var plan := StagePlan(s.disk, release, w.selfTest(v));
    DoAllReaches(c, s, Staging, plan);
    var (t, p) := DoAll(c, s, Staging, plan);
    var k :| 0 <= k <= |plan| && t.disk == ApplyAll(s.disk, plan[..k]) && (p.Completed? <==> k == |plan|);
    StageSound(w, strict, c, r, v, k);
    if p.Completed? && w.selfTest(v) {
      StageEnd(s.disk, release, w.selfTest(v));
      assert plan[..k] == plan;
    }
  }

  lemma ActivateKeeps(w: World, strict: bool, c: Script, r: Run, v: Version)
    requires Sound(w, strict, c, r) && IntactDir(r.disk, v) && w.selfTest(v)
    ensures var (s, o) := Activate(c, r, v);
            && Sound(w, strict, c, s) && s.starts == r.starts
            && (o.Completed? ==> s.disk == Activated(r.disk, v))
            && (Faultless(c, Activating) ==> o.Completed?)
  {
    var plan := ActivatePlan(r.disk, v);
    DoAllReaches(c, r, Activating, plan);
    var (s, o) := DoAll(c, r, Activating, plan);
    var k :| 0 <= k <= 2 && s.disk == ApplyAll(r.disk, plan[..k]) && (o.Completed? <==> k == 2);
    ActivateCrashSafe(r.disk, Judged(strict, c, r.starts), v, k);
    GenuineKept(w, r.disk, plan, k);
    assert plan[..2] == plan;
  }

  lemma CommitKeeps(w: World, strict: bool, c: Script, r: Run, v: Version)
    requires Kind(strict, c) && Sound(w, strict, c, r) && !CommitRefused(r.disk, v)
    requires strict || v in Judged(strict, c, r.starts)
    ensures var (s, o) := CommitRun(c, r, v);
            && Sound(w, strict, c, s) && s.starts == r.starts && !o.Thrown?
            && (o.Completed? ==> s.disk.pending.Absent? && VersionOf(Read(s.disk.current)) == Some(v))
            && (Faultless(c, Committing) ==> o.Completed?)
  {
    var plan := CommitPlan(r.disk, v);
    DoAllReaches(c, r, Committing, plan);
    var (s, o) := DoAll(c, r, Committing, plan);
    var k :| 0 <= k <= |plan| && s.disk == ApplyAll(r.disk, plan[..k]) && (o.Completed? <==> k == |plan|);
    GenuineKept(w, r.disk, plan, k);
    assert plan[..|plan|] == plan;
    CommitEnd(r.disk, v);
    if !strict {
      CommitCrashSafe(r.disk, Judged(strict, c, r.starts), v, k);
    }
  }

  lemma RollbackKeeps(w: World, strict: bool, c: Script, r: Run)
    requires Sound(w, strict, c, r) && SafeToRollback(r.disk)
    ensures var (s, o) := RollbackRun(c, r);
            && Sound(w, strict, c, s) && SafeToRollback(s.disk) && s.starts == r.starts
            && (o.Completed? ==> s.disk.pending.Absent?
                                 && VersionOf(Read(s.disk.current)) == VersionOf(RolledBackTo(r.disk)))
            && (!o.Completed? ==> s.disk.pending == r.disk.pending && r.disk.pending.Holds?)
            && (Faultless(c, RollingBack) ==> o.Completed?)
  {
    var plan := RollbackPlan(r.disk);
    DoAllReaches(c, r, RollingBack, plan);
    var (s, o) := DoAll(c, r, RollingBack, plan);
    var k :| 0 <= k <= |plan| && s.disk == ApplyAll(r.disk, plan[..k]) && (o.Completed? <==> k == |plan|);
    RollbackCrashSafe(r.disk, Judged(strict, c, r.starts), k);
    GenuineKept(w, r.disk, plan, k);
    if r.disk.pending.Holds? && 0 < k < |plan| {
      RollbackMiddle(r.disk, k);
    }
    assert plan[..0] == [];
  }

  lemma SweepKeeps(w: World, strict: bool, c: Script, r: Run)
    requires Sound(w, strict, c, r) && !r.disk.pending.Holds?
    ensures var (s, o) := Sweep(w, c, r);
            && Sound(w, strict, c, s) && s.starts == r.starts
            && s.disk.current == r.disk.current && s.disk.pending == r.disk.pending
            && (Faultless(c, Sweeping) ==> o.Completed?)
  {
    var active, names := VersionOf(Read(r.disk.current)), w.listing(r.disk.dirs.Keys);
    var plan := SweepOver(active, names);
    DoAllReaches(c, r, Sweeping, plan);
    var (s, o) := DoAll(c, r, Sweeping, plan);
    var k :| 0 <= k <= |plan| && s.disk == ApplyAll(r.disk, plan[..k]) && (o.Completed? <==> k == |plan|);
    SweepCrashSafe(r.disk, names, k);
    forall i | 0 <= i < |plan|
      ensures Honest(w, plan[i])
    {
      SweepSpares(active, names, plan[i]);
    }
    GenuineKept(w, r.disk, plan, k);
  }

  /** A sweep that runs to its end leaves no version but the active one. */
  lemma SweepClears(w: World, c: Script, r: Run, v: Version)
    requires w.Valid() && Sweep(w, c, r).1.Completed? && VersionOf(Read(r.disk.current)) != Some(v)
    ensures v !in Sweep(w, c, r).0.disk.dirs
  {
    var active, names := VersionOf(Read(r.disk.current)), w.listing(r.disk.dirs.Keys);
    var plan := SweepOver(active, names);
    DoAllReaches(c, r, Sweeping, plan);
    assert plan[..|plan|] == plan;
    SweepEnd(r.disk, active, names, v);
  }

  // ---- the boot driver keeps a run sound ----

  /** No file step fails. */
  ghost predicate Calm(c: Script) {
    forall phase: Phase, n: nat :: c.fault(phase, n).Fine?
  }

  /** Every start succeeds. */
  ghost predicate Up(c: Script) {
    forall v: Version, n: nat :: c.healthy(v, n)
  }

  lemma CalmFaultless(c: Script, phase: Phase)
    requires Calm(c)
    ensures Faultless(c, phase)
  {
  }

  lemma FinishKeeps(w: World, strict: bool, c: Script, r: Run, v: Version, hasPending: bool)
    requires Kind(strict, c) && Sound(w, strict, c, r)
    requires VersionOf(Read(r.disk.current)) == Some(v)
    requires if hasPending then r.disk.pending.Holds? && r.disk.pending.value.candidate.version == v else !r.disk.pending.Holds?
    requires hasPending && !strict ==> v in Judged(strict, c, r.starts)
    ensures var (s, o) := Finish(w, c, r, v, hasPending);
            && Sound(w, strict, c, s) && s.starts == r.starts
            && (o.Completed? || o.Thrown? ==> s.disk.pending.Absent? && VersionOf(Read(s.disk.current)) == Some(v))
            && (Calm(c) ==> o.Completed?)
  {
    var (s, o) := if hasPending then CommitRun(c, r, v) else (r, Completed);
    if hasPending {
      CommitKeeps(w, strict, c, r, v);
    }
    if Calm(c) {
      CalmFaultless(c, Committing);
      CalmFaultless(c, Sweeping);
    }
    if o.Completed? {
      SweepKeeps(w, strict, c, s);
      var t := Sweep(w, c, s).0;
      assert Calm(c) ==> c.fault(Marking, t.steps).Fine?;
    }
  }

  /** With an update pending on an unhealthy candidate, the previous version is still there. */
  lemma UnhealthyIsSafe(strict: bool, c: Script, d: Disk, v: Version, n: nat)
    requires Recoverable(d, Judged(strict, c, n)) && d.pending.Holds? && d.pending.value.candidate.version == v
    requires !c.healthy(v, n)
    ensures SafeToRollback(d)
  {
  }

  /**
   * startAndCommitCurrent: it ends with the version active and nothing pending; or, having rolled
   * back, with the previous version; or, its rollback having thrown, where it can be rolled back.
   */
  lemma StartAndCommitKeeps(w: World, strict: bool, c: Script, r: Run, v: Version, hasPending: bool)
    requires Kind(strict, c) && Sound(w, strict, c, r)
    requires VersionOf(Read(r.disk.current)) == Some(v)
    requires if hasPending then r.disk.pending.Holds? && r.disk.pending.value.candidate.version == v else !r.disk.pending.Holds?
    ensures var (s, o) := StartAndCommit(w, c, r, v, hasPending);
            && Sound(w, strict, c, s)
            && (o.Thrown? ==> SafeToRollback(s.disk))
            && (o.Completed? ==> s.disk.pending.Absent? && s.disk.current.Holds?)
            && (!o.Crashed? && s.disk.pending.Absent? ==>
                 VersionOf(Read(s.disk.current)) == Some(v)
                 || (hasPending && VersionOf(Read(s.disk.current)) == VersionOf(r.disk.pending.value.previous)))
            && (o.Thrown? && s.disk.pending.Holds? ==> hasPending && s.disk.pending == r.disk.pending)
            && (Calm(c) ==> !o.Crashed? && s.disk.pending.Absent?)
            && (Calm(c) && Up(c) ==> o.Completed?)
  {
    var (s, healthy) := Start(c, r, v);
    StartKeeps(w, strict, c, r, v);
    if healthy {
      FinishKeeps(w, strict, c, s, v, hasPending);
    } else if hasPending {
      UnhealthyIsSafe(strict, c, r.disk, v, r.starts);
    }
    var (t, o) := if healthy then Finish(w, c, s, v, hasPending) else (s, Thrown);
    if o.Thrown? && hasPending {
      RollbackKeeps(w, strict, c, t);
      var (u, p) := RollbackRun(c, t);
      var restored := RolledBackTo(t.disk);
      if p.Completed? && restored.Some? {
        StartKeeps(w, strict, c, u, restored.value.version);
      }
      if Calm(c) {
        CalmFaultless(c, RollingBack);
      }
    }
  }

  lemma GoBackKeeps(w: World, strict: bool, c: Script, r: Run)
    requires Kind(strict, c) && Sound(w, strict, c, r) && SafeToRollback(r.disk)
    ensures var (s, recovery) := GoBack(c, r);
            && Sound(w, strict, c, s)
            && (recovery.Recovered? || recovery.NotRecovered? ==>
                 s.disk.pending.Absent? && VersionOf(Read(s.disk.current)) == VersionOf(RolledBackTo(r.disk)))
            && (recovery.Recovered? ==> s.disk.current.Holds?)
            && (Calm(c) ==> recovery.Recovered? || recovery.NotRecovered?)
  {
    RollbackKeeps(w, strict, c, r);
    var restored := RolledBackTo(r.disk);
    var (s, o) := RollbackRun(c, r);
    if o.Completed? && restored.Some? {
      StartKeeps(w, strict, c, s, restored.value.version);
    }
    if Calm(c) {
      CalmFaultless(c, RollingBack);
    }
  }

  /** The two sides of a pending update: its candidate, and the previous version if there was one. */
  function Sides(u: PendingUpdate): set<Option<Version>> {
    {Some(u.candidate.version), VersionOf(u.previous)}
  }

  /**
   * recoverPendingUpdate: a recovery that runs to its end has settled the update, with the
   * candidate or the previous version active and intact, or none active if there was none before.
   */
  lemma RecoverKeeps(w: World, strict: bool, c: Script, r: Run)
    requires Kind(strict, c) && Sound(w, strict, c, r) && r.disk.pending.Holds?
    ensures var (s, recovery) := Recover(w, c, r);
            && Sound(w, strict, c, s)
            && (recovery.Recovered? || recovery.NotRecovered? ==>
                 s.disk.pending.Absent? && VersionOf(Read(s.disk.current)) in Sides(r.disk.pending.value)
                 && IntactMarker(s.disk, Read(s.disk.current)))
            && (recovery.Recovered? ==> s.disk.current.Holds?)
            && (Calm(c) ==> recovery.Recovered? || recovery.NotRecovered?)
  {
    if OnIntactCandidate(r.disk) {
      var v := r.disk.current.value.version;
      StartAndCommitKeeps(w, strict, c, r, v, true);
      var (s, o) := StartAndCommit(w, c, r, v, true);
      if o.Thrown? {
        GoBackKeeps(w, strict, c, s);
      }
    } else {
      GoBackKeeps(w, strict, c, r);
    }
  }

  lemma InstallKeeps(w: World, strict: bool, c: Script, r: Run, bundled: Version)
    requires Kind(strict, c) && Sound(w, strict, c, r) && !r.disk.pending.Holds?
    ensures var (s, o) := Install(w, c, r, bundled);
            && Sound(w, strict, c, s)
            && (o.Completed? ==> s.disk.pending.Absent? && s.disk.current.Holds?)
            && (o.Completed? ==> VersionOf(Read(s.disk.current)) in {Some(bundled), VersionOf(Read(r.disk.current))})
            && (Calm(c) ==> s.disk.pending.Absent?)
            && (Calm(c) && Up(c) && w.selfTest(bundled) ==> o.Completed?)
  {
    StageKeeps(w, strict, c, r, bundled);
    var (s, o) := Stage(w, c, r, bundled);
    if Calm(c) {
      CalmFaultless(c, Staging);
      CalmFaultless(c, Activating);
    }
    if o.Completed? {
      ActivateKeeps(w, strict, c, s, bundled);
      var (t, p) := Activate(c, s, bundled);
      if p.Completed? {
        StartAndCommitKeeps(w, strict, c, t, bundled, true);
      }
    }
  }

  lemma PrepareKeeps(w: World, strict: bool, c: Script, r: Run, env: Surroundings)
    requires Kind(strict, c) && Sound(w, strict, c, r) && r.disk.pending.Absent?
    ensures var (s, b) := Prepare(w, c, r, env);
            && Sound(w, strict, c, s)
            && (b.Ready? ==> s.disk.pending.Absent? && s.disk.current.Holds?)
            && (Calm(c) ==> s.disk.pending.Absent?)
            && (Calm(c) && Up(c) && w.selfTest(env.bundled) ==> b.Ready?)
  {
    if r.disk.current.Holds? && !env.olderThanBundled {
      StartAndCommitKeeps(w, strict, c, r, r.disk.current.value.version, false);
    } else {
      InstallKeeps(w, strict, c, r, env.bundled);
    }
  }

  lemma BootKeeps(w: World, strict: bool, c: Script, r: Run, repair: bool, env: Surroundings)
    requires Kind(strict, c) && Sound(w, strict, c, r) && (repair ==> strict)
    ensures var (s, b) := Boot(w, c, r, repair, env);
            && Sound(w, strict, c, s)
            && (b.Ready? ==> s.disk.pending.Absent? && s.disk.current.Holds?)
            && (Calm(c) ==> s.disk.pending.Absent?)
            && (Calm(c) && Up(c) && w.selfTest(env.bundled) ==> b.Ready?)
  {
    if repair {
      RollbackKeeps(w, strict, c, r);
      var (s, o) := RollbackRun(c, r);
      if o.Completed? {
        InstallKeeps(w, strict, c, s, env.bundled);
      }
      if Calm(c) {
        CalmFaultless(c, RollingBack);
      }
    } else if r.disk.pending.Holds? {
      RecoverKeeps(w, strict, c, r);
      var (s, recovery) := Recover(w, c, r);
      if recovery.NotRecovered? {
        PrepareKeeps(w, strict, c, s, env);
      }
    } else {
      PrepareKeeps(w, strict, c, r, env);
    }
  }

  lemma UndoKeeps(w: World, strict: bool, c: Script, r: Run)
    requires Kind(strict, c) && Sound(w, strict, c, r) && SafeToRollback(r.disk)
    ensures Sound(w, strict, c, UndoUpdate(c, r).0) && (Calm(c) ==> UndoUpdate(c, r).0.disk.pending.Absent?)
  {
    RollbackKeeps(w, strict, c, r);
    var s := RollbackRun(c, r).0;
    if s.disk.current.Holds? {
      StartKeeps(w, strict, c, s, s.disk.current.value.version);
    }
    if Calm(c) {
      CalmFaultless(c, RollingBack);
    }
  }

  /** The update's tail: from an activated candidate to its commit or its undoing. */
  lemma UpdateEndKeeps(w: World, strict: bool, c: Script, r: Run, v: Version)
    requires Kind(strict, c) && Sound(w, strict, c, r) && r.disk.pending.Holds?
    requires VersionOf(Read(r.disk.current)) == Some(v) && r.disk.pending.value.candidate.version == v
    ensures var (u, healthy) := Start(c, r, v);
            var (x, q) := if healthy then CommitRun(c, u, v) else (u, Thrown);
            var (y, last) := if q.Completed? then Sweep(w, c, x) else (x, q);
            && Sound(w, strict, c, y) && (last.Thrown? ==> SafeToRollback(y.disk))
            && (last.Completed? ==> y.disk.pending.Absent? && VersionOf(Read(y.disk.current)) == Some(v))
            && (Calm(c) ==> !last.Crashed?) && (Calm(c) && Up(c) ==> last.Completed?)
  {
    StartKeeps(w, strict, c, r, v);
    var (u, healthy) := Start(c, r, v);
    if Calm(c) {
      CalmFaultless(c, Committing);
      CalmFaultless(c, Sweeping);
    }
    if healthy {
      CommitKeeps(w, strict, c, u, v);
      var (x, q) := CommitRun(c, u, v);
      if q.Completed? {
        SweepKeeps(w, strict, c, x);
      }
    } else {
      UnhealthyIsSafe(strict, c, r.disk, v, r.starts);
    }
  }

  lemma UpdateKeeps(w: World, strict: bool, c: Script, r: Run, v: Version)
    requires Kind(strict, c) && Sound(w, strict, c, r)
    ensures var (s, b) := Update(w, c, r, v);
            && Sound(w, strict, c, s)
            && (b.Ready? ==> s.disk.pending.Absent? && VersionOf(Read(s.disk.current)) == Some(v) && IntactDir(s.disk, v))
            && (Calm(c) && Up(c) && w.selfTest(v) ==> b.Ready?)
  {
    StageKeeps(w, strict, c, r, v);
    var (s, o) := Stage(w, c, r, v);
    if Calm(c) {
      CalmFaultless(c, Staging);
      CalmFaultless(c, Activating);
    }
    if o.Completed? {
      ActivateKeeps(w, strict, c, s, v);
      var (t, p) := Activate(c, s, v);
      if p.Completed? {
        UpdateEndKeeps(w, strict, c, t, v);
        var (u, healthy) := Start(c, t, v);
        var (x, q) := if healthy then CommitRun(c, u, v) else (u, Thrown);
        var (y, last) := if q.Completed? then Sweep(w, c, x) else (x, q);
        if last.Thrown? {
          UndoKeeps(w, strict, c, y);
        }
      }
    }
  }

  /** An update that ends ready has left no version but its own. */
  lemma UpdateClears(w: World, strict: bool, c: Script, r: Run, v: Version, other: Version)
    requires w.Valid() && Kind(strict, c) && Sound(w, strict, c, r) && other != v
    requires Update(w, c, r, v).1.Ready?
    ensures other !in Update(w, c, r, v).0.disk.dirs
  {
    StageKeeps(w, strict, c, r, v);
    var s := Stage(w, c, r, v).0;
    ActivateKeeps(w, strict, c, s, v);
    var t := Activate(c, s, v).0;
    StartKeeps(w, strict, c, t, v);
    var u := Start(c, t, v).0;
    CommitKeeps(w, strict, c, u, v);
    SweepClears(w, c, CommitRun(c, u, v).0, other);
  }

  // ---- lifetimes ----

  /**
   * The hypotheses on a sequence of processes, all on what happens to them: either every commit
   * runs whole; or commits may die but never throw, a version once healthy stays so, and there is
   * no forced repair.
   */
  ghost predicate Benign(strict: bool, sessions: seq<Session>) {
    && (forall i :: 0 <= i < |sessions| ==> Kind(strict, sessions[i].script))
    && (forall i :: 0 <= i < |sessions| ==> sessions[i].activity.Booting? && sessions[i].activity.repair ==> strict)
    && (forall i, v: Version, m: nat, n: nat {:trigger sessions[i].script.healthy(v, m), sessions[i + 1].script.healthy(v, n)} ::
          !strict && 0 <= i && i + 1 < |sessions| && sessions[i].script.healthy(v, m) ==> sessions[i + 1].script.healthy(v, n))
  }

  /** Nothing pending and the active version intact: the disk a lifetime starts from. */
  ghost predicate AtRest(w: World, d: Disk) {
    d.pending.Absent? && !d.current.Unreadable? && IntactMarker(d, Read(d.current)) && Genuine(w, d)
  }

  lemma LivedKeeps(w: World, strict: bool, d: Disk, session: Session)
    requires Kind(strict, session.script) && Sound(w, strict, session.script, Run(d, 0, 0))
    requires session.activity.Booting? && session.activity.repair ==> strict
    ensures Sound(w, strict, session.script, Lived(w, d, session).0)
  {
    match session.activity
    case Booting(repair, env) => BootKeeps(w, strict, session.script, Run(d, 0, 0), repair, env);
    case Updating(v) => UpdateKeeps(w, strict, session.script, Run(d, 0, 0), v);
  }

  lemma NextSound(w: World, strict: bool, sessions: seq<Session>, r: Run)
    requires |sessions| >= 2 && Benign(strict, sessions)
    requires Sound(w, strict, sessions[|sessions| - 2].script, r)
    ensures Sound(w, strict, sessions[|sessions| - 1].script, Run(r.disk, 0, 0))
  {
    var i := |sessions| - 2;
    var before, after := Judged(strict, sessions[i].script, r.starts), Judged(strict, sessions[i + 1].script, 0);
    forall v | v in before
      ensures v in after
    {
      assert sessions[i].script.healthy(v, r.starts) ==> sessions[i + 1].script.healthy(v, 0);
    }
    RecoverableGrows(r.disk, before, after);
  }

  /**
   * Any number of boots and updates, each disturbed or cut off at any file step: the disk stays
   * recoverable at the end of each, and so does everything the next one finds.
   */
  lemma {:induction false} LifetimeSafe(w: World, first: Disk, sessions: seq<Session>, strict: bool)
    requires AtRest(w, first) && Benign(strict, sessions) && sessions != []
    ensures Sound(w, strict, sessions[|sessions| - 1].script, Run(Lifetime(w, first, sessions[..|sessions| - 1]).disk, 0, 0))
    ensures Sound(w, strict, sessions[|sessions| - 1].script, Lifetime(w, first, sessions))
    decreases |sessions|
  {
    var init, last := sessions[..|sessions| - 1], sessions[|sessions| - 1];
    if init != [] {
      BenignPrefix(strict, sessions);
      LifetimeSafe(w, first, init, strict);
      NextSound(w, strict, sessions, Lifetime(w, first, init));
    }
    LivedKeeps(w, strict, Lifetime(w, first, init).disk, last);
  }

  lemma BenignPrefix(strict: bool, sessions: seq<Session>)
    requires Benign(strict, sessions) && sessions != []
    ensures Benign(strict, sessions[..|sessions| - 1])
  {
    var init := sessions[..|sessions| - 1];
    forall i, v: Version, m: nat, n: nat {:trigger init[i].script.healthy(v, m), init[i + 1].script.healthy(v, n)} |
        !strict && 0 <= i && i + 1 < |init| && init[i].script.healthy(v, m)
      ensures init[i + 1].script.healthy(v, n)
    {
      assert sessions[i].script.healthy(v, m) ==> sessions[i + 1].script.healthy(v, n);
    }
  }

  /**
   * After any such lifetime, a recovery that runs to its end leaves nothing pending, and the
   * candidate or the previous version active and intact, or none if there was none before.
   */
  lemma RecoverySettles(w: World, first: Disk, sessions: seq<Session>, strict: bool)
    requires AtRest(w, first) && Benign(strict, sessions) && sessions != []
    ensures var d, c := Lifetime(w, first, sessions[..|sessions| - 1]).disk, sessions[|sessions| - 1].script;
            d.pending.Holds? ==>
              var (s, recovery) := Recover(w, c, Run(d, 0, 0));
              recovery.Recovered? || recovery.NotRecovered? ==>
                s.disk.pending.Absent? && VersionOf(Read(s.disk.current)) in Sides(d.pending.value)
                && IntactMarker(s.disk, Read(s.disk.current))
  {
    LifetimeSafe(w, first, sessions, strict);
    var d, c := Lifetime(w, first, sessions[..|sessions| - 1]).disk, sessions[|sessions| - 1].script;
    if d.pending.Holds? {
      RecoverKeeps(w, strict, c, Run(d, 0, 0));
    }
  }

  /**
   * After any such lifetime, one boot without failing file steps settles everything, whatever is
   * healthy; and if starts succeed and the bundled version passes its self-test, it ends ready.
   */
  lemma OneBootSettles(w: World, first: Disk, sessions: seq<Session>, strict: bool)
    requires AtRest(w, first) && Benign(strict, sessions) && sessions != []
    requires var last := sessions[|sessions| - 1]; last.activity.Booting? && Calm(last.script)
    ensures AtRest(w, Lifetime(w, first, sessions).disk)
    ensures var last := sessions[|sessions| - 1];
            Up(last.script) && w.selfTest(last.activity.env.bundled) ==>
              && Lived(w, Lifetime(w, first, sessions[..|sessions| - 1]).disk, last).1.Ready?
              && Lifetime(w, first, sessions).disk.current.Holds?
  {
    LifetimeSafe(w, first, sessions, strict);
    var d, last := Lifetime(w, first, sessions[..|sessions| - 1]).disk, sessions[|sessions| - 1];
    BootKeeps(w, strict, last.script, Run(d, 0, 0), last.activity.repair, last.activity.env);
  }

  // ---- what the hypotheses are for: three ways to roll back inside a commit ----

  lemma RollsBack(c: Script, r: Run)
    requires Faultless(c, RollingBack)
    ensures var (s, o) := RollbackRun(c, r);
            o.Completed? && s.disk == Rollback(r.disk) && s.starts == r.starts
  {
    var plan := RollbackPlan(r.disk);
    DoAllReaches(c, r, RollingBack, plan);
    assert plan[..|plan|] == plan;
  }

  /** An update pending on its intact candidate `v`, with the previous version still intact. */
  predicate Undecided(d: Disk, v: Version) {
    && d.pending.Holds? && d.pending.value.candidate.version == v
    && VersionOf(Read(d.current)) == Some(v) && IntactDir(d, v) && SafeToRollback(d)
  }

  /**
   * A healthy candidate whose commit throws at step `k`: the rollback that follows leaves an intact
   * active version exactly when `k` is outside the removal window.
   */
  lemma LateThrowExact(w: World, c: Script, r: Run, v: Version, k: nat)
    requires Undecided(r.disk, v) && c.healthy(v, r.starts) && k < |CommitPlan(r.disk, v)|
    requires forall i: nat :: r.steps <= i < r.steps + k ==> c.fault(Committing, i).Fine?
    requires c.fault(Committing, r.steps + k).Throws? && Faultless(c, RollingBack)
    ensures var d := StartAndCommit(w, c, r, v, true).0.disk;
            && (IntactMarker(d, Read(d.current)) <==> !InRemovalWindow(r.disk, v, k))
            && (InRemovalWindow(r.disk, v, k) ==>
                 !IntactDir(d, v) && !IntactDir(d, r.disk.pending.value.previous.value.version))
  {
    var s := Start(c, r, v).0;
    DoAllStops(c, s, Committing, CommitPlan(r.disk, v), k);
    var t := CommitRun(c, s, v).0;
    RollsBack(c, t);
    RollbackInsideCommit(r.disk, v, k);
  }

  /**
   * A process died at step `k` of that commit, and at the next start the candidate is no longer
   * healthy: the same condition decides.
   */
  lemma RelapseExact(w: World, c: Script, d: Disk, v: Version, k: nat)
    requires Undecided(d, v) && k < |CommitPlan(d, v)|
    requires !c.healthy(v, 0) && Faultless(c, RollingBack)
    ensures var e := StartAndCommit(w, c, Run(ApplyAll(d, CommitPlan(d, v)[..k]), 0, 0), v, true).0.disk;
            IntactMarker(e, Read(e.current)) <==> !InRemovalWindow(d, v, k)
  {
    var r := Run(ApplyAll(d, CommitPlan(d, v)[..k]), 0, 0);
    RollsBack(c, Start(c, r, v).0);
    RollbackInsideCommit(d, v, k);
  }

  /**
   * A process died at step `k` of that commit, and the next boot is a forced repair that can stage
   * nothing: the same condition decides.
   */
  lemma RepairExact(w: World, c: Script, d: Disk, v: Version, k: nat, env: Surroundings)
    requires Undecided(d, v) && k <= |CommitPlan(d, v)|
    requires Faultless(c, RollingBack) && forall n: nat :: !c.fault(Staging, n).Fine?
    ensures var e := Boot(w, c, Run(ApplyAll(d, CommitPlan(d, v)[..k]), 0, 0), true, env).0.disk;
            IntactMarker(e, Read(e.current)) <==> !InRemovalWindow(d, v, k)
  {
    var r := Run(ApplyAll(d, CommitPlan(d, v)[..k]), 0, 0);
    RollsBack(c, r);
    assert !c.fault(Staging, RollbackRun(c, r).0.steps).Fine?;
    RollbackInsideCommit(d, v, k);
  }

  /** An update from version 1 to version 2, about to be committed. */
  function Updated(): Disk {
    Disk(
      Holds(Marker("2", Some("1"))),
      Holds(PendingUpdate(Marker("2", Some("1")), Some(Marker("1", None)))),
      map["1" := Intact("a"), "2" := Intact("b")],
      {})
  }

  function ThrowsInCommit(): Script {
    Script((phase: Phase, n: nat) => if phase.Committing? && n == 2 then Throws else Fine, (v: Version, n: nat) => true)
  }

  function NothingStarts(): Script {
    Script((phase: Phase, n: nat) => if phase.Staging? then Throws else Fine, (v: Version, n: nat) => false)
  }

  /** The commit throws after its second step: neither version is left intact. */
  lemma LateThrowLosesBoth(w: World)
    ensures var d := StartAndCommit(w, ThrowsInCommit(), Run(Updated(), 0, 0), "2", true).0.disk;
            Undecided(Updated(), "2") && !IntactDir(d, "1") && !IntactDir(d, "2") && !IntactMarker(d, Read(d.current))
  {
    assert "1" != "2" && "1" in Updated().dirs && "2" in Updated().dirs;
    LateThrowExact(w, ThrowsInCommit(), Run(Updated(), 0, 0), "2", 2);
  }

  /** The process dies there, and the candidate has stopped working, or a repair finds nothing to stage. */
  lemma HalfCommitLosesBoth(w: World, env: Surroundings)
    ensures var r := Run(ApplyAll(Updated(), CommitPlan(Updated(), "2")[..2]), 0, 0);
            var relapsed := StartAndCommit(w, NothingStarts(), r, "2", true).0.disk;
            var repaired := Boot(w, NothingStarts(), r, true, env).0.disk;
            !IntactMarker(relapsed, Read(relapsed.current)) && !IntactMarker(repaired, Read(repaired.current))
  {
    assert "1" != "2" && "1" in Updated().dirs && "2" in Updated().dirs;
    RelapseExact(w, NothingStarts(), Updated(), "2", 2);
    RepairExact(w, NothingStarts(), Updated(), "2", 2, env);
  }
}
