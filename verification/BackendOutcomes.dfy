/**
 * Which version a process ends on when no file step fails: the outcome of a boot
 * (src/main/services/backend-bootstrap.ts) and of an update (src/main/services/app-update.ts), told
 * from the disk they find, the bundled version, and which versions start.
 */
module BackendOutcomes {
  import opened Wrappers
  import opened BackendDisk
  import opened BackendRuns

  function Active(d: Disk): Option<Version> {
    VersionOf(Read(d.current))
  }

  /** Nothing is pending, and `v` is the active version, or none is. */
  predicate EndsOn(d: Disk, v: Option<Version>) {
    d.pending.Absent? && Active(d) == v
  }

  function Previous(d: Disk): Option<Version> {
    if d.pending.Holds? then VersionOf(d.pending.value.previous) else None
  }

  lemma CalmRollback(w: World, strict: bool, c: Script, r: Run)
    requires Calm(c) && Sound(w, strict, c, r) && SafeToRollback(r.disk)
    ensures var (s, o) := RollbackRun(c, r);
            o.Completed? && s.starts == r.starts && EndsOn(s.disk, VersionOf(RolledBackTo(r.disk)))
            && Sound(w, strict, c, s)
  {
    CalmFaultless(c, RollingBack);
    RollbackKeeps(w, strict, c, r);
  }

  lemma CalmFinish(w: World, strict: bool, c: Script, r: Run, v: Version, hasPending: bool)
    requires Calm(c) && Kind(strict, c) && Sound(w, strict, c, r) && Active(r.disk) == Some(v)
    requires if hasPending then r.disk.pending.Holds? && r.disk.pending.value.candidate.version == v else !r.disk.pending.Holds?
    requires hasPending && !strict ==> v in Judged(strict, c, r.starts)
    ensures var (s, o) := Finish(w, c, r, v, hasPending);
            o.Completed? && EndsOn(s.disk, Some(v))
  {
    FinishKeeps(w, strict, c, r, v, hasPending);
  }

  /**
   * startAndCommitCurrent: a version that starts is kept; one that does not is rolled back to the
   * previous version, if an update was pending, which is then started.
   */
  lemma StartDecides(w: World, strict: bool, c: Script, r: Run, v: Version, hasPending: bool)
    requires Calm(c) && Kind(strict, c) && Sound(w, strict, c, r) && Active(r.disk) == Some(v)
    requires if hasPending then r.disk.pending.Holds? && r.disk.pending.value.candidate.version == v else r.disk.pending.Absent?
    ensures var (s, o) := StartAndCommit(w, c, r, v, hasPending);
            var goesBack := hasPending && !c.healthy(v, r.starts);
            && EndsOn(s.disk, if goesBack then Previous(r.disk) else Some(v))
            && (o.Completed? <==> c.healthy(v, r.starts)
                                  || (goesBack && Previous(r.disk).Some? && c.healthy(Previous(r.disk).value, r.starts + 1)))
            && !o.Crashed?
  {
    var s := Start(c, r, v).0;
    StartKeeps(w, strict, c, r, v);
    if c.healthy(v, r.starts) {
      CalmFinish(w, strict, c, s, v, hasPending);
    } else if hasPending {
      UnhealthyIsSafe(strict, c, r.disk, v, r.starts);
      CalmRollback(w, strict, c, s);
    }
  }

  lemma ActivatedIsPending(w: World, strict: bool, c: Script, r: Run, v: Version)
    requires Calm(c) && Kind(strict, c) && Sound(w, strict, c, r) && w.selfTest(v)
    ensures var (s, o) := Stage(w, c, r, v);
            var (t, p) := Activate(c, s, v);
            && o.Completed? && p.Completed? && Sound(w, strict, c, t) && t.starts == r.starts
            && t.disk.pending.Holds? && t.disk.pending.value.candidate.version == v && Active(t.disk) == Some(v)
            && Previous(t.disk) == Active(r.disk)
  {
    CalmFaultless(c, Staging);
    CalmFaultless(c, Activating);
    StageKeeps(w, strict, c, r, v);
    ActivateKeeps(w, strict, c, Stage(w, c, r, v).0, v);
  }

  lemma UnstagedThrows(w: World, strict: bool, c: Script, r: Run, v: Version)
    requires Calm(c) && Sound(w, strict, c, r) && !w.selfTest(v)
    ensures var (s, o) := Stage(w, c, r, v);
            o.Thrown? && s.starts == r.starts && s.disk.current == r.disk.current && s.disk.pending == r.disk.pending
  {
    CalmFaultless(c, Staging);
    StageKeeps(w, strict, c, r, v);
  }

  /** installBundledAndStart ends on the bundled version if that passes its self-test and starts. */
  lemma InstallDecides(w: World, strict: bool, c: Script, r: Run, bundled: Version)
    requires Calm(c) && Kind(strict, c) && Sound(w, strict, c, r) && r.disk.pending.Absent?
    ensures var (s, o) := Install(w, c, r, bundled);
            var starts := w.selfTest(bundled) && c.healthy(bundled, r.starts);
            && EndsOn(s.disk, if starts then Some(bundled) else Active(r.disk))
            && (starts ==> o.Completed?) && (!w.selfTest(bundled) ==> o.Thrown?) && !o.Crashed?
  {
    if w.selfTest(bundled) {
      ActivatedIsPending(w, strict, c, r, bundled);
      StartDecides(w, strict, c, Activate(c, Stage(w, c, r, bundled).0, bundled).0, bundled, true);
    } else {
      UnstagedThrows(w, strict, c, r, bundled);
    }
  }

  /** The boot of a disk on which nothing is pending replaces the active version. */
  predicate Installs(d: Disk, repair: bool, env: Surroundings) {
    repair || d.current.Absent? || env.olderThanBundled
  }

  /**
   * A boot with nothing pending: the bundled version replaces the active one exactly when there is
   * none, it is older, or a repair is forced, and then if it passes its self-test and starts; otherwise the version
   * found stays, and the boot is ready exactly if that starts.
   */
  lemma BootDecides(w: World, strict: bool, c: Script, r: Run, repair: bool, env: Surroundings)
    requires Calm(c) && Kind(strict, c) && Sound(w, strict, c, r) && r.disk.pending.Absent?
    ensures var (s, b) := Boot(w, c, r, repair, env);
            var installs := Installs(r.disk, repair, env) && w.selfTest(env.bundled) && c.healthy(env.bundled, r.starts);
            && EndsOn(s.disk, if installs then Some(env.bundled) else Active(r.disk))
            && (installs ==> b.Ready?)
            && (!Installs(r.disk, repair, env) ==> b == if c.healthy(Active(r.disk).value, r.starts) then Ready else Failure)
  {
    if repair {
      CalmRollback(w, strict, c, r);
      InstallDecides(w, strict, c, RollbackRun(c, r).0, env.bundled);
    } else if Installs(r.disk, repair, env) {
      InstallDecides(w, strict, c, r, env.bundled);
    } else {
      StartDecides(w, strict, c, r, Active(r.disk).value, false);
    }
  }

  /** Going back from a disk whose rollback is safe. */
  lemma GoBackDecides(w: World, strict: bool, c: Script, r: Run)
    requires Calm(c) && Kind(strict, c) && Sound(w, strict, c, r) && SafeToRollback(r.disk)
    ensures var (s, recovery) := GoBack(c, r);
            var back := VersionOf(RolledBackTo(r.disk));
            && EndsOn(s.disk, back) && Sound(w, strict, c, s)
            && recovery == if back.Some? && c.healthy(back.value, r.starts) then Recovered else NotRecovered
  {
    CalmRollback(w, strict, c, r);
    var (s, o) := RollbackRun(c, r);
    if RolledBackTo(r.disk).Some? {
      StartKeeps(w, strict, c, s, RolledBackTo(r.disk).value.version);
    }
  }

  /**
   * Recovery of a pending update keeps the candidate exactly if it is active and starts; otherwise it
   * goes back, and gives up if there is nothing to go back to or that does not start.
   */
  lemma RecoverDecides(w: World, strict: bool, c: Script, r: Run)
    requires Calm(c) && Kind(strict, c) && Sound(w, strict, c, r) && r.disk.pending.Holds?
    ensures var (s, recovery) := Recover(w, c, r);
            var candidate := r.disk.pending.value.candidate.version;
            var kept := Active(r.disk) == Some(candidate) && c.healthy(candidate, r.starts);
            && EndsOn(s.disk, if kept then Some(candidate) else Previous(r.disk)) && Sound(w, strict, c, s)
            && (kept ==> recovery.Recovered?)
            && (recovery.Recovered? ==> kept || Previous(r.disk).Some?)
            && (Up(c) && Previous(r.disk).Some? ==> recovery.Recovered?)
            && (recovery.Recovered? || recovery.NotRecovered?)
  {
    if OnIntactCandidate(r.disk) {
      var v := r.disk.current.value.version;
      StartDecides(w, strict, c, r, v, true);
      StartAndCommitKeeps(w, strict, c, r, v, true);
      var (s, o) := StartAndCommit(w, c, r, v, true);
      if o.Thrown? {
        GoBackDecides(w, strict, c, s);
      }
    } else {
      GoBackDecides(w, strict, c, r);
    }
  }

  /** Where the boot starts from, once a pending update has been recovered. */
  function SettlesOn(d: Disk): Option<Version> {
    if !d.pending.Holds? then Active(d)
    else if Active(d) == Some(d.pending.value.candidate.version) then Active(d)
    else Previous(d)
  }

  /**
   * The version that any undisturbed boot ends on, when starts succeed and the bundled version
   * passes its self-test: a pending update settles first, on its candidate if that is active and on
   * the previous version if not; where that leaves none, where nothing was pending and the active
   * version is older, and in a forced repair, it is the bundled one.
   */
  lemma BootEndsOn(w: World, strict: bool, c: Script, r: Run, repair: bool, env: Surroundings)
    requires Calm(c) && Up(c) && w.selfTest(env.bundled) && Kind(strict, c) && Sound(w, strict, c, r) && (repair ==> strict)
    ensures var (s, b) := Boot(w, c, r, repair, env);
            b.Ready? && EndsOn(s.disk,
              if repair || SettlesOn(r.disk).None? || (r.disk.pending.Absent? && env.olderThanBundled) then Some(env.bundled)
              else SettlesOn(r.disk))
  {
    if r.disk.pending.Absent? {
      BootDecides(w, strict, c, r, repair, env);
    } else if repair {
      StrictIsSafe(w, c, r);
      CalmRollback(w, strict, c, r);
      InstallDecides(w, strict, c, RollbackRun(c, r).0, env.bundled);
    } else {
      RecoverDecides(w, strict, c, r);
      var (s, recovery) := Recover(w, c, r);
      if recovery.NotRecovered? {
        BootDecides(w, strict, c, s, false, env);
      }
    }
  }

  lemma StrictIsSafe(w: World, c: Script, r: Run)
    requires Sound(w, true, c, r)
    ensures SafeToRollback(r.disk)
  {
  }

  /** Without a file step failing, a boot refuses exactly what it cannot read or run. */
  lemma BootRefuses(w: World, c: Script, r: Run, repair: bool, env: Surroundings)
    requires Calm(c) && !r.disk.pending.Holds?
    ensures Boot(w, c, r, repair, env).1.Refused? <==>
            && !repair
            && (|| r.disk.pending.Unreadable?
                || (r.disk.current.Unreadable? && !env.legacyMarker)
                || (r.disk.current.Holds? && !IntactDir(r.disk, r.disk.current.value.version) && !env.incompatible))
  {
  }

  /**
   * An update ends ready on its version if that passes its self-test and starts, and otherwise as it
   * began, with the version it replaced started again.
   */
  lemma UpdateDecides(w: World, strict: bool, c: Script, r: Run, v: Version)
    requires Calm(c) && Kind(strict, c) && Sound(w, strict, c, r) && r.disk.pending.Absent?
    ensures var (s, b) := Update(w, c, r, v);
            var starts := w.selfTest(v) && c.healthy(v, r.starts);
            && EndsOn(s.disk, if starts then Some(v) else Active(r.disk)) && b == (if starts then Ready else Failure)
            && s.starts == r.starts + (if w.selfTest(v) then 1 else 0)
                           + if w.selfTest(v) && !starts && Active(r.disk).Some? then 1 else 0
  {
    if w.selfTest(v) {
      ActivatedIsPending(w, strict, c, r, v);
      var t := Activate(c, Stage(w, c, r, v).0, v).0;
      UpdateEndKeeps(w, strict, c, t, v);
      StartKeeps(w, strict, c, t, v);
      if !c.healthy(v, r.starts) {
        UnhealthyIsSafe(strict, c, t.disk, v, r.starts);
        CalmRollback(w, strict, c, Start(c, t, v).0);
      } else {
        CommitKeeps(w, strict, c, Start(c, t, v).0, v);
        CalmFaultless(c, Committing);
        CalmFaultless(c, Sweeping);
        SweepKeeps(w, strict, c, CommitRun(c, Start(c, t, v).0, v).0);
      }
    } else {
      UnstagedThrows(w, strict, c, r, v);
    }
  }

  /** A start that is committed to its end has left no other version, and marked the boot as done. */
  lemma FinishClears(w: World, strict: bool, c: Script, r: Run, v: Version, hasPending: bool, other: Version)
    requires w.Valid() && Kind(strict, c) && Sound(w, strict, c, r) && Active(r.disk) == Some(v) && other != v
    requires if hasPending then r.disk.pending.Holds? && r.disk.pending.value.candidate.version == v else !r.disk.pending.Holds?
    requires hasPending && !strict ==> v in Judged(strict, c, r.starts)
    requires Finish(w, c, r, v, hasPending).1.Completed?
    ensures other !in Finish(w, c, r, v, hasPending).0.disk.dirs
    ensures exists n: nat :: c.fault(Marking, n).Fine?
  {
    var s := if hasPending then CommitRun(c, r, v).0 else r;
    if hasPending {
      CommitKeeps(w, strict, c, r, v);
    }
    SweepClears(w, c, s, other);
    var t := Sweep(w, c, s).0;
    assert c.fault(Marking, t.steps).Fine?;
  }

  /** After any lifetime: the version that its last, undisturbed boot ends on. */
  lemma LifetimeEndsOn(w: World, first: Disk, sessions: seq<Session>, strict: bool)
    requires AtRest(w, first) && Benign(strict, sessions) && sessions != []
    requires var last := sessions[|sessions| - 1];
             last.activity.Booting? && Calm(last.script) && Up(last.script) && w.selfTest(last.activity.env.bundled)
    ensures var last, found := sessions[|sessions| - 1], Lifetime(w, first, sessions[..|sessions| - 1]).disk;
            var Booting(repair, env) := last.activity;
            EndsOn(Lifetime(w, first, sessions).disk,
              if repair || SettlesOn(found).None? || (found.pending.Absent? && env.olderThanBundled) then Some(env.bundled)
              else SettlesOn(found))
  {
    LifetimeSafe(w, first, sessions, strict);
    var d, last := Lifetime(w, first, sessions[..|sessions| - 1]).disk, sessions[|sessions| - 1];
    BootEndsOn(w, strict, last.script, Run(d, 0, 0), last.activity.repair, last.activity.env);
  }
}
