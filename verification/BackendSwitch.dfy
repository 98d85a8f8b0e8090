/**
 * The backend switch as it runs in one process: the store's operations
 * (src/main/services/backend-binary-store.ts), the boot driver
 * (src/main/services/backend-bootstrap.ts) and the update flow (src/main/services/app-update.ts),
 * each proved to do exactly what the run of the same name in BackendRuns does.
 */
module BackendSwitch {
  import opened Wrappers
  import opened BackendDisk
  import opened BackendRuns

  class Backend {
    const world: World
    const script: Script

    // The files.
    var current: File<Marker>
    var pending: File<PendingUpdate>
    var dirs: map<Version, Payload>
    var native: set<Version>

    // How many file steps and starts there have been.
    var steps: nat
    var starts: nat

    constructor (world: World, script: Script, d: Disk)
      ensures this.world == world && this.script == script && State() == Run(d, 0, 0)
    {
      this.world, this.script := world, script;
      current, pending, dirs, native := d.current, d.pending, d.dirs, d.native;
      steps, starts := 0, 0;
    }

    ghost function State(): Run
      reads this
    {
      Run(Disk(current, pending, dirs, native), steps, starts)
    }

    // ---- single steps ----

    method Attempt(phase: Phase) returns (o: Outcome)
      modifies this`steps
      ensures (State(), o) == Tick(script, old(State()), phase)
    {
      var f := script.fault(phase, steps);
      steps := steps + 1;
      return match f case Fine => Completed case Throws => Thrown case Dies => Crashed;
    }

    method Perform(phase: Phase, op: FileOp) returns (o: Outcome)
      modifies this`current, this`pending, this`dirs, this`native, this`steps
      ensures (State(), o) == Do(script, old(State()), phase, op)
    {
      o := Attempt(phase);
      if o != Completed {
        return;
      }
      match op {
      case WriteCurrent(m) => current := Holds(m);
      case RemoveCurrent => current := Absent;
      case WritePending(u) => pending := Holds(u);
      case RemovePending => pending := Absent;
      case SpoilDir(v) => if v in dirs { dirs := dirs[v := Broken]; }
      case RemoveDir(v) => dirs := dirs - {v};
      case RemoveNative(v) => native := native - {v};
      case PlaceDir(v, digest) => dirs := dirs[v := Intact(digest)];
      }
    }

    /** What is left of `plan` from step `k` on ends as the whole plan does from `start`. */
    ghost predicate Underway(phase: Phase, start: Run, plan: seq<FileOp>, k: nat)
      requires k <= |plan|
      reads this
    {
      DoAll(script, start, phase, plan) == DoAll(script, State(), phase, plan[k..])
    }

    method Step(phase: Phase, op: FileOp, ghost start: Run, ghost plan: seq<FileOp>, ghost k: nat) returns (o: Outcome)
      requires k < |plan| && plan[k] == op && Underway(phase, start, plan, k)
      modifies this`current, this`pending, this`dirs, this`native, this`steps
      ensures o.Completed? ==> State().disk == Apply(old(State().disk), op) && Underway(phase, start, plan, k + 1)
      ensures !o.Completed? ==> DoAll(script, start, phase, plan) == (State(), o)
    {
      assert plan[k..][1..] == plan[k + 1..];
      o := Perform(phase, op);
    }

    method RemoveVersionFiles(phase: Phase, v: Version, ghost start: Run, ghost plan: seq<FileOp>, ghost k: nat)
      returns (o: Outcome)
      requires k + 3 <= |plan| && plan[k..k + 3] == RemoveVersion(v) && Underway(phase, start, plan, k)
      modifies this`current, this`pending, this`dirs, this`native, this`steps
      ensures o.Completed? ==> Underway(phase, start, plan, k + 3)
      ensures !o.Completed? ==> DoAll(script, start, phase, plan) == (State(), o)
    {
      assert plan[k] == plan[k..k + 3][0] && plan[k + 1] == plan[k..k + 3][1] && plan[k + 2] == plan[k..k + 3][2];
      o := Step(phase, SpoilDir(v), start, plan, k);
      if o != Completed {
        return;
      }
      o := Step(phase, RemoveDir(v), start, plan, k + 1);
      if o != Completed {
        return;
      }
      o := Step(phase, RemoveNative(v), start, plan, k + 2);
    }

    // ---- the store's operations ----

    method ActivateBackendCandidate(v: Version) returns (o: Outcome)
      modifies this
      ensures (State(), o) == Activate(script, old(State()), v)
    {
      ghost var start, plan := State(), ActivatePlan(State().disk, v);
      assert plan[0..] == plan;
      var previous := Read(current);
      var candidate := Marker(v, VersionOf(previous));
      o := Step(Activating, WritePending(PendingUpdate(candidate, previous)), start, plan, 0);
      if o != Completed {
        return;
      }
      o := Step(Activating, WriteCurrent(candidate), start, plan, 1);
    }

    method CommitBackendCandidate(expected: Version) returns (o: Outcome)
      modifies this
      ensures (State(), o) == CommitRun(script, old(State()), expected)
    {
      var update, marker := Read(pending), Read(current);
      if marker.None? || marker.value.version != expected {
        return Thrown;
      }
      if update.Some? && update.value.candidate.version != expected {
        return Thrown;
      }
      ghost var start, plan := State(), CommitPlan(State().disk, expected);
      assert plan[0..] == plan;
      o := Step(Phase.Committing, WriteCurrent(Settled(marker.value)), start, plan, 0);
      if o != Completed {
        return;
      }
      var previous := if update.Some? then update.value.previous else None;
      if previous.Some? && previous.value.version != expected {
        assert plan[1..4] == RemoveVersion(previous.value.version);
        o := RemoveVersionFiles(Phase.Committing, previous.value.version, start, plan, 1);
        if o != Completed {
          return;
        }
      }
      o := Step(Phase.Committing, RemovePending, start, plan, |plan| - 1);
    }

    method RollbackBackendCandidate() returns (o: Outcome, restored: Option<Marker>)
      modifies this
      ensures (State(), o) == RollbackRun(script, old(State())) && restored == RolledBackTo(old(State().disk))
    {
      ghost var start, plan := State(), RollbackPlan(State().disk);
      assert plan[0..] == plan;
      if !pending.Holds? {
        return Completed, Read(current);
      }
      var update := pending.value;
      restored := update.previous;
      if update.previous.None? {
        o := Step(Phase.RollingBack, RemoveCurrent, start, plan, 0);
      } else {
        o := Step(Phase.RollingBack, WriteCurrent(Settled(update.previous.value)), start, plan, 0);
      }
      if o != Completed {
        return;
      }
      if Some(update.candidate.version) != VersionOf(update.previous) {
        assert plan[1..4] == RemoveVersion(update.candidate.version);
        o := RemoveVersionFiles(Phase.RollingBack, update.candidate.version, start, plan, 1);
        if o != Completed {
          return;
        }
      }
      o := Step(Phase.RollingBack, RemovePending, start, plan, |plan| - 1);
    }

    /** Removes every version but the active one. */
    method RemoveLegacyManagedBackends() returns (o: Outcome)
      modifies this
      ensures (State(), o) == Sweep(world, script, old(State()))
    {
      var active := VersionOf(Read(current));
      var names := world.listing(dirs.Keys);
      ghost var start := State();
      assert names[0..] == names;
      for i := 0 to |names|
        invariant DoAll(script, start, Sweeping, SweepOver(active, names))
               == DoAll(script, State(), Sweeping, SweepOver(active, names[i..]))
      {
        ghost var here, rest := State(), SweepOver(active, names[i..]);
        assert names[i..][1..] == names[i + 1..] && rest[0..] == rest;
        if active == Some(names[i]) {
          continue;
        }
        assert rest[0..3] == RemoveVersion(names[i]) && rest[3..] == SweepOver(active, names[i + 1..]);
        o := RemoveVersionFiles(Sweeping, names[i], here, rest, 0);
        if o != Completed {
          return;
        }
      }
      return Completed;
    }

    /** Staging of a version: what comes before the verified payload, then finalizeStagingDirectory. */
    method StageRelease(v: Version) returns (o: Outcome)
      modifies this
      ensures (State(), o) == Stage(world, script, old(State()), v)
    {
      o := Attempt(Staging);
      if o == Completed {
        o := FinalizeStaging(Release(v, world.digest(v)), world.selfTest(v));
      }
    }

    method FinalizeStaging(r: Release, selfTest: bool) returns (o: Outcome)
      modifies this
      ensures var (s, p) := DoAll(script, old(State()), Staging, StagePlan(old(State().disk), r, selfTest));
              State() == s && o == if p.Completed? && !selfTest then Thrown else p
    {
      ghost var start, plan := State(), StagePlan(State().disk, r, selfTest);
      assert plan[0..] == plan;
      if r.version in dirs {
        var reusable := dirs[r.version] == Intact(r.digest);
        if reusable && selfTest {
          return Completed;
        }
        o := Step(Staging, SpoilDir(r.version), start, plan, 0);
        if o != Completed {
          return;
        }
        o := Step(Staging, RemoveDir(r.version), start, plan, 1);
        if o != Completed {
          return;
        }
        if reusable {
          // The staged copy was given up for the reused one: there is nothing left to rename.
          return Thrown;
        }
      }
      o := Step(Staging, PlaceDir(r.version, r.digest), start, plan, |plan| - 1);
      if o == Completed && !selfTest {
        return Thrown;
      }
    }

    // ---- the boot driver ----

    /** startCurrent: whether the active backend comes up healthy. */
    method StartCurrent(v: Version) returns (healthy: bool)
      modifies this`starts
      ensures (State(), healthy) == Start(script, old(State()), v)
    {
      healthy := script.healthy(v, starts);
      starts := starts + 1;
    }

    method StartAndCommitCurrent(v: Version, hasPending: bool) returns (o: Outcome)
      modifies this
      ensures (State(), o) == StartAndCommit(world, script, old(State()), v, hasPending)
    {
      var healthy := StartCurrent(v);
      o := Thrown;
      if healthy {
        o := Completed;
        if hasPending {
          o := CommitBackendCandidate(v);
        }
        if o == Completed {
          o := RemoveLegacyManagedBackends();
        }
        if o == Completed {
          o := Attempt(Marking);
        }
      }
      if o != Thrown || !hasPending {
        return;
      }
      var restored;
      o, restored := RollbackBackendCandidate();
      if o != Completed {
        return;
      }
      if restored.None? {
        return Thrown;
      }
      healthy := StartCurrent(restored.value.version);
      o := if healthy then Completed else Thrown;
    }

    /** inspectCurrentBackend: true also when there is no current backend, false for its exceptions. */
    method InspectCurrent() returns (passes: bool)
      ensures passes == IntactMarker(State().disk, Read(current))
    {
      if !current.Holds? {
        return true;
      }
      var v := current.value.version;
      passes := v in dirs && dirs[v].Intact?;
    }

    method RecoverPendingUpdate() returns (r: Recovery)
      requires pending.Holds?
      modifies this
      ensures (State(), r) == Recover(world, script, old(State()))
    {
      if current.Holds? && current.value.version == pending.value.candidate.version {
        var passes := InspectCurrent();
        if passes {
          var o := StartAndCommitCurrent(current.value.version, true);
          if o == Completed {
            return Recovered;
          }
          if o == Crashed {
            return Died;
          }
        }
      }
      r := ReturnToPrevious();
    }

    method ReturnToPrevious() returns (r: Recovery)
      modifies this
      ensures (State(), r) == GoBack(script, old(State()))
    {
      var o, restored := RollbackBackendCandidate();
      if o == Crashed {
        return Died;
      }
      if o == Thrown {
        return Failed;
      }
      if restored.None? {
        return NotRecovered;
      }
      var passes := InspectCurrent();
      if passes {
        passes := StartCurrent(restored.value.version);
      }
      return if passes then Recovered else NotRecovered;
    }

    method InstallBundledAndStart(bundled: Version) returns (o: Outcome)
      modifies this
      ensures (State(), o) == Install(world, script, old(State()), bundled)
    {
      o := StageRelease(bundled);
      if o == Completed {
        o := ActivateBackendCandidate(bundled);
      }
      if o == Completed {
        o := StartAndCommitCurrent(bundled, true);
      }
    }

    method RunPrepare(repair: bool, env: Surroundings) returns (r: BootResult)
      modifies this
      ensures (State(), r) == Boot(world, script, old(State()), repair, env)
    {
      if repair {
        var o, restored := RollbackBackendCandidate();
        if o == Completed {
          o := InstallBundledAndStart(env.bundled);
        }
        return Result(o);
      }
      if pending.Unreadable? {
        return Refused;
      }
      if pending.Holds? {
        var recovery := RecoverPendingUpdate();
        match recovery {
          case Recovered => return Ready;
          case Died => return Lost;
          case Failed => return Failure;
          case NotRecovered =>
        }
      }
      r := PrepareSettled(env);
    }

    /** The rest of runPrepare, with no update pending. */
    method PrepareSettled(env: Surroundings) returns (r: BootResult)
      modifies this
      ensures (State(), r) == Prepare(world, script, old(State()), env)
    {
      var o;
      var markerExists := !current.Absent?;
      if current.Holds? {
        var passes := InspectCurrent();
        if !passes && !env.incompatible {
          return Refused;
        }
        if !passes || env.olderThanBundled {
          o := InstallBundledAndStart(env.bundled);
          return Result(o);
        }
        o := StartAndCommitCurrent(current.value.version, false);
        return Result(o);
      }
      if markerExists && !env.legacyMarker {
        return Refused;
      }
      o := InstallBundledAndStart(env.bundled);
      return Result(o);
    }

    // ---- the update flow ----

    /** Install, restart, verify, then clean up; or roll back and restart. */
    method RunUpdate(v: Version) returns (r: BootResult)
      modifies this
      ensures (State(), r) == Update(world, script, old(State()), v)
    {
      var o := StageRelease(v);
      if o == Completed {
        o := ActivateBackendCandidate(v);
      }
      if o != Completed {
        return Result(o);
      }
      var healthy := StartCurrent(v);
      o := Thrown;
      if healthy {
        o := CommitBackendCandidate(v);
        if o == Completed {
          o := RemoveLegacyManagedBackends();
        }
      }
      if o != Thrown {
        return Result(o);
      }
      r := RollbackFailedInstall();
    }

    method RollbackFailedInstall() returns (r: BootResult)
      modifies this
      ensures (State(), r) == UndoUpdate(script, old(State()))
    {
      var o, restored := RollbackBackendCandidate();
      if o == Crashed {
        return Lost;
      }
      if o == Completed && current.Holds? {
        var healthy := StartCurrent(current.value.version);
      }
      return Failure;
    }
  }

  /** One process after the other, each on the files the last one left. */
  method Live(world: World, first: Disk, sessions: seq<Session>) returns (last: Run)
    ensures last == Lifetime(world, first, sessions)
  {
    last := Run(first, 0, 0);
    for i := 0 to |sessions|
      invariant last == Lifetime(world, first, sessions[..i])
    {
      assert sessions[..i + 1][..i] == sessions[..i];
      var backend := new Backend(world, sessions[i].script, last.disk);
      match sessions[i].activity {
        case Booting(repair, env) => var r := backend.RunPrepare(repair, env);
        case Updating(v) => var r := backend.RunUpdate(v);
      }
      last := Run(Disk(backend.current, backend.pending, backend.dirs, backend.native), backend.steps, backend.starts);
    }
    assert sessions[..|sessions|] == sessions;
  }
}
