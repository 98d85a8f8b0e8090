/**
 * The plugin transaction of src/main/services/godot-projects.ts as it runs: applyInstallOrUpgrade
 * and applyUninstall on one project's plugin directory, backup, staging directory and
 * project.godot, proved to do exactly what PluginRuns.Operate does.
 */
module PluginInstall {
  import opened Wrappers
  import opened PluginRuns

  class PluginProject {
    const world: World
    var target: Option<Plugin>   // addons/daedalus_bridge
    var aside: Option<Plugin>    // the backup or trash directory of this operation
    var staged: Option<Plugin>   // the copy in the staging directory of this operation
    var text: Text               // project.godot

    constructor (world: World, p: Project)
      ensures this.world == world && State() == p
    {
      this.world := world;
      target, aside, staged, text := p.target, p.aside, p.staged, p.text;
    }

    ghost function State(): Project
      reads this
    {
      Project(target, aside, staged, text)
    }

    // ---- steps ----

    /** Before step `s`, someone else may save project.godot. */
    method Elsewhere(c: Script, s: Step)
      modifies this`text
      ensures State() == Look(c, old(State()), s)
    {
      var save := c.save(s);
      if save.Some? {
        text := save.value;
      }
    }

    /** A recursive removal, which may stop halfway. */
    method RemoveTree(c: Script, s: Step, tree: Option<Plugin>) returns (ok: bool, left: Option<Plugin>)
      ensures ok == Fine(c, s) && left == Remains(c.fault(s), tree)
    {
      match c.fault(s) {
      case Works => return true, None;
      case Throws => return false, tree;
      case ThrowsHalfway => return false, if tree.Some? then Some(Damaged) else None;
      }
    }

    method MoveOldAside(c: Script) returns (failed: Option<Step>, moved: bool)
      modifies this`target, this`aside, this`text
      ensures (State(), failed) == MoveAside(c, old(State()))
      ensures moved == (failed.None? && old(target).Some?)
    {
      failed, moved := None, false;
      Elsewhere(c, MovingAside);
      if target.Some? {
        if c.fault(MovingAside) != Works {
          return Some(MovingAside), false;
        }
        target, aside, moved := None, target, true;
      }
    }

    // ---- the shared parts ----

    /** Unpacks and verifies the package, moves the old copy aside and the new one into its place. */
    method PlaceNew(c: Script, package: Option<Plugin>) returns (failed: Option<Step>, moved: bool, installed: bool)
      requires aside.None?
      modifies this`target, this`aside, this`staged, this`text
      ensures (State(), failed) == Place(world, c, old(State()), package)
      ensures moved == aside.Some? && installed == failed.None?
    {
      moved, installed := false, false;
      Elsewhere(c, Staging);
      var f := c.fault(Staging);
      if f != Works {
        if f == ThrowsHalfway {
          staged := Some(Damaged);
        }
        return Some(Staging), moved, installed;
      }
      staged := package;
      Elsewhere(c, Verifying);
      if c.fault(Verifying) != Works || staged.None? || !world.verified(staged.value) {
        return Some(Verifying), moved, installed;
      }
      failed, moved := MoveOldAside(c);
      if failed.Some? {
        return;
      }
      Elsewhere(c, Placing);
      if c.fault(Placing) != Works {
        return Some(Placing), moved, installed;
      }
      target, staged, installed := staged, None, true;
    }

    /** Compares, rewrites, and drops the old copy; `updated` tells whether project.godot was written. */
    method CompareAndRewrite(c: Script, original: Text, enabled: bool) returns (failed: Option<Step>, updated: bool)
      modifies this`text, this`aside
      ensures (State(), failed) == Settle(world, c, old(State()), original, enabled)
      ensures updated == (failed in {None, Some(Dropping)})
    {
      updated := false;
      Elsewhere(c, Comparing);
      if c.fault(Comparing) != Works || text != original {
        return Some(Comparing), updated;
      }
      Elsewhere(c, Writing);
      if c.fault(Writing) != Works {
        return Some(Writing), updated;
      }
      text, updated := world.update(original, enabled), true;
      Elsewhere(c, Dropping);
      var ok;
      ok, aside := RemoveTree(c, Dropping, aside);
      failed := if ok then None else Some(Dropping);
    }

    /** The catch block: every step is attempted, and a step's own failure is swallowed. */
    method PutBack(c: Script, installed: bool, moved: bool, updated: bool, original: Text)
      requires moved == aside.Some?
      modifies this`target, this`aside, this`text
      ensures State() == Undo(c, old(State()), installed, updated, original)
    {
      Elsewhere(c, Removing);
      if installed {
        var _, left := RemoveTree(c, Removing, target);
        target := left;
      }
      Elsewhere(c, MovingBack);
      if moved && target.None? && c.fault(MovingBack) == Works {
        target, aside := aside, None;
      }
      Elsewhere(c, Restoring);
      if updated && c.fault(Restoring) == Works {
        text := original;
      }
    }

    // ---- the operations ----

    /** The try block of applyInstallOrUpgrade, with the flags its catch block reads. */
    method TryInstall(c: Script, package: Option<Plugin>, enabled: bool)
      returns (failed: Option<Step>, installedCandidate: bool, movedOriginal: bool, updated: bool)
      requires aside.None?
      modifies this
      ensures (State(), failed) == Act(world, c, old(State()), Installing(package, enabled))
      ensures failed.Some? ==> installedCandidate == Installed(failed.value) && updated == failed.value.Dropping?
      ensures failed.Some? ==> movedOriginal == aside.Some?
    {
      var original := text;
      updated := false;
      failed, movedOriginal, installedCandidate := PlaceNew(c, package);
      if failed.None? {
        failed, updated := CompareAndRewrite(c, original, enabled);
      }
    }

    /** applyInstallOrUpgrade; its backup and staging directories have fresh names. */
    method ApplyInstallOrUpgrade(c: Script, package: Option<Plugin>, enabled: bool) returns (failed: Option<Step>)
      modifies this
      ensures (State(), failed) == Operate(world, c, old(State()), Installing(package, enabled))
    {
      aside, staged := None, None;
      Elsewhere(c, Reading);
      if c.fault(Reading) != Works {
        return Some(Reading);
      }
      var original := text;
      var installedCandidate, movedOriginal, updated;
      failed, installedCandidate, movedOriginal, updated := TryInstall(c, package, enabled);
      if failed.Some? {
        PutBack(c, installedCandidate, movedOriginal, updated, original);
      }
      Elsewhere(c, Cleaning);
      var _, left := RemoveTree(c, Cleaning, staged);
      staged := left;
    }

    /** The try block of applyUninstall. */
    method TryUninstall(c: Script) returns (failed: Option<Step>, moved: bool, updated: bool)
      requires aside.None? && target.Some?
      modifies this
      ensures (State(), failed) == Act(world, c, old(State()), Uninstalling)
      ensures failed.Some? ==> moved == aside.Some? && updated == failed.value.Dropping?
    {
      var original := text;
      updated := false;
      failed, moved := MoveOldAside(c);
      if failed.None? {
        failed, updated := CompareAndRewrite(c, original, false);
      }
    }

    /** applyUninstall. */
    method ApplyUninstall(c: Script) returns (failed: Option<Step>)
      modifies this
      ensures (State(), failed) == Operate(world, c, old(State()), Uninstalling)
    {
      aside, staged := None, None;
      Elsewhere(c, Reading);
      if c.fault(Reading) != Works {
        return Some(Reading);
      }
      if target.None? {
        return None;
      }
      var original := text;
      var moved, updated;
      failed, moved, updated := TryUninstall(c);
      if failed.Some? {
        PutBack(c, false, moved, updated, original);
      }
    }
  }
}
