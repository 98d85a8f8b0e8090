/**
 * The plugin transaction of src/main/services/godot-projects.ts, applyInstallOrUpgrade and
 * applyUninstall, as functions of what happens at each step. Every step occurs at most once in an
 * operation, so a script says by step what it does and what someone else has saved in
 * project.godot since the step before.
 */
module PluginRuns {
  import opened Wrappers

  type Text = string

  datatype Plugin = Copy(content: string) | Damaged

  /** A step may throw; a removal, or the staging, may throw with a part of it done. */
  datatype Fault = Works | Throws | ThrowsHalfway

  datatype Step =
    | Reading | Staging | Verifying | MovingAside | Placing | Comparing | Writing | Dropping  // forward
    | Removing | MovingBack | Restoring                                                       // undoing
    | Cleaning

  datatype Script = Script(fault: Step -> Fault, save: Step -> Option<Text>)

  /** updateDaedalusBridgeEnabled, and the check of staged files against the manifest. */
  datatype World = World(update: (Text, bool) -> Text, verified: Plugin -> bool)

  /** addons/daedalus_bridge, this operation's backup or trash, its staged copy, and project.godot. */
  datatype Project = Project(target: Option<Plugin>, aside: Option<Plugin>, staged: Option<Plugin>, text: Text)

  // ---- the operations ----

  predicate Fine(c: Script, s: Step) {
    c.fault(s).Works?
  }

  /** Just before step `s`, someone else may have saved. */
  function Look(c: Script, p: Project, s: Step): Project {
    if c.save(s).Some? then p.(text := c.save(s).value) else p
  }

  function Remains(f: Fault, p: Option<Plugin>): Option<Plugin> {
    match f
    case Works => None
    case Throws => p
    case ThrowsHalfway => if p.Some? then Some(Damaged) else None
  }

  /** The project, and the step that threw, if any. */
  type Result = (Project, Option<Step>)

  function MoveAside(c: Script, p: Project): Result {
    var q := Look(c, p, MovingAside);
    if q.target.None? then (q, None)
    else if Fine(c, MovingAside) then (q.(target := None, aside := q.target), None)
    else (q, Some(MovingAside))
  }

  function Stage(w: World, c: Script, p: Project, package: Option<Plugin>): Result {
    var q := Look(c, p, Staging);
    match c.fault(Staging)
    case Throws => (q, Some(Staging))
    case ThrowsHalfway => (q.(staged := Some(Damaged)), Some(Staging))
    case Works =>
      var r := Look(c, q.(staged := package), Verifying);
      (r, if Fine(c, Verifying) && package.Some? && w.verified(package.value) then None else Some(Verifying))
  }

  function Place(w: World, c: Script, p: Project, package: Option<Plugin>): Result {
    var (q, s) := Stage(w, c, p, package);
    if s.Some? then (q, s)
    else
      var (r, s) := MoveAside(c, q);
      if s.Some? then (r, s)
      else
        var t := Look(c, r, Placing);
        if Fine(c, Placing) then (t.(target := t.staged, staged := None), None) else (t, Some(Placing))
  }

  /** Compare, rewrite, and drop the old copy. */
  function Settle(w: World, c: Script, p: Project, original: Text, enabled: bool): Result {
    var q := Look(c, p, Comparing);
    if !Fine(c, Comparing) || q.text != original then (q, Some(Comparing))
    else
      var r := Look(c, q, Writing);
      if !Fine(c, Writing) then (r, Some(Writing))
      else
        var t := Look(c, r.(text := w.update(original, enabled)), Dropping);
        (t.(aside := Remains(c.fault(Dropping), t.aside)), if Fine(c, Dropping) then None else Some(Dropping))
  }

  /** No step of the undoing is retried, and none keeps the next from being attempted. */
  function Undo(c: Script, p: Project, installed: bool, updated: bool, original: Text): Project {
    var q := Look(c, p, Removing);
    var r := if installed then q.(target := Remains(c.fault(Removing), q.target)) else q;
    var s := Look(c, r, MovingBack);
    var t := if s.aside.Some? && s.target.None? && Fine(c, MovingBack) then s.(target := s.aside, aside := None) else s;
    var u := Look(c, t, Restoring);
    if updated && Fine(c, Restoring) then u.(text := original) else u
  }

  function Clean(c: Script, p: Project): Project {
    var q := Look(c, p, Cleaning);
    q.(staged := Remains(c.fault(Cleaning), q.staged))
  }

  predicate Installed(failed: Step) {
    failed in {Comparing, Writing, Dropping}
  }

  datatype Operation = Installing(package: Option<Plugin>, enabled: bool) | Uninstalling

  /** What is read at the start; backup, trash and staging directories of its own have fresh names. */
  function Begin(c: Script, p: Project): Project {
    Look(c, p.(aside := None, staged := None), Reading)
  }

  /** The old copy goes aside and, installing, the new one into its place. */
  function Swap(w: World, c: Script, p: Project, o: Operation): Result {
    if o.Installing? then Place(w, c, p, o.package) else MoveAside(c, p)
  }

  /** The body of the operation's try block. */
  function Act(w: World, c: Script, p: Project, o: Operation): Result {
    var (q, s) := Swap(w, c, p, o);
    if s.Some? then (q, s) else Settle(w, c, q, p.text, o.Installing? && o.enabled)
  }

  /** Removing what is not there does nothing. */
  predicate Acts(p: Project, o: Operation) {
    o.Installing? || p.target.Some?
  }

  /** applyInstallOrUpgrade or applyUninstall. */
  function Operate(w: World, c: Script, p: Project, o: Operation): Result {
    var q := Begin(c, p);
    if !Fine(c, Reading) then (q, Some(Reading))
    else if !Acts(q, o) then (q, None)
    else
      var (r, failed) := Act(w, c, q, o);
      var s := if failed.None? then r
               else Undo(c, r, o.Installing? && Installed(failed.value), failed.value.Dropping?, q.text);
      (if o.Installing? then Clean(c, s) else s, failed)
  }

  // ---- what others save ----

  /** project.godot after these moments as the others alone would have it. */
  function Theirs(c: Script, moments: seq<Step>, before: Text): Text {
    if moments == [] then before
    else
      var last := moments[|moments| - 1];
      if c.save(last).Some? then c.save(last).value else Theirs(c, moments[..|moments| - 1], before)
  }

  const UNDOING := [Removing, MovingBack, Restoring]

  function Forward(o: Operation): seq<Step> {
    if o.Installing? then [Reading, Staging, Verifying, MovingAside, Placing, Comparing, Writing, Dropping]
    else [Reading, MovingAside, Comparing, Writing, Dropping]
  }

  function Until(steps: seq<Step>, s: Step): seq<Step> {
    if steps == [] then []
    else if steps[0] == s then [s]
    else [steps[0]] + Until(steps[1..], s)
  }

  function Last(o: Operation): seq<Step> {
    if o.Installing? then [Cleaning] else []
  }

  /** The moments of an operation that throws at `failed`, or at no step. */
  function Moments(p: Project, o: Operation, failed: Option<Step>): seq<Step> {
    match failed
    case None => if Acts(p, o) then Forward(o) + Last(o) else [Reading]
    case Some(s) => Until(Forward(o), s) + if s.Reading? then [] else UNDOING + Last(o)
  }

  lemma TheirsNext(c: Script, moments: seq<Step>, s: Step, before: Text)
    ensures Theirs(c, moments + [s], before) == if c.save(s).Some? then c.save(s).value else Theirs(c, moments, before)
  {
    assert (moments + [s])[..|moments|] == moments;
  }

  lemma {:induction false} TheirsJoin(c: Script, first: seq<Step>, second: seq<Step>, before: Text)
    ensures Theirs(c, first + second, before) == Theirs(c, second, Theirs(c, first, before))
  {
    if second == [] {
      assert first + second == first;
    } else {
      var n := |second| - 1;
      assert first + second == (first + second[..n]) + [second[n]];
      TheirsNext(c, first + second[..n], second[n], before);
      TheirsJoin(c, first, second[..n], before);
    }
  }

  lemma {:induction false} UntilAt(steps: seq<Step>, k: nat)
    requires k < |steps| && steps[k] !in steps[..k]
    ensures Until(steps, steps[k]) == steps[..k + 1]
  {
    if k > 0 {
      assert steps[0] == steps[..k][0];
      assert steps[1..][..k - 1] == steps[..k][1..];
      UntilAt(steps[1..], k - 1);
      assert steps[..k + 1] == [steps[0]] + steps[1..][..k];
    }
  }

  // ---- when an operation succeeds ----

  function Original(c: Script, p: Project): Text {
    Theirs(c, [Reading], p.text)
  }

  function Rewritten(w: World, c: Script, p: Project, o: Operation): Text {
    w.update(Original(c, p), o.Installing? && o.enabled)
  }

  /** The directories are swapped: the steps work, and the package is there and verified. */
  predicate Swaps(w: World, c: Script, p: Project, o: Operation) {
    && (o.Installing? ==> o.package.Some? && w.verified(o.package.value) && Fine(c, Staging) && Fine(c, Verifying) && Fine(c, Placing))
    && (p.target.Some? ==> Fine(c, MovingAside))
  }

  /** project.godot comes to be rewritten: the others have it at the comparison as it was read. */
  predicate Rewrites(w: World, c: Script, p: Project, o: Operation) {
    && Acts(p, o) && Swaps(w, c, p, o)
    && Fine(c, Reading) && Fine(c, Comparing) && Fine(c, Writing)
    && Theirs(c, Until(Forward(o), Comparing), p.text) == Original(c, p)
  }

  /** The look before the `k`-th step moves the text as the others' saves do. */
  lemma Looked(c: Script, p: Project, steps: seq<Step>, k: nat, before: Text)
    requires k < |steps| && p.text == Theirs(c, steps[..k], before)
    ensures Look(c, p, steps[k]).text == Theirs(c, steps[..k + 1], before)
  {
    assert steps[..k + 1][..k] == steps[..k];
  }

  lemma StageText(w: World, c: Script, p: Project, o: Operation, before: Text)
    requires o.Installing? && p.text == Theirs(c, Forward(o)[..1], before)
    ensures var (q, s) := Stage(w, c, p, o.package);
            && (s.Some? ==> q.text == Theirs(c, Until(Forward(o), s.value), before))
            && (s.None? ==> q.text == Theirs(c, Forward(o)[..3], before))
  {
    var f := Forward(o);
    UntilAt(f, 1);
    UntilAt(f, 2);
    Looked(c, p, f, 1, before);
    Looked(c, Look(c, p, Staging).(staged := o.package), f, 2, before);
  }

  lemma PlaceText(w: World, c: Script, p: Project, o: Operation, before: Text)
    requires o.Installing? && p.text == Theirs(c, Forward(o)[..1], before)
    ensures var (q, s) := Place(w, c, p, o.package);
            && (s.Some? ==> q.text == Theirs(c, Until(Forward(o), s.value), before))
            && (s.None? ==> q.text == Theirs(c, Forward(o)[..5], before))
  {
    var f := Forward(o);
    StageText(w, c, p, o, before);
    var (q, s) := Stage(w, c, p, o.package);
    if s.None? {
      UntilAt(f, 3);
      UntilAt(f, 4);
      Looked(c, q, f, 3, before);
      Looked(c, MoveAside(c, q).0, f, 4, before);
    }
  }

  lemma SettleText(w: World, c: Script, p: Project, o: Operation, original: Text, enabled: bool, before: Text)
    requires p.text == Theirs(c, Forward(o)[..|Forward(o)| - 3], before)
    ensures var (q, s) := Settle(w, c, p, original, enabled);
            var same := Fine(c, Comparing) && Theirs(c, Until(Forward(o), Comparing), before) == original;
            && (s == Some(Comparing) <==> !same)
            && (s == Some(Writing) <==> same && !Fine(c, Writing))
            && (s == Some(Dropping) <==> same && Fine(c, Writing) && !Fine(c, Dropping))
            && s in {None, Some(Comparing), Some(Writing), Some(Dropping)}
            && (s in {Some(Comparing), Some(Writing)} ==> q.text == Theirs(c, Until(Forward(o), s.value), before))
            && (s in {None, Some(Dropping)} ==> q.text == Theirs(c, [Dropping], w.update(original, enabled)))
  {
    var f := Forward(o);
    var n := |f|;
    UntilAt(f, n - 3);
    UntilAt(f, n - 2);
    Looked(c, p, f, n - 3, before);
    Looked(c, Look(c, p, Comparing), f, n - 2, before);
  }

  lemma SwapText(w: World, c: Script, p: Project, o: Operation, before: Text)
    requires p.text == Theirs(c, Forward(o)[..1], before)
    ensures var (q, s) := Swap(w, c, p, o);
            && (s.None? <==> Swaps(w, c, p, o))
            && (s.Some? ==> s.value in {Staging, Verifying, MovingAside, Placing})
            && (s.Some? ==> q.text == Theirs(c, Until(Forward(o), s.value), before))
            && (s.None? ==> q.text == Theirs(c, Forward(o)[..|Forward(o)| - 3], before))
  {
    if o.Installing? {
      PlaceText(w, c, p, o, before);
    } else {
      UntilAt(Forward(o), 1);
      Looked(c, p, Forward(o), 1, before);
    }
  }

  /** Up to the undoing: which step throws, and what project.godot then holds. */
  lemma ActedText(w: World, c: Script, p: Project, o: Operation)
    requires Acts(p, o) && Fine(c, Reading)
    ensures var (q, s) := Act(w, c, Begin(c, p), o);
            && (s.None? <==> Rewrites(w, c, p, o) && Fine(c, Dropping))
            && (s == Some(Dropping) <==> Rewrites(w, c, p, o) && !Fine(c, Dropping))
            && s != Some(Reading)
            && q.text == if s.Some? && !s.value.Dropping? then Theirs(c, Until(Forward(o), s.value), p.text)
                         else Theirs(c, [Dropping], Rewritten(w, c, p, o))
  {
    var f, b := Forward(o), Begin(c, p);
    Looked(c, p, f, 0, p.text);
    assert f[..1] == [Reading];
    SwapText(w, c, b, o, p.text);
    var (q, s) := Swap(w, c, b, o);
    if s.None? {
      SettleText(w, c, q, o, b.text, o.Installing? && o.enabled, p.text);
    }
  }

  lemma UndoText(c: Script, p: Project, installed: bool, updated: bool, original: Text)
    ensures Undo(c, p, installed, updated, original).text ==
            if updated && Fine(c, Restoring) then original else Theirs(c, UNDOING, p.text)
  {
    var q := Look(c, p, Removing);
    var r := if installed then q.(target := Remains(c.fault(Removing), q.target)) else q;
    Looked(c, p, UNDOING, 0, p.text);
    Looked(c, r, UNDOING, 1, p.text);
    var s := Look(c, r, MovingBack);
    Looked(c, s, UNDOING, 2, p.text);
    assert UNDOING[..3] == UNDOING;
  }

  /** An operation succeeds exactly when nothing is in its way; it throws last in dropping the old copy. */
  lemma SucceedsExactly(w: World, c: Script, p: Project, o: Operation)
    ensures var failed := Operate(w, c, p, o).1;
            && (failed.None? <==> if Acts(p, o) then Rewrites(w, c, p, o) && Fine(c, Dropping) else Fine(c, Reading))
            && (failed == Some(Dropping) <==> Rewrites(w, c, p, o) && !Fine(c, Dropping))
  {
    if Acts(p, o) && Fine(c, Reading) {
      ActedText(w, c, p, o);
    }
  }

  /** What a successful operation leaves in the plugin directory. */
  function Effect(o: Operation): Option<Plugin> {
    if o.Installing? then o.package else None
  }

  lemma SwapDirectory(w: World, c: Script, p: Project, o: Operation)
    requires p.aside.None? && p.staged.None?
    ensures var (r, s) := Swap(w, c, p, o);
            && (s.Some? ==> s.value in {Staging, Verifying, MovingAside, Placing})
            && (s.Some? && !s.value.Placing? ==> r.target == p.target && r.aside.None?)
            && (s.Some? && s.value.Placing? ==> r.target.None? && r.aside == p.target)
            && (s.None? ==> r.aside == p.target && r.target == Effect(o) && r.staged.None? && Swaps(w, c, p, o))
  {
  }

  /** Where the old copy and the new one are when the forward steps end. */
  lemma ActedDirectory(w: World, c: Script, p: Project, o: Operation)
    requires p.aside.None? && p.staged.None?
    ensures var (r, s) := Act(w, c, p, o);
            && (s.Some? && s.value in {Staging, Verifying, MovingAside} ==> r.target == p.target && r.aside.None?)
            && (s.Some? && s.value in {Placing, Comparing, Writing} ==> r.aside == p.target)
            && (s == Some(Dropping) ==> r.aside == Remains(c.fault(Dropping), p.target))
            && (s.Some? && (s.value.Placing? || (Installed(s.value) && o.Uninstalling?)) ==> r.target.None?)
            && (s.None? ==> r.aside.None? && r.target == Effect(o) && r.staged.None? && Swaps(w, c, p, o))
            && s != Some(Reading)
  {
    SwapDirectory(w, c, p, o);
  }

  lemma SuccessPlaces(w: World, c: Script, p: Project, o: Operation)
    requires Operate(w, c, p, o).1.None?
    ensures var q := Operate(w, c, p, o).0;
            && q.target == Effect(o) && q.aside.None? && q.staged.None?
            && (o.Installing? ==> q.target.Some? && w.verified(q.target.value))
  {
    if Acts(p, o) {
      ActedDirectory(w, c, Begin(c, p), o);
    }
  }

  /** The looks that come after project.godot is rewritten. */
  function Later(c: Script, o: Operation): seq<Step> {
    [Dropping] + (if Fine(c, Dropping) then [] else UNDOING) + Last(o)
  }

  /** What undoing and cleaning make of project.godot. */
  lemma EndText(w: World, c: Script, p: Project, o: Operation)
    requires Acts(p, o) && Fine(c, Reading)
    ensures var b := Begin(c, p);
            var (r, failed) := Act(w, c, b, o);
            var t := if failed.None? then r.text
                     else if failed.value.Dropping? && Fine(c, Restoring) then b.text else Theirs(c, UNDOING, r.text);
            Operate(w, c, p, o).1 == failed && Operate(w, c, p, o).0.text == Theirs(c, Last(o), t)
  {
    var b := Begin(c, p);
    var (r, failed) := Act(w, c, b, o);
    var s := r;
    if failed.Some? {
      UndoText(c, r, o.Installing? && Installed(failed.value), failed.value.Dropping?, b.text);
      s := Undo(c, r, o.Installing? && Installed(failed.value), failed.value.Dropping?, b.text);
    }
    if o.Installing? {
      Looked(c, s, [Cleaning], 0, s.text);
      assert [Cleaning][..1] == [Cleaning];
    }
  }

  /** Undoing and cleaning after forward steps whose text is known. */
  lemma EndsWith(c: Script, o: Operation, first: seq<Step>, t: Text, acted: Text)
    requires acted == Theirs(c, first, t)
    ensures Theirs(c, Last(o), acted) == Theirs(c, first + Last(o), t)
    ensures Theirs(c, Last(o), Theirs(c, UNDOING, acted)) == Theirs(c, first + UNDOING + Last(o), t)
  {
    TheirsJoin(c, first, UNDOING, t);
    TheirsJoin(c, first + UNDOING, Last(o), t);
    TheirsJoin(c, first, Last(o), t);
  }

  /** project.godot where it is never rewritten: as if the operation had not run. */
  lemma TextUntouched(w: World, c: Script, p: Project, o: Operation)
    requires !Rewrites(w, c, p, o)
    ensures var (q, failed) := Operate(w, c, p, o);
            q.text == Theirs(c, Moments(p, o, failed), p.text)
  {
    var f := Forward(o);
    if Acts(p, o) && Fine(c, Reading) {
      EndText(w, c, p, o);
      ActedText(w, c, p, o);
      var (r, failed) := Act(w, c, Begin(c, p), o);
      var first := Until(f, failed.value);
      EndsWith(c, o, first, p.text, r.text);
      assert first + UNDOING + Last(o) == Moments(p, o, failed);
    } else {
      Looked(c, p, f, 0, p.text);
      assert f[..1] == [Reading];
    }
  }

  /** project.godot where it is rewritten. */
  lemma TextRewritten(w: World, c: Script, p: Project, o: Operation)
    requires Rewrites(w, c, p, o)
    ensures Operate(w, c, p, o).0.text ==
            if Fine(c, Dropping) || !Fine(c, Restoring) then Theirs(c, Later(c, o), Rewritten(w, c, p, o))
            else Theirs(c, Last(o), Original(c, p))
  {
    Looked(c, p, [Reading], 0, p.text);
    assert [Reading][..1] == [Reading];
    EndText(w, c, p, o);
    ActedText(w, c, p, o);
    EndsWith(c, o, [Dropping], Rewritten(w, c, p, o), Act(w, c, Begin(c, p), o).0.text);
  }

  // ---- what a failure restores ----

  /** The old copy's own removal, the last step, stops halfway. */
  predicate HalfDropped(w: World, c: Script, p: Project, o: Operation) {
    Rewrites(w, c, p, o) && c.fault(Dropping).ThrowsHalfway? && p.target.Some? && !p.target.value.Damaged?
  }

  lemma UndoDirectory(c: Script, p: Project, installed: bool, updated: bool, original: Text)
    requires p.aside.Some? ==> installed || p.target.None?
    ensures var q := Undo(c, p, installed, updated, original);
            && (p.aside.Some? ==> q.target == p.aside || q.aside == p.aside)
            && (p.aside.None? ==> q.aside.None? && (q.target == p.target || installed))
            && (Fine(c, Removing) && Fine(c, MovingBack) ==>
                q.aside.None? && q.target == if p.aside.Some? then p.aside else if installed then None else p.target)
  {
  }

  /** A failed operation's plugin directory and backup. */
  lemma FailedDirectory(w: World, c: Script, p: Project, o: Operation)
    requires Operate(w, c, p, o).1.Some?
    ensures var (q, failed) := Operate(w, c, p, o);
            var kept := if failed == Some(Dropping) then Remains(c.fault(Dropping), p.target) else p.target;
            && (kept.Some? ==> q.target == kept || q.aside == kept)
            && (Fine(c, Removing) && Fine(c, MovingBack) ==> q.aside.None? && q.target == kept)
  {
    if Acts(p, o) && Fine(c, Reading) {
      var b := Begin(c, p);
      var (r, failed) := Act(w, c, b, o);
      ActedDirectory(w, c, b, o);
      UndoDirectory(c, r, o.Installing? && Installed(failed.value), failed.value.Dropping?, b.text);
    }
  }

  /** If undoing works, a failure restores the plugin directory exactly unless the old copy was spoiled. */
  lemma FailureRestores(w: World, c: Script, p: Project, o: Operation)
    requires Operate(w, c, p, o).1.Some? && Fine(c, Removing) && Fine(c, MovingBack)
    ensures var q := Operate(w, c, p, o).0;
            && q.aside.None? && (q.target == p.target <==> !HalfDropped(w, c, p, o))
            && (HalfDropped(w, c, p, o) ==> q.target == Some(Damaged))
  {
    SucceedsExactly(w, c, p, o);
    FailedDirectory(w, c, p, o);
  }

  /** Even if undoing fails, the old copy is still there, in its place or aside, unless it was spoiled. */
  lemma OldCopyKept(w: World, c: Script, p: Project, o: Operation)
    requires Operate(w, c, p, o).1.Some? && p.target.Some? && !HalfDropped(w, c, p, o)
    ensures var q := Operate(w, c, p, o).0;
            q.target == p.target || q.aside == p.target
  {
    SucceedsExactly(w, c, p, o);
    FailedDirectory(w, c, p, o);
  }

  /** If cleaning works, an installation leaves nothing in its staging directory, whatever came of it. */
  lemma CleansUp(w: World, c: Script, p: Project, o: Operation)
    requires Fine(c, Cleaning) || o.Uninstalling? || Operate(w, c, p, o).1 == Some(Reading)
    ensures Operate(w, c, p, o).0.staged.None?
  {
  }

  /** What staging leaves when it stops halfway and cleaning fails as well. */
  lemma LeftBehind(w: World, c: Script, p: Project, o: Operation)
    requires o.Installing? && Fine(c, Reading) && c.fault(Staging).ThrowsHalfway? && !Fine(c, Cleaning)
    ensures Operate(w, c, p, o) == (Operate(w, c, p, o).0.(target := p.target, aside := None, staged := Some(Damaged)), Some(Staging))
  {
  }

  // ---- what the others save ----

  /** The others' project.godot is what the file holds, or they have changed nothing since it was read. */
  predicate Kept(final: Text, theirs: Text, original: Text) {
    final == theirs || theirs == original
  }

  predicate Quiet(c: Script, moments: seq<Step>) {
    forall s <- moments :: c.save(s).None?
  }

  /** The saves that an operation loses: those between the comparison and its last write, with none after. */
  predicate Loses(w: World, c: Script, p: Project, o: Operation) {
    && Rewrites(w, c, p, o)
    && if Fine(c, Dropping) || !Fine(c, Restoring) then
         && Quiet(c, Later(c, o))
         && c.save(Writing).Some? && c.save(Writing).value !in {Original(c, p), Rewritten(w, c, p, o)}
       else
         && Quiet(c, Last(o))
         && Theirs(c, [Writing, Dropping] + UNDOING, Original(c, p)) != Original(c, p)
  }

  lemma {:induction false} TheirsQuiet(c: Script, moments: seq<Step>, t: Text, u: Text)
    ensures Quiet(c, moments) ==> Theirs(c, moments, t) == t
    ensures !Quiet(c, moments) ==> Theirs(c, moments, t) == Theirs(c, moments, u)
  {
    if moments != [] {
      var n := |moments| - 1;
      assert moments == moments[..n] + [moments[n]];
      TheirsQuiet(c, moments[..n], t, u);
    }
  }

  lemma LastForward(o: Operation)
    ensures Until(Forward(o), Dropping) == Forward(o) == Until(Forward(o), Comparing) + [Writing, Dropping]
  {
    var f := Forward(o);
    UntilAt(f, |f| - 3);
    UntilAt(f, |f| - 1);
    assert f == f[..|f| - 2] + [Writing, Dropping];
  }

  /** The moments of a run that rewrites project.godot. */
  lemma RewritingMoments(c: Script, p: Project, o: Operation, failed: Option<Step>)
    requires Acts(p, o) && failed == if Fine(c, Dropping) then None else Some(Dropping)
    ensures Moments(p, o, failed) == Until(Forward(o), Comparing) + ([Writing] + Later(c, o))
  {
    var tail := (if Fine(c, Dropping) then [] else UNDOING) + Last(o);
    LastForward(o);
    assert Moments(p, o, failed) == Forward(o) + tail;
    assert [Writing] + Later(c, o) == [Writing, Dropping] + tail;
  }

  /** In such a run the others' saves since project.godot was read are the later ones. */
  lemma TheirsSinceRead(w: World, c: Script, p: Project, o: Operation, failed: Option<Step>)
    requires Rewrites(w, c, p, o) && failed == if Fine(c, Dropping) then None else Some(Dropping)
    ensures Theirs(c, Moments(p, o, failed), p.text) == Theirs(c, [Writing] + Later(c, o), Original(c, p))
  {
    RewritingMoments(c, p, o, failed);
    TheirsJoin(c, Until(Forward(o), Comparing), [Writing] + Later(c, o), p.text);
  }

  /** Nothing of the operation follows its rewriting. */
  lemma LosesByRewriting(c: Script, later: seq<Step>, original: Text, rewritten: Text)
    ensures !Kept(Theirs(c, later, rewritten), Theirs(c, [Writing] + later, original), original) <==>
            Quiet(c, later) && c.save(Writing).Some? && c.save(Writing).value !in {original, rewritten}
  {
    TheirsJoin(c, [Writing], later, original);
    TheirsNext(c, [], Writing, original);
    assert [] + [Writing] == [Writing];
    TheirsQuiet(c, later, Theirs(c, [Writing], original), rewritten);
    TheirsQuiet(c, later, rewritten, rewritten);
  }

  lemma LosesByRestoring(c: Script, o: Operation, original: Text)
    requires !Fine(c, Dropping)
    ensures !Kept(Theirs(c, Last(o), original), Theirs(c, [Writing] + Later(c, o), original), original) <==>
            Quiet(c, Last(o)) && Theirs(c, [Writing, Dropping] + UNDOING, original) != original
  {
    var m := [Writing, Dropping] + UNDOING;
    assert [Writing] + Later(c, o) == m + Last(o);
    TheirsJoin(c, m, Last(o), original);
    TheirsQuiet(c, Last(o), Theirs(c, m, original), original);
    TheirsQuiet(c, Last(o), original, original);
  }

  lemma SaveLostExactly(w: World, c: Script, p: Project, o: Operation)
    ensures var (q, failed) := Operate(w, c, p, o);
            !Kept(q.text, Theirs(c, Moments(p, o, failed), p.text), Original(c, p)) <==> Loses(w, c, p, o)
  {
    if Rewrites(w, c, p, o) {
      SucceedsExactly(w, c, p, o);
      TheirsSinceRead(w, c, p, o, Operate(w, c, p, o).1);
      TextRewritten(w, c, p, o);
      LosesByRewriting(c, Later(c, o), Original(c, p), Rewritten(w, c, p, o));
      if !Fine(c, Dropping) {
        LosesByRestoring(c, o, Original(c, p));
      }
    } else {
      TextUntouched(w, c, p, o);
    }
  }

  // ---- failures of the code ----

  /** Nothing goes wrong. */
  function Undisturbed(s: Step): Fault {
    Works
  }

  /** One save, just before `at`. */
  function OneSave(at: Step, text: Text): Step -> Option<Text> {
    (s: Step) => if s == at then Some(text) else None
  }

  function Plain(): World {
    World((t: Text, enabled: bool) => if enabled then "enabled" else "disabled", (copy: Plugin) => copy.Copy?)
  }

  /** Both operations can succeed and lose a save that comes between the comparison and the write. */
  lemma SaveIsLost()
    ensures var c := Script(Undisturbed, OneSave(Writing, "saved"));
            && (var p := Project(None, None, None, "read");
                Operate(Plain(), c, p, Installing(Some(Copy("new")), true)) == (Project(Some(Copy("new")), None, None, "enabled"), None))
            && (var p := Project(Some(Copy("old")), None, None, "read");
                Operate(Plain(), c, p, Uninstalling) == (Project(None, None, None, "disabled"), None))
  {
  }

  /** A removal of the old copy that stops halfway: it is put back spoiled, and a save is lost. */
  lemma UpgradeSpoils()
    ensures var c := Script((s: Step) => if s.Dropping? then ThrowsHalfway else Works, OneSave(Dropping, "saved"));
            var p := Project(Some(Copy("old")), None, None, "read");
            Operate(Plain(), c, p, Installing(Some(Copy("new")), true)) == (Project(Some(Damaged), None, None, "read"), Some(Dropping))
  {
  }

  // ---- many operations ----

  datatype Session = Session(operation: Operation, script: Script)

  type Stepper = (Project, Session) -> Result

  function Operating(w: World): Stepper {
    (p: Project, s: Session) => Operate(w, s.script, p, s.operation)
  }

  /** The project after these operations, one after the other. */
  function Lifetime(step: Stepper, first: Project, sessions: seq<Session>): Project {
    if sessions == [] then first
    else
      var n := |sessions| - 1;
      step(Lifetime(step, first, sessions[..n]), sessions[n]).0
  }

  /** The plugin directory as the successful operations alone leave it. */
  function LastEffect(step: Stepper, first: Project, sessions: seq<Session>): Option<Plugin> {
    if sessions == [] then first.target
    else
      var n := |sessions| - 1;
      if step(Lifetime(step, first, sessions[..n]), sessions[n]).1.None? then Effect(sessions[n].operation)
      else LastEffect(step, first, sessions[..n])
  }

  /** The steps that undo work, and a removal throws before it removes anything. */
  predicate Gentle(c: Script) {
    Fine(c, Removing) && Fine(c, MovingBack) && !c.fault(Dropping).ThrowsHalfway?
  }

  /** All or nothing in the plugin directory, and only what is verified. */
  ghost predicate Atomic(w: World, step: Stepper) {
    forall p: Project, s: Session :: Gentle(s.script) ==>
      var (q, failed) := step(p, s);
      && q.target == (if failed.None? then Effect(s.operation) else p.target)
      && (failed.None? && q.target.Some? ==> w.verified(q.target.value))
  }

  lemma OperatingIsAtomic(w: World)
    ensures Atomic(w, Operating(w))
  {
    forall p: Project, s: Session | Gentle(s.script)
      ensures var (q, failed) := Operate(w, s.script, p, s.operation);
              && q.target == (if failed.None? then Effect(s.operation) else p.target)
              && (failed.None? && q.target.Some? ==> w.verified(q.target.value))
    {
      if Operate(w, s.script, p, s.operation).1.None? {
        SuccessPlaces(w, s.script, p, s.operation);
      } else {
        FailureRestores(w, s.script, p, s.operation);
      }
    }
  }

  lemma {:induction false} AtomicLifetime(w: World, step: Stepper, first: Project, sessions: seq<Session>)
    requires Atomic(w, step) && forall s <- sessions :: Gentle(s.script)
    ensures Lifetime(step, first, sessions).target == LastEffect(step, first, sessions)
    ensures var target := LastEffect(step, first, sessions);
            target == first.target || target.None? || w.verified(target.value)
  {
    if sessions != [] {
      var n := |sessions| - 1;
      assert sessions == sessions[..n] + [sessions[n]];
      AtomicLifetime(w, step, first, sessions[..n]);
      assert Gentle(sessions[n].script);
    }
  }

  /** Failed operations leave no trace in the plugin directory, which never holds an unverified plugin. */
  lemma FailuresLeaveNoTrace(w: World, first: Project, sessions: seq<Session>)
    requires forall s <- sessions :: Gentle(s.script)
    ensures Lifetime(Operating(w), first, sessions).target == LastEffect(Operating(w), first, sessions)
    ensures var target := LastEffect(Operating(w), first, sessions);
            target == first.target || target.None? || w.verified(target.value)
  {
    OperatingIsAtomic(w);
    AtomicLifetime(w, Operating(w), first, sessions);
  }
}
