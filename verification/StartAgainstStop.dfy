/**
 * A stop or pause against a start that is under way: which of them the shared generation counter of
 * native/computer-observation/control.cpp lets win, in every reachable state.
 */
module StartAgainstStop {
  import opened Wrappers
  import opened InputGenerations

  // ---- a start that has stored its generation ----

  /** Start has stored its generation and has yet to read the counter back. */
  predicate AfterStore(pc: Pc, n: nat) {
    || (pc.StartArm? && pc.next == n)
    || (pc.StartWait? && pc.next == n)
    || (pc.StartFinish? && pc.next == n)
    || (pc.StartReadArming? && pc.next == n)
    || (pc.StartReadGeneration? && pc.next == n)
  }

  /** This start can no longer activate. */
  predicate Refused(pc: Pc, n: nat) {
    AfterStore(pc, n) || pc == StartGiveUp(n) || pc == StartGiveUpDisarm || pc == Idle
  }

  /** A bump after start's store and before it has read the counter back is final for that start. */
  lemma BumpAfterStoreHolds(s: State, a: Act, t: nat, n: nat)
    requires Invariant(s) && Fresh(s, a) && t < |s.threads|
    requires s.generation > n && Refused(s.threads[t], n) && !s.threads[t].Idle?
    ensures var s' := Step(s, a.thread, a.choice);
            s'.generation > n && t < |s'.threads| && Refused(s'.threads[t], n)
            && (s'.active ==> s.active || a.thread != t)
  {
    StepLogs(s, a);
  }

  /** The counter has moved past the generation that thread `t`'s start has stored. */
  predicate Overtaken(s: State, t: nat, n: nat) {
    t < |s.threads| && s.generation > n && Refused(s.threads[t], n)
  }

  lemma RefusedStep(s: State, a: Act, t: nat, n: nat)
    requires Invariant(s) && Fresh(s, a) && Overtaken(s, t, n)
    requires a.thread == t ==> !a.choice.Begin?
    ensures var s' := Step(s, a.thread, a.choice);
            Overtaken(s', t, n) && (s'.active ==> s.active || a.thread != t)
  {
    StepLogs(s, a);
    if !s.threads[t].Idle? {
      BumpAfterStoreHolds(s, a, t, n);
    }
  }

  /** Thread `t` carries on with what it is doing and begins nothing new. */
  predicate CarriesOn(more: seq<Act>, t: nat) {
    forall i :: 0 <= i < |more| && more[i].thread == t ==> !more[i].choice.Begin?
  }

  lemma CarriedOn(init: seq<Act>, last: Act, more: seq<Act>, t: nat)
    requires more == init + [last] && CarriesOn(more, t)
    ensures CarriesOn(init, t) && (last.thread == t ==> !last.choice.Begin?)
  {
    assert more[|init|] == last;
    forall i | 0 <= i < |init| && init[i].thread == t
      ensures !init[i].choice.Begin?
    {
      assert more[i] == init[i];
    }
  }

  lemma FreshBefore(n: nat, run: seq<Act>, a: Act)
    requires FreshRun(n, run + [a])
    ensures FreshRun(n, run)
  {
    assert (run + [a])[..|run|] == run;
  }

  lemma OvertakenOnce(n: nat, run: seq<Act>, a: Act, t: nat, next: nat)
    requires FreshRun(n, run + [a]) && (a.thread == t ==> !a.choice.Begin?) && Overtaken(After(n, run), t, next)
    ensures var s, s' := After(n, run), After(n, run + [a]);
            Overtaken(s', t, next) && (s'.active ==> s.active || a.thread != t)
  {
    AfterNext(n, run, a);
    AlwaysInvariant(n, run);
    RefusedStep(After(n, run), a, t, next);
  }

  lemma {:induction false} StaysOvertaken(n: nat, run: seq<Act>, more: seq<Act>, t: nat, next: nat)
    requires FreshRun(n, run + more) && CarriesOn(more, t) && Overtaken(After(n, run), t, next)
    ensures Overtaken(After(n, run + more), t, next)
    decreases |more|
  {
    if more == [] {
      assert run + more == run;
    } else {
      var init, last := more[..|more| - 1], more[|more| - 1];
      CarriedOn(init, last, more, t);
      assert run + more == run + init + [last];
      FreshBefore(n, run + init, last);
      StaysOvertaken(n, run, init, t, next);
      OvertakenOnce(n, run + init, last, t, next);
    }
  }

  /** On every continuation that start stays refused, and none of its steps activates. */
  lemma RefusedForGood(n: nat, run: seq<Act>, more: seq<Act>, a: Act, t: nat, next: nat)
    requires FreshRun(n, run + more + [a]) && CarriesOn(more + [a], t) && Overtaken(After(n, run), t, next)
    ensures var s, s' := After(n, run + more), After(n, run + more + [a]);
            Overtaken(s', t, next) && (s'.active ==> s.active || a.thread != t)
  {
    AfterNext(n, run + more, a);
    forall i | 0 <= i < |more|
      ensures more[i] == (more + [a])[i]
    {
    }
    assert (more + [a])[|more|] == a;
    StaysOvertaken(n, run, more, t, next);
    OvertakenOnce(n, run + more, a, t, next);
  }

  function StopHalf(s: State, u: nat): State {
    Step(Step(Step(s, u, Begin(Stop)), u, Go), u, Go)
  }

  function StopWhole(s: State, u: nat): State {
    Step(Step(StopHalf(s, u), u, Go), u, Go)
  }

  function StoreAndArm(s: State, t: nat): State {
    Step(Step(Step(s, t, Go), t, Go), t, Go)
  }

  function Released(s: State, u: nat): int {
    if s.holder == u then NOBODY else s.holder
  }

  lemma StopsHalf(s: State, u: nat)
    requires u < |s.threads| && s.threads[u] == Idle
    ensures StopHalf(s, u) ==
            s.(active := false, arming := false, holder := Released(s, u), threads := s.threads[u := StopBump])
  {
    var s1 := s.(holder := Released(s, u), threads := s.threads[u := StopActive]);
    var s2 := s1.(active := false, threads := s.threads[u := StopArming]);
    assert Step(s, u, Begin(Stop)) == s1;
    assert Step(s1, u, Go) == s2;
  }

  lemma StopsRest(s: State, u: nat)
    requires u < |s.threads| && s.threads[u] == StopBump && s.holder != u
    ensures Step(Step(s, u, Go), u, Go) ==
            s.(generation := s.generation + 1, window := NO_WINDOW, threads := s.threads[u := Idle])
  {
    assert Step(s, u, Go) == s.(generation := s.generation + 1, threads := s.threads[u := StopWindow]);
  }

  /** What a whole stop leaves, from any state. */
  lemma StopsWhole(s: State, u: nat)
    requires u < |s.threads| && s.threads[u] == Idle
    ensures StopWhole(s, u) ==
            s.(active := false, arming := false, generation := s.generation + 1, window := NO_WINDOW,
               holder := Released(s, u))
  {
    StopsHalf(s, u);
    StopsRest(StopHalf(s, u), u);
    assert s.threads[u := StopBump][u := Idle] == s.threads;
  }

  /**
   * A stop that runs whole between start's comparison and its store is lost: start overwrites the
   * bumped counter and arms all the same. From any state, with any other threads.
   */
  lemma StopInTheGapIsLost(s: State, t: nat, u: nat, w: Window, n: nat)
    requires t < |s.threads| && u < |s.threads| && t != u
    requires s.threads[t] == StartTarget(w, n) && s.threads[u] == Idle
    ensures var stopped := StopWhole(s, u);
            && stopped.threads[u] == Idle && stopped.generation == s.generation + 1
            && !stopped.active && !stopped.arming && stopped.window == NO_WINDOW
            && StoreAndArm(stopped, t).arming
            && StoreAndArm(stopped, t).generation == n && StoreAndArm(stopped, t).window == w
            && StoreAndArm(stopped, t).threads[t] == StartWait(w, n)
  {
    StopsWhole(s, u);
    StoresAndArms(StopWhole(s, u), t, w, n);
  }

  lemma StoresAndArms(s: State, t: nat, w: Window, n: nat)
    requires t < |s.threads| && s.threads[t] == StartTarget(w, n)
    ensures var s' := StoreAndArm(s, t);
            s'.arming && s'.generation == n && s'.window == w && s'.threads == s.threads[t := StartWait(w, n)]
  {
    var s1 := s.(window := w, holder := t, threads := s.threads[t := StartGeneration(w, n)]);
    var s2 := s1.(generation := n, threads := s.threads[t := StartArm(w, n)]);
    assert Step(s, t, Go) == s1;
    assert Step(s1, t, Go) == s2;
  }

  /**
   * A stop that runs whole between start's last look at the counter and its last write leaves
   * control active all the same, though under a generation that has moved on.
   */
  lemma StopBeforeActivation(s: State, t: nat, u: nat, n: nat)
    requires t < |s.threads| && u < |s.threads| && t != u
    requires s.threads[t] == StartDisarm(n) && s.threads[u] == Idle && s.generation == n
    ensures var stopped := StopWhole(s, u);
            var done := Step(Step(stopped, t, Go), t, Go);
            && !stopped.active && stopped.threads[u] == Idle
            && done.active && done.threads[t] == Idle && done.generation == n + 1 && done.window == NO_WINDOW
  {
    StopsWhole(s, u);
    ActivatesAtOnce(StopWhole(s, u), t, n);
  }

  lemma ActivatesAtOnce(s: State, t: nat, n: nat)
    requires t < |s.threads| && s.threads[t] == StartDisarm(n)
    ensures var done := Step(Step(s, t, Go), t, Go);
            done.active && done.threads == s.threads[t := Idle] && done.generation == s.generation && done.window == s.window
  {
    assert Step(s, t, Go) == s.(arming := false, holder := t, threads := s.threads[t := StartActivate(n)]);
  }

  // ---- what a bump decides ----

  /** Start has taken its own generation and has not yet ended. */
  predicate StartUnderway(pc: Pc) {
    || pc.StartRelock? || pc.StartCompare? || pc.StartTarget? || pc.StartGeneration? || pc.StartArm? || pc.StartWait?
    || pc.StartFinish? || pc.StartReadArming? || pc.StartReadGeneration? || pc.StartReadWindow?
    || pc.StartDisarm? || pc.StartActivate? || pc.StartGiveUp? || pc.StartGiveUpDisarm?
  }

  /** The counter start will compare with. */
  function Compares(pc: Pc): Option<nat> {
    match pc
    case StartRelock(_, _, g) => Some(g)
    case StartCompare(_, _, g) => Some(g)
    case _ => None
  }

  /** The generation start has stored and will read back. */
  function Stored(pc: Pc): Option<nat> {
    match pc
    case StartArm(_, n) => Some(n)
    case StartWait(_, n) => Some(n)
    case StartFinish(_, n, _) => Some(n)
    case StartReadArming(_, n) => Some(n)
    case StartReadGeneration(_, n) => Some(n)
    case _ => None
  }

  /** The window start has set, or is about to store its generation for, and will check. */
  function Checks(pc: Pc): Option<Window> {
    match pc
    case StartGeneration(w, _) => Some(w)
    case StartArm(w, _) => Some(w)
    case StartWait(w, _) => Some(w)
    case StartFinish(w, _, _) => Some(w)
    case StartReadArming(w, _) => Some(w)
    case StartReadGeneration(w, _) => Some(w)
    case StartReadWindow(w, _) => Some(w)
    case _ => None
  }

  ghost predicate ComparesBelow(s: State) {
    forall v :: 0 <= v < |s.threads| && Compares(s.threads[v]).Some? ==> Compares(s.threads[v]).value <= s.generation
  }

  ghost predicate StoredBelow(s: State) {
    forall t :: 0 <= t < |s.threads| && Stored(s.threads[t]).Some? ==> Stored(s.threads[t]).value <= s.generation
  }

  ghost predicate NeverEqual(s: State) {
    forall t, v :: 0 <= t < |s.threads| && 0 <= v < |s.threads| && Stored(s.threads[t]).Some? && Compares(s.threads[v]).Some? ==>
      Stored(s.threads[t]) != Compares(s.threads[v])
  }

  ghost predicate PassedAbove(s: State) {
    forall t, v :: 0 <= t < |s.threads| && 0 <= v < |s.threads| && Stored(s.threads[t]).Some? && s.threads[v].StartTarget? ==>
      Stored(s.threads[t]).value < s.generation
  }

  /** How the counter stands to the starts under way. */
  ghost predicate Ordered(s: State) {
    ComparesBelow(s) && StoredBelow(s) && NeverEqual(s) && PassedAbove(s)
  }

  /** Where a thread's next step takes what it compares with. */
  lemma ComparesStep(s: State, pc: Pc, c: Choice)
    ensures Compares(Next(s, pc, c)).Some? ==>
              Compares(Next(s, pc, c)) == Compares(pc)
              || (pc.StartBump? && Compares(Next(s, pc, c)) == Some(s.generation + 1) && Effect(s, pc).generation == s.generation + 1)
    ensures Next(s, pc, c).StartTarget? ==> pc.StartCompare? && pc.starting == s.generation
  {
  }

  /** And what it has stored. */
  lemma StoredStep(s: State, pc: Pc, c: Choice)
    ensures Stored(Next(s, pc, c)).Some? ==>
              Stored(Next(s, pc, c)) == Stored(pc)
              || (pc.StartGeneration? && Stored(Next(s, pc, c)) == Some(pc.next) && Effect(s, pc).generation == pc.next)
  {
  }

  /** The step of thread `t` seen from outside: its next position, the others' as they were. */
  ghost predicate Moves(s: State, s': State, t: nat) {
    && |s'.threads| == |s.threads| && t < |s.threads| && s.generation <= s'.generation
    && (forall u :: 0 <= u < |s.threads| && u != t ==> s'.threads[u] == s.threads[u])
    && (Compares(s'.threads[t]).Some? ==>
          Compares(s'.threads[t]) == Compares(s.threads[t])
          || (s.generation < s'.generation && Compares(s'.threads[t]) == Some(s'.generation)))
    && (Stored(s'.threads[t]).Some? ==>
          Stored(s'.threads[t]) == Stored(s.threads[t])
          || (s.generation < s'.generation && Stored(s'.threads[t]) == Some(s'.generation) && s.threads[t].StartGeneration?))
    && (s'.threads[t].StartTarget? ==> s.threads[t].StartCompare? && s.threads[t].starting == s.generation)
    && (s'.threads[t].StartTarget? || Stored(s'.threads[t]).None? || Compares(s'.threads[t]).None?)
  }

  lemma StepMoves(s: State, a: Act)
    requires Invariant(s) && Fresh(s, a) && a.thread < |s.threads|
    ensures Moves(s, Step(s, a.thread, a.choice), a.thread)
  {
    StepLogs(s, a);
    ComparesStep(s, s.threads[a.thread], a.choice);
    StoredStep(s, s.threads[a.thread], a.choice);
  }

  lemma MovesKeep(s: State, s': State, t: nat)
    requires Mutex(s) && Ordered(s) && Moves(s, s', t)
    ensures Ordered(s')
  {
    forall u, v | 0 <= u < |s'.threads| && 0 <= v < |s'.threads| && Stored(s'.threads[u]).Some? && s'.threads[v].StartTarget?
      ensures Stored(s'.threads[u]).value < s'.generation
    {
      // storing and passing the comparison both happen inside the mutex
      assert Locked(s.threads[v]) || v == t;
    }
  }

  lemma OrderedStep(s: State, a: Act)
    requires Invariant(s) && Fresh(s, a) && Ordered(s)
    ensures Ordered(Step(s, a.thread, a.choice))
  {
    if a.thread < |s.threads| {
      StepMoves(s, a);
      MovesKeep(s, Step(s, a.thread, a.choice), a.thread);
    }
  }

  lemma {:induction false} AlwaysOrdered(n: nat, run: seq<Act>)
    requires FreshRun(n, run)
    ensures Ordered(After(n, run))
    decreases |run|
  {
    if run != [] {
      AlwaysOrdered(n, run[..|run| - 1]);
      AlwaysInvariant(n, run[..|run| - 1]);
      OrderedStep(After(n, run[..|run| - 1]), run[|run| - 1]);
    }
  }

  /** Start cannot activate any more: it will find the counter moved, or its window gone. */
  predicate DoomedAt(pc: Pc, generation: nat, window: Window) {
    || pc.Idle? || pc.StartGiveUp? || pc.StartGiveUpDisarm?
    || (Compares(pc).Some? && Compares(pc).value < generation)
    || (Stored(pc).Some? && Stored(pc).value < generation)
    || (Checks(pc).Some? && Checks(pc).value != window)
  }

  predicate Doomed(s: State, t: nat) {
    t < |s.threads| && DoomedAt(s.threads[t], s.generation, s.window)
  }

  /** What its own step does to a start that is doomed. */
  lemma DoomedMoves(s: State, pc: Pc, c: Choice)
    requires DoomedAt(pc, s.generation, s.window) && !c.Begin?
    ensures DoomedAt(Next(s, pc, c), Effect(s, pc).generation, Effect(s, pc).window) && !pc.StartActivate?
  {
  }

  lemma WindowStep(s: State, pc: Pc)
    ensures Effect(s, pc).window == s.window || Effect(s, pc).window == NO_WINDOW
         || (pc.StartTarget? && Effect(s, pc).window == pc.target)
  {
  }

  /** Nobody else's step saves it. */
  lemma DoomedDespite(s: State, a: Act, t: nat)
    requires Invariant(s) && Ordered(s) && Fresh(s, a) && Doomed(s, t) && a.thread != t
    requires Checks(s.threads[t]).Some? ==> Checks(s.threads[t]).value != NO_WINDOW
    ensures Doomed(Step(s, a.thread, a.choice), t)
  {
    StepLogs(s, a);
    if a.thread < |s.threads| {
      WindowStep(s, s.threads[a.thread]);
      if s.threads[a.thread].StartTarget? {
        assert Locked(s.threads[a.thread]);
      }
    }
  }

  /** The window that start is for is one. */
  predicate NamesWindow(pc: Pc) {
    Checks(pc) != Some(NO_WINDOW)
  }

  lemma NamesStep(s: State, pc: Pc, c: Choice)
    requires NamesWindow(pc) && !c.Begin? && !pc.StartTarget?
    ensures NamesWindow(Next(s, pc, c))
  {
  }

  ghost predicate DoomedAfter(n: nat, run: seq<Act>, t: nat) {
    var s := After(n, run);
    Doomed(s, t) && NamesWindow(s.threads[t])
  }

  lemma {:induction false} DoomedForGood(n: nat, run: seq<Act>, more: seq<Act>, t: nat)
    requires FreshRun(n, run + more) && CarriesOn(more, t) && DoomedAfter(n, run, t)
    ensures DoomedAfter(n, run + more, t)
    decreases |more|
  {
    if more == [] {
      assert run + more == run;
    } else {
      var init, last := more[..|more| - 1], more[|more| - 1];
      CarriedOn(init, last, more, t);
      assert run + more == run + init + [last];
      FreshBefore(n, run + init, last);
      DoomedForGood(n, run, init, t);
      DoomedOnce(n, run + init, last, t);
    }
  }

  lemma DoomedOnce(n: nat, run: seq<Act>, a: Act, t: nat)
    requires FreshRun(n, run + [a]) && (a.thread == t ==> !a.choice.Begin?) && DoomedAfter(n, run, t)
    ensures DoomedAfter(n, run + [a], t)
  {
    AfterNext(n, run, a);
    AlwaysInvariant(n, run);
    AlwaysOrdered(n, run);
    DoomedNext(After(n, run), a, t);
  }

  lemma DoomedNext(s: State, a: Act, t: nat)
    requires Invariant(s) && Ordered(s) && Fresh(s, a) && (a.thread == t ==> !a.choice.Begin?)
    requires Doomed(s, t) && NamesWindow(s.threads[t])
    ensures Doomed(Step(s, a.thread, a.choice), t) && NamesWindow(Step(s, a.thread, a.choice).threads[t])
  {
    if a.thread == t {
      DoomedMoves(s, s.threads[t], a.choice);
      NamesStep(s, s.threads[t], a.choice);
    } else {
      DoomedDespite(s, a, t);
    }
  }

  /** Some continuation ends with thread `t`'s start activating. */
  ghost predicate CanActivate(n: nat, run: seq<Act>, t: nat) {
    exists more :: Activates(n, run, more, t)
  }

  ghost predicate Activates(n: nat, run: seq<Act>, more: seq<Act>, t: nat) {
    && FreshRun(n, run + more) && CarriesOn(more, t)
    && t < |After(n, run + more).threads| && After(n, run + more).threads[t].StartActivate?
  }

  lemma DoomedNever(n: nat, run: seq<Act>, t: nat)
    requires DoomedAfter(n, run, t)
    ensures !CanActivate(n, run, t)
  {
    forall more | FreshRun(n, run + more) && CarriesOn(more, t)
      ensures !Activates(n, run, more, t)
    {
      DoomedForGood(n, run, more, t);
    }
  }

  /** Thread `t` alone, from here on, gets to its activation. */
  predicate Poised(s: State, t: nat) {
    t < |s.threads| &&
    match s.threads[t]
    case StartActivate(_) => true
    case StartDisarm(_) => true
    case StartReadWindow(w, _) => s.window == w
    case StartReadGeneration(w, n) => s.window == w && s.generation == n
    case StartReadArming(w, n) => s.window == w && s.generation == n && s.arming
    case StartFinish(w, n, ready) => ready && s.window == w && s.generation == n && s.arming && s.holder == NOBODY
    case StartWait(w, n) => s.window == w && s.generation == n && s.arming && s.holder == NOBODY
    case StartArm(w, n) => s.window == w && s.generation == n && s.holder == t
    case StartGeneration(w, n) => s.window == w && n > s.generation && s.holder == t
    case StartTarget(_, n) => n > s.generation && s.holder == t
    case _ => false
  }

  function ToGo(pc: Pc): nat {
    match pc
    case StartTarget(_, _) => 9
    case StartGeneration(_, _) => 8
    case StartArm(_, _) => 7
    case StartWait(_, _) => 6
    case StartFinish(_, _, _) => 5
    case StartReadArming(_, _) => 4
    case StartReadGeneration(_, _) => 3
    case StartReadWindow(_, _) => 2
    case StartDisarm(_) => 1
    case _ => 0
  }

  lemma PoisedToStart(s: State, t: nat)
    requires Poised(s, t) && ToGo(s.threads[t]) > 5
    ensures Poised(Step(s, t, Go), t) && ToGo(Step(s, t, Go).threads[t]) < ToGo(s.threads[t])
  {
  }

  lemma PoisedToFinish(s: State, t: nat)
    requires Poised(s, t) && 0 < ToGo(s.threads[t]) <= 5
    ensures Poised(Step(s, t, Go), t) && ToGo(Step(s, t, Go).threads[t]) < ToGo(s.threads[t])
  {
  }

  lemma PoisedStep(s: State, t: nat)
    requires Poised(s, t) && !s.threads[t].StartActivate?
    ensures Poised(Step(s, t, Go), t) && ToGo(Step(s, t, Go).threads[t]) < ToGo(s.threads[t]) && Fresh(s, Act(t, Go))
  {
    if ToGo(s.threads[t]) > 5 {
      PoisedToStart(s, t);
    } else {
      PoisedToFinish(s, t);
    }
  }

  lemma ThereAlready(n: nat, run: seq<Act>, t: nat)
    requires FreshRun(n, run) && t < |After(n, run).threads| && After(n, run).threads[t].StartActivate?
    ensures CanActivate(n, run, t)
  {
    assert run + [] == run;
    assert Activates(n, run, [], t);
  }

  lemma ActivatesSooner(n: nat, run: seq<Act>, a: Act, more: seq<Act>, t: nat)
    requires Activates(n, run + [a], more, t) && !a.choice.Begin?
    ensures Activates(n, run, [a] + more, t)
  {
    assert run + ([a] + more) == run + [a] + more;
  }

  lemma OneStepBefore(n: nat, run: seq<Act>, a: Act, t: nat)
    requires CanActivate(n, run + [a], t) && !a.choice.Begin?
    ensures CanActivate(n, run, t)
  {
    var more :| Activates(n, run + [a], more, t);
    ActivatesSooner(n, run, a, more, t);
  }

  lemma {:induction false} PoisedActivates(n: nat, run: seq<Act>, t: nat, s: State)
    requires FreshRun(n, run) && After(n, run) == s && Poised(s, t)
    ensures CanActivate(n, run, t)
    decreases ToGo(s.threads[t])
  {
    if s.threads[t].StartActivate? {
      ThereAlready(n, run, t);
    } else {
      var a := Act(t, Go);
      PoisedStep(s, t);
      AfterNext(n, run, a);
      FreshNext(n, run, a);
      PoisedActivates(n, run + [a], t, Step(s, t, Go));
      OneStepBefore(n, run, a, t);
    }
  }

  lemma FreshNext(n: nat, run: seq<Act>, a: Act)
    requires FreshRun(n, run) && Fresh(After(n, run), a)
    ensures FreshRun(n, run + [a])
  {
    assert (run + [a])[..|run|] == run;
  }

  /** The positions of start at which a bump goes unseen. */
  predicate InTheGaps(s: State, pc: Pc) {
    || pc.StartTarget? || pc.StartDisarm? || pc.StartActivate?
    || ((pc.StartGeneration? || pc.StartReadWindow?) && s.window == pc.target)
  }

  predicate Bumps(pc: Pc) {
    pc.StopBump? || pc.PauseBump?
  }

  lemma BumpPoises(s: State, u: nat, t: nat)
    requires Mutex(s) && u < |s.threads| && t < |s.threads| && u != t && Bumps(s.threads[u])
    requires StartUnderway(s.threads[t]) && InTheGaps(s, s.threads[t])
    requires s.threads[t].StartTarget? || s.threads[t].StartGeneration? ==> s.threads[t].next > s.generation + 1
    ensures Poised(Step(s, u, Go), t)
  {
    assert Locked(s.threads[t]) && s.holder == t;
  }

  lemma BumpDooms(s: State, u: nat, t: nat)
    requires Ordered(s) && u < |s.threads| && t < |s.threads| && u != t && Bumps(s.threads[u])
    requires StartUnderway(s.threads[t]) && !InTheGaps(s, s.threads[t])
    ensures Doomed(Step(s, u, Go), t) && Step(s, u, Go).threads[t] == s.threads[t]
  {
  }

  /**
   * A stop or pause takes effect, by moving the counter, while another thread's start is under way:
   * that start can still activate exactly when it is between its comparison and its store, or past
   * its last look at the counter - and, where it has still to check its window, another stop has not
   * taken that away. In every reachable state and on every continuation.
   */
  lemma BumpDecides(n: nat, run: seq<Act>, u: nat, t: nat)
    requires FreshRun(n, run)
    requires var s := After(n, run);
             && u < |s.threads| && t < |s.threads| && u != t && Bumps(s.threads[u])
             && StartUnderway(s.threads[t]) && NamesWindow(s.threads[t])
             && (s.threads[t].StartTarget? || s.threads[t].StartGeneration? ==> s.threads[t].next > s.generation + 1)
    ensures CanActivate(n, run + [Act(u, Go)], t) <==> InTheGaps(After(n, run), After(n, run).threads[t])
  {
    var s, next := After(n, run), run + [Act(u, Go)];
    AlwaysInvariant(n, run);
    AlwaysOrdered(n, run);
    AfterNext(n, run, Act(u, Go));
    FreshNext(n, run, Act(u, Go));
    if InTheGaps(s, s.threads[t]) {
      BumpPoises(s, u, t);
      PoisedActivates(n, next, t, Step(s, u, Go));
    } else {
      BumpDooms(s, u, t);
      DoomedNever(n, next, t);
    }
  }

  // ---- from the very beginning ----

  /** Of two threads, thread 0 starts control of window 7 as generation 5, as far as its store; */
  function Starting(k: nat): State
    requires k <= 8
  {
    if k == 0 then Initially(2)
    else if k == 1 then State(false, false, 0, NO_WINDOW, NOBODY, [StartLock(7, 5), Idle], [], 0)
    else if k == 2 then State(false, false, 0, NO_WINDOW, 0, [StartActive(7, 5), Idle], [], 0)
    else if k == 3 then State(false, false, 0, NO_WINDOW, 0, [StartArming(7, 5), Idle], [], 0)
    else if k == 4 then State(false, false, 0, NO_WINDOW, 0, [StartWindow(7, 5), Idle], [], 0)
    else if k == 5 then State(false, false, 0, NO_WINDOW, 0, [StartBump(7, 5), Idle], [], 0)
    else if k == 6 then State(false, false, 1, NO_WINDOW, NOBODY, [StartRelock(7, 5, 1), Idle], [], 1)
    else if k == 7 then State(false, false, 1, NO_WINDOW, 0, [StartCompare(7, 5, 1), Idle], [], 1)
    else State(false, false, 1, NO_WINDOW, 0, [StartTarget(7, 5), Idle], [], 1)
  }

  /** then thread 1 stops, from beginning to end. */
  function Stopping(k: nat): State
    requires k <= 5
  {
    if k == 0 then Starting(8)
    else if k == 1 then Starting(8).(threads := [StartTarget(7, 5), StopActive])
    else if k == 2 then Starting(8).(threads := [StartTarget(7, 5), StopArming])
    else if k == 3 then Starting(8).(threads := [StartTarget(7, 5), StopBump])
    else if k == 4 then Starting(8).(threads := [StartTarget(7, 5), StopWindow], generation := 2)
    else Starting(8).(generation := 2)
  }

  function ActOf(t: nat, op: Operation, k: nat): Act {
    Act(t, if k == 0 then Begin(op) else Go)
  }

  lemma StartingClears(k: nat)
    requires k < 4
    ensures Step(Starting(k), 0, ActOf(0, Start(7, 5), k).choice) == Starting(k + 1)
  {
    assert Initially(2).threads == [Idle, Idle];
  }

  lemma StartingBumps(k: nat)
    requires 4 <= k < 6
    ensures Step(Starting(k), 0, Go) == Starting(k + 1)
  {
  }

  lemma StartingCompares(k: nat)
    requires 6 <= k < 8
    ensures Step(Starting(k), 0, Go) == Starting(k + 1)
  {
  }

  lemma StartingFresh(k: nat)
    requires k < 8
    ensures Fresh(Starting(k), ActOf(0, Start(7, 5), k))
  {
  }

  lemma StoppingStep(k: nat)
    requires k < 5
    ensures var a := ActOf(1, Stop, k);
            Fresh(Stopping(k), a) && Step(Stopping(k), 1, a.choice) == Stopping(k + 1)
  {
  }

  function Acts(t: nat, op: Operation, k: nat): seq<Act> {
    if k == 0 then [] else Acts(t, op, k - 1) + [ActOf(t, op, k - 1)]
  }

  ghost predicate Reaches(run: seq<Act>, s: State) {
    FreshRun(2, run) && After(2, run) == s
  }

  lemma ReachesNext(run: seq<Act>, a: Act, s: State, s': State)
    requires Reaches(run, s) && Fresh(s, a) && Step(s, a.thread, a.choice) == s'
    ensures Reaches(run + [a], s')
  {
    assert (run + [a])[..|run|] == run;
  }

  lemma {:induction false} StartRuns(k: nat)
    requires k <= 8
    ensures Reaches(Acts(0, Start(7, 5), k), Starting(k))
  {
    if k > 0 {
      StartRuns(k - 1);
      StartingFresh(k - 1);
      if k <= 4 {
        StartingClears(k - 1);
      } else if k <= 6 {
        StartingBumps(k - 1);
      } else {
        StartingCompares(k - 1);
      }
      ReachesNext(Acts(0, Start(7, 5), k - 1), ActOf(0, Start(7, 5), k - 1), Starting(k - 1), Starting(k));
    }
  }

  lemma {:induction false} StopRuns(k: nat)
    requires k <= 5
    ensures Reaches(Acts(0, Start(7, 5), 8) + Acts(1, Stop, k), Stopping(k))
  {
    var first := Acts(0, Start(7, 5), 8);
    if k == 0 {
      StartRuns(8);
      assert first + Acts(1, Stop, 0) == first;
    } else {
      var run, a := first + Acts(1, Stop, k - 1), ActOf(1, Stop, k - 1);
      StopRuns(k - 1);
      StoppingStep(k - 1);
      ReachesNext(run, a, Stopping(k - 1), Stopping(k));
      assert first + Acts(1, Stop, k) == run + [a];
    }
  }

  lemma StoppedIsPoised()
    ensures Poised(Stopping(5), 0) && Stopping(5).threads == [StartTarget(7, 5), Idle] && Stopping(5).generation == 2
  {
  }

  /** From the initial state: a stop that has run whole, and a start that still activates after it. */
  lemma StopLostFromTheStart()
    ensures var run := Acts(0, Start(7, 5), 8) + Acts(1, Stop, 5);
            && FreshRun(2, run) && After(2, run).threads == [StartTarget(7, 5), Idle] && After(2, run).generation == 2
            && CanActivate(2, run, 0)
  {
    StopRuns(5);
    StoppedIsPoised();
    PoisedActivates(2, Acts(0, Start(7, 5), 8) + Acts(1, Stop, 5), 0, Stopping(5));
  }
}
