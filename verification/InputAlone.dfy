/**
 * What each operation of native/computer-observation/control.cpp does when its thread runs it from
 * beginning to end and no other thread moves: that control starts, pauses and sends at all.
 */
module InputAlone {
  import opened Wrappers
  import opened InputGenerations

  function Iterate(f: State -> State, s: State, k: nat): State
    decreases k
  {
    if k == 0 then s else Iterate(f, f(s), k - 1)
  }

  lemma {:induction false} IterateOn(f: State -> State, s: State, j: nat, k: nat)
    ensures Iterate(f, s, j + k) == Iterate(f, Iterate(f, s, j), k)
    decreases j
  {
    if j > 0 {
      IterateOn(f, f(s), j - 1, k);
    }
  }

  function Going(t: nat): State -> State {
    (s: State) => Step(s, t, Go)
  }

  /** Thread `t` alone goes from one state to the other. */
  ghost predicate Leads(s: State, t: nat, s': State) {
    exists k: nat :: Iterate(Going(t), s, k) == s'
  }

  lemma LeadsOn(s: State, t: nat, mid: State, s': State)
    requires Leads(s, t, mid) && Leads(mid, t, s')
    ensures Leads(s, t, s')
  {
    LeadsBy(Going(t), s, t, mid, s');
  }

  lemma LeadsBy(f: State -> State, s: State, t: nat, mid: State, s': State)
    requires exists j: nat :: Iterate(f, s, j) == mid
    requires exists k: nat :: Iterate(f, mid, k) == s'
    ensures exists n: nat :: Iterate(f, s, n) == s'
  {
    var j: nat :| Iterate(f, s, j) == mid;
    var k: nat :| Iterate(f, mid, k) == s';
    IterateOn(f, s, j, k);
  }

  /** Thread `t` is about to do `pc`, inside the mutex or outside it, and everything else is as in `s`. */
  function At(s: State, t: nat, pc: Pc): State
    requires t < |s.threads|
  {
    s.(threads := s.threads[t := pc], holder := if Locked(pc) then t else NOBODY)
  }

  lemma Once(f: State -> State, a: State, b: State)
    requires f(a) == b
    ensures Iterate(f, a, 1) == b
  {
    assert Iterate(f, b, 0) == b;
  }

  /** What a step does to the shared variables does not depend on the threads. */
  lemma EffectLocal(s: State, threads: seq<Pc>, holder: int, pc: Pc)
    ensures Effect(s.(threads := threads, holder := holder), pc) == Effect(s, pc).(threads := threads, holder := holder)
  {
  }

  lemma MovesTo(s: State, t: nat, pc: Pc, s': State, next: Pc)
    requires t < |s.threads| && s' == Effect(s, pc) && next == Next(At(s, t, pc), pc, Go)
    ensures Step(At(s, t, pc), t, Go) == At(s', t, next)
  {
    var a := At(s, t, pc);
    EffectLocal(s, s.threads, s.holder, pc);
    EffectLocal(s, a.threads, a.holder, pc);
    assert a.threads[t := next] == s.threads[t := next];
  }

  lemma Does(s: State, t: nat, pc: Pc, s': State, next: Pc)
    requires t < |s.threads| && s' == Effect(s, pc) && next == Next(At(s, t, pc), pc, Go)
    ensures Leads(At(s, t, pc), t, At(s', t, next))
  {
    MovesTo(s, t, pc, s', next);
    Once(Going(t), At(s, t, pc), At(s', t, next));
  }

  /** One more step of a thread that has come to `pc`. */
  lemma Then(a: State, t: nat, s: State, pc: Pc, s': State, next: Pc)
    requires t < |s.threads| && Leads(a, t, At(s, t, pc)) && s' == Effect(s, pc) && next == Next(At(s, t, pc), pc, Go)
    ensures Leads(a, t, At(s', t, next))
  {
    Does(s, t, pc, s', next);
    LeadsOn(a, t, At(s, t, pc), At(s', t, next));
  }

  lemma Begins(s: State, t: nat, op: Operation)
    requires t < |s.threads| && s.threads[t] == Idle && s.holder == NOBODY
    ensures Step(s, t, Begin(op)) == At(s, t, Entered(op))
  {
  }

  // ---- start ----

  function Off(s: State): State {
    s.(active := false, arming := false)
  }

  function Bumped(s: State): State {
    s.(window := NO_WINDOW, generation := s.generation + 1, closed := s.generation + 1)
  }

  lemma StartSwitchesOff(s: State, t: nat, w: Window, n: nat)
    requires t < |s.threads|
    ensures Leads(At(s, t, StartLock(w, n)), t, At(Off(s), t, StartWindow(w, n)))
  {
    var a := At(s, t, StartLock(w, n));
    var s1 := s.(active := false);
    Does(s, t, StartLock(w, n), s, StartActive(w, n));
    Then(a, t, s, StartActive(w, n), s1, StartArming(w, n));
    Then(a, t, s1, StartArming(w, n), Off(s), StartWindow(w, n));
  }

  lemma StartBumps(s: State, t: nat, w: Window, n: nat)
    requires t < |s.threads|
    ensures Leads(At(s, t, StartWindow(w, n)), t, At(Bumped(s), t, StartRelock(w, n, s.generation + 1)))
  {
    var a := At(s, t, StartWindow(w, n));
    var s1 := s.(window := NO_WINDOW);
    Does(s, t, StartWindow(w, n), s1, StartBump(w, n));
    Then(a, t, s1, StartBump(w, n), Bumped(s), StartRelock(w, n, s.generation + 1));
  }

  /** The first critical section: everything off, and the counter moved. */
  lemma StartClears(s: State, t: nat, w: Window, n: nat)
    requires t < |s.threads|
    ensures Leads(At(s, t, StartLock(w, n)), t, At(Bumped(Off(s)), t, StartRelock(w, n, s.generation + 1)))
  {
    StartSwitchesOff(s, t, w, n);
    StartBumps(Off(s), t, w, n);
    LeadsOn(At(s, t, StartLock(w, n)), t, At(Off(s), t, StartWindow(w, n)),
            At(Bumped(Off(s)), t, StartRelock(w, n, s.generation + 1)));
  }

  /** The second, with the counter where the first left it: target and generation stored, and armed. */
  lemma StartStores(s: State, t: nat, w: Window, n: nat)
    requires t < |s.threads| && n > 0
    ensures Leads(At(s, t, StartRelock(w, n, s.generation)), t,
                  At(s.(window := w, generation := n, arming := true), t, StartWait(w, n)))
  {
    var g := s.generation;
    var a := At(s, t, StartRelock(w, n, g));
    var s1 := s.(window := w);
    var s2 := s1.(generation := n);
    Does(s, t, StartRelock(w, n, g), s, StartCompare(w, n, g));
    Then(a, t, s, StartCompare(w, n, g), s, StartTarget(w, n));
    Then(a, t, s, StartTarget(w, n), s1, StartGeneration(w, n));
    Then(a, t, s1, StartGeneration(w, n), s2, StartArm(w, n));
    Then(a, t, s2, StartArm(w, n), s2.(arming := true), StartWait(w, n));
  }

  lemma StartWaits(s: State, t: nat, w: Window, n: nat)
    requires t < |s.threads|
    ensures Leads(At(s, t, StartWait(w, n)), t, At(s, t, StartReadArming(w, n)))
  {
    Does(s, t, StartWait(w, n), s, StartFinish(w, n, true));
    Then(At(s, t, StartWait(w, n)), t, s, StartFinish(w, n, true), s, StartReadArming(w, n));
  }

  /** The wait, and what is looked at again after it. */
  lemma StartLooks(s: State, t: nat, w: Window, n: nat)
    requires t < |s.threads| && s.arming && s.generation == n && s.window == w
    ensures Leads(At(s, t, StartWait(w, n)), t, At(s, t, StartDisarm(n)))
  {
    var a := At(s, t, StartWait(w, n));
    StartWaits(s, t, w, n);
    Then(a, t, s, StartReadArming(w, n), s, StartReadGeneration(w, n));
    Then(a, t, s, StartReadGeneration(w, n), s, StartReadWindow(w, n));
    Then(a, t, s, StartReadWindow(w, n), s, StartDisarm(n));
  }

  /** The last critical section: active. */
  lemma StartActivates(s: State, t: nat, w: Window, n: nat)
    requires t < |s.threads| && s.arming && s.generation == n && s.window == w
    ensures Leads(At(s, t, StartWait(w, n)), t, At(s.(arming := false, active := true), t, Idle))
  {
    var a := At(s, t, StartWait(w, n));
    var s1 := s.(arming := false);
    StartLooks(s, t, w, n);
    Then(a, t, s, StartDisarm(n), s1, StartActivate(n));
    Then(a, t, s1, StartActivate(n), s1.(active := true), Idle);
  }

  /** A start that nobody disturbs ends with control active, of its window and generation. */
  lemma StartAlone(s: State, t: nat, w: Window, n: nat)
    requires t < |s.threads| && s.threads[t] == Idle && s.holder == NOBODY && n > 0
    ensures Leads(Step(s, t, Begin(Start(w, n))), t,
                  s.(active := true, arming := false, window := w, generation := n, closed := s.generation + 1))
  {
    var a := Bumped(Off(s));
    var b := a.(window := w, generation := n, arming := true);
    Begins(s, t, Start(w, n));
    StartClears(s, t, w, n);
    StartStores(a, t, w, n);
    StartActivates(b, t, w, n);
    LeadsOn(At(s, t, StartLock(w, n)), t, At(a, t, StartRelock(w, n, a.generation)), At(b, t, StartWait(w, n)));
    LeadsOn(At(s, t, StartLock(w, n)), t, At(b, t, StartWait(w, n)), At(b.(arming := false, active := true), t, Idle));
    assert s.threads[t := Idle] == s.threads;
  }

  /** If the foreground is not kept, start gives up, and disarms. */
  lemma GivesUp(s: State, t: nat, w: Window, n: nat)
    requires t < |s.threads| && s.arming && s.generation == n && s.window == w
    ensures Leads(Step(At(s, t, StartReadWindow(w, n)), t, Otherwise), t, At(s.(arming := false), t, Idle))
  {
    var a := At(s, t, StartReadWindow(w, n));
    assert a.threads[t := StartGiveUp(n)] == s.threads[t := StartGiveUp(n)];
    assert Step(a, t, Otherwise) == At(s, t, StartGiveUp(n));
    Does(s, t, StartGiveUp(n), s, StartGiveUpDisarm);
    Then(At(s, t, StartGiveUp(n)), t, s, StartGiveUpDisarm, s.(arming := false), Idle);
  }

  /** And leaves arming alone if another operation has moved the counter. */
  lemma GivesUpQuietly(s: State, t: nat, n: nat)
    requires t < |s.threads| && s.generation != n
    ensures Leads(At(s, t, StartGiveUp(n)), t, At(s, t, Idle))
  {
    Does(s, t, StartGiveUp(n), s, Idle);
  }

  // ---- pause ----

  /** A pause switches control off, and moves the counter exactly if it was on or about to be. */
  lemma PauseAlone(s: State, t: nat)
    requires t < |s.threads| && s.threads[t] == Idle && s.holder == NOBODY
    ensures Leads(Step(s, t, Begin(Pause)), t,
                  s.(active := false, arming := false, generation := s.generation + if s.active || s.arming then 1 else 0))
  {
    var a := At(s, t, PauseActive);
    var s1 := s.(active := false);
    var s2 := s1.(arming := false);
    Begins(s, t, Pause);
    Does(s, t, PauseActive, s1, PauseArming(s.active));
    if s.active || s.arming {
      Then(a, t, s1, PauseArming(s.active), s2, PauseBump);
      Then(a, t, s2, PauseBump, s2.(generation := s.generation + 1), Idle);
    } else {
      Then(a, t, s1, PauseArming(s.active), s2, Idle);
    }
    assert s.threads[t := Idle] == s.threads;
  }

  // ---- injected ----

  /** A batch is sent exactly when control is active and of the generation it is for. */
  lemma InjectAlone(s: State, t: nat, e: nat)
    requires t < |s.threads| && s.threads[t] == Idle && s.holder == NOBODY
    ensures Leads(Step(s, t, Begin(Inject(e))), t,
                  s.(log := s.log + if s.active && s.generation == e then [Entry(e, e)] else []))
  {
    var a := At(s, t, SendLock(e));
    Begins(s, t, Inject(e));
    Does(s, t, SendLock(e), s, SendReadActive(e));
    if !s.active {
      Then(a, t, s, SendReadActive(e), s, Idle);
    } else {
      Then(a, t, s, SendReadActive(e), s, SendReadGeneration(e));
      if s.generation == e {
        Then(a, t, s, SendReadGeneration(e), s, SendInput(e));
        Then(a, t, s, SendInput(e), s.(log := s.log + [Entry(e, e)]), Idle);
      } else {
        Then(a, t, s, SendReadGeneration(e), s, Idle);
      }
    }
    assert s.threads[t := Idle] == s.threads && s.log + [] == s.log;
  }

  /** And a batch that goes out in part ends control. */
  lemma PartialEndsControl(s: State, t: nat, e: nat)
    requires t < |s.threads|
    ensures Leads(Step(At(s, t, SendInput(e)), t, Otherwise), t,
                  At(s.(active := false, log := s.log + [Entry(e, s.generation)]), t, Idle))
  {
    var s1 := s.(log := s.log + [Entry(e, s.generation)]);
    var a := At(s, t, SendInput(e));
    assert a.threads[t := SendFailed] == s.threads[t := SendFailed];
    assert Step(a, t, Otherwise) == At(s1, t, SendFailed);
    Does(s1, t, SendFailed, s1.(active := false), Idle);
  }
}
