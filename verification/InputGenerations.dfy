/**
 * The generation protocol of native/computer-observation/control.cpp: lock-free stop and pause race
 * with start and with the injector, both under inputMutex. Every access to a shared atomic is one
 * step of one thread, and any number of threads may be inside any of the operations. The counter
 * is unbounded.
 */
module InputGenerations {
  import opened Wrappers

  type Window = nat
  const NO_WINDOW: Window := 0

  /** What a thread is about to do. Comments give the statement. */
  datatype Pc =
    | Idle
    // stop
    | StopActive | StopArming | StopBump | StopWindow
    // pause
    | PauseActive | PauseArming(wasActive: bool) | PauseBump
    // start, first critical section
    | StartLock(target: Window, next: nat)
    | StartActive(target: Window, next: nat)
    | StartArming(target: Window, next: nat)
    | StartWindow(target: Window, next: nat)
    | StartBump(target: Window, next: nat)
    // start, second critical section
    | StartRelock(target: Window, next: nat, starting: nat)
    | StartCompare(target: Window, next: nat, starting: nat)
    | StartTarget(target: Window, next: nat)
    | StartGeneration(target: Window, next: nat)
    | StartArm(target: Window, next: nat)
    // start, the wait and its end
    | StartWait(target: Window, next: nat)
    | StartFinish(target: Window, next: nat, ready: bool)
    | StartReadArming(target: Window, next: nat)
    | StartReadGeneration(target: Window, next: nat)
    | StartReadWindow(target: Window, next: nat)
    | StartDisarm(next: nat)
    | StartActivate(next: nat)
    | StartGiveUp(next: nat)
    | StartGiveUpDisarm
    // injected
    | SendLock(expected: nat)
    | SendReadActive(expected: nat)
    | SendReadGeneration(expected: nat)
    | SendInput(expected: nat)
    | SendFailed

  datatype Operation = Stop | Pause | Start(target: Window, next: nat) | Inject(expected: nat)

  /** What the scheduler and the outside decide about a step. */
  datatype Choice =
    | Begin(op: Operation)
    | Go             // the only continuation, or the favourable one
    | Otherwise      // start's checks throw, the wait ends without Ready, SendInput sends a part

  /** A batch handed to SendInput, with the counter at that moment. */
  datatype Entry = Entry(expected: nat, actual: nat)

  datatype State = State(
    active: bool,
    arming: bool,
    generation: nat,
    window: Window,
    holder: int,         // the thread that holds inputMutex, or -1
    threads: seq<Pc>,
    log: seq<Entry>,
    closed: nat)         // the counter after the latest bump by start

  const NOBODY := -1

  predicate Locked(pc: Pc) {
    || pc.StartActive? || pc.StartArming? || pc.StartWindow? || pc.StartBump?
    || pc.StartCompare? || pc.StartTarget? || pc.StartGeneration? || pc.StartArm?
    || pc.StartReadArming? || pc.StartReadGeneration? || pc.StartReadWindow?
    || pc.StartDisarm? || pc.StartActivate? || pc.StartGiveUp? || pc.StartGiveUpDisarm?
    || pc.SendReadActive? || pc.SendReadGeneration? || pc.SendInput? || pc.SendFailed?
  }

  function Entered(op: Operation): Pc {
    match op
    case Stop => StopActive
    case Pause => PauseActive
    case Start(target, next) => StartLock(target, next)
    case Inject(expected) => SendLock(expected)
  }

  /** A thread that wants the mutex gets to `inside`, or keeps waiting. */
  function Acquired(s: State, inside: Pc, waiting: Pc): Pc {
    if s.holder == NOBODY then inside else waiting
  }

  // ---- where a thread goes next ----

  function NextOfStop(s: State, pc: Pc): Pc {
    match pc
    case StopActive => StopArming
    case StopArming => StopBump
    case StopBump => StopWindow
    case StopWindow => Idle
    case PauseActive => PauseArming(s.active)
    case PauseArming(was) => if was || s.arming then PauseBump else Idle
    case PauseBump => Idle
    case _ => pc
  }

  function NextOfStart(s: State, pc: Pc, c: Choice): Pc {
    match pc
    case StartLock(w, n) => Acquired(s, StartActive(w, n), pc)
    case StartActive(w, n) => StartArming(w, n)
    case StartArming(w, n) => StartWindow(w, n)
    case StartWindow(w, n) => StartBump(w, n)
    case StartBump(w, n) => StartRelock(w, n, s.generation + 1)
    case StartRelock(w, n, g) =>
      if c.Otherwise? || n == 0 then Idle else Acquired(s, StartCompare(w, n, g), pc)
    case StartCompare(w, n, g) => if s.generation != g then Idle else StartTarget(w, n)
    case StartTarget(w, n) => StartGeneration(w, n)
    case StartGeneration(w, n) => StartArm(w, n)
    case StartArm(w, n) => StartWait(w, n)
    case StartWait(w, n) => StartFinish(w, n, !c.Otherwise?)
    case _ => NextOfFinish(s, pc, c)
  }

  function NextOfFinish(s: State, pc: Pc, c: Choice): Pc {
    match pc
    case StartFinish(w, n, ready) => Acquired(s, if ready then StartReadArming(w, n) else StartGiveUp(n), pc)
    case StartReadArming(w, n) => if s.arming then StartReadGeneration(w, n) else StartGiveUp(n)
    case StartReadGeneration(w, n) => if s.generation == n then StartReadWindow(w, n) else StartGiveUp(n)
    // the same condition also asks whether the window is in the foreground
    case StartReadWindow(w, n) => if s.window == w && !c.Otherwise? then StartDisarm(n) else StartGiveUp(n)
    case StartDisarm(n) => StartActivate(n)
    case StartActivate(_) => Idle
    case StartGiveUp(n) => if s.generation == n then StartGiveUpDisarm else Idle
    case StartGiveUpDisarm => Idle
    case _ => pc
  }

  function NextOfSend(s: State, pc: Pc, c: Choice): Pc {
    match pc
    case SendLock(e) => Acquired(s, SendReadActive(e), pc)
    case SendReadActive(e) => if s.active then SendReadGeneration(e) else Idle
    case SendReadGeneration(e) => if s.generation == e then SendInput(e) else Idle
    case SendInput(_) => if c.Otherwise? then SendFailed else Idle
    case SendFailed => Idle
    case _ => pc
  }

  predicate InStop(pc: Pc) {
    || pc.StopActive? || pc.StopArming? || pc.StopBump? || pc.StopWindow?
    || pc.PauseActive? || pc.PauseArming? || pc.PauseBump?
  }

  predicate InSend(pc: Pc) {
    pc.SendLock? || pc.SendReadActive? || pc.SendReadGeneration? || pc.SendInput? || pc.SendFailed?
  }

  function Next(s: State, pc: Pc, c: Choice): Pc {
    if pc.Idle? then (if c.Begin? then Entered(c.op) else Idle)
    else if InStop(pc) then NextOfStop(s, pc)
    else if InSend(pc) then NextOfSend(s, pc, c)
    else NextOfStart(s, pc, c)
  }

  // ---- what the step does to the shared variables ----

  function Effect(s: State, pc: Pc): State {
    match pc
    case StopActive => s.(active := false)
    case StopArming => s.(arming := false)
    case StopBump => s.(generation := s.generation + 1)
    case StopWindow => s.(window := NO_WINDOW)
    case PauseActive => s.(active := false)
    case PauseArming(_) => s.(arming := false)
    case PauseBump => s.(generation := s.generation + 1)
    case StartActive(_, _) => s.(active := false)
    case StartArming(_, _) => s.(arming := false)
    case StartWindow(_, _) => s.(window := NO_WINDOW)
    case StartBump(_, _) => s.(generation := s.generation + 1, closed := s.generation + 1)
    case StartTarget(w, _) => s.(window := w)
    case StartGeneration(_, n) => s.(generation := n)
    case StartArm(_, _) => s.(arming := true)
    case StartDisarm(_) => s.(arming := false)
    case StartActivate(_) => s.(active := true)
    case StartGiveUpDisarm => s.(arming := false)
    case SendInput(e) => s.(log := s.log + [Entry(e, s.generation)])
    case SendFailed => s.(active := false)
    case _ => s
  }

  /** One step of thread `t`; a thread that waits leaves the state as it is. */
  function Step(s: State, t: nat, c: Choice): State {
    if t >= |s.threads| then s
    else
      var pc := Next(s, s.threads[t], c);
      Effect(s, s.threads[t]).(
        threads := s.threads[t := pc],
        holder := if Locked(pc) then t else if s.holder == t then NOBODY else s.holder)
  }

  function Initially(n: nat): State {
    State(false, false, 0, NO_WINDOW, NOBODY, seq(n, _ => Idle), [], 0)
  }

  datatype Act = Act(thread: nat, choice: Choice)

  function After(n: nat, run: seq<Act>): State {
    if run == [] then Initially(n)
    else
      var a := run[|run| - 1];
      Step(After(n, run[..|run| - 1]), a.thread, a.choice)
  }

  /** start stores a generation larger than the counter has ever been. */
  predicate Fresh(s: State, a: Act) {
    a.thread < |s.threads| && s.threads[a.thread].StartGeneration? ==> s.threads[a.thread].next > s.generation
  }

  ghost predicate FreshRun(n: nat, run: seq<Act>) {
    run == [] || (FreshRun(n, run[..|run| - 1]) && Fresh(After(n, run[..|run| - 1]), run[|run| - 1]))
  }

  // ---- safety ----

  /** How many batches of generation `e` were sent after the counter had left `e`. */
  function Late(log: seq<Entry>, e: int): nat {
    if log == [] then 0
    else
      var last := log[|log| - 1];
      Late(log[..|log| - 1], e) + if last.expected == e && last.actual != e then 1 else 0
  }

  ghost predicate Mutex(s: State) {
    forall t :: 0 <= t < |s.threads| && Locked(s.threads[t]) ==> s.holder == t
  }

  predicate Sending(s: State, t: int, e: int) {
    0 <= t < |s.threads| && s.threads[t].SendInput? && s.threads[t].expected == e
  }

  ghost predicate Invariant(s: State) {
    && Mutex(s)
    && s.closed <= s.generation
    && (forall t, e :: Sending(s, t, e) ==> s.closed <= e <= s.generation)
    && (forall e :: Late(s.log, e) > 0 ==> e < s.generation)
    && (forall e :: Late(s.log, e) <= 1)
    && (forall t, e :: Sending(s, t, e) ==> Late(s.log, e) == 0)
  }

  lemma LateStep(log: seq<Entry>, entry: Entry, e: int)
    ensures Late(log + [entry], e) == Late(log, e) + if entry.expected == e && entry.actual != e then 1 else 0
  {
    assert (log + [entry])[..|log|] == log;
  }

  /** A thread enters the mutex only when it is free. */
  lemma EntersFree(s: State, pc: Pc, c: Choice)
    requires Locked(Next(s, pc, c))
    ensures Locked(pc) || s.holder == NOBODY
  {
  }

  lemma MutexStep(s: State, a: Act)
    requires Mutex(s)
    ensures Mutex(Step(s, a.thread, a.choice))
  {
    var t, s' := a.thread, Step(s, a.thread, a.choice);
    if t < |s.threads| {
      var pc := Next(s, s.threads[t], a.choice);
      if Locked(pc) {
        EntersFree(s, s.threads[t], a.choice);
      }
      forall u | 0 <= u < |s'.threads| && Locked(s'.threads[u])
        ensures s'.holder == u
      {
        if u != t {
          assert Locked(s.threads[u]) && s.holder == u;
        }
      }
    }
  }

  /** Only the injector's check leads to a send. */
  lemma OnlyCheckSends(s: State, pc: Pc, c: Choice)
    requires Next(s, pc, c).SendInput?
    ensures pc == SendReadGeneration(s.generation) && Next(s, pc, c).expected == s.generation
  {
  }

  /** The data part of a step outside the injector's check and send. */
  ghost predicate Quiet(s: State, t: nat, s': State) {
    && s'.log == s.log
    && s'.generation >= s.generation
    && s'.closed <= s'.generation
    && (s'.closed == s.closed || (t < |s.threads| && s.threads[t].StartBump?))
    && |s'.threads| == |s.threads|
    && (forall u :: 0 <= u < |s.threads| && s'.threads[u].SendInput? ==> s'.threads[u] == s.threads[u])
  }

  /** What a step outside the injector's check and send does to the data. */
  lemma QuietEffect(s: State, pc: Pc)
    requires s.closed <= s.generation && (pc.StartGeneration? ==> pc.next > s.generation) && !pc.SendInput?
    ensures var s' := Effect(s, pc);
            && s'.log == s.log && s'.generation >= s.generation && s'.closed <= s'.generation
            && (s'.closed == s.closed || pc.StartBump?)
  {
  }

  /** A step of anything but the injector's check and send starts no send and logs nothing. */
  lemma OtherStep(s: State, a: Act)
    requires Invariant(s) && Fresh(s, a)
    requires a.thread < |s.threads| ==>
               !s.threads[a.thread].SendReadGeneration? && !s.threads[a.thread].SendInput?
    ensures Invariant(Step(s, a.thread, a.choice))
  {
    MutexStep(s, a);
    StepIsQuiet(s, a);
    QuietKeeps(s, a.thread, Step(s, a.thread, a.choice));
  }

  lemma StepIsQuiet(s: State, a: Act)
    requires s.closed <= s.generation && Fresh(s, a)
    requires a.thread < |s.threads| ==>
               !s.threads[a.thread].SendReadGeneration? && !s.threads[a.thread].SendInput?
    ensures Quiet(s, a.thread, Step(s, a.thread, a.choice))
  {
    if a.thread < |s.threads| {
      var pc := s.threads[a.thread];
      QuietEffect(s, pc);
      if Next(s, pc, a.choice).SendInput? {
        OnlyCheckSends(s, pc, a.choice);
      }
    }
  }

  lemma QuietKeeps(s: State, t: nat, s': State)
    requires Invariant(s) && Quiet(s, t, s') && Mutex(s')
    ensures Invariant(s')
  {
    forall u, e | Sending(s', u, e)
      ensures Sending(s, u, e) && s'.closed == s.closed
    {
      assert s'.threads[u] == s.threads[u];
      assert Sending(s, u, e);
      // start holds the mutex when it bumps, so nobody is about to send
      assert Locked(s.threads[u]);
    }
  }

  lemma CheckStep(s: State, a: Act)
    requires Invariant(s) && a.thread < |s.threads| && s.threads[a.thread].SendReadGeneration?
    ensures Invariant(Step(s, a.thread, a.choice))
  {
    var t := Step(s, a.thread, a.choice);
    MutexStep(s, a);
    // the check is made inside the mutex: no other thread is about to send
    assert Locked(s.threads[a.thread]);
    assert forall u :: 0 <= u < |s.threads| && Locked(s.threads[u]) ==> u == a.thread;
    forall u, e | Sending(t, u, e)
      ensures s.closed <= e <= s.generation && Late(s.log, e) == 0
    {
      assert u == a.thread;
    }
  }

  lemma SendInputStep(s: State, a: Act)
    requires Invariant(s) && a.thread < |s.threads| && s.threads[a.thread].SendInput?
    ensures Invariant(Step(s, a.thread, a.choice))
  {
    var t := Step(s, a.thread, a.choice);
    var e0 := s.threads[a.thread].expected;
    assert Sending(s, a.thread, e0);
    MutexStep(s, a);
    forall e
      ensures Late(t.log, e) <= 1 && (Late(t.log, e) > 0 ==> e < t.generation)
    {
      LateStep(s.log, Entry(e0, s.generation), e);
    }
    forall u, e
      ensures !Sending(t, u, e)
    {
      if 0 <= u < |s.threads| && u != a.thread {
        assert Locked(s.threads[a.thread]);
        assert s.threads[u].SendInput? ==> Locked(s.threads[u]);
      }
    }
  }

  lemma {:induction false} AlwaysInvariant(n: nat, run: seq<Act>)
    requires FreshRun(n, run)
    ensures Invariant(After(n, run))
    decreases |run|
  {
    if run != [] {
      var init, a := run[..|run| - 1], run[|run| - 1];
      AlwaysInvariant(n, init);
      var s := After(n, init);
      if a.thread < |s.threads| && s.threads[a.thread].SendReadGeneration? {
        CheckStep(s, a);
      } else if a.thread < |s.threads| && s.threads[a.thread].SendInput? {
        SendInputStep(s, a);
      } else {
        OtherStep(s, a);
      }
    }
  }

  /**
   * In every interleaving: of the batches of any generation, at most one is sent after the counter
   * has moved past it - one that had already passed its check.
   */
  lemma AtMostOneLateBatch(n: nat, run: seq<Act>, e: nat)
    requires FreshRun(n, run)
    ensures Late(After(n, run).log, e) <= 1
  {
    AlwaysInvariant(n, run);
  }

  /** Between `before` and `after` only batches of the generations from `before.closed` on were sent. */
  ghost predicate NoOld(before: State, after: State) {
    && before.closed <= after.closed && before.log <= after.log
    && forall i :: |before.log| <= i < |after.log| ==> after.log[i].expected >= before.closed
  }

  lemma NoOldStep(before: State, s: State, a: Act)
    requires NoOld(before, s) && Invariant(s) && Fresh(s, a)
    ensures NoOld(before, Step(s, a.thread, a.choice))
  {
    StepLogs(s, a);
  }

  lemma AfterNext(n: nat, run: seq<Act>, a: Act)
    ensures After(n, run + [a]) == Step(After(n, run), a.thread, a.choice)
    ensures FreshRun(n, run + [a]) ==> FreshRun(n, run) && Fresh(After(n, run), a)
  {
    assert (run + [a])[..|run|] == run;
  }

  /**
   * Once a start has bumped the counter inside the mutex, no batch of an earlier generation is
   * ever sent again, late or not.
   */
  lemma {:induction false} NothingOldAfterStart(n: nat, run: seq<Act>, more: seq<Act>)
    requires FreshRun(n, run + more)
    ensures NoOld(After(n, run), After(n, run + more))
    decreases |more|
  {
    if more == [] {
      assert run + more == run;
    } else {
      var init, last := more[..|more| - 1], more[|more| - 1];
      assert run + more == run + init + [last];
      AfterNext(n, run + init, last);
      NothingOldAfterStart(n, run, init);
      AlwaysInvariant(n, run + init);
      NoOldStep(After(n, run), After(n, run + init), last);
    }
  }

  /** What a step does to the counter and to the log. */
  lemma EffectGrows(s: State, pc: Pc)
    requires s.closed <= s.generation && (pc.StartGeneration? ==> pc.next > s.generation)
    ensures var s' := Effect(s, pc);
            && s.closed <= s'.closed && s.generation <= s'.generation
            && s'.log == if pc.SendInput? then s.log + [Entry(pc.expected, s.generation)] else s.log
  {
  }

  lemma StepLogs(s: State, a: Act)
    requires Invariant(s) && Fresh(s, a)
    ensures var s' := Step(s, a.thread, a.choice);
            && s.closed <= s'.closed && s.generation <= s'.generation
            && (s'.log == s.log || exists entry :: s'.log == s.log + [entry] && entry.expected >= s.closed)
  {
    if a.thread < |s.threads| {
      EffectGrows(s, s.threads[a.thread]);
      if s.threads[a.thread].SendInput? {
        assert Sending(s, a.thread, s.threads[a.thread].expected);
      }
    }
  }

  /** The bump of stop and pause invalidates the current generation for good. */
  lemma {:induction false} CounterOnlyGrows(n: nat, run: seq<Act>, more: seq<Act>)
    requires FreshRun(n, run + more)
    ensures After(n, run).generation <= After(n, run + more).generation
    decreases |more|
  {
    if more == [] {
      assert run + more == run;
    } else {
      var k := |more| - 1;
      assert run + more == run + more[..k] + [more[k]];
      AfterNext(n, run + more[..k], more[k]);
      CounterOnlyGrows(n, run, more[..k]);
      AlwaysInvariant(n, run + more[..k]);
      StepLogs(After(n, run + more[..k]), more[k]);
    }
  }
}
