/**
 * That the outbox of src/main/services/flow-operation-outbox.ts settles: which replaces it takes and
 * what it reads, that every promise is settled once, and that what is waiting gets written.
 */
module OutboxProgress {
  import opened Wrappers
  import opened FlowOutbox

  // ---- what is taken and read ----

  /** A replace is taken exactly with an id of 1 to 256 characters and at most 2000 operations, all valid. */
  lemma TakenExactly(s: State, r: Replace)
    ensures ReplaceSpec(s, r).changes ==
            s.changes + if 1 <= |r.flow| <= 256 && |r.items| <= 2000 && (forall x <- r.items :: x.Operation?) then [r] else []
  {
    if forall x <- r.items :: x.Operation? {
      assert forall i :: 0 <= i < |r.items| ==> r.items[i] in r.items;
    }
  }

  /** A file is read exactly if it is an envelope of either generation, of at most 2 MB. */
  lemma ReadExactly(c: Content)
    ensures ReadBack(c) ==
            if c.Envelope? && c.operations.Some? && c.bytes <= 2097152
               && (c.generation == "flow-parameters-2" || c.generation == "flow-composable-1")
            then Normalized(c.operations.value) else map[]
  {
  }

  lemma {:induction false} OperationsJoin(a: seq<Item>, b: seq<Item>)
    ensures Operations(a + b) == Operations(a) + Operations(b)
    decreases |b|
  {
    if b == [] {
      assert a + b == a;
    } else {
      var n := |b| - 1;
      assert (a + b)[..|a + b| - 1] == a + b[..n] && (a + b)[|a + b| - 1] == b[n];
      OperationsJoin(a, b[..n]);
    }
  }

  /** A flow read from the file keeps the last 2000 of its valid operations, in order, and nothing else. */
  lemma KeptExactly(a: seq<Item>, x: Item, b: seq<Item>)
    ensures Kept(List([])) == []
    ensures Operations([x]) == if x.Operation? then [x] else []
    ensures Operations(a + [x] + b) == Operations(a) + Operations([x]) + Operations(b)
    ensures var all, kept := Operations(a), Kept(List(a));
            |kept| == (if |all| <= 2000 then |all| else 2000) && kept == all[|all| - |kept|..]
  {
    assert [x][..0] == [];
    OperationsJoin(a + [x], b);
    OperationsJoin(a, [x]);
    assert Operations(a)[0..] == Operations(a);
  }

  // ---- every promise is settled once ----

  function WaitersOf(jobs: seq<Job>): multiset<Waiter> {
    if jobs == [] then multiset{} else multiset(jobs[0].waiters) + WaitersOf(jobs[1..])
  }

  lemma {:induction false} WaitersAppend(jobs: seq<Job>, j: Job)
    ensures WaitersOf(jobs + [j]) == WaitersOf(jobs) + multiset(j.waiters)
  {
    if jobs == [] {
      assert jobs + [j] == [j] && [j][1..] == [];
    } else {
      assert (jobs + [j])[1..] == jobs[1..] + [j];
      WaitersAppend(jobs[1..], j);
    }
  }

  /** Where every promise is: still waiting for the timer, with a write, resolved or rejected. */
  function Everyone(s: State): multiset<Waiter> {
    multiset(s.waiting) + WaitersOf(s.jobs) + multiset(s.resolved) + multiset(s.rejected)
  }

  function Promised(n: nat): multiset<Waiter> {
    if n == 0 then multiset{} else Promised(n - 1) + multiset{Waiter(n)}
  }

  ghost predicate Accounted(s: State) {
    Everyone(s) == Promised(|s.changes|) && (s.waiting != [] <==> s.timer)
  }

  lemma ReplaceAccounted(s: State, r: Replace)
    requires Accounted(s)
    ensures Accounted(ReplaceSpec(s, r))
  {
    if Accepted(r) {
      var t := ReplaceSpec(s, r);
      assert multiset(t.waiting) == multiset(s.waiting) + multiset{Waiter(|t.changes|)};
    }
  }

  lemma TimerAccounted(s: State)
    requires Accounted(s)
    ensures Accounted(TimerSpec(s))
  {
    WaitersAppend(s.jobs, Job(s.document, |s.changes|, s.waiting));
  }

  lemma FailAccounted(s: State)
    requires Accounted(s)
    ensures Accounted(WriteFailsSpec(s))
  {
    if s.jobs != [] {
      assert multiset(s.rejected + s.jobs[0].waiters) == multiset(s.rejected) + multiset(s.jobs[0].waiters);
    }
  }

  lemma RenameAccounted(s: State, size: Document -> nat)
    requires Accounted(s)
    ensures Accounted(RenameSpec(s, size))
  {
    if s.jobs != [] {
      assert multiset(s.resolved + s.jobs[0].waiters) == multiset(s.resolved) + multiset(s.jobs[0].waiters);
    }
  }

  lemma StepAccounted(s: State, e: Event, size: Document -> nat)
    requires Accounted(s)
    ensures Accounted(Handled(s, e, size))
  {
    FailAccounted(s);
    match e
    case ReplaceArrives(r) => ReplaceAccounted(s, r);
    case TimerFires => TimerAccounted(s);
    case Rename => RenameAccounted(s, size);
    case _ =>
  }

  /** On every run each accepted replace has one promise, waiting, resolved or rejected, and never two of these. */
  lemma {:induction false} SettledOnce(disk: Content, size: Document -> nat, run: seq<Event>)
    ensures Accounted(After(disk, size, run))
    decreases |run|
  {
    if run != [] {
      SettledOnce(disk, size, run[..|run| - 1]);
      StepAccounted(After(disk, size, run[..|run| - 1]), run[|run| - 1], size);
    }
  }

  // ---- what is waiting gets written ----

  /** Each write in turn writes its temporary file and renames it; one too large fails at the first step. */
  function Written(s: State, size: Document -> nat): State {
    Handled(Handled(s, WriteTemporary, size), Rename, size)
  }

  function AllWritten(s: State, size: Document -> nat): State
    decreases |s.jobs|
  {
    if s.jobs == [] then s else AllWritten(Written(s, size), size)
  }

  /** What a write, undisturbed, makes of its waiters and of the file. */
  lemma WrittenExactly(s: State, size: Document -> nat)
    requires s.jobs != [] && (s.stage.TemporaryWritten? ==> size(s.jobs[0].snapshot) <= 2097152)
    ensures var t, job := Written(s, size), s.jobs[0];
            && t.jobs == s.jobs[1..] && t.stage.Queued? && t.document == s.document && t.changes == s.changes
            && t.waiting == s.waiting && t.timer == s.timer
            && if size(job.snapshot) <= 2097152
               then t.resolved == s.resolved + job.waiters && t.rejected == s.rejected && t.diskVersion == job.version
                    && t.disk == Envelope("flow-parameters-2", Some(Properties(job.snapshot)), size(job.snapshot))
               else t.resolved == s.resolved && t.rejected == s.rejected + job.waiters && t.diskVersion == s.diskVersion
                    && t.disk == s.disk
  {
  }

  ghost predicate Startable(s: State, size: Document -> nat) {
    s.jobs != [] && s.stage.TemporaryWritten? ==> size(s.jobs[0].snapshot) <= 2097152
  }

  ghost predicate AllFit(s: State, size: Document -> nat) {
    forall i :: 0 <= i < |s.jobs| ==> size(s.jobs[i].snapshot) <= 2097152
  }

  lemma {:induction false} AllWrittenExactly(s: State, size: Document -> nat)
    requires Startable(s, size)
    ensures var t := AllWritten(s, size);
            && t.jobs == [] && t.waiting == s.waiting && t.timer == s.timer && t.changes == s.changes && t.document == s.document
            && (AllFit(s, size) ==> t.rejected == s.rejected)
            && (AllFit(s, size) && s.jobs != [] ==> t.diskVersion == s.jobs[|s.jobs| - 1].version)
            && multiset(t.resolved) + multiset(t.rejected) == multiset(s.resolved) + multiset(s.rejected) + WaitersOf(s.jobs)
    decreases |s.jobs|
  {
    if s.jobs != [] {
      WrittenExactly(s, size);
      var t := Written(s, size);
      assert multiset(s.resolved + s.jobs[0].waiters) == multiset(s.resolved) + multiset(s.jobs[0].waiters);
      assert multiset(s.rejected + s.jobs[0].waiters) == multiset(s.rejected) + multiset(s.jobs[0].waiters);
      AllWrittenExactly(t, size);
    }
  }

  lemma {:induction false} AllWrittenKeeps(s: State, size: Document -> nat)
    requires Invariant(s, size)
    ensures Invariant(AllWritten(s, size), size)
    decreases |s.jobs|
  {
    if s.jobs != [] {
      StepKeeps(s, WriteTemporary, size);
      StepKeeps(Handled(s, WriteTemporary, size), Rename, size);
      WrittenExactly(s, size);
      AllWrittenKeeps(Written(s, size), size);
    }
  }

  lemma UpToDate(t: State, size: Document -> nat)
    requires Invariant(t, size) && t.diskVersion == |t.changes|
    ensures ReadBack(t.disk) == t.document
  {
  }

  /** After the timer the first write can go through, and nobody waits any more. */
  lemma TimerFired(s: State, size: Document -> nat)
    requires Invariant(s, size) && Accounted(s)
    ensures var u := Handled(s, TimerFires, size);
            && Invariant(u, size) && Accounted(u) && Startable(u, size) && u.waiting == []
            && u.changes == s.changes && u.document == s.document && u.rejected == s.rejected
            && (s.timer ==> u.jobs != [] && u.jobs[|u.jobs| - 1].version == |s.changes|)
  {
    TimerAccounted(s);
    TimerKeeps(s, size);
  }

  lemma SettlesFrom(u: State, size: Document -> nat)
    requires Invariant(u, size) && Accounted(u) && Startable(u, size) && u.waiting == []
    ensures var t := AllWritten(u, size);
            && t.jobs == [] && t.waiting == []
            && multiset(t.resolved) + multiset(t.rejected) == Promised(|u.changes|)
            && (AllFit(u, size) ==> t.rejected == u.rejected)
            && (AllFit(u, size) && u.jobs != [] && u.jobs[|u.jobs| - 1].version == |u.changes| ==> ReadBack(t.disk) == u.document)
  {
    AllWrittenExactly(u, size);
    AllWrittenKeeps(u, size);
    if AllFit(u, size) && u.jobs != [] && u.jobs[|u.jobs| - 1].version == |u.changes| {
      UpToDate(AllWritten(u, size), size);
    }
  }

  /**
   * From any reachable state, once the timer fires and the writes go through, every promise is
   * settled; and if the documents fit into 2 MB, none is rejected and the file reads back as the
   * document.
   */
  lemma Settles(disk: Content, size: Document -> nat, run: seq<Event>)
    ensures var s := After(disk, size, run);
            var t := AllWritten(Handled(s, TimerFires, size), size);
            && t.jobs == [] && t.waiting == []
            && multiset(t.resolved) + multiset(t.rejected) == Promised(|s.changes|)
            && (AllFit(Handled(s, TimerFires, size), size) ==> t.rejected == s.rejected)
            && (AllFit(Handled(s, TimerFires, size), size) && s.timer ==> ReadBack(t.disk) == s.document)
  {
    AlwaysInvariant(disk, size, run);
    SettledOnce(disk, size, run);
    TimerFired(After(disk, size, run), size);
    SettlesFrom(Handled(After(disk, size, run), TimerFires, size), size);
  }
}
