/**
 * The flow-operation outbox of src/main/services/flow-operation-outbox.ts: an in-memory document,
 * debounced and chained writes through a temporary file, and what survives a crash. How many bytes
 * a document takes as JSON is a parameter; parsing undoes printing.
 */
module FlowOutbox {
  import opened Wrappers

  const MAX_DOCUMENT_BYTES := 2 * 1024 * 1024
  const MAX_OPERATIONS := 2000
  const MAX_FLOW_ID := 256

  /** A JSON array element: an operation has string mutationId and kind. */
  datatype Item = Operation(mutationId: string, kind: string, rest: string) | OtherValue(json: string)

  type Document = map<string, seq<Item>>

  datatype Property = List(items: seq<Item>) | NotAList

  /** What the file holds, as the reader parses it. */
  datatype Content =
    | Missing
    | Garbage
    | Envelope(generation: string, operations: Option<map<string, Property>>, bytes: nat)

  /** Assigning this property of a plain object sets its prototype instead. */
  const PROTO := "__proto__"

  function Put(d: Document, flow: string, items: seq<Item>): Document {
    if flow == PROTO then d else d[flow := items]
  }

  // ---- reading ----

  function Operations(items: seq<Item>): seq<Item> {
    if items == [] then []
    else Operations(items[..|items| - 1]) + if items[|items| - 1].Operation? then [items[|items| - 1]] else []
  }

  function LastOnes(items: seq<Item>): seq<Item> {
    if |items| > MAX_OPERATIONS then items[|items| - MAX_OPERATIONS..] else items
  }

  function Kept(p: Property): seq<Item> {
    if p.List? then LastOnes(Operations(p.items)) else []
  }

  predicate FlowIdOk(flow: string) {
    1 <= |flow| <= MAX_FLOW_ID
  }

  function Normalized(value: map<string, Property>): Document {
    map flow | flow in value && FlowIdOk(flow) && Kept(value[flow]) != [] && flow != PROTO :: Kept(value[flow])
  }

  method NormalizeDocument(value: map<string, Property>) returns (result: Document)
    ensures result == Normalized(value)
  {
    result := map[];
    var entries := value.Keys;
    while entries != {}
      invariant entries <= value.Keys
      invariant result == Normalized(map flow | flow in value && flow !in entries :: value[flow])
      decreases entries
    {
      var flow :| flow in entries;
      entries := entries - {flow};
      if !FlowIdOk(flow) || value[flow].NotAList? {
        continue;
      }
      var normalized := LastOnes(Operations(value[flow].items));
      if normalized != [] {
        result := Put(result, flow, normalized);
      }
    }
    assert (map flow | flow in value && flow !in {} :: value[flow]) == value;
  }

  predicate CurrentGeneration(generation: string) {
    generation == "flow-composable-1" || generation == "flow-parameters-2"
  }

  function ReadBack(c: Content): Document {
    if c.Envelope? && c.bytes <= MAX_DOCUMENT_BYTES && CurrentGeneration(c.generation) && c.operations.Some?
    then Normalized(c.operations.value)
    else map[]
  }

  // ---- documents that reading leaves alone ----

  ghost predicate Normal(d: Document) {
    forall flow :: flow in d ==>
      && FlowIdOk(flow) && flow != PROTO
      && 1 <= |d[flow]| <= MAX_OPERATIONS
      && forall i :: 0 <= i < |d[flow]| ==> d[flow][i].Operation?
  }

  function Properties(d: Document): map<string, Property> {
    map flow | flow in d :: List(d[flow])
  }

  lemma {:induction false} OperationsAll(items: seq<Item>)
    ensures forall i :: 0 <= i < |Operations(items)| ==> Operations(items)[i].Operation?
    ensures (forall i :: 0 <= i < |items| ==> items[i].Operation?) ==> Operations(items) == items
  {
    if items != [] {
      OperationsAll(items[..|items| - 1]);
    }
  }

  lemma ReadingGivesNormal(value: map<string, Property>)
    ensures Normal(Normalized(value))
  {
    forall flow | flow in Normalized(value)
      ensures forall i :: 0 <= i < |Normalized(value)[flow]| ==> Normalized(value)[flow][i].Operation?
    {
      OperationsAll(value[flow].items);
    }
  }

  /** Printed and read back, a normal document is itself. */
  lemma NormalIsFixed(d: Document)
    requires Normal(d)
    ensures Normalized(Properties(d)) == d
  {
    forall flow | flow in d
      ensures Kept(Properties(d)[flow]) == d[flow]
    {
      OperationsAll(d[flow]);
    }
  }

  // ---- replacing ----

  datatype Replace = Replace(flow: string, items: seq<Item>)

  predicate Accepted(r: Replace) {
    FlowIdOk(r.flow) && (forall i :: 0 <= i < |r.items| ==> r.items[i].Operation?) && |r.items| <= MAX_OPERATIONS
  }

  function Replaced(d: Document, r: Replace): Document {
    if r.items == [] then (if r.flow == PROTO then d else d - {r.flow}) else Put(d, r.flow, r.items)
  }

  function ReplacedAll(d: Document, rs: seq<Replace>): Document {
    if rs == [] then d else Replaced(ReplacedAll(d, rs[..|rs| - 1]), rs[|rs| - 1])
  }

  lemma {:induction false} ReplacedNormal(d: Document, rs: seq<Replace>)
    requires Normal(d) && forall i :: 0 <= i < |rs| ==> Accepted(rs[i])
    ensures Normal(ReplacedAll(d, rs))
  {
    if rs != [] {
      ReplacedNormal(d, rs[..|rs| - 1]);
      assert Accepted(rs[|rs| - 1]);
    }
  }

  function ItemsOf(d: Document, flow: string): seq<Item> {
    if flow in d then d[flow] else []
  }

  /** The last replacement of `flow` among the changes from `n` on; `n` itself is one. */
  ghost predicate LatestFor(rs: seq<Replace>, flow: string, n: nat, k: nat) {
    n <= k < |rs| && rs[k].flow == flow && forall i :: k < i < |rs| ==> rs[i].flow != flow
  }

  /** A document holds, for a flow, what its latest replacement gave it. */
  lemma {:induction false} LatestWins(d: Document, rs: seq<Replace>, flow: string, k: nat)
    requires LatestFor(rs, flow, k, k) && flow != PROTO
    ensures ItemsOf(ReplacedAll(d, rs), flow) == rs[k].items
    decreases |rs|
  {
    if k < |rs| - 1 {
      var init := rs[..|rs| - 1];
      assert LatestFor(init, flow, k, k);
      LatestWins(d, init, flow, k);
      assert rs[|rs| - 1].flow != flow;
    }
  }

  lemma {:induction false} LatestExists(rs: seq<Replace>, n: nat) returns (k: nat)
    requires n < |rs|
    ensures LatestFor(rs, rs[n].flow, n, k)
    decreases |rs|
  {
    if rs[|rs| - 1].flow == rs[n].flow {
      k := |rs| - 1;
    } else {
      k := LatestExists(rs[..|rs| - 1], n);
    }
  }

  // ---- the running outbox ----

  /** A pending promise of a replace, by the version its change made. */
  datatype Waiter = Waiter(version: nat)

  datatype Job = Job(snapshot: Document, version: nat, waiters: seq<Waiter>)

  datatype Stage = Queued | TemporaryWritten

  datatype State = State(
    document: Document,         // the cached document
    changes: seq<Replace>,     // the changes made to it since it was loaded, in order
    loaded: Document,           // what loading gave
    timer: bool,
    waiting: seq<Waiter>,       // pendingWriteWaiters
    jobs: seq<Job>,             // the writes chained on writeTail, the first one under way
    stage: Stage,
    disk: Content,
    diskVersion: nat,           // how many of the changes the file holds
    resolved: seq<Waiter>,
    rejected: seq<Waiter>)

  function Loaded(disk: Content): State {
    var d := ReadBack(disk);
    State(d, [], d, false, [], [], Queued, disk, 0, [], [])
  }

  function ReplaceSpec(s: State, r: Replace): State {
    if !Accepted(r) then s
    else
      var changes := s.changes + [r];
      s.(document := Replaced(s.document, r), changes := changes, timer := true,
         waiting := s.waiting + [Waiter(|changes|)])
  }

  function TimerSpec(s: State): State {
    if !s.timer then s
    else s.(timer := false, waiting := [], jobs := s.jobs + [Job(s.document, |s.changes|, s.waiting)])
  }

  /** The write under way throws: too large, or the file system refuses. */
  function WriteFailsSpec(s: State): State {
    if s.jobs == [] then s
    else s.(jobs := s.jobs[1..], stage := Queued, rejected := s.rejected + s.jobs[0].waiters)
  }

  function WriteTemporarySpec(s: State, size: Document -> nat): State {
    if s.jobs == [] || s.stage != Queued then s
    else if size(s.jobs[0].snapshot) > MAX_DOCUMENT_BYTES then WriteFailsSpec(s)
    else s.(stage := TemporaryWritten)
  }

  function RenameSpec(s: State, size: Document -> nat): State {
    if s.jobs == [] || s.stage != TemporaryWritten then s
    else
      var job := s.jobs[0];
      s.(jobs := s.jobs[1..], stage := Queued,
         disk := Envelope("flow-parameters-2", Some(Properties(job.snapshot)), size(job.snapshot)),
         diskVersion := job.version, resolved := s.resolved + job.waiters)
  }

  datatype Event = ReplaceArrives(r: Replace) | TimerFires | WriteTemporary | Rename | WriteFails

  function Handled(s: State, e: Event, size: Document -> nat): State {
    match e
    case ReplaceArrives(r) => ReplaceSpec(s, r)
    case TimerFires => TimerSpec(s)
    case WriteTemporary => WriteTemporarySpec(s, size)
    case Rename => RenameSpec(s, size)
    case WriteFails => WriteFailsSpec(s)
  }

  /** The module's variables; each method is what runs between two awaits. */
  class Outbox {
    const size: Document -> nat
    var document: Document
    var timer: bool
    var waiting: seq<Waiter>
    var jobs: seq<Job>
    var stage: Stage
    var disk: Content
    var resolved: seq<Waiter>
    var rejected: seq<Waiter>
    ghost var changes: seq<Replace>
    ghost var loaded: Document
    ghost var diskVersion: nat
    var version: nat

    ghost function Model(): State
      reads this
    {
      State(document, changes, loaded, timer, waiting, jobs, stage, disk, diskVersion, resolved, rejected)
    }

    ghost predicate Counted()
      reads this
    {
      version == |changes|
    }

    /** readOutbox, at start or after a crash. */
    constructor (disk: Content, size: Document -> nat)
      ensures Model() == Loaded(disk) && Counted() && this.size == size
    {
      this.size := size;
      var read := map[];
      if disk.Envelope? && disk.bytes <= MAX_DOCUMENT_BYTES && CurrentGeneration(disk.generation) && disk.operations.Some? {
        read := NormalizeDocument(disk.operations.value);
      }
      document, this.disk := read, disk;
      timer, waiting, jobs, stage, resolved, rejected := false, [], [], Queued, [], [];
      changes, loaded, diskVersion, version := [], read, 0, 0;
    }

    /** replaceFlowOperations from the check to the scheduled write. */
    method ReplaceFlowOperations(r: Replace) returns (ok: bool)
      requires Counted()
      modifies this
      ensures Counted() && Model() == ReplaceSpec(old(Model()), r) && ok == Accepted(r)
    {
      if !Accepted(r) {
        return false;
      }
      if r.items == [] {
        document := if r.flow == PROTO then document else document - {r.flow};
      } else {
        document := Put(document, r.flow, r.items);
      }
      version := version + 1;
      changes := changes + [r];
      waiting := waiting + [Waiter(version)];
      timer := true;
      return true;
    }

    method TimerFires()
      requires Counted()
      modifies this
      ensures Counted() && Model() == TimerSpec(old(Model()))
    {
      if !timer {
        return;
      }
      timer := false;
      var waiters := waiting;
      waiting := [];
      jobs := jobs + [Job(document, version, waiters)];
    }

    method WriteFails()
      requires Counted()
      modifies this
      ensures Counted() && Model() == WriteFailsSpec(old(Model()))
    {
      if jobs != [] {
        rejected := rejected + jobs[0].waiters;
        jobs := jobs[1..];
        stage := Queued;
      }
    }

    method WriteTemporary()
      requires Counted()
      modifies this
      ensures Counted() && Model() == WriteTemporarySpec(old(Model()), size)
    {
      if jobs == [] || stage != Queued {
        return;
      }
      if size(jobs[0].snapshot) > MAX_DOCUMENT_BYTES {
        WriteFails();
      } else {
        stage := TemporaryWritten;
      }
    }

    method Rename()
      requires Counted()
      modifies this
      ensures Counted() && Model() == RenameSpec(old(Model()), size)
    {
      if jobs == [] || stage != TemporaryWritten {
        return;
      }
      var job := jobs[0];
      disk := Envelope("flow-parameters-2", Some(Properties(job.snapshot)), size(job.snapshot));
      diskVersion := job.version;
      resolved := resolved + job.waiters;
      jobs := jobs[1..];
      stage := Queued;
    }
  }

  // ---- every run ----

  function After(disk: Content, size: Document -> nat, run: seq<Event>): State {
    if run == [] then Loaded(disk)
    else Handled(After(disk, size, run[..|run| - 1]), run[|run| - 1], size)
  }

  /** The document as of a version. */
  function Version(s: State, v: nat): Document
    requires v <= |s.changes|
  {
    ReplacedAll(s.loaded, s.changes[..v])
  }

  ghost predicate JobsOk(s: State, size: Document -> nat) {
    && (forall i :: 0 <= i < |s.jobs| ==>
          && s.diskVersion <= s.jobs[i].version <= |s.changes|
          && s.jobs[i].snapshot == Version(s, s.jobs[i].version)
          && forall j :: 0 <= j < |s.jobs[i].waiters| ==> s.jobs[i].waiters[j].version <= s.jobs[i].version)
    && (forall i, j :: 0 <= i < j < |s.jobs| ==> s.jobs[i].version <= s.jobs[j].version)
    && (s.stage.TemporaryWritten? ==> s.jobs != [] && size(s.jobs[0].snapshot) <= MAX_DOCUMENT_BYTES)
  }

  ghost predicate Invariant(s: State, size: Document -> nat) {
    && Normal(s.loaded)
    && (forall i :: 0 <= i < |s.changes| ==> Accepted(s.changes[i]))
    && s.document == Version(s, |s.changes|)
    && (forall i :: 0 <= i < |s.waiting| ==> s.waiting[i].version <= |s.changes|)
    && s.diskVersion <= |s.changes|
    && JobsOk(s, size)
    && ReadBack(s.disk) == Version(s, s.diskVersion)
    && (forall i :: 0 <= i < |s.resolved| ==> s.resolved[i].version <= s.diskVersion)
  }

  lemma LoadedOk(disk: Content, size: Document -> nat)
    ensures Invariant(Loaded(disk), size)
  {
    if disk.Envelope? && disk.operations.Some? {
      ReadingGivesNormal(disk.operations.value);
    }
  }

  /** A later change leaves earlier versions as they were. */
  lemma VersionKept(s: State, r: Replace, v: nat)
    requires v <= |s.changes| && Accepted(r)
    ensures Version(ReplaceSpec(s, r), v) == Version(s, v)
  {
    assert (s.changes + [r])[..v] == s.changes[..v];
  }

  lemma ReplaceKeeps(s: State, r: Replace, size: Document -> nat)
    requires Invariant(s, size)
    ensures Invariant(ReplaceSpec(s, r), size)
  {
    if Accepted(r) {
      var t := ReplaceSpec(s, r);
      var n := |s.changes|;
      assert t.changes[..n + 1] == t.changes && t.changes[..n + 1][..n] == s.changes[..n];
      VersionKept(s, r, s.diskVersion);
      forall i | 0 <= i < |s.jobs|
        ensures s.jobs[i].snapshot == Version(t, s.jobs[i].version)
      {
        VersionKept(s, r, s.jobs[i].version);
      }
    }
  }

  /** What a rename puts on disk reads back as the snapshot it was made from. */
  lemma RenameReads(s: State, size: Document -> nat)
    requires Invariant(s, size) && s.jobs != [] && s.stage.TemporaryWritten?
    ensures ReadBack(RenameSpec(s, size).disk) == s.jobs[0].snapshot
  {
    var job := s.jobs[0];
    assert forall i :: 0 <= i < |s.changes[..job.version]| ==> Accepted(s.changes[i]);
    ReplacedNormal(s.loaded, s.changes[..job.version]);
    NormalIsFixed(job.snapshot);
  }

  lemma RenameJobs(s: State, size: Document -> nat)
    requires JobsOk(s, size) && s.jobs != [] && s.stage.TemporaryWritten?
    ensures JobsOk(RenameSpec(s, size), size)
  {
    var t := RenameSpec(s, size);
    assert forall i :: 0 <= i < |t.jobs| ==> t.jobs[i] == s.jobs[i + 1];
  }

  lemma RenameKeeps(s: State, size: Document -> nat)
    requires Invariant(s, size)
    ensures Invariant(RenameSpec(s, size), size)
  {
    if s.jobs != [] && s.stage.TemporaryWritten? {
      RenameReads(s, size);
      RenameJobs(s, size);
    }
  }

  lemma TimerKeeps(s: State, size: Document -> nat)
    requires Invariant(s, size)
    ensures Invariant(TimerSpec(s), size)
  {
  }

  lemma FailureKeeps(s: State, size: Document -> nat)
    requires Invariant(s, size)
    ensures Invariant(WriteFailsSpec(s), size)
  {
  }

  lemma TemporaryKeeps(s: State, size: Document -> nat)
    requires Invariant(s, size)
    ensures Invariant(WriteTemporarySpec(s, size), size)
  {
    FailureKeeps(s, size);
  }

  lemma StepKeeps(s: State, e: Event, size: Document -> nat)
    requires Invariant(s, size)
    ensures Invariant(Handled(s, e, size), size)
  {
    match e
    case ReplaceArrives(r) => ReplaceKeeps(s, r, size);
    case TimerFires => TimerKeeps(s, size);
    case WriteTemporary => TemporaryKeeps(s, size);
    case Rename => RenameKeeps(s, size);
    case WriteFails => FailureKeeps(s, size);
  }

  /** Changes are only added, and the file only takes later versions. */
  ghost predicate Forward(s: State, t: State) {
    s.diskVersion <= t.diskVersion && s.changes <= t.changes && s.loaded == t.loaded
  }

  lemma StepForward(s: State, e: Event, size: Document -> nat)
    requires JobsOk(s, size)
    ensures Forward(s, Handled(s, e, size))
  {
  }

  lemma {:induction false} AlwaysInvariant(disk: Content, size: Document -> nat, run: seq<Event>)
    ensures Invariant(After(disk, size, run), size)
    decreases |run|
  {
    if run == [] {
      LoadedOk(disk, size);
    } else {
      AlwaysInvariant(disk, size, run[..|run| - 1]);
      StepKeeps(After(disk, size, run[..|run| - 1]), run[|run| - 1], size);
    }
  }

  /**
   * Whenever the process dies, reading the file again gives exactly the document of the last
   * completed rename - or, before any, what was loaded.
   */
  lemma CrashLosesNothingWritten(disk: Content, size: Document -> nat, run: seq<Event>)
    ensures var s := After(disk, size, run);
            s.diskVersion <= |s.changes| && Loaded(s.disk).document == Version(s, s.diskVersion)
  {
    AlwaysInvariant(disk, size, run);
  }

  lemma NextForward(disk: Content, size: Document -> nat, run: seq<Event>, e: Event)
    ensures Forward(After(disk, size, run), After(disk, size, run + [e]))
  {
    assert (run + [e])[..|run|] == run;
    AlwaysInvariant(disk, size, run);
    StepForward(After(disk, size, run), e, size);
  }

  lemma ForwardTransitive(s: State, t: State, u: State)
    requires Forward(s, t) && Forward(t, u)
    ensures Forward(s, u)
  {
  }

  /** The file never goes back to an earlier version. */
  lemma {:induction false} DiskMovesForward(disk: Content, size: Document -> nat, run: seq<Event>, more: seq<Event>)
    ensures Forward(After(disk, size, run), After(disk, size, run + more))
    decreases |more|
  {
    if more == [] {
      assert run + more == run;
    } else {
      var init, last := more[..|more| - 1], more[|more| - 1];
      assert run + more == run + init + [last];
      DiskMovesForward(disk, size, run, init);
      NextForward(disk, size, run + init, last);
      ForwardTransitive(After(disk, size, run), After(disk, size, run + init), After(disk, size, run + more));
    }
  }

  /**
   * Once a replace has resolved, the file holds that flow's operations or those of a later replace
   * of the same flow - from then on and after any crash.
   */
  lemma ResolvedIsDurable(disk: Content, size: Document -> nat, run: seq<Event>, w: Waiter)
    requires w in After(disk, size, run).resolved && w.version > 0
    ensures var s := After(disk, size, run);
            w.version <= s.diskVersion <= |s.changes| &&
            var flow := s.changes[w.version - 1].flow;
            flow != PROTO ==>
              exists k :: w.version - 1 <= k < s.diskVersion && s.changes[k].flow == flow
                && ItemsOf(ReadBack(s.disk), flow) == s.changes[k].items
  {
    AlwaysInvariant(disk, size, run);
    var s := After(disk, size, run);
    var i :| 0 <= i < |s.resolved| && s.resolved[i] == w;
    var rs := s.changes[..s.diskVersion];
    var flow := s.changes[w.version - 1].flow;
    var k := LatestExists(rs, w.version - 1);
    if flow != PROTO {
      assert LatestFor(rs, flow, k, k);
      LatestWins(s.loaded, rs, flow, k);
      assert s.changes[k] == rs[k];
    }
  }

  /** The one flow id for which a replace resolves and nothing is ever stored. */
  lemma {:induction false} PrototypeIsNeverStored(disk: Content, size: Document -> nat, run: seq<Event>)
    ensures PROTO !in ReadBack(After(disk, size, run).disk)
    ensures Accepted(Replace(PROTO, [Operation("m", "k", "")]))
  {
    assert |PROTO| == 9;
    AlwaysInvariant(disk, size, run);
    var s := After(disk, size, run);
    ReplacedNormal(s.loaded, s.changes[..s.diskVersion]);
  }

  lemma AfterNext(disk: Content, size: Document -> nat, run: seq<Event>, e: Event)
    ensures After(disk, size, run + [e]) == Handled(After(disk, size, run), e, size)
  {
    assert (run + [e])[..|run|] == run;
  }

  /** A run in which such a replace resolves all the same. */
  lemma PrototypeResolves(size: Document -> nat)
    requires size(map[]) <= MAX_DOCUMENT_BYTES
    ensures var r := Replace(PROTO, [Operation("m", "k", "")]);
            var s := After(Missing, size, [ReplaceArrives(r), TimerFires, WriteTemporary, Rename]);
            && Waiter(1) in s.resolved && s.diskVersion == 1 && s.changes == [r]
            && PROTO !in ReadBack(s.disk)
  {
    var r := Replace(PROTO, [Operation("m", "k", "")]);
    var run := [ReplaceArrives(r), TimerFires, WriteTemporary, Rename];
    assert |PROTO| == 9;
    AfterNext(Missing, size, [], run[0]);
    AfterNext(Missing, size, [run[0]], run[1]);
    AfterNext(Missing, size, [run[0], run[1]], run[2]);
    AfterNext(Missing, size, [run[0], run[1], run[2]], run[3]);
    assert [] + [run[0]] == [run[0]] && [run[0]] + [run[1]] == [run[0], run[1]];
    assert [run[0], run[1]] + [run[2]] == [run[0], run[1], run[2]] && [run[0], run[1], run[2]] + [run[3]] == run;
    PrototypeIsNeverStored(Missing, size, run);
  }
}
