/**
 * Leases on browser tabs in src/browser-extension/worker.ts. Operations are asynchronous: a step is
 * what runs between two awaits, a timer tick or a browser event, and steps of all operations
 * interleave. A Target object outlives its entry in the table: an operation that waits still holds it.
 */
module BrowserLeases {
  import opened Wrappers

  const LEASE_MS := 5000
  const HANDOVER_MS := 600000

  datatype Scope = Scope(connectionId: string, sessionId: string, requestId: string, runId: string, generation: string)

  datatype Target = Target(
    tab: nat,
    scope: Scope,
    deadline: int,
    attached: bool,
    suspended: bool,
    world: Option<nat>,
    pendingUntil: Option<int>)

  /** A debugger method with the parameters that decide: universal access, and contextId. */
  datatype Cdp = Cdp(name: string, universalAccess: bool, context: Option<nat>)

  const METHODS: set<string> :=
    {"Page.enable", "Page.getFrameTree", "Page.createIsolatedWorld", "Page.captureScreenshot", "Runtime.evaluate"}

  datatype Request = NetworkIdle | Command(cdp: Cdp) | OtherRequest

  /** Where an operation waits. */
  datatype Waiting =
    | Attaching(id: nat)
    | EnablingPage(id: nat)
    | EnablingNetwork(id: nat)
    | ReadingTab(id: nat, scope: Scope, request: Request)
    | Commanding(id: nat, scope: Scope, cdp: Cdp)

  datatype Answer = Fine | TargetStale | ScopeStale | LeaseStale | LeaseExpired | TabBusy | PageChanged
                  | DebuggerUnavailable | OperationForbidden | CdpForbidden | WorldRequired | InProgress

  datatype Sent = Sent(id: nat, scope: Scope, cdp: Cdp, now: int)

  datatype Worker = Worker(
    objects: map<nat, Target>,   // every target ever made
    live: set<nat>,              // the keys of the targets table
    made: nat,
    operations: map<nat, Waiting>,
    begun: nat,
    commands: seq<Sent>)         // commands sent to the debugger on behalf of callers

  function Initial(): Worker {
    Worker(map[], {}, 0, map[], 0, [])
  }

  // ---- the steps ----

  function DetachSpec(w: Worker, id: nat): Worker
    requires id in w.objects
  {
    w.(live := w.live - {id}, objects := w.objects[id := w.objects[id].(suspended := true)])
  }

  function Await(w: Worker, waiting: Waiting): Worker {
    w.(operations := w.operations[w.begun := waiting], begun := w.begun + 1)
  }

  function Done(w: Worker, op: nat): Worker {
    w.(operations := w.operations - {op})
  }

  /** The segment of connect that registers the target, once its tab is known. */
  function ConnectSpec(w: Worker, tab: nat, scope: Scope, now: int): (Worker, Answer) {
    if exists id :: id in w.live && id in w.objects && w.objects[id].tab == tab then (w, TabBusy)
    else
      var t := Target(tab, scope, now + LEASE_MS, false, false, None, None);
      var r := w.(objects := w.objects[w.made := t], live := w.live + {w.made}, made := w.made + 1);
      (Await(r, Attaching(w.made)), InProgress)
  }

  /** The awaits of connect after registration; any failure detaches. */
  function ConnectGoesOnSpec(w: Worker, op: nat, ok: bool): (Worker, Answer) {
    if op !in w.operations || !(w.operations[op].Attaching? || w.operations[op].EnablingPage? || w.operations[op].EnablingNetwork?)
       || w.operations[op].id !in w.objects then (w, TargetStale)
    else
      var id := w.operations[op].id;
      if !ok then (DetachSpec(Done(w, op), id), DebuggerUnavailable)
      else
        match w.operations[op]
        case Attaching(_) =>
          (w.(objects := w.objects[id := w.objects[id].(attached := true)],
              operations := w.operations[op := EnablingPage(id)]), InProgress)
        case EnablingPage(_) => (w.(operations := w.operations[op := EnablingNetwork(id)]), InProgress)
        case _ => (Done(w, op), Fine)
  }

  function LeaseSpec(w: Worker, id: nat, scope: Scope, now: int): (Worker, Answer) {
    if id !in w.live || id !in w.objects then (w, TargetStale)
    else
      var t := w.objects[id];
      if t.scope.sessionId != scope.sessionId || t.scope.connectionId != scope.connectionId
         || (t.scope != scope && (t.pendingUntil.None? || now > t.pendingUntil.value)) then (w, LeaseStale)
      else
        (w.(objects := w.objects[id := t.(scope := scope, deadline := now + LEASE_MS, suspended := false,
                                          pendingUntil := None)]), Fine)
  }

  function CloseSpec(w: Worker, id: nat, scope: Scope): (Worker, Answer) {
    if id !in w.live || id !in w.objects then (w, TargetStale)
    else if w.objects[id].scope != scope then (w, ScopeStale)
    else (DetachSpec(w, id), Fine)
  }

  function HeartbeatSpec(w: Worker, id: nat, scope: Scope, now: int): (Worker, Answer) {
    if id !in w.live || id !in w.objects then (w, TargetStale)
    else if w.objects[id].scope != scope then (w, ScopeStale)
    else if w.objects[id].suspended then (w, Fine)
    else (w.(objects := w.objects[id := w.objects[id].(deadline := now + LEASE_MS)]), Fine)
  }

  function FinishSpec(w: Worker, id: nat, scope: Scope, now: int): (Worker, Answer) {
    if id !in w.live || id !in w.objects then (w, TargetStale)
    else if w.objects[id].scope != scope then (w, ScopeStale)
    else
      (w.(objects := w.objects[id := w.objects[id].(suspended := true, pendingUntil := Some(now + HANDOVER_MS))]), Fine)
  }

  /** Any other operation, up to its first await. */
  function RequestSpec(w: Worker, id: nat, scope: Scope, request: Request, now: int): (Worker, Answer) {
    if id !in w.live || id !in w.objects then (w, TargetStale)
    else if w.objects[id].scope != scope then (w, ScopeStale)
    else if w.objects[id].suspended || w.objects[id].deadline < now then (w, LeaseExpired)
    else (Await(w, ReadingTab(id, scope, request)), InProgress)
  }

  predicate Usable(w: Worker, id: nat, scope: Scope, now: int) {
    && id in w.live && id in w.objects
    && !w.objects[id].suspended
    && now <= w.objects[id].deadline
    && w.objects[id].scope == scope
  }

  /** An evaluation names the target's own world; a world of number 0 counts as none. */
  predicate InOwnWorld(t: Target, cdp: Cdp) {
    t.world.Some? && t.world.value != 0 && cdp.context == t.world
  }

  /** The tab has been read: the lease is checked again, and the command goes out. */
  function TabReadSpec(w: Worker, op: nat, sameUrl: bool, now: int): (Worker, Answer) {
    if op !in w.operations || !w.operations[op].ReadingTab? || w.operations[op].id !in w.objects then (w, TargetStale)
    else
      var ReadingTab(id, scope, request) := w.operations[op];
      var d := Done(w, op);
      if !sameUrl then (DetachSpec(d, id), PageChanged)
      else if !Usable(w, id, scope, now) then (d, ScopeStale)
      else
        match request
        case NetworkIdle => (d, Fine)
        case OtherRequest => (d, OperationForbidden)
        case Command(cdp) =>
          if cdp.name !in METHODS || cdp.universalAccess then (d, CdpForbidden)
          else if cdp.name == "Runtime.evaluate" && !InOwnWorld(w.objects[id], cdp) then (d, WorldRequired)
          else
            (w.(operations := w.operations[op := Commanding(id, scope, cdp)],
                commands := w.commands + [Sent(id, scope, cdp, now)]), InProgress)
  }

  /** The command has answered. */
  function CommandedSpec(w: Worker, op: nat, context: nat): (Worker, Answer) {
    if op !in w.operations || !w.operations[op].Commanding? || w.operations[op].id !in w.objects then (w, TargetStale)
    else
      var Commanding(id, scope, cdp) := w.operations[op];
      var d := Done(w, op);
      var t := w.objects[id];
      var r := if cdp.name == "Page.createIsolatedWorld" then d.(objects := d.objects[id := t.(world := Some(context))]) else d;
      (r, if id !in w.live || t.suspended || t.scope != scope then ScopeStale else Fine)
  }

  predicate Expired(t: Target, now: int) {
    if t.suspended then now > (if t.pendingUntil.Some? then t.pendingUntil.value else 0) else now > t.deadline
  }

  /** The sweep loses one expired target at a time; tab and debugger events lose theirs. */
  function LostSpec(w: Worker, id: nat, debuggerGone: bool): Worker {
    if id !in w.live || id !in w.objects then w
    else
      var v := if debuggerGone then w.(objects := w.objects[id := w.objects[id].(attached := false)]) else w;
      DetachSpec(v, id)
  }

  function SweepSpec(w: Worker, id: nat, now: int): Worker {
    if id in w.live && id in w.objects && Expired(w.objects[id], now) then DetachSpec(w, id) else w
  }

  datatype Event =
    | Connect(tab: nat, scope: Scope, now: int)
    | ConnectGoesOn(op: nat, ok: bool)
    | Lease(id: nat, scope: Scope, now: int)
    | Close(id: nat, scope: Scope)
    | Heartbeat(id: nat, scope: Scope, now: int)
    | Finish(id: nat, scope: Scope, now: int)
    | Ask(id: nat, scope: Scope, request: Request, now: int)
    | TabRead(op: nat, sameUrl: bool, now: int)
    | CommandAnswered(op: nat, context: nat)
    | CommandFailed(op: nat)
    | Lost(id: nat, debuggerGone: bool)
    | Sweep(id: nat, now: int)

  function Handled(w: Worker, e: Event): Worker {
    match e
    case Connect(tab, scope, now) => ConnectSpec(w, tab, scope, now).0
    case ConnectGoesOn(op, ok) => ConnectGoesOnSpec(w, op, ok).0
    case Lease(id, scope, now) => LeaseSpec(w, id, scope, now).0
    case Close(id, scope) => CloseSpec(w, id, scope).0
    case Heartbeat(id, scope, now) => HeartbeatSpec(w, id, scope, now).0
    case Finish(id, scope, now) => FinishSpec(w, id, scope, now).0
    case Ask(id, scope, request, now) => RequestSpec(w, id, scope, request, now).0
    case TabRead(op, sameUrl, now) => TabReadSpec(w, op, sameUrl, now).0
    case CommandAnswered(op, context) => CommandedSpec(w, op, context).0
    case CommandFailed(op) => Done(w, op)
    case Lost(id, debuggerGone) => LostSpec(w, id, debuggerGone)
    case Sweep(id, now) => SweepSpec(w, id, now)
  }

  /** The module's tables; each method is one segment of an operation, a tick or an event. */
  class Extension {
    var objects: map<nat, Target>
    var live: set<nat>
    var made: nat
    var operations: map<nat, Waiting>
    var begun: nat
    var commands: seq<Sent>

    constructor ()
      ensures State() == Initial()
    {
      objects, live, made, operations, begun, commands := map[], {}, 0, map[], 0, [];
    }

    ghost function State(): Worker
      reads this
    {
      Worker(objects, live, made, operations, begun, commands)
    }

    method Detach(id: nat)
      requires id in objects
      modifies this`objects, this`live
      ensures State() == DetachSpec(old(State()), id)
    {
      live := live - {id};
      objects := objects[id := objects[id].(suspended := true)];
    }

    method Wait(waiting: Waiting)
      modifies this`operations, this`begun
      ensures State() == Await(old(State()), waiting)
    {
      operations := operations[begun := waiting];
      begun := begun + 1;
    }

    method Connect(tab: nat, scope: Scope, now: int) returns (a: Answer)
      modifies this
      ensures (State(), a) == ConnectSpec(old(State()), tab, scope, now)
    {
      if exists id :: id in live && id in objects && objects[id].tab == tab {
        return TabBusy;
      }
      var id := made;
      objects := objects[id := Target(tab, scope, now + LEASE_MS, false, false, None, None)];
      live := live + {id};
      made := made + 1;
      Wait(Attaching(id));
      return InProgress;
    }

    method ConnectGoesOn(op: nat, ok: bool) returns (a: Answer)
      modifies this
      ensures (State(), a) == ConnectGoesOnSpec(old(State()), op, ok)
    {
      if op !in operations || !(operations[op].Attaching? || operations[op].EnablingPage? || operations[op].EnablingNetwork?)
         || operations[op].id !in objects {
        return TargetStale;
      }
      var id := operations[op].id;
      if !ok {
        operations := operations - {op};
        Detach(id);
        return DebuggerUnavailable;
      }
      if operations[op].Attaching? {
        objects := objects[id := objects[id].(attached := true)];
        operations := operations[op := EnablingPage(id)];
        return InProgress;
      }
      if operations[op].EnablingPage? {
        operations := operations[op := EnablingNetwork(id)];
        return InProgress;
      }
      operations := operations - {op};
      return Fine;
    }

    method Lease(id: nat, scope: Scope, now: int) returns (a: Answer)
      modifies this
      ensures (State(), a) == LeaseSpec(old(State()), id, scope, now)
    {
      if id !in live || id !in objects {
        return TargetStale;
      }
      var t := objects[id];
      if t.scope.sessionId != scope.sessionId || t.scope.connectionId != scope.connectionId
         || (t.scope != scope && (t.pendingUntil.None? || now > t.pendingUntil.value)) {
        return LeaseStale;
      }
      t := t.(scope := scope);
      t := t.(deadline := now + LEASE_MS);
      t := t.(suspended := false, pendingUntil := None);
      objects := objects[id := t];
      return Fine;
    }

    method Close(id: nat, scope: Scope) returns (a: Answer)
      modifies this
      ensures (State(), a) == CloseSpec(old(State()), id, scope)
    {
      if id !in live || id !in objects {
        return TargetStale;
      }
      if objects[id].scope != scope {
        return ScopeStale;
      }
      Detach(id);
      return Fine;
    }

    method Heartbeat(id: nat, scope: Scope, now: int) returns (a: Answer)
      modifies this
      ensures (State(), a) == HeartbeatSpec(old(State()), id, scope, now)
    {
      if id !in live || id !in objects {
        return TargetStale;
      }
      if objects[id].scope != scope {
        return ScopeStale;
      }
      if !objects[id].suspended {
        objects := objects[id := objects[id].(deadline := now + LEASE_MS)];
      }
      return Fine;
    }

    method Finish(id: nat, scope: Scope, now: int) returns (a: Answer)
      modifies this
      ensures (State(), a) == FinishSpec(old(State()), id, scope, now)
    {
      if id !in live || id !in objects {
        return TargetStale;
      }
      if objects[id].scope != scope {
        return ScopeStale;
      }
      objects := objects[id := objects[id].(suspended := true, pendingUntil := Some(now + HANDOVER_MS))];
      return Fine;
    }

    method Ask(id: nat, scope: Scope, request: Request, now: int) returns (a: Answer)
      modifies this
      ensures (State(), a) == RequestSpec(old(State()), id, scope, request, now)
    {
      if id !in live || id !in objects {
        return TargetStale;
      }
      if objects[id].scope != scope {
        return ScopeStale;
      }
      if objects[id].suspended || objects[id].deadline < now {
        return LeaseExpired;
      }
      Wait(ReadingTab(id, scope, request));
      return InProgress;
    }

    method TabRead(op: nat, sameUrl: bool, now: int) returns (a: Answer)
      modifies this
      ensures (State(), a) == TabReadSpec(old(State()), op, sameUrl, now)
    {
      if op !in operations || !operations[op].ReadingTab? || operations[op].id !in objects {
        return TargetStale;
      }
      var id, scope, request := operations[op].id, operations[op].scope, operations[op].request;
      ghost var before := operations;
      operations := operations - {op};
      if !sameUrl {
        Detach(id);
        return PageChanged;
      }
      if id !in live || objects[id].suspended || objects[id].deadline < now || objects[id].scope != scope {
        return ScopeStale;
      }
      if request.NetworkIdle? {
        return Fine;
      }
      if request.OtherRequest? {
        return OperationForbidden;
      }
      if request.cdp.name !in METHODS || request.cdp.universalAccess {
        return CdpForbidden;
      }
      if request.cdp.name == "Runtime.evaluate" && !InOwnWorld(objects[id], request.cdp) {
        return WorldRequired;
      }
      operations := operations[op := Commanding(id, scope, request.cdp)];
      assert operations == before[op := Commanding(id, scope, request.cdp)];
      commands := commands + [Sent(id, scope, request.cdp, now)];
      return InProgress;
    }

    method CommandAnswered(op: nat, context: nat) returns (a: Answer)
      modifies this
      ensures (State(), a) == CommandedSpec(old(State()), op, context)
    {
      if op !in operations || !operations[op].Commanding? || operations[op].id !in objects {
        return TargetStale;
      }
      var id, scope, cdp := operations[op].id, operations[op].scope, operations[op].cdp;
      operations := operations - {op};
      if cdp.name == "Page.createIsolatedWorld" {
        objects := objects[id := objects[id].(world := Some(context))];
      }
      if id !in live || objects[id].suspended || objects[id].scope != scope {
        return ScopeStale;
      }
      return Fine;
    }

    method Lost(id: nat, debuggerGone: bool)
      modifies this
      ensures State() == LostSpec(old(State()), id, debuggerGone)
    {
      if id in live && id in objects {
        if debuggerGone {
          objects := objects[id := objects[id].(attached := false)];
        }
        Detach(id);
      }
    }

    /** The lease timer: every target whose time is up is lost. */
    method Sweep(now: int)
      modifies this
      ensures live == set id | id in old(live) && !(id in old(objects) && Expired(old(objects)[id], now))
      ensures objects.Keys == old(objects).Keys
      ensures forall id :: id in objects && (id in live || id !in old(live)) ==> objects[id] == old(objects)[id]
      ensures forall id :: id in objects && id in old(live) && id !in live ==>
                objects[id] == old(objects)[id].(suspended := true)
    {
      var entries := live;
      while entries != {}
        invariant entries <= old(live) && entries <= live && objects.Keys == old(objects).Keys
        invariant live == set id | id in old(live) && (id in entries || !(id in old(objects) && Expired(old(objects)[id], now)))
        invariant forall id :: id in objects && (id in live || id !in old(live)) ==> objects[id] == old(objects)[id]
        invariant forall id :: id in objects && id in old(live) && id !in live ==>
                    objects[id] == old(objects)[id].(suspended := true)
        decreases entries
      {
        var id :| id in entries;
        entries := entries - {id};
        if id in objects && Expired(objects[id], now) {
          Detach(id);
        }
      }
    }
  }

  // ---- every run ----

  function After(run: seq<Event>): Worker {
    if run == [] then Initial() else Handled(After(run[..|run| - 1]), run[|run| - 1])
  }

  lemma AfterNext(run: seq<Event>, e: Event)
    ensures After(run + [e]) == Handled(After(run), e)
  {
    assert (run + [e])[..|run|] == run;
  }

  ghost predicate TabsDistinct(w: Worker) {
    forall a, b :: a in w.live && b in w.live && a in w.objects && b in w.objects && w.objects[a].tab == w.objects[b].tab ==> a == b
  }

  ghost predicate TargetsOk(w: Worker) {
    && (forall id :: id in w.objects ==> id < w.made && (id in w.live || w.objects[id].suspended))
    && w.live <= w.objects.Keys
    && TabsDistinct(w)
  }

  /** Every operation is an earlier one, on a target that was made. */
  ghost predicate OperationsOk(w: Worker) {
    forall op :: op in w.operations ==> op < w.begun && w.operations[op].id in w.objects
  }

  ghost predicate Invariant(w: Worker) {
    TargetsOk(w) && OperationsOk(w)
  }

  lemma ConnectKeeps(w: Worker, tab: nat, scope: Scope, now: int)
    requires Invariant(w)
    ensures TargetsOk(ConnectSpec(w, tab, scope, now).0)
  {
  }

  lemma HolderKeeps(w: Worker, id: nat, scope: Scope, now: int)
    requires TargetsOk(w)
    ensures TargetsOk(LeaseSpec(w, id, scope, now).0) && TargetsOk(CloseSpec(w, id, scope).0)
    ensures TargetsOk(HeartbeatSpec(w, id, scope, now).0) && TargetsOk(FinishSpec(w, id, scope, now).0)
  {
  }

  lemma WaitingKeeps(w: Worker, e: Event)
    requires TargetsOk(w) && (e.ConnectGoesOn? || e.Ask? || e.CommandFailed?)
    ensures TargetsOk(Handled(w, e))
  {
  }

  lemma CommandingKeeps(w: Worker, e: Event)
    requires TargetsOk(w) && (e.TabRead? || e.CommandAnswered?)
    ensures TargetsOk(Handled(w, e))
  {
  }

  lemma EndingsKeep(w: Worker, e: Event)
    requires TargetsOk(w) && (e.Lost? || e.Sweep?)
    ensures TargetsOk(Handled(w, e))
  {
  }

  lemma OperationsKept(w: Worker, e: Event)
    requires OperationsOk(w)
    ensures OperationsOk(Handled(w, e))
  {
  }

  lemma StepKeeps(w: Worker, e: Event)
    requires Invariant(w)
    ensures Invariant(Handled(w, e))
  {
    OperationsKept(w, e);
    match e
    case Connect(tab, scope, now) => ConnectKeeps(w, tab, scope, now);
    case Lease(id, scope, now) => HolderKeeps(w, id, scope, now);
    case Close(id, scope) => HolderKeeps(w, id, scope, 0);
    case Heartbeat(id, scope, now) => HolderKeeps(w, id, scope, now);
    case Finish(id, scope, now) => HolderKeeps(w, id, scope, now);
    case Lost(_, _) => EndingsKeep(w, e);
    case Sweep(_, _) => EndingsKeep(w, e);
    case TabRead(_, _, _) => CommandingKeeps(w, e);
    case CommandAnswered(_, _) => CommandingKeeps(w, e);
    case _ => WaitingKeeps(w, e);
  }

  lemma {:induction false} AlwaysInvariant(run: seq<Event>)
    ensures Invariant(After(run))
    decreases |run|
  {
    if run != [] {
      AlwaysInvariant(run[..|run| - 1]);
      StepKeeps(After(run[..|run| - 1]), run[|run| - 1]);
    }
  }

  /** Live targets hold pairwise distinct tabs. */
  lemma OneTargetPerTab(run: seq<Event>, a: nat, b: nat)
    requires a in After(run).live && b in After(run).live && a != b
    ensures a in After(run).objects && b in After(run).objects && After(run).objects[a].tab != After(run).objects[b].tab
  {
    AlwaysInvariant(run);
  }

  // ---- the events of a run that the laws speak of ----

  predicate Live(w: Worker, id: nat) {
    id in w.live && id in w.objects
  }

  predicate Holds(w: Worker, id: nat, scope: Scope) {
    Live(w, id) && w.objects[id].scope == scope
  }

  /** A connect to a tab that no live target has. */
  predicate Makes(w: Worker, e: Event, id: nat) {
    e.Connect? && id == w.made && forall i <- w.live :: i in w.objects ==> w.objects[i].tab != e.tab
  }

  /** A lease by the holder, or by another request of its session and connection in the hand-over window. */
  predicate Leases(w: Worker, e: Event, id: nat) {
    && e.Lease? && e.id == id && Live(w, id)
    && var t := w.objects[id];
       || t.scope == e.scope
       || (t.scope.sessionId == e.scope.sessionId && t.scope.connectionId == e.scope.connectionId
           && t.pendingUntil.Some? && e.now <= t.pendingUntil.value)
  }

  /** A connect, a lease or a heartbeat that counts; one on a suspended target does not. */
  predicate Renews(w: Worker, e: Event, id: nat) {
    || Makes(w, e, id)
    || Leases(w, e, id)
    || (e.Heartbeat? && e.id == id && Holds(w, id, e.scope) && !w.objects[id].suspended)
  }

  predicate Finishes(w: Worker, e: Event, id: nat) {
    e.Finish? && e.id == id && Holds(w, id, e.scope)
  }

  predicate Connecting(w: Worker, op: nat, id: nat) {
    op in w.operations && w.operations[op].id == id
    && (w.operations[op].Attaching? || w.operations[op].EnablingPage? || w.operations[op].EnablingNetwork?)
  }

  predicate Reading(w: Worker, op: nat, id: nat) {
    op in w.operations && w.operations[op].ReadingTab? && w.operations[op].id == id
  }

  /** The target goes: closed, its attachment failed, its page changed, lost, or its time up. */
  predicate Drops(w: Worker, e: Event, id: nat) {
    match e
    case Close(i, scope) => i == id && Holds(w, id, scope)
    case ConnectGoesOn(op, ok) => !ok && Connecting(w, op, id)
    case TabRead(op, sameUrl, now) => !sameUrl && Reading(w, op, id)
    case Lost(i, _) => i == id
    case Sweep(i, now) =>
      i == id && Live(w, id) &&
      var t := w.objects[id];
      now > if !t.suspended then t.deadline else if t.pendingUntil.Some? then t.pendingUntil.value else 0
    case _ => false
  }

  predicate Ends(w: Worker, e: Event, id: nat) {
    Finishes(w, e, id) || Drops(w, e, id)
  }

  /** The holders' own requests, and everything else that happens. */
  predicate Holders(e: Event) {
    e.Connect? || e.Lease? || e.Close? || e.Heartbeat? || e.Finish?
  }

  // ---- since when ----

  /** Something that an event is in a state. */
  type Sign = (Worker, Event) -> bool

  /** The states that a run passes through. */
  ghost function States(run: seq<Event>): (states: seq<Worker>)
    ensures |states| == |run| + 1 && forall m :: 0 <= m <= |run| ==> states[m] == After(run[..m])
  {
    seq(|run| + 1, m requires 0 <= m <= |run| => After(run[..m]))
  }

  ghost predicate Steps(states: seq<Worker>, run: seq<Event>, step: (Worker, Event) -> Worker) {
    && |states| == |run| + 1
    && forall m :: 0 <= m < |run| ==> Invariant(states[m]) && states[m + 1] == step(states[m], run[m])
  }

  /** `run[j]` is marked, and no later event up to the `n`-th is marked or clears the mark. */
  ghost predicate Since(states: seq<Worker>, run: seq<Event>, n: nat, j: nat, mark: Sign, clear: Sign) {
    && j < n <= |run| <= |states| && mark(states[j], run[j])
    && forall m :: j < m < n ==> !mark(states[m], run[m]) && !clear(states[m], run[m])
  }

  /** A marked event sets a tag, one that clears takes it away, and every other leaves it. */
  ghost predicate Tracks<X>(step: (Worker, Event) -> Worker, tag: Worker -> Option<X>,
                            of: Event -> X, mark: Sign, clear: Sign) {
    forall w, e {:trigger step(w, e)} :: Invariant(w) ==>
      tag(step(w, e)) == if mark(w, e) then Some(of(e)) else if clear(w, e) then None else tag(w)
  }

  /** Then a tag that is set after `n` events is that of the last marked one, uncleared since. */
  lemma {:induction false} LastMark<X>(states: seq<Worker>, run: seq<Event>, n: nat, step: (Worker, Event) -> Worker,
                                       tag: Worker -> Option<X>, of: Event -> X, mark: Sign, clear: Sign)
    returns (j: nat)
    requires Steps(states, run, step) && Tracks(step, tag, of, mark, clear) && n <= |run|
    requires tag(states[0]).None? && tag(states[n]).Some?
    ensures Since(states, run, n, j, mark, clear) && tag(states[n]) == Some(of(run[j]))
  {
    var k := n - 1;
    assert states[k + 1] == step(states[k], run[k]);
    if mark(states[k], run[k]) {
      j := k;
    } else {
      j := LastMark(states, run, k, step, tag, of, mark, clear);
    }
  }

  /** And every marked event that nothing has cleared since is the one the tag tells of. */
  lemma {:induction false} MarkStays<X>(states: seq<Worker>, run: seq<Event>, n: nat, j: nat, step: (Worker, Event) -> Worker,
                                        tag: Worker -> Option<X>, of: Event -> X, mark: Sign, clear: Sign)
    requires Steps(states, run, step) && Tracks(step, tag, of, mark, clear)
    requires Since(states, run, n, j, mark, clear)
    ensures tag(states[n]) == Some(of(run[j]))
  {
    var k := n - 1;
    assert states[k + 1] == step(states[k], run[k]);
    if j < k {
      MarkStays(states, run, k, j, step, tag, of, mark, clear);
    }
  }

  lemma RunStep(run: seq<Event>, m: nat)
    requires m < |run|
    ensures Invariant(After(run[..m])) && After(run[..m + 1]) == Handled(After(run[..m]), run[m])
  {
    assert run[..m + 1] == run[..m] + [run[m]];
    AfterNext(run[..m], run[m]);
    AlwaysInvariant(run[..m]);
  }

  lemma RunSteps(run: seq<Event>)
    ensures Steps(States(run), run, Handled)
    ensures States(run)[|run|] == After(run)
  {
    var states := States(run);
    forall m | 0 <= m < |run|
      ensures Invariant(states[m]) && states[m + 1] == Handled(states[m], run[m])
    {
      RunStep(run, m);
      assert states[m] == After(run[..m]) && states[m + 1] == After(run[..m + 1]);
    }
    assert run[..|run|] == run;
  }

  /** So on every run a tag that is set tells of the latest event that marked it, */
  lemma ToldOf<X>(run: seq<Event>, tag: Worker -> Option<X>, of: Event -> X, mark: Sign, clear: Sign) returns (j: nat)
    requires Tracks(Handled, tag, of, mark, clear) && tag(Initial()).None? && tag(After(run)).Some?
    ensures Since(States(run), run, |run|, j, mark, clear) && tag(After(run)) == Some(of(run[j]))
  {
    RunSteps(run);
    j := LastMark(States(run), run, |run|, Handled, tag, of, mark, clear);
  }

  /** and such an event is told of. */
  lemma TellsOf<X>(run: seq<Event>, j: nat, tag: Worker -> Option<X>, of: Event -> X, mark: Sign, clear: Sign)
    requires Tracks(Handled, tag, of, mark, clear) && Since(States(run), run, |run|, j, mark, clear)
    ensures tag(After(run)) == Some(of(run[j]))
  {
    RunSteps(run);
    EndStays(States(run), run, j, After(run), Handled, tag, of, mark, clear);
  }

  lemma EndStays<X>(states: seq<Worker>, run: seq<Event>, j: nat, last: Worker, step: (Worker, Event) -> Worker,
                    tag: Worker -> Option<X>, of: Event -> X, mark: Sign, clear: Sign)
    requires Steps(states, run, step) && Tracks(step, tag, of, mark, clear)
    requires Since(states, run, |run|, j, mark, clear) && last == states[|run|]
    ensures tag(last) == Some(of(run[j]))
  {
    MarkStays(states, run, |run|, j, step, tag, of, mark, clear);
  }

  function Renewing(id: nat): Sign {
    (w, e) => Renews(w, e, id)
  }

  function Ending(id: nat): Sign {
    (w, e) => Ends(w, e, id)
  }

  function Finishing(id: nat): Sign {
    (w, e) => Finishes(w, e, id)
  }

  function Leasing(id: nat): Sign {
    (w, e) => Leases(w, e, id)
  }

  function Making(id: nat): Sign {
    (w, e) => Makes(w, e, id)
  }

  // ---- who has the lease ----

  /** `run[j]` is the latest renewal of `id`, and nothing has ended the lease since. */
  ghost predicate LatestRenewal(run: seq<Event>, j: nat, id: nat) {
    Since(States(run), run, |run|, j, Renewing(id), Ending(id))
  }

  /** Under which scope and until when the target is leased. */
  function LeaseOf(id: nat): Worker -> Option<(Scope, int)> {
    (w: Worker) =>
      if Live(w, id) && !w.objects[id].suspended then Some((w.objects[id].scope, w.objects[id].deadline)) else None
  }

  function LeaseBy(): Event -> (Scope, int) {
    (e: Event) =>
      if e.Connect? || e.Lease? || e.Heartbeat? then (e.scope, e.now + 5000) else (Scope("", "", "", "", ""), 0)
  }

  lemma LeaseStepOfHolder(w: Worker, e: Event, id: nat)
    requires Invariant(w) && Holders(e)
    ensures LeaseOf(id)(Handled(w, e)) ==
            if Renews(w, e, id) then Some(LeaseBy()(e)) else if Ends(w, e, id) then None else LeaseOf(id)(w)
  {
  }

  lemma LeaseStepOtherwise(w: Worker, e: Event, id: nat)
    requires Invariant(w) && !Holders(e)
    ensures LeaseOf(id)(Handled(w, e)) ==
            if Renews(w, e, id) then Some(LeaseBy()(e)) else if Ends(w, e, id) then None else LeaseOf(id)(w)
  {
  }

  lemma LeaseStep(w: Worker, e: Event, id: nat)
    requires Invariant(w)
    ensures LeaseOf(id)(Handled(w, e)) ==
            if Renews(w, e, id) then Some(LeaseBy()(e)) else if Ends(w, e, id) then None else LeaseOf(id)(w)
  {
    if Holders(e) {
      LeaseStepOfHolder(w, e, id);
    } else {
      LeaseStepOtherwise(w, e, id);
    }
  }

  lemma LeaseTracked(id: nat)
    ensures Tracks(Handled, LeaseOf(id), LeaseBy(), Renewing(id), Ending(id))
  {
    forall w, e | Invariant(w)
      ensures LeaseOf(id)(Handled(w, e)) ==
              if Renewing(id)(w, e) then Some(LeaseBy()(e)) else if Ending(id)(w, e) then None else LeaseOf(id)(w)
    {
      LeaseStep(w, e, id);
    }
  }

  lemma LeaseTold(run: seq<Event>, id: nat)
    ensures LeaseOf(id)(After(run)).Some? <==> exists j: nat :: LatestRenewal(run, j, id)
    ensures forall j: nat :: LatestRenewal(run, j, id) ==> LeaseOf(id)(After(run)) == Some(LeaseBy()(run[j]))
  {
    LeaseTracked(id);
    if LeaseOf(id)(After(run)).Some? {
      var j := ToldOf(run, LeaseOf(id), LeaseBy(), Renewing(id), Ending(id));
      assert LatestRenewal(run, j, id);
    }
    forall j: nat | LatestRenewal(run, j, id)
      ensures LeaseOf(id)(After(run)) == Some(LeaseBy()(run[j]))
    {
      TellsOf(run, j, LeaseOf(id), LeaseBy(), Renewing(id), Ending(id));
    }
  }

  /** On every run a target is leased to a scope exactly by its latest renewal, for 5000 ms. */
  lemma LeasedExactly(run: seq<Event>, id: nat, scope: Scope, now: int)
    ensures Usable(After(run), id, scope, now) <==>
            exists j: nat :: LatestRenewal(run, j, id) && run[j].scope == scope && now <= run[j].now + 5000
  {
    LeaseTold(run, id);
  }

  // ---- which targets there are ----

  /** On which tab the target is, while it is in the table. */
  function TabOf(id: nat): Worker -> Option<nat> {
    (w: Worker) => if Live(w, id) then Some(w.objects[id].tab) else None
  }

  function TabBy(): Event -> nat {
    (e: Event) => if e.Connect? then e.tab else 0
  }

  function Dropping(id: nat): Sign {
    (w, e) => Drops(w, e, id)
  }

  lemma TabStep(w: Worker, e: Event, id: nat)
    requires Invariant(w)
    ensures TabOf(id)(Handled(w, e)) ==
            if Makes(w, e, id) then Some(TabBy()(e)) else if Drops(w, e, id) then None else TabOf(id)(w)
  {
  }

  lemma TabTracked(id: nat)
    ensures Tracks(Handled, TabOf(id), TabBy(), Making(id), Dropping(id))
  {
    forall w, e | Invariant(w)
      ensures TabOf(id)(Handled(w, e)) ==
              if Making(id)(w, e) then Some(TabBy()(e)) else if Dropping(id)(w, e) then None else TabOf(id)(w)
    {
      TabStep(w, e, id);
    }
  }

  /** On every run the table holds exactly the targets that a connect made and nothing has dropped. */
  lemma LiveExactly(run: seq<Event>, id: nat, tab: nat)
    ensures Live(After(run), id) && After(run).objects[id].tab == tab <==>
            exists j: nat :: Since(States(run), run, |run|, j, Making(id), Dropping(id)) && run[j].tab == tab
  {
    TabTracked(id);
    if TabOf(id)(After(run)).Some? {
      var j := ToldOf(run, TabOf(id), TabBy(), Making(id), Dropping(id));
      assert Since(States(run), run, |run|, j, Making(id), Dropping(id));
    }
    forall j: nat | Since(States(run), run, |run|, j, Making(id), Dropping(id))
      ensures TabOf(id)(After(run)) == Some(TabBy()(run[j]))
    {
      TellsOf(run, j, TabOf(id), TabBy(), Making(id), Dropping(id));
    }
  }

  /** Whether the debugger is attached: from attaching on, until it detaches itself. */
  function AttachedOf(id: nat): Worker -> Option<bool> {
    (w: Worker) => if id in w.objects && w.objects[id].attached then Some(true) else None
  }

  function Attached(id: nat): Sign {
    (w: Worker, e: Event) => e.ConnectGoesOn? && e.ok && e.op in w.operations && w.operations[e.op] == Attaching(id)
  }

  function DetachesItself(id: nat): Sign {
    (w: Worker, e: Event) => e == Lost(id, true) && Live(w, id)
  }

  lemma AttachedStep(w: Worker, e: Event, id: nat)
    requires Invariant(w)
    ensures AttachedOf(id)(Handled(w, e)) ==
            if Attached(id)(w, e) then Some(true) else if DetachesItself(id)(w, e) then None else AttachedOf(id)(w)
  {
  }

  lemma AttachedTracked(id: nat)
    ensures Tracks(Handled, AttachedOf(id), (e: Event) => true, Attached(id), DetachesItself(id))
  {
    forall w, e | Invariant(w)
      ensures AttachedOf(id)(Handled(w, e)) ==
              if Attached(id)(w, e) then Some(true) else if DetachesItself(id)(w, e) then None else AttachedOf(id)(w)
    {
      AttachedStep(w, e, id);
    }
  }

  /** On every run a target counts as attached exactly since its debugger was, and has not detached itself. */
  lemma AttachedExactly(run: seq<Event>, id: nat)
    ensures (id in After(run).objects && After(run).objects[id].attached) <==>
            exists j: nat :: Since(States(run), run, |run|, j, Attached(id), DetachesItself(id))
  {
    AttachedTracked(id);
    var yes := (e: Event) => true;
    if AttachedOf(id)(After(run)).Some? {
      var j := ToldOf(run, AttachedOf(id), yes, Attached(id), DetachesItself(id));
    }
    forall j: nat | Since(States(run), run, |run|, j, Attached(id), DetachesItself(id))
      ensures AttachedOf(id)(After(run)) == Some(true)
    {
      TellsOf(run, j, AttachedOf(id), yes, Attached(id), DetachesItself(id));
    }
  }

  /** A connect that each of its awaits answers is done after the third, with its target attached and leased. */
  lemma ConnectCompletes(w: Worker, tab: nat, scope: Scope, now: int)
    requires Invariant(w) && Makes(w, Connect(tab, scope, now), w.made)
    ensures var op, id := w.begun, w.made;
            var a := Handled(w, Connect(tab, scope, now));
            var b := Handled(a, ConnectGoesOn(op, true));
            var c := Handled(b, ConnectGoesOn(op, true));
            var d := Handled(c, ConnectGoesOn(op, true));
            && ConnectGoesOnSpec(a, op, true).1.InProgress? && ConnectGoesOnSpec(b, op, true).1.InProgress?
            && ConnectGoesOnSpec(c, op, true).1.Fine? && op !in d.operations
            && Live(d, id) && d.objects[id] == Target(tab, scope, now + 5000, true, false, None, None)
  {
  }

  /** Who is answered without an error: a connect to a free tab, and the holder's commands. */
  lemma AcceptedExactly(w: Worker, id: nat, tab: nat, scope: Scope, now: int)
    requires Invariant(w)
    ensures ConnectSpec(w, tab, scope, now).1 == (if Makes(w, Connect(tab, scope, now), w.made) then InProgress else TabBusy)
    ensures LeaseSpec(w, id, scope, now).1.Fine? <==> Leases(w, Lease(id, scope, now), id)
    ensures CloseSpec(w, id, scope).1.Fine? <==> Holds(w, id, scope)
    ensures HeartbeatSpec(w, id, scope, now).1.Fine? <==> Holds(w, id, scope)
    ensures FinishSpec(w, id, scope, now).1.Fine? <==> Holds(w, id, scope)
  {
  }

  // ---- commands ----

  /** The caller's request that begins operation `op`: the caller has the lease. */
  predicate Asks(w: Worker, e: Event, op: nat) {
    e.Ask? && op == w.begun && Usable(w, e.id, e.scope, e.now)
  }

  function Asking(op: nat): Sign {
    (w, e) => Asks(w, e, op)
  }

  /** The tab has been read for it, or reading it has failed. */
  function Resuming(op: nat): Sign {
    (w: Worker, e: Event) => (e.TabRead? || e.CommandFailed?) && e.op == op
  }

  /** What an operation waiting for its tab is to do. */
  function ReadingOf(op: nat): Worker -> Option<Waiting> {
    (w: Worker) => if op in w.operations && w.operations[op].ReadingTab? then Some(w.operations[op]) else None
  }

  function ReadingBy(): Event -> Waiting {
    (e: Event) => if e.Ask? then ReadingTab(e.id, e.scope, e.request) else Attaching(0)
  }

  lemma ReadingStepOfHolder(w: Worker, e: Event, op: nat)
    requires Invariant(w) && Holders(e)
    ensures ReadingOf(op)(Handled(w, e)) ==
            if Asks(w, e, op) then Some(ReadingBy()(e)) else if Resuming(op)(w, e) then None else ReadingOf(op)(w)
  {
  }

  lemma ReadingStepOtherwise(w: Worker, e: Event, op: nat)
    requires Invariant(w) && !Holders(e)
    ensures ReadingOf(op)(Handled(w, e)) ==
            if Asks(w, e, op) then Some(ReadingBy()(e)) else if Resuming(op)(w, e) then None else ReadingOf(op)(w)
  {
  }

  lemma ReadingStep(w: Worker, e: Event, op: nat)
    requires Invariant(w)
    ensures ReadingOf(op)(Handled(w, e)) ==
            if Asks(w, e, op) then Some(ReadingBy()(e)) else if Resuming(op)(w, e) then None else ReadingOf(op)(w)
  {
    if Holders(e) {
      ReadingStepOfHolder(w, e, op);
    } else {
      ReadingStepOtherwise(w, e, op);
    }
  }

  lemma ReadingTracked(op: nat)
    ensures Tracks(Handled, ReadingOf(op), ReadingBy(), Asking(op), Resuming(op))
  {
    forall w, e | Invariant(w)
      ensures ReadingOf(op)(Handled(w, e)) ==
              if Asking(op)(w, e) then Some(ReadingBy()(e)) else if Resuming(op)(w, e) then None else ReadingOf(op)(w)
    {
      ReadingStep(w, e, op);
    }
  }

  /** `run[k]` has begun operation `op`, which still waits for its tab. */
  ghost predicate Waits(run: seq<Event>, op: nat, k: nat) {
    Since(States(run), run, |run|, k, Asking(op), Resuming(op))
  }

  lemma WaitsExactly(run: seq<Event>, op: nat)
    ensures ReadingOf(op)(After(run)).Some? <==> exists k: nat :: Waits(run, op, k)
    ensures forall k: nat :: Waits(run, op, k) ==> ReadingOf(op)(After(run)) == Some(ReadingBy()(run[k]))
  {
    ReadingTracked(op);
    if ReadingOf(op)(After(run)).Some? {
      var k := ToldOf(run, ReadingOf(op), ReadingBy(), Asking(op), Resuming(op));
      assert Waits(run, op, k);
    }
    forall k: nat | Waits(run, op, k)
      ensures ReadingOf(op)(After(run)) == Some(ReadingBy()(run[k]))
    {
      TellsOf(run, k, ReadingOf(op), ReadingBy(), Asking(op), Resuming(op));
    }
  }

  /** The debugger's answer to a command that creates a world for the target. */
  function Creating(id: nat): Sign {
    (w: Worker, e: Event) =>
      e.CommandAnswered? && e.op in w.operations && w.operations[e.op].Commanding? && w.operations[e.op].id == id
      && w.operations[e.op].cdp.name == "Page.createIsolatedWorld"
  }

  function Never(): Sign {
    (w: Worker, e: Event) => false
  }

  function WorldOf(id: nat): Worker -> Option<nat> {
    (w: Worker) => if id in w.objects then w.objects[id].world else None
  }

  function WorldBy(): Event -> nat {
    (e: Event) => if e.CommandAnswered? then e.context else 0
  }

  lemma WorldStep(w: Worker, e: Event, id: nat)
    requires Invariant(w)
    ensures WorldOf(id)(Handled(w, e)) == if Creating(id)(w, e) then Some(WorldBy()(e)) else WorldOf(id)(w)
  {
  }

  lemma WorldTracked(id: nat)
    ensures Tracks(Handled, WorldOf(id), WorldBy(), Creating(id), Never())
  {
    forall w, e | Invariant(w)
      ensures WorldOf(id)(Handled(w, e)) ==
              if Creating(id)(w, e) then Some(WorldBy()(e)) else if Never()(w, e) then None else WorldOf(id)(w)
    {
      WorldStep(w, e, id);
    }
  }

  /** `run[m]` is the latest answer to a command that creates a world for `id`. */
  ghost predicate LatestWorld(run: seq<Event>, m: nat, id: nat) {
    Since(States(run), run, |run|, m, Creating(id), Never())
  }

  lemma WorldExactly(run: seq<Event>, id: nat)
    ensures WorldOf(id)(After(run)).Some? <==> exists m: nat :: LatestWorld(run, m, id)
    ensures forall m: nat :: LatestWorld(run, m, id) ==> WorldOf(id)(After(run)) == Some(WorldBy()(run[m]))
  {
    WorldTracked(id);
    if WorldOf(id)(After(run)).Some? {
      var m := ToldOf(run, WorldOf(id), WorldBy(), Creating(id), Never());
      assert LatestWorld(run, m, id);
    }
    forall m: nat | LatestWorld(run, m, id)
      ensures WorldOf(id)(After(run)) == Some(WorldBy()(run[m]))
    {
      TellsOf(run, m, WorldOf(id), WorldBy(), Creating(id), Never());
    }
  }

  predicate Sends(w: Worker, e: Event) {
    |Handled(w, e).commands| > |w.commands|
  }

  /** The five methods, without universal access. */
  predicate FiveMethods(cdp: Cdp) {
    && !cdp.universalAccess
    && (cdp.name == "Page.enable" || cdp.name == "Page.getFrameTree" || cdp.name == "Page.createIsolatedWorld"
        || cdp.name == "Page.captureScreenshot" || cdp.name == "Runtime.evaluate")
  }

  /** An evaluation names the context of the latest world created for the target, which is not 0. */
  ghost predicate NamesWorld(run: seq<Event>, id: nat, cdp: Cdp) {
    cdp.name == "Runtime.evaluate" ==>
      exists m: nat :: LatestWorld(run, m, id) && cdp.context == Some(run[m].context) && run[m].context != 0
  }

  /** The caller of `run[k]` has the lease: renewed under its scope at most 5000 ms ago, and not ended since. */
  ghost predicate Covered(run: seq<Event>, k: nat, now: int)
    requires k < |run| && run[k].Ask?
  {
    exists j: nat :: LatestRenewal(run, j, run[k].id) && run[j].scope == run[k].scope && now <= run[j].now + 5000
  }

  /** The command that `run[k]` asked for may go out. */
  ghost predicate MaySend(run: seq<Event>, op: nat, k: nat, sameUrl: bool, now: int) {
    && Waits(run, op, k) && run[k].Ask? && run[k].request.Command? && sameUrl
    && Covered(run, k, now)
    && FiveMethods(run[k].request.cdp) && NamesWorld(run, run[k].id, run[k].request.cdp)
  }

  /** Only reading a tab sends, and one command, the one that was asked for. */
  lemma SendingStep(w: Worker, e: Event)
    requires Invariant(w)
    ensures Sends(w, e) ==> e.TabRead? && ReadingOf(e.op)(w).Some?
    ensures e.TabRead? && ReadingOf(e.op)(w).Some? ==>
              var ReadingTab(id, scope, request) := w.operations[e.op];
              && (Sends(w, e) <==>
                   && e.sameUrl && Usable(w, id, scope, e.now) && request.Command? && FiveMethods(request.cdp)
                   && (request.cdp.name == "Runtime.evaluate" ==>
                        WorldOf(id)(w).Some? && WorldOf(id)(w).value != 0 && request.cdp.context == WorldOf(id)(w)))
              && (Sends(w, e) ==> Handled(w, e).commands == w.commands + [Sent(id, scope, request.cdp, e.now)])
  {
  }

  lemma NamesWorldExactly(run: seq<Event>, id: nat, cdp: Cdp)
    ensures NamesWorld(run, id, cdp) <==>
            (cdp.name == "Runtime.evaluate" ==>
              var world := WorldOf(id)(After(run)); world.Some? && world.value != 0 && cdp.context == world)
  {
    WorldExactly(run, id);
  }

  /**
   * In every run: a command goes out exactly when a tab is read, unchanged, for a caller that asked
   * for it and still has the lease, the method is one of the five, and an evaluation names the
   * target's own world; and it is then the command that the caller asked for.
   */
  lemma CommandsExactly(run: seq<Event>, e: Event)
    ensures Sends(After(run), e) <==> e.TabRead? && exists k: nat :: MaySend(run, e.op, k, e.sameUrl, e.now)
    ensures Sends(After(run), e) ==>
              exists k: nat :: MaySend(run, e.op, k, e.sameUrl, e.now) &&
                After(run + [e]).commands == After(run).commands + [Sent(run[k].id, run[k].scope, run[k].request.cdp, e.now)]
  {
    AlwaysInvariant(run);
    AfterNext(run, e);
    SendingStep(After(run), e);
    if e.TabRead? {
      WaitsExactly(run, e.op);
      forall k: nat | Waits(run, e.op, k)
        ensures Sends(After(run), e) <==> MaySend(run, e.op, k, e.sameUrl, e.now)
        ensures Sends(After(run), e) ==>
                  After(run + [e]).commands == After(run).commands + [Sent(run[k].id, run[k].scope, run[k].request.cdp, e.now)]
      {
        assert run[k].Ask?;
        LeasedExactly(run, run[k].id, run[k].scope, e.now);
        NamesWorldExactly(run, run[k].id, if run[k].request.Command? then run[k].request.cdp else Cdp("", false, None));
      }
    }
  }

  /** The caller gets the command's result exactly if its scope has the lease still, however late. */
  lemma ResultExactly(run: seq<Event>, op: nat, context: nat)
    requires op in After(run).operations && After(run).operations[op].Commanding?
    ensures var Commanding(id, scope, _) := After(run).operations[op];
            CommandedSpec(After(run), op, context).1.Fine? <==> exists j: nat :: LatestRenewal(run, j, id) && run[j].scope == scope
  {
    AlwaysInvariant(run);
    LeaseTold(run, After(run).operations[op].id);
  }

  // ---- scopes ----

  /** `run[j]` is the latest finish of `id`, and no lease of it has been accepted since. */
  ghost predicate OpenFinish(run: seq<Event>, j: nat, id: nat) {
    Since(States(run), run, |run|, j, Finishing(id), Leasing(id))
  }

  /** By whom the target was finished and until when it may be handed over. */
  function PendingOf(id: nat): Worker -> Option<(Scope, int)> {
    (w: Worker) =>
      if id in w.objects && w.objects[id].pendingUntil.Some?
      then Some((w.objects[id].scope, w.objects[id].pendingUntil.value)) else None
  }

  function PendingBy(): Event -> (Scope, int) {
    (e: Event) => if e.Finish? then (e.scope, e.now + 600000) else (Scope("", "", "", "", ""), 0)
  }

  lemma PendingStepOfHolder(w: Worker, e: Event, id: nat)
    requires Invariant(w) && Holders(e)
    ensures PendingOf(id)(Handled(w, e)) ==
            if Finishes(w, e, id) then Some(PendingBy()(e)) else if Leases(w, e, id) then None else PendingOf(id)(w)
  {
  }

  lemma PendingStepOtherwise(w: Worker, e: Event, id: nat)
    requires Invariant(w) && !Holders(e)
    ensures PendingOf(id)(Handled(w, e)) ==
            if Finishes(w, e, id) then Some(PendingBy()(e)) else if Leases(w, e, id) then None else PendingOf(id)(w)
  {
  }

  lemma PendingStep(w: Worker, e: Event, id: nat)
    requires Invariant(w)
    ensures PendingOf(id)(Handled(w, e)) ==
            if Finishes(w, e, id) then Some(PendingBy()(e)) else if Leases(w, e, id) then None else PendingOf(id)(w)
  {
    if Holders(e) {
      PendingStepOfHolder(w, e, id);
    } else {
      PendingStepOtherwise(w, e, id);
    }
  }

  lemma PendingTracked(id: nat)
    ensures Tracks(Handled, PendingOf(id), PendingBy(), Finishing(id), Leasing(id))
  {
    forall w, e | Invariant(w)
      ensures PendingOf(id)(Handled(w, e)) ==
              if Finishing(id)(w, e) then Some(PendingBy()(e)) else if Leasing(id)(w, e) then None else PendingOf(id)(w)
    {
      PendingStep(w, e, id);
    }
  }

  lemma PendingExactly(run: seq<Event>, id: nat)
    ensures PendingOf(id)(After(run)).Some? <==> exists j: nat :: OpenFinish(run, j, id)
    ensures forall j: nat :: OpenFinish(run, j, id) ==> PendingOf(id)(After(run)) == Some(PendingBy()(run[j]))
  {
    PendingTracked(id);
    if PendingOf(id)(After(run)).Some? {
      var j := ToldOf(run, PendingOf(id), PendingBy(), Finishing(id), Leasing(id));
      assert OpenFinish(run, j, id);
    }
    forall j: nat | OpenFinish(run, j, id)
      ensures PendingOf(id)(After(run)) == Some(PendingBy()(run[j]))
    {
      TellsOf(run, j, PendingOf(id), PendingBy(), Finishing(id), Leasing(id));
    }
  }

  /** Of the same session and connection. */
  predicate SameClient(a: Scope, b: Scope) {
    a.sessionId == b.sessionId && a.connectionId == b.connectionId
  }

  /**
   * In every run: a lease of a target in the table is accepted exactly from its holder, or from its
   * client at most 600000 ms after the holder's finish, with no other lease in between.
   */
  lemma LeaseAcceptedExactly(run: seq<Event>, id: nat, scope: Scope, now: int)
    requires Live(After(run), id)
    ensures var holder := After(run).objects[id].scope;
            LeaseSpec(After(run), id, scope, now).1.Fine? <==>
            scope == holder || (SameClient(scope, holder) && exists j: nat :: OpenFinish(run, j, id) && now <= run[j].now + 600000)
  {
    PendingExactly(run, id);
  }

  /** What a step does to the scope. */
  lemma ScopeStepOfHolder(w: Worker, e: Event, id: nat)
    requires Invariant(w) && id in w.objects && Holders(e)
    ensures id in Handled(w, e).objects && Handled(w, e).objects[id].tab == w.objects[id].tab
    ensures Handled(w, e).objects[id].scope == if Leases(w, e, id) then e.scope else w.objects[id].scope
  {
  }

  lemma ScopeStepOtherwise(w: Worker, e: Event, id: nat)
    requires Invariant(w) && id in w.objects && !Holders(e)
    ensures id in Handled(w, e).objects && Handled(w, e).objects[id].tab == w.objects[id].tab
    ensures Handled(w, e).objects[id].scope == if Leases(w, e, id) then e.scope else w.objects[id].scope
  {
  }

  lemma ScopeStep(w: Worker, e: Event, id: nat)
    requires Invariant(w) && id in w.objects
    ensures id in Handled(w, e).objects && Handled(w, e).objects[id].tab == w.objects[id].tab
    ensures Handled(w, e).objects[id].scope == if Leases(w, e, id) then e.scope else w.objects[id].scope
  {
    if Holders(e) {
      ScopeStepOfHolder(w, e, id);
    } else {
      ScopeStepOtherwise(w, e, id);
    }
  }

  /**
   * In every run: a target's scope changes only by an accepted lease, at most 600000 ms after a
   * finish by the scope it had, with no other lease in between.
   */
  lemma ScopeHandover(run: seq<Event>, e: Event, id: nat)
    requires id in After(run).objects
    requires id in After(run + [e]).objects && After(run + [e]).objects[id].scope != After(run).objects[id].scope
    ensures Leases(After(run), e, id) && After(run + [e]).objects[id].scope == e.scope
    ensures exists j: nat :: OpenFinish(run, j, id) && run[j].scope == After(run).objects[id].scope
                        && e.now <= run[j].now + 600000
  {
    AlwaysInvariant(run);
    AfterNext(run, e);
    ScopeStep(After(run), e, id);
    PendingExactly(run, id);
  }

  /** The tab, session and connection of a target. */
  function IdentityOf(id: nat): Worker -> Option<(nat, string, string)> {
    (w: Worker) =>
      if id in w.objects
      then Some((w.objects[id].tab, w.objects[id].scope.sessionId, w.objects[id].scope.connectionId)) else None
  }

  function IdentityBy(): Event -> (nat, string, string) {
    (e: Event) => if e.Connect? then (e.tab, e.scope.sessionId, e.scope.connectionId) else (0, "", "")
  }

  lemma MadeStep(w: Worker, e: Event, id: nat)
    requires Invariant(w) && id !in w.objects
    ensures IdentityOf(id)(Handled(w, e)) == if Makes(w, e, id) then Some(IdentityBy()(e)) else None
  {
  }

  lemma IdentityTracked(id: nat)
    ensures Tracks(Handled, IdentityOf(id), IdentityBy(), Making(id), Never())
  {
    forall w, e | Invariant(w)
      ensures IdentityOf(id)(Handled(w, e)) ==
              if Making(id)(w, e) then Some(IdentityBy()(e)) else if Never()(w, e) then None else IdentityOf(id)(w)
    {
      if id in w.objects {
        ScopeStep(w, e, id);
      } else {
        MadeStep(w, e, id);
      }
    }
  }

  /** In every run a target has the tab, session and connection of the connect that made it. */
  lemma IdentityFixed(run: seq<Event>, id: nat)
    ensures id in After(run).objects <==> exists j: nat :: Since(States(run), run, |run|, j, Making(id), Never())
    ensures forall j: nat :: Since(States(run), run, |run|, j, Making(id), Never()) ==>
              IdentityOf(id)(After(run)) == Some(IdentityBy()(run[j]))
  {
    IdentityTracked(id);
    if id in After(run).objects {
      var j := ToldOf(run, IdentityOf(id), IdentityBy(), Making(id), Never());
      assert Since(States(run), run, |run|, j, Making(id), Never());
    }
    forall j: nat | Since(States(run), run, |run|, j, Making(id), Never())
      ensures IdentityOf(id)(After(run)) == Some(IdentityBy()(run[j]))
    {
      TellsOf(run, j, IdentityOf(id), IdentityBy(), Making(id), Never());
    }
  }

  /** The target has left the table. */
  ghost predicate Gone(w: Worker, id: nat) {
    id in w.objects && id < w.made && id !in w.live
  }

  /** Since `before`, no command was sent for the target. */
  ghost predicate Quiet(before: Worker, after: Worker, id: nat) {
    && |before.commands| <= |after.commands|
    && forall i :: |before.commands| <= i < |after.commands| ==> after.commands[i].id != id
  }

  lemma NoReturn(w: Worker, e: Event, id: nat)
    requires Gone(w, id)
    ensures Gone(Handled(w, e), id) && Quiet(w, Handled(w, e), id)
  {
  }

  lemma QuietStep(before: Worker, w: Worker, e: Event, id: nat)
    requires Gone(w, id) && Quiet(before, w, id)
    ensures Gone(Handled(w, e), id) && Quiet(before, Handled(w, e), id)
  {
    NoReturn(w, e, id);
    CommandStep(w, e);
  }

  /** A target that has left the table never comes back, and no command is sent for it again. */
  lemma {:induction false} GoneForGood(run: seq<Event>, more: seq<Event>, id: nat)
    requires Gone(After(run), id)
    ensures Gone(After(run + more), id) && Quiet(After(run), After(run + more), id)
    decreases |more|
  {
    if more == [] {
      assert run + more == run;
    } else {
      var init, last := more[..|more| - 1], more[|more| - 1];
      assert run + more == run + init + [last];
      GoneForGood(run, init, id);
      AfterNext(run + init, last);
      QuietStep(After(run), After(run + init), last, id);
    }
  }

  lemma CommandStep(w: Worker, e: Event)
    ensures Handled(w, e).commands == w.commands || exists c :: Handled(w, e).commands == w.commands + [c]
  {
  }
}
