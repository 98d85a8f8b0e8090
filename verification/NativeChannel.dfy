/**
 * NativeConnection of src/browser-extension/native-connection.ts: the extension's channel to the
 * native host. Each await is a scheduling point; the code between awaits, and each callback, is one
 * step, and steps of any number of calls interleave.
 */
module NativeChannel {
  import opened Wrappers

  /** Where a connect() call waits. */
  datatype Waiting = Startup | Get(revision: nat) | Set(revision: nat)

  datatype Channel = Channel(
    port: Option<nat>,
    enabled: bool,
    connected: bool,
    connecting: bool,
    revision: nat,
    startupDone: bool,
    alive: seq<bool>,            // every port opens, and whether it is still connected
    connects: map<nat, Waiting>, // the connect() calls under way
    calls: nat,                  // how many there have been
    storing: nat)                // setEnabled() calls waiting for storage

  function Initial(): Channel {
    Channel(None, false, false, false, 0, false, [], map[], 0, 0)
  }

  predicate PastGuard(w: Waiting, revision: nat) {
    (w.Get? || w.Set?) && w.revision == revision
  }

  // ---- the steps ----

  function ResetSpec(c: Channel): Channel {
    c.(port := None, connected := false, connecting := false,
       alive := if c.port.Some? && c.port.value < |c.alive| then c.alive[c.port.value := false] else c.alive)
  }

  /** Storage answers the constructor; no value when it fails. */
  function StartupSpec(c: Channel, stored: Option<bool>): Channel {
    if c.startupDone then c
    else c.(startupDone := true, enabled := if stored.Some? && c.revision == 0 then stored.value else c.enabled)
  }

  function SetEnabledSpec(c: Channel, enabled: bool): Channel {
    ResetSpec(c.(revision := c.revision + 1, enabled := enabled)).(storing := c.storing + 1)
  }

  function ConnectSpec(c: Channel): Channel {
    c.(connects := c.connects[c.calls := Startup], calls := c.calls + 1)
  }

  function StoredSpec(c: Channel, ok: bool): Channel {
    if c.storing == 0 then c
    else
      var d := c.(storing := c.storing - 1);
      if ok then ConnectSpec(d) else d
  }

  function GuardSpec(c: Channel, call: nat): Channel {
    if !c.startupDone || call !in c.connects || !c.connects[call].Startup? then c
    else if !c.enabled || c.port.Some? || c.connecting then c.(connects := c.connects - {call})
    else c.(connecting := true, connects := c.connects[call := Get(c.revision)])
  }

  /** The catch of connect() before a port exists. */
  function FailedSpec(c: Channel, call: nat, revision: nat): Channel {
    var d := c.(connects := c.connects - {call});
    if revision == c.revision then ResetSpec(d) else d
  }

  function GotSpec(c: Channel, call: nat, ok: bool): Channel {
    if call !in c.connects || !c.connects[call].Get? then c
    else if !ok then FailedSpec(c, call, c.connects[call].revision)
    else c.(connects := c.connects[call := Set(c.connects[call].revision)])
  }

  /** The rest of connect(): storage may fail, connectNative may throw, posting hello may throw. */
  function InstallSpec(c: Channel, call: nat, ok: bool, opens: bool, posted: bool): Channel {
    if call !in c.connects || !c.connects[call].Set? then c
    else
      var revision := c.connects[call].revision;
      if !ok then FailedSpec(c, call, revision)
      else if revision != c.revision || !c.enabled then c.(connects := c.connects - {call})
      else if !opens then FailedSpec(c, call, revision)
      else
        var d := c.(connects := c.connects - {call}, port := Some(|c.alive|), alive := c.alive + [true]);
        if posted then d else ResetSpec(d)
  }

  function DisconnectedSpec(c: Channel, port: nat): Channel {
    var d := c.(alive := if port < |c.alive| then c.alive[port := false] else c.alive);
    if c.port == Some(port) then ResetSpec(d) else d
  }

  /** A message on a port: before the handshake only a proper hello_ack is valid. */
  function MessageSpec(c: Channel, port: nat, valid: bool): Channel {
    if c.port != Some(port) then c
    else if !valid then ResetSpec(c)
    else if !c.connected then c.(connected := true, connecting := false)
    else c
  }

  function TimeoutSpec(c: Channel, port: nat): Channel {
    if c.port == Some(port) && !c.connected then ResetSpec(c) else c
  }

  function SendSpec(c: Channel, ok: bool): Channel {
    if c.port.None? || !c.connected || ok then c else ResetSpec(c)
  }

  datatype Event =
    | StartupAnswers(stored: Option<bool>)
    | SetEnabled(enabled: bool)
    | Stored(ok: bool)
    | Connect
    | Guard(call: nat)
    | Got(call: nat, ok: bool)
    | Install(call: nat, ok: bool, opens: bool, posted: bool)
    | Disconnected(port: nat)
    | Message(port: nat, valid: bool)
    | Timeout(port: nat)
    | Send(ok: bool)

  function Handled(c: Channel, e: Event): Channel {
    match e
    case StartupAnswers(stored) => StartupSpec(c, stored)
    case SetEnabled(enabled) => SetEnabledSpec(c, enabled)
    case Stored(ok) => StoredSpec(c, ok)
    case Connect => ConnectSpec(c)
    case Guard(call) => GuardSpec(c, call)
    case Got(call, ok) => GotSpec(c, call, ok)
    case Install(call, ok, opens, posted) => InstallSpec(c, call, ok, opens, posted)
    case Disconnected(port) => DisconnectedSpec(c, port)
    case Message(port, valid) => MessageSpec(c, port, valid)
    case Timeout(port) => TimeoutSpec(c, port)
    case Send(ok) => SendSpec(c, ok)
  }

  class NativeConnection {
    var port: Option<nat>
    var enabled: bool
    var connected: bool
    var connecting: bool
    var revision: nat
    var startupDone: bool
    var alive: seq<bool>
    var connects: map<nat, Waiting>
    var calls: nat
    var storing: nat

    constructor ()
      ensures State() == Initial()
    {
      port, enabled, connected, connecting, revision, startupDone := None, false, false, false, 0, false;
      alive, connects, calls, storing := [], map[], 0, 0;
    }

    ghost function State(): Channel
      reads this
    {
      Channel(port, enabled, connected, connecting, revision, startupDone, alive, connects, calls, storing)
    }

    method Reset()
      modifies this`port, this`connected, this`connecting, this`alive
      ensures State() == ResetSpec(old(State()))
    {
      if port.Some? && port.value < |alive| {
        alive := alive[port.value := false];
      }
      port := None;
      connected := false;
      connecting := false;
    }

    method StartupAnswers(stored: Option<bool>)
      modifies this`startupDone, this`enabled
      ensures State() == StartupSpec(old(State()), stored)
    {
      if startupDone {
        return;
      }
      startupDone := true;
      if stored.Some? && revision == 0 {
        enabled := stored.value;
      }
    }

    method SetEnabled(value: bool)
      modifies this
      ensures State() == SetEnabledSpec(old(State()), value)
    {
      revision := revision + 1;
      enabled := value;
      Reset();
      storing := storing + 1;
    }

    method Connect()
      modifies this`connects, this`calls
      ensures State() == ConnectSpec(old(State()))
    {
      connects := connects[calls := Startup];
      calls := calls + 1;
    }

    method SetEnabledStored(ok: bool)
      modifies this
      ensures State() == StoredSpec(old(State()), ok)
    {
      if storing == 0 {
        return;
      }
      storing := storing - 1;
      if ok {
        Connect();
      }
    }

    method ConnectAfterStartup(call: nat)
      modifies this`connecting, this`connects
      ensures State() == GuardSpec(old(State()), call)
    {
      if !startupDone || call !in connects || !connects[call].Startup? {
        return;
      }
      if !enabled || port.Some? || connecting {
        connects := connects - {call};
        return;
      }
      connecting := true;
      connects := connects[call := Get(revision)];
    }

    method ConnectFailed(call: nat, captured: nat)
      modifies this
      ensures State() == FailedSpec(old(State()), call, captured)
    {
      connects := connects - {call};
      if captured == revision {
        Reset();
      }
    }

    method ConnectAfterGet(call: nat, ok: bool)
      modifies this
      ensures State() == GotSpec(old(State()), call, ok)
    {
      if call !in connects || !connects[call].Get? {
        return;
      }
      if !ok {
        ConnectFailed(call, connects[call].revision);
        return;
      }
      connects := connects[call := Set(connects[call].revision)];
    }

    method ConnectAfterSet(call: nat, ok: bool, opens: bool, posted: bool)
      modifies this
      ensures State() == InstallSpec(old(State()), call, ok, opens, posted)
    {
      if call !in connects || !connects[call].Set? {
        return;
      }
      var captured := connects[call].revision;
      if !ok {
        ConnectFailed(call, captured);
        return;
      }
      if captured != revision || !enabled {
        connects := connects - {call};
        return;
      }
      if !opens {
        ConnectFailed(call, captured);
        return;
      }
      port := Some(|alive|);
      alive := alive + [true];
      connects := connects - {call};
      if !posted {
        Reset();
      }
    }

    method OnDisconnect(which: nat)
      modifies this
      ensures State() == DisconnectedSpec(old(State()), which)
    {
      if which < |alive| {
        alive := alive[which := false];
      }
      if port == Some(which) {
        Reset();
      }
    }

    method OnMessage(which: nat, valid: bool)
      modifies this
      ensures State() == MessageSpec(old(State()), which, valid)
    {
      if port != Some(which) {
        return;
      }
      if !valid {
        Reset();
      } else if !connected {
        connected := true;
        connecting := false;
      }
    }

    method HandshakeTimeout(which: nat)
      modifies this
      ensures State() == TimeoutSpec(old(State()), which)
    {
      if port == Some(which) && !connected {
        Reset();
      }
    }

    method Send(ok: bool)
      modifies this
      ensures State() == SendSpec(old(State()), ok)
    {
      if port.None? || !connected {
        return;
      }
      if !ok {
        Reset();
      }
    }
  }

  // ---- every run ----

  function After(run: seq<Event>): Channel {
    if run == [] then Initial() else Handled(After(run[..|run| - 1]), run[|run| - 1])
  }

  /** Call `call` has passed connect's guard in the current revision and has no port yet. */
  predicate Opening(c: Channel, call: nat) {
    call in c.connects && PastGuard(c.connects[call], c.revision)
  }

  ghost predicate Invariant(c: Channel) {
    && (forall p :: 0 <= p < |c.alive| && c.alive[p] ==> c.port == Some(p))
    && (c.port.Some? ==> c.port.value < |c.alive| && c.enabled && c.startupDone)
    && (c.connected ==> c.port.Some? && !c.connecting)
    && (forall call :: call in c.connects ==>
          call < c.calls && (c.connects[call].Startup? || (c.connects[call].revision <= c.revision && c.startupDone)))
    && (forall call :: Opening(c, call) ==> c.connecting && c.port.None? && c.enabled)
    && (forall a, b :: Opening(c, a) && Opening(c, b) ==> a == b)
    && (c.connecting ==> (c.port.Some? && !c.connected) || exists call :: Opening(c, call))
    && (c.port.Some? && !c.connected ==> c.connecting)
  }

  lemma InstallKeeps(c: Channel, call: nat, ok: bool, opens: bool, posted: bool)
    requires Invariant(c)
    ensures Invariant(InstallSpec(c, call, ok, opens, posted))
  {
    if call in c.connects && c.connects[call].Set? {
      var d := InstallSpec(c, call, ok, opens, posted);
      var stale := c.connects[call].revision != c.revision;
      forall other
        ensures Opening(d, other) <==> Opening(c, other) && other != call
      {
      }
      if !stale {
        assert Opening(c, call);
      } else {
        assert forall other :: Opening(c, other) ==> other != call;
      }
    }
  }

  lemma GotKeeps(c: Channel, call: nat, ok: bool)
    requires Invariant(c)
    ensures Invariant(GotSpec(c, call, ok))
  {
    if call in c.connects && c.connects[call].Get? {
      var d := GotSpec(c, call, ok);
      forall other
        ensures Opening(d, other) <==> Opening(c, other) && (ok || other != call)
      {
      }
      if c.connects[call].revision == c.revision {
        assert Opening(c, call);
      }
    }
  }

  lemma GuardKeeps(c: Channel, call: nat)
    requires Invariant(c)
    ensures Invariant(GuardSpec(c, call))
  {
    var d := GuardSpec(c, call);
    forall other
      ensures Opening(d, other) ==> Opening(c, other) || (other == call && !c.connecting)
      ensures Opening(c, other) ==> Opening(d, other)
    {
    }
    if d.connecting && !c.connecting {
      assert Opening(d, call);
    }
  }

  lemma SetEnabledKeeps(c: Channel, enabled: bool)
    requires Invariant(c)
    ensures Invariant(SetEnabledSpec(c, enabled))
  {
    var d := SetEnabledSpec(c, enabled);
    forall call
      ensures !Opening(d, call)
    {
    }
  }

  lemma ConnectKeeps(c: Channel)
    requires Invariant(c)
    ensures Invariant(ConnectSpec(c))
  {
    var d := ConnectSpec(c);
    forall call
      ensures Opening(d, call) <==> Opening(c, call)
    {
    }
  }

  lemma PortEventKeeps(c: Channel, e: Event)
    requires Invariant(c) && (e.Disconnected? || e.Message? || e.Timeout? || e.Send?)
    ensures Invariant(Handled(c, e))
  {
    var d := Handled(c, e);
    forall call
      ensures Opening(d, call) <==> Opening(c, call)
    {
    }
  }

  lemma StartupKeeps(c: Channel, stored: Option<bool>)
    requires Invariant(c)
    ensures Invariant(StartupSpec(c, stored))
  {
    var d := StartupSpec(c, stored);
    forall call
      ensures Opening(d, call) <==> Opening(c, call)
    {
    }
  }

  lemma StepKeeps(c: Channel, e: Event)
    requires Invariant(c)
    ensures Invariant(Handled(c, e))
  {
    match e
    case StartupAnswers(stored) => StartupKeeps(c, stored);
    case SetEnabled(enabled) => SetEnabledKeeps(c, enabled);
    case Stored(ok) =>
      if c.storing > 0 {
        var d := c.(storing := c.storing - 1);
        assert forall call :: Opening(d, call) <==> Opening(c, call);
        assert Invariant(d);
        ConnectKeeps(d);
      }
    case Connect => ConnectKeeps(c);
    case Guard(call) => GuardKeeps(c, call);
    case Got(call, ok) => GotKeeps(c, call, ok);
    case Install(call, ok, opens, posted) => InstallKeeps(c, call, ok, opens, posted);
    case _ => PortEventKeeps(c, e);
  }

  lemma {:induction false} AlwaysInvariant(run: seq<Event>)
    ensures Invariant(After(run))
    decreases |run|
  {
    if run != [] {
      AlwaysInvariant(run[..|run| - 1]);
      StepKeeps(After(run[..|run| - 1]), run[|run| - 1]);
    }
  }

  /**
   * In every interleaving: at most one port is open and it is this.port; connected implies a port
   * and a port implies enabled; at most one call of the current revision is between connect's
   * guard and its port; and `connecting` is set exactly while such a call or a handshake is under
   * way, so it can never stay set with nothing to clear it.
   */
  lemma ChannelSafety(run: seq<Event>)
    ensures var c := After(run);
            && (forall p, q :: 0 <= p < |c.alive| && 0 <= q < |c.alive| && c.alive[p] && c.alive[q] ==> p == q)
            && (forall p :: 0 <= p < |c.alive| && c.alive[p] ==> c.port == Some(p))
            && (c.connected ==> c.port.Some?)
            && (c.port.Some? ==> c.enabled)
            && (forall a, b :: Opening(c, a) && Opening(c, b) ==> a == b)
            && (c.connecting <==> (c.port.Some? && !c.connected) || exists call :: Opening(c, call))
  {
    AlwaysInvariant(run);
  }

  /** Call `call` is past connect's guard, if it is still under way, and setEnabled has run since. */
  predicate Overtaken(c: Channel, call: nat) {
    call < c.calls && (call in c.connects ==> !c.connects[call].Startup? && c.connects[call].revision < c.revision)
  }

  lemma OvertakenStep(c: Channel, e: Event, call: nat)
    requires Overtaken(c, call)
    ensures Overtaken(Handled(c, e), call)
  {
  }

  lemma {:induction false} StaysOvertaken(run: seq<Event>, more: seq<Event>, call: nat)
    requires Overtaken(After(run), call)
    ensures Overtaken(After(run + more), call)
    decreases |more|
  {
    if more == [] {
      assert run + more == run;
    } else {
      var whole := run + more;
      assert whole[..|whole| - 1] == run + more[..|more| - 1];
      StaysOvertaken(run, more[..|more| - 1], call);
      OvertakenStep(After(run + more[..|more| - 1]), more[|more| - 1], call);
    }
  }

  /** A connect overtaken by setEnabled installs no port, whatever comes and whatever it is answered. */
  lemma OvertakenInstallsNothing(run: seq<Event>, more: seq<Event>, call: nat, e: Event)
    requires call in After(run).connects && !After(run).connects[call].Startup?
    requires After(run).connects[call].revision < After(run).revision
    requires (e.Install? || e.Got?) && e.call == call
    ensures var c := After(run + more);
            Handled(c, e).port == c.port && Handled(c, e).alive == c.alive && Handled(c, e).connecting == c.connecting
  {
    AlwaysInvariant(run);
    StaysOvertaken(run, more, call);
  }

  // ---- the switch ----

  /** What the last setEnabled of the run was given. */
  function LastSwitch(run: seq<Event>): Option<bool> {
    if run == [] then None
    else
      var last := run[|run| - 1];
      if last.SetEnabled? then Some(last.enabled) else LastSwitch(run[..|run| - 1])
  }

  /** What storage answered the constructor, the first time and only. */
  function StoredAnswer(run: seq<Event>): Option<Option<bool>> {
    if run == [] then None
    else
      var init, last := run[..|run| - 1], run[|run| - 1];
      if StoredAnswer(init).Some? then StoredAnswer(init)
      else if last.StartupAnswers? then Some(last.stored)
      else None
  }

  /** The switch: the last value set, before that the stored one, and off until that is known. */
  function SwitchedOn(run: seq<Event>): bool {
    if LastSwitch(run).Some? then LastSwitch(run).value
    else if StoredAnswer(run).Some? && StoredAnswer(run).value.Some? then StoredAnswer(run).value.value
    else false
  }

  lemma SwitchStep(c: Channel, e: Event)
    ensures var d := Handled(c, e);
            && d.enabled == (if e.SetEnabled? then e.enabled
                             else if e.StartupAnswers? && !c.startupDone && c.revision == 0 && e.stored.Some? then e.stored.value
                             else c.enabled)
            && (d.startupDone <==> c.startupDone || e.StartupAnswers?)
            && d.revision == c.revision + if e.SetEnabled? then 1 else 0
  {
  }

  ghost predicate SwitchTold(c: Channel, run: seq<Event>) {
    && c.enabled == SwitchedOn(run)
    && (c.startupDone <==> StoredAnswer(run).Some?)
    && (c.revision == 0 <==> LastSwitch(run).None?)
  }

  lemma SwitchNext(c: Channel, init: seq<Event>, e: Event)
    requires SwitchTold(c, init)
    ensures SwitchTold(Handled(c, e), init + [e])
  {
    assert (init + [e])[..|init|] == init;
    SwitchStep(c, e);
  }

  /** On every run the channel is enabled exactly as last switched, or as stored. */
  lemma {:induction false} EnabledExactly(run: seq<Event>)
    ensures After(run).enabled == SwitchedOn(run)
    ensures After(run).startupDone <==> StoredAnswer(run).Some?
    ensures SwitchTold(After(run), run)
    decreases |run|
  {
    if run != [] {
      var init, last := run[..|run| - 1], run[|run| - 1];
      EnabledExactly(init);
      SwitchNext(After(init), init, last);
      assert run == init + [last];
    }
  }

  // ---- that a connection comes up ----

  function HandledAll(c: Channel, events: seq<Event>): Channel
    decreases |events|
  {
    if events == [] then c else HandledAll(Handled(c, events[0]), events[1..])
  }

  lemma HandledOne(c: Channel, e: Event, events: seq<Event>)
    ensures HandledAll(c, [e] + events) == HandledAll(Handled(c, e), events)
  {
    assert ([e] + events)[1..] == events;
  }

  /** Connected over port `port`, which is open. */
  predicate Up(c: Channel, port: nat) {
    c.connected && !c.connecting && c.port == Some(port) && port < |c.alive| && c.alive[port]
  }

  /** The rest of a connect() call that has begun, every await and the host answering. */
  function Answers(call: nat, port: nat): seq<Event> {
    [Guard(call)] + ([Got(call, true)] + ([Install(call, true, true, true)] + ([Message(port, true)] + [])))
  }

  lemma ComesUp(c: Channel, call: nat)
    requires c.startupDone && c.enabled && c.port.None? && !c.connecting && !c.connected
    requires call in c.connects && c.connects[call].Startup?
    ensures Up(HandledAll(c, Answers(call, |c.alive|)), |c.alive|)
  {
    var port := |c.alive|;
    var c1 := Handled(c, Guard(call));
    var c2 := Handled(c1, Got(call, true));
    var c3 := Handled(c2, Install(call, true, true, true));
    HandledOne(c, Guard(call), [Got(call, true)] + ([Install(call, true, true, true)] + ([Message(port, true)] + [])));
    HandledOne(c1, Got(call, true), [Install(call, true, true, true)] + ([Message(port, true)] + []));
    HandledOne(c2, Install(call, true, true, true), [Message(port, true)] + []);
    HandledOne(c3, Message(port, true), []);
  }

  /** From any reachable state with startup done, switching on brings a connection up. */
  lemma SwitchingOnConnects(run: seq<Event>)
    requires After(run).startupDone
    ensures var c := After(run);
            Up(HandledAll(c, [SetEnabled(true)] + ([Stored(true)] + Answers(c.calls, |c.alive|))), |c.alive|)
  {
    var c := After(run);
    AlwaysInvariant(run);
    var c1 := Handled(c, SetEnabled(true));
    var c2 := Handled(c1, Stored(true));
    assert c2.port.None? && |c2.alive| == |c.alive| && c.calls in c2.connects && c2.connects[c.calls].Startup?;
    assert c2.startupDone && c2.enabled && !c2.connecting && !c2.connected;
    ComesUp(c2, c.calls);
    var rest := Answers(c.calls, |c.alive|);
    assert Up(HandledAll(c2, rest), |c.alive|);
    HandledOne(c1, Stored(true), rest);
    HandledOne(c, SetEnabled(true), [Stored(true)] + rest);
  }

  /** And so does a connect() whenever the channel is enabled and idle, as after a lost port. */
  lemma Reconnects(run: seq<Event>)
    requires var c := After(run); c.startupDone && c.enabled && c.port.None? && !c.connecting
    ensures var c := After(run);
            Up(HandledAll(c, [Connect] + Answers(c.calls, |c.alive|)), |c.alive|)
  {
    var c := After(run);
    AlwaysInvariant(run);
    HandledOne(c, Connect, Answers(c.calls, |c.alive|));
    ComesUp(Handled(c, Connect), c.calls);
  }

  /** A connect() call is over exactly when it is refused, an await of it fails, or it gets to its end. */
  lemma CallEndsExactly(c: Channel, e: Event, call: nat)
    requires call in c.connects && call < c.calls && c.startupDone
    ensures call !in Handled(c, e).connects <==>
            match c.connects[call]
            case Startup => e == Guard(call) && (!c.enabled || c.port.Some? || c.connecting)
            case Get(_) => e == Got(call, false)
            case Set(_) => e.Install? && e.call == call
  {
  }

  /** The port goes exactly with these. */
  predicate EndsPort(c: Channel, e: Event, port: nat) {
    || e.SetEnabled?
    || e == Disconnected(port)
    || e == Message(port, false)
    || (e == Timeout(port) && !c.connected)
    || (e == Send(false) && c.connected)
  }

  lemma PortEndsExactly(c: Channel, e: Event, port: nat)
    requires Invariant(c) && c.port == Some(port)
    ensures Handled(c, e).port == (if EndsPort(c, e, port) then None else Some(port))
    ensures Handled(c, e).connected <==> !EndsPort(c, e, port) && (c.connected || e == Message(port, true))
    ensures EndsPort(c, e, port) ==> !Handled(c, e).alive[port]
  {
    if e.Guard? || e.Install? || e.Got? {
      assert e.call in c.connects && PastGuard(c.connects[e.call], c.revision) ==> Opening(c, e.call);
    }
  }
}
