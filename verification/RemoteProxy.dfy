/**
 * RemoteDeviceProxy of src/main/services/remote-gateway.ts: one paired device's requests, queued
 * across upstream reconnects. Every callback, timer and continuation after an await is one step;
 * any of them may come at any time, in particular close(), which the idle timers also call.
 */
module RemoteProxy {
  import opened Wrappers
  import opened RateLimiter

  type Message = string

  datatype Ready = Connecting | Open | Closing | Closed

  /** What a downstream frame turns out to be, apart from the rate limit. */
  datatype Frame = Invalid | Refused | Request(message: Message)

  datatype Proxy = Proxy(
    upstream: Option<nat>,       // which upstream socket is this.upstream
    sockets: seq<Ready>,         // every upstream socket ever created
    setup: Option<nat>,          // this.upstreamSetup
    running: set<nat>,           // createUpstream calls waiting for the connection info
    started: nat,                // how many createUpstream calls there have been
    downstream: Option<nat>,
    downs: map<nat, Ready>,
    queue: seq<Message>,
    disposed: bool,
    bucket: Bucket,
    accepted: seq<Message>,      // requests that passed every check, in order
    sent: seq<Message>)          // what has been sent upstream, over all sockets

  function Initial(bucket: Bucket): Proxy {
    Proxy(None, [], None, {}, 0, None, map[], [], false, bucket, [], [])
  }

  predicate Live(r: Ready) {
    r.Connecting? || r.Open?
  }

  predicate UpstreamIs(p: Proxy, r: Ready) {
    p.upstream.Some? && p.upstream.value < |p.sockets| && p.sockets[p.upstream.value] == r
  }

  predicate UpstreamLive(p: Proxy) {
    UpstreamIs(p, Open) || UpstreamIs(p, Connecting)
  }

  predicate DownIs(p: Proxy, socket: nat, r: Ready) {
    socket in p.downs && p.downs[socket] == r
  }

  // ---- the steps ----

  function EnsureUpstreamSpec(p: Proxy): Proxy {
    if p.disposed || UpstreamLive(p) || p.setup.Some? then p
    else p.(setup := Some(p.started), running := p.running + {p.started}, started := p.started + 1)
  }

  /** The connection that a new one replaces is still up. */
  predicate Replaces(p: Proxy) {
    p.downstream.Some? && (DownIs(p, p.downstream.value, Open) || DownIs(p, p.downstream.value, Connecting))
  }

  function AttachSpec(p: Proxy, socket: nat): Proxy {
    if p.disposed then p.(downs := p.downs[socket := Closing])
    else
      var q := if Replaces(p) then p.(downs := p.downs[p.downstream.value := Closing], queue := []) else p;
      EnsureUpstreamSpec(q.(downstream := Some(socket), downs := q.downs[socket := Open]))
  }

  function CloseSpec(p: Proxy): Proxy {
    if p.disposed then p
    else
      p.(disposed := true, downstream := None, upstream := None, queue := [],
         downs := if p.downstream.Some? && !DownIs(p, p.downstream.value, Closed)
                  then p.downs[p.downstream.value := Closing] else p.downs,
         sockets := if p.upstream.Some? && p.upstream.value < |p.sockets| && !p.sockets[p.upstream.value].Closed?
                    then p.sockets[p.upstream.value := Closing] else p.sockets)
  }

  /** createUpstream after its await. */
  function SetupSpec(p: Proxy, id: nat, resolved: bool): Proxy {
    if id !in p.running then p
    else
      var q := p.(running := p.running - {id});
      if !resolved || p.disposed || UpstreamLive(p) then q
      else q.(upstream := Some(|p.sockets|), sockets := p.sockets + [Connecting])
  }

  function FinallySpec(p: Proxy, id: nat): Proxy {
    if id in p.running || p.setup != Some(id) then p else p.(setup := None)
  }

  function OpenedSpec(p: Proxy, socket: nat): Proxy {
    if socket >= |p.sockets| || !p.sockets[socket].Connecting? then p
    else
      var q := p.(sockets := p.sockets[socket := Open]);
      if p.upstream != Some(socket) || p.disposed then q
      else q.(sent := p.sent + p.queue, queue := [])
  }

  function UpstreamClosingSpec(p: Proxy, socket: nat): Proxy {
    if socket >= |p.sockets| || p.sockets[socket].Closed? then p
    else p.(sockets := p.sockets[socket := Closing])
  }

  function UpstreamClosedSpec(p: Proxy, socket: nat): Proxy {
    if socket >= |p.sockets| then p
    else
      var q := p.(sockets := p.sockets[socket := Closed]);
      if p.upstream != Some(socket) || p.disposed then q
      else
        q.(upstream := None,
           downs := if p.downstream.Some? && DownIs(p, p.downstream.value, Open)
                    then p.downs[p.downstream.value := Closing] else p.downs)
  }

  function DownstreamClosedSpec(p: Proxy, socket: nat): Proxy {
    p.(downs := p.downs[socket := Closed], downstream := if p.downstream == Some(socket) then None else p.downstream)
  }

  /** A request that passed every check is sent, or queued for the next upstream. */
  function ForwardSpec(p: Proxy, message: Message): Proxy {
    var q := p.(accepted := p.accepted + [message]);
    if UpstreamIs(p, Open) then q.(sent := p.sent + [message])
    else EnsureUpstreamSpec(q.(queue := p.queue + [message]))
  }

  function MessageSpec(p: Proxy, socket: nat, frame: Frame, now: real): Proxy {
    if p.downstream != Some(socket) || p.disposed then p
    else if frame.Invalid? then p.(downs := p.downs[socket := Closing])
    else
      var (bucket, allowed) := Consumed(p.bucket, now);
      var q := p.(bucket := bucket);
      if !allowed || frame.Refused? then q else ForwardSpec(q, frame.message)
  }

  datatype Event =
    | Attach(socket: nat)
    | Close
    | Setup(id: nat, resolved: bool)
    | Finally(id: nat)
    | Opened(socket: nat)
    | UpstreamClosing(socket: nat)
    | UpstreamClosed(socket: nat)
    | DownstreamClosing(socket: nat)
    | DownstreamClosed(socket: nat)
    | Incoming(socket: nat, frame: Frame, now: real)

  function Handled(p: Proxy, e: Event): Proxy {
    match e
    case Attach(s) => AttachSpec(p, s)
    case Close => CloseSpec(p)
    case Setup(id, resolved) => SetupSpec(p, id, resolved)
    case Finally(id) => FinallySpec(p, id)
    case Opened(s) => OpenedSpec(p, s)
    case UpstreamClosing(s) => UpstreamClosingSpec(p, s)
    case UpstreamClosed(s) => UpstreamClosedSpec(p, s)
    case DownstreamClosing(s) => p.(downs := p.downs[s := Closing])
    case DownstreamClosed(s) => DownstreamClosedSpec(p, s)
    case Incoming(s, frame, now) => MessageSpec(p, s, frame, now)
  }

  /** The proxy object; its sockets are handles whose states the outside also changes. */
  class RemoteDeviceProxy {
    var upstream: Option<nat>
    var sockets: seq<Ready>
    var setup: Option<nat>
    var running: set<nat>
    var started: nat
    var downstream: Option<nat>
    var downs: map<nat, Ready>
    var queue: seq<Message>
    var disposed: bool
    const limiter: RemoteRequestRateLimiter
    ghost var accepted: seq<Message>
    var sent: seq<Message>

    constructor (startedAt: real)
      ensures fresh(limiter) && State() == Initial(Bucket(60.0, 120.0 / 60000.0, 60.0, startedAt))
    {
      upstream, sockets, setup, running, started := None, [], None, {}, 0;
      downstream, downs, queue, disposed := None, map[], [], false;
      accepted, sent := [], [];
      limiter := new RemoteRequestRateLimiter(BURST, PER_MINUTE, startedAt);
    }

    ghost function State(): Proxy
      reads this, limiter
    {
      Proxy(upstream, sockets, setup, running, started, downstream, downs, queue, disposed, limiter.State(), accepted, sent)
    }

    method UpstreamInUse() returns (live: bool)
      ensures live == UpstreamLive(State())
    {
      live := upstream.Some? && upstream.value < |sockets|
              && (sockets[upstream.value] == Open || sockets[upstream.value] == Connecting);
    }

    method EnsureUpstream()
      modifies this`setup, this`running, this`started
      ensures State() == EnsureUpstreamSpec(old(State()))
    {
      if disposed {
        return;
      }
      var live := UpstreamInUse();
      if live || setup.Some? {
        return;
      }
      setup := Some(started);
      running := running + {started};
      started := started + 1;
    }

    method Attach(socket: nat)
      modifies this
      ensures State() == AttachSpec(old(State()), socket)
    {
      if disposed {
        downs := downs[socket := Closing];
        return;
      }
      if downstream.Some? && downstream.value in downs && (downs[downstream.value] == Open || downs[downstream.value] == Connecting) {
        downs := downs[downstream.value := Closing];
        queue := [];
      }
      downstream := Some(socket);
      downs := downs[socket := Open];
      EnsureUpstream();
    }

    method Close()
      modifies this
      ensures State() == CloseSpec(old(State()))
    {
      if disposed {
        return;
      }
      disposed := true;
      if downstream.Some? && !(downstream.value in downs && downs[downstream.value] == Closed) {
        downs := downs[downstream.value := Closing];
      }
      if upstream.Some? && upstream.value < |sockets| && !sockets[upstream.value].Closed? {
        sockets := sockets[upstream.value := Closing];
      }
      downstream := None;
      upstream := None;
      queue := [];
    }

    method SetupContinues(id: nat, resolved: bool)
      modifies this
      ensures State() == SetupSpec(old(State()), id, resolved)
    {
      if id !in running {
        return;
      }
      running := running - {id};
      if !resolved || disposed {
        return;
      }
      var live := UpstreamInUse();
      if live {
        return;
      }
      upstream := Some(|sockets|);
      sockets := sockets + [Connecting];
    }

    method SetupFinally(id: nat)
      modifies this
      ensures State() == FinallySpec(old(State()), id)
    {
      if id !in running && setup == Some(id) {
        setup := None;
      }
    }

    method UpstreamOpened(socket: nat)
      modifies this
      ensures State() == OpenedSpec(old(State()), socket)
    {
      if socket >= |sockets| || !sockets[socket].Connecting? {
        return;
      }
      sockets := sockets[socket := Open];
      if upstream != Some(socket) || disposed {
        return;
      }
      var taken := queue;
      queue := [];
      for i := 0 to |taken|
        invariant sockets == old(sockets)[socket := Open]
        invariant State() == old(State()).(sockets := sockets, queue := [], sent := old(sent) + taken[..i])
      {
        sent := sent + [taken[i]];
      }
      assert taken[..|taken|] == taken;
    }

    method HandleUpstreamClosed(socket: nat)
      modifies this
      ensures State() == UpstreamClosedSpec(old(State()), socket)
    {
      if socket >= |sockets| {
        return;
      }
      sockets := sockets[socket := Closed];
      if upstream != Some(socket) || disposed {
        return;
      }
      upstream := None;
      if downstream.Some? && downstream.value in downs && downs[downstream.value] == Open {
        downs := downs[downstream.value := Closing];
      }
    }

    method HandleDownstreamMessage(socket: nat, frame: Frame, now: real)
      modifies this, limiter
      ensures State() == MessageSpec(old(State()), socket, frame, now)
    {
      if downstream != Some(socket) || disposed {
        return;
      }
      if frame.Invalid? {
        downs := downs[socket := Closing];
        return;
      }
      var allowed := limiter.Consume(now);
      if !allowed || frame.Refused? {
        return;
      }
      accepted := accepted + [frame.message];
      if upstream.Some? && upstream.value < |sockets| && sockets[upstream.value] == Open {
        sent := sent + [frame.message];
        return;
      }
      queue := queue + [frame.message];
      EnsureUpstream();
    }
  }

  // ---- every run ----

  function After(bucket: Bucket, run: seq<Event>): Proxy {
    if run == [] then Initial(bucket) else Handled(After(bucket, run[..|run| - 1]), run[|run| - 1])
  }

  /** `part` is obtained from `whole` by leaving entries out: in order, each entry at most once. */
  ghost predicate Subsequence(part: seq<Message>, whole: seq<Message>) {
    if part == [] then true
    else if whole == [] then false
    else
      var p, w := |part| - 1, |whole| - 1;
      (part[p] == whole[w] && Subsequence(part[..p], whole[..w])) || Subsequence(part, whole[..w])
  }

  lemma {:induction false} SubsequenceGrows(part: seq<Message>, whole: seq<Message>, m: Message)
    requires Subsequence(part, whole)
    ensures Subsequence(part, whole + [m]) && Subsequence(part + [m], whole + [m])
  {
    assert (whole + [m])[..|whole|] == whole && (part + [m])[..|part|] == part;
  }

  lemma {:induction false} SubsequenceDrops(part: seq<Message>, tail: seq<Message>, whole: seq<Message>)
    requires Subsequence(part + tail, whole)
    ensures Subsequence(part, whole)
    decreases |whole|, |tail|
  {
    if tail == [] {
      assert part + tail == part;
    } else {
      var both, w := part + tail, |whole| - 1;
      if both[|both| - 1] == whole[w] && Subsequence(both[..|both| - 1], whole[..w]) {
        assert both[..|both| - 1] == part + tail[..|tail| - 1];
        SubsequenceDrops(part, tail[..|tail| - 1], whole[..w]);
      } else {
        SubsequenceDrops(part, tail, whole[..w]);
      }
      SubsequenceSkips(part, whole);
    }
  }

  lemma SubsequenceSkips(part: seq<Message>, whole: seq<Message>)
    requires whole != [] && Subsequence(part, whole[..|whole| - 1])
    ensures Subsequence(part, whole)
  {
  }

  lemma {:induction false} SubsequenceShorter(part: seq<Message>, whole: seq<Message>)
    requires Subsequence(part, whole)
    ensures |part| <= |whole|
    decreases |whole|
  {
    if part != [] {
      var p, w := |part| - 1, |whole| - 1;
      if part[p] == whole[w] && Subsequence(part[..p], whole[..w]) {
        SubsequenceShorter(part[..p], whole[..w]);
      } else {
        SubsequenceShorter(part, whole[..w]);
      }
    }
  }

  ghost predicate OneLive(p: Proxy) {
    forall i :: 0 <= i < |p.sockets| && Live(p.sockets[i]) ==> p.upstream == Some(i)
  }

  ghost predicate InOrder(p: Proxy) {
    Subsequence(p.sent + p.queue, p.accepted)
  }

  /** What does not depend on which requests there are. */
  ghost predicate Connected(p: Proxy) {
    && OneLive(p)
    && (p.disposed ==> p.upstream.None? && p.queue == [])
    && (UpstreamIs(p, Open) ==> p.queue == [])
    && (forall id :: id in p.running ==> p.setup == Some(id))
  }

  ghost predicate Invariant(p: Proxy) {
    Connected(p) && InOrder(p)
  }

  // what each step does to the order of requests

  lemma ClearingKeepsOrder(p: Proxy, q: Proxy)
    requires InOrder(p) && q.sent == p.sent && q.accepted == p.accepted && (q.queue == p.queue || q.queue == [])
    ensures InOrder(q)
  {
    if q.queue == [] {
      SubsequenceDrops(p.sent, p.queue, p.accepted);
      assert p.sent + [] == p.sent;
    }
  }

  lemma OpenedKeepsOrder(p: Proxy, socket: nat)
    requires InOrder(p)
    ensures InOrder(OpenedSpec(p, socket))
  {
    assert (p.sent + p.queue) + [] == p.sent + p.queue;
  }

  lemma ForwardAdds(p: Proxy, message: Message)
    requires UpstreamIs(p, Open) ==> p.queue == []
    ensures var q := ForwardSpec(p, message);
            q.sent + q.queue == (p.sent + p.queue) + [message] && q.accepted == p.accepted + [message]
  {
  }

  lemma ForwardKeepsOrder(p: Proxy, message: Message)
    requires InOrder(p) && (UpstreamIs(p, Open) ==> p.queue == [])
    ensures InOrder(ForwardSpec(p, message))
  {
    ForwardAdds(p, message);
    SubsequenceGrows(p.sent + p.queue, p.accepted, message);
  }

  lemma StepKeepsOrder(p: Proxy, e: Event)
    requires Invariant(p)
    ensures InOrder(Handled(p, e))
  {
    match e
    case Opened(s) => OpenedKeepsOrder(p, s);
    case Incoming(s, frame, now) =>
      if frame.Request? && p.downstream == Some(s) && !p.disposed {
        ForwardKeepsOrder(p.(bucket := Consumed(p.bucket, now).0), frame.message);
      }
    case _ => ClearingKeepsOrder(p, Handled(p, e));
  }

  // and to the rest

  lemma ConnectionKeeps(p: Proxy, e: Event)
    requires Connected(p) && (e.Attach? || e.Close? || e.Setup? || e.Finally?)
    ensures Connected(Handled(p, e))
  {
  }

  lemma SocketKeeps(p: Proxy, e: Event)
    requires Connected(p) && !(e.Attach? || e.Close? || e.Setup? || e.Finally? || e.Incoming?)
    ensures Connected(Handled(p, e))
  {
  }

  lemma MessageKeeps(p: Proxy, socket: nat, frame: Frame, now: real)
    requires Connected(p)
    ensures Connected(MessageSpec(p, socket, frame, now))
  {
  }

  lemma StepKeeps(p: Proxy, e: Event)
    requires Invariant(p)
    ensures Invariant(Handled(p, e))
  {
    StepKeepsOrder(p, e);
    if e.Attach? || e.Close? || e.Setup? || e.Finally? {
      ConnectionKeeps(p, e);
    } else if e.Incoming? {
      MessageKeeps(p, e.socket, e.frame, e.now);
    } else {
      SocketKeeps(p, e);
    }
  }

  lemma {:induction false} AlwaysInvariant(bucket: Bucket, run: seq<Event>)
    ensures Invariant(After(bucket, run))
    decreases |run|
  {
    if run != [] {
      AlwaysInvariant(bucket, run[..|run| - 1]);
      StepKeeps(After(bucket, run[..|run| - 1]), run[|run| - 1]);
    }
  }

  /**
   * On every run: requests go upstream in the order they were accepted and at most once, across
   * replaced connections and reconnects; an open upstream has nothing queued behind it; and never
   * are two upstream sockets open or connecting together.
   */
  lemma OrderedAtMostOnce(bucket: Bucket, run: seq<Event>)
    ensures var p := After(bucket, run);
            && Subsequence(p.sent + p.queue, p.accepted)
            && (UpstreamIs(p, Open) ==> p.queue == [])
            && (forall i, j :: 0 <= i < j < |p.sockets| ==> !(Live(p.sockets[i]) && Live(p.sockets[j])))
            && |p.running| <= 1
  {
    AlwaysInvariant(bucket, run);
    var p := After(bucket, run);
    if p.running != {} {
      assert p.running == {p.setup.value};
    }
  }

  // ---- what is lost ----

  /** The steps that give up what is queued. */
  predicate Clears(p: Proxy, e: Event) {
    !p.disposed && (e.Close? || (e.Attach? && Replaces(p)))
  }

  /** How many accepted requests a run has given up. */
  function Lost(bucket: Bucket, run: seq<Event>): nat {
    if run == [] then 0
    else
      var init, e := run[..|run| - 1], run[|run| - 1];
      var p := After(bucket, init);
      Lost(bucket, init) + if Clears(p, e) then |p.queue| else 0
  }

  lemma StepCounts(p: Proxy, e: Event)
    ensures var q := Handled(p, e);
            |q.accepted| - |q.sent| - |q.queue|
            == |p.accepted| - |p.sent| - |p.queue| + if Clears(p, e) then |p.queue| else 0
  {
  }

  lemma {:induction false} Counted(bucket: Bucket, run: seq<Event>)
    ensures var p := After(bucket, run);
            |p.accepted| == |p.sent| + |p.queue| + Lost(bucket, run)
    decreases |run|
  {
    if run != [] {
      Counted(bucket, run[..|run| - 1]);
      StepCounts(After(bucket, run[..|run| - 1]), run[|run| - 1]);
    }
  }

  lemma {:induction false} SubsequenceWhole(part: seq<Message>, whole: seq<Message>)
    requires Subsequence(part, whole) && |part| == |whole|
    ensures part == whole
    decreases |whole|
  {
    if part != [] {
      var n := |part| - 1;
      if Subsequence(part, whole[..n]) {
        SubsequenceShorter(part, whole[..n]);
      }
      SubsequenceWhole(part[..n], whole[..n]);
      assert part == part[..n] + [part[n]] && whole == whole[..n] + [whole[n]];
    }
  }

  /**
   * Every accepted request is sent, queued or given up, and none is given up exactly when no
   * close and no replacing connection found anything queued.
   */
  lemma Conservation(bucket: Bucket, run: seq<Event>)
    ensures var p := After(bucket, run);
            && |p.accepted| == |p.sent| + |p.queue| + Lost(bucket, run)
            && (Lost(bucket, run) == 0 <==> p.sent + p.queue == p.accepted)
  {
    Counted(bucket, run);
    AlwaysInvariant(bucket, run);
    var p := After(bucket, run);
    if Lost(bucket, run) == 0 {
      SubsequenceWhole(p.sent + p.queue, p.accepted);
    }
  }

  // ---- after close ----

  /** From `p` to `q` nothing was sent and no upstream socket created. */
  ghost predicate Still(p: Proxy, q: Proxy) {
    q.disposed && q.sent == p.sent && |q.sockets| == |p.sockets|
  }

  lemma ClosedStep(p: Proxy, q: Proxy, e: Event)
    requires Invariant(q) && Still(p, q)
    ensures Still(p, Handled(q, e))
  {
  }

  lemma StillOnce(bucket: Bucket, p: Proxy, run: seq<Event>, e: Event)
    requires Still(p, After(bucket, run))
    ensures Still(p, After(bucket, run + [e]))
  {
    AlwaysInvariant(bucket, run);
    AfterNext(bucket, run, e);
    ClosedStep(p, After(bucket, run), e);
  }

  lemma {:induction false} StillAfterClose(bucket: Bucket, run: seq<Event>, more: seq<Event>)
    requires After(bucket, run).disposed
    ensures Still(After(bucket, run), After(bucket, run + more))
    decreases |more|
  {
    if more == [] {
      assert run + more == run;
    } else {
      var init, last := more[..|more| - 1], more[|more| - 1];
      assert run + more == run + init + [last];
      StillAfterClose(bucket, run, init);
      StillOnce(bucket, After(bucket, run), run + init, last);
    }
  }

  lemma AfterNext(bucket: Bucket, run: seq<Event>, e: Event)
    ensures After(bucket, run + [e]) == Handled(After(bucket, run), e)
  {
    assert (run + [e])[..|run|] == run;
  }

  /** After close nothing is sent and no upstream socket is created or open any more. */
  lemma NothingAfterClose(bucket: Bucket, run: seq<Event>, more: seq<Event>)
    requires After(bucket, run).disposed
    ensures var before, after := After(bucket, run), After(bucket, run + more);
            && Still(before, after)
            && (forall i :: 0 <= i < |after.sockets| ==> !Live(after.sockets[i]))
  {
    StillAfterClose(bucket, run, more);
    AlwaysInvariant(bucket, run + more);
  }

  lemma DisposedStep(p: Proxy, e: Event)
    ensures Handled(p, e).disposed <==> p.disposed || e == Close
  {
  }

  ghost predicate HasClose(run: seq<Event>) {
    exists i :: 0 <= i < |run| && run[i] == Close
  }

  lemma HasCloseNext(init: seq<Event>, last: Event)
    ensures HasClose(init + [last]) <==> HasClose(init) || last == Close
  {
    var run := init + [last];
    assert run[|init|] == last;
    if HasClose(init) {
      var i :| 0 <= i < |init| && init[i] == Close;
      assert run[i] == Close;
    }
    if HasClose(run) && last != Close {
      var i :| 0 <= i < |run| && run[i] == Close;
      assert init[i] == Close;
    }
  }

  /** A proxy is disposed exactly from its first close on. */
  lemma {:induction false} DisposedExactly(bucket: Bucket, run: seq<Event>)
    ensures After(bucket, run).disposed <==> HasClose(run)
    decreases |run|
  {
    if run != [] {
      var n := |run| - 1;
      DisposedExactly(bucket, run[..n]);
      DisposedStep(After(bucket, run[..n]), run[n]);
      assert run == run[..n] + [run[n]];
      HasCloseNext(run[..n], run[n]);
    }
  }

  // ---- that requests do get through ----

  /** An upstream is up or on its way. */
  predicate UnderWay(p: Proxy) {
    UpstreamLive(p) || p.setup.Some?
  }

  /** A request is accepted exactly from the current connection, valid, and within the rate limit. */
  lemma AcceptedExactly(p: Proxy, e: Event)
    ensures var takes := e.Incoming? && p.downstream == Some(e.socket) && !p.disposed && e.frame.Request?
                         && Consumed(p.bucket, e.now).1;
            Handled(p, e).accepted == p.accepted + if takes then [e.frame.message] else []
  {
  }

  /** Whoever attaches, or has a request accepted, has an upstream up or on its way. */
  lemma AlwaysUnderWay(p: Proxy, e: Event)
    requires !p.disposed
    requires e.Attach? || Handled(p, e).accepted != p.accepted
    ensures UnderWay(Handled(p, e))
  {
  }

  /** A set-up that is over is not waited for any more, whatever came of it. */
  lemma SetupEnds(p: Proxy, id: nat, resolved: bool)
    requires id in p.running
    ensures Handled(Handled(p, Setup(id, resolved)), Finally(id)).setup != Some(id)
  {
  }

  /** The set-up that an accepted request starts, its answer, and the opening of its socket. */
  function Answered(p: Proxy): seq<Event> {
    [Setup(p.started, true), Finally(p.started), Opened(|p.sockets|)]
  }

  function HandledAll(p: Proxy, events: seq<Event>): Proxy
    decreases |events|
  {
    if events == [] then p else HandledAll(Handled(p, events[0]), events[1..])
  }

  lemma HandledOne(p: Proxy, e: Event, events: seq<Event>)
    ensures HandledAll(p, [e] + events) == HandledAll(Handled(p, e), events)
  {
    assert ([e] + events)[1..] == events;
  }

  /** What the three events do to a proxy whose one set-up has just begun. */
  lemma ConnectsAndFlushes(p: Proxy)
    requires !p.disposed && !UpstreamLive(p) && p.started > 0 && p.setup == Some(p.started - 1) && p.started - 1 in p.running
    ensures var id := p.started - 1;
            var q := HandledAll(p, [Setup(id, true), Finally(id), Opened(|p.sockets|)]);
            && q.queue == [] && q.sent == p.sent + p.queue && q.accepted == p.accepted
            && UpstreamIs(q, Open) && q.setup.None?
  {
    var id, socket := p.started - 1, |p.sockets|;
    HandledOne(p, Setup(id, true), [Finally(id), Opened(socket)]);
    var a := Handled(p, Setup(id, true));
    HandledOne(a, Finally(id), [Opened(socket)]);
    var b := Handled(a, Finally(id));
    HandledOne(b, Opened(socket), []);
    assert [Setup(id, true)] + [Finally(id), Opened(socket)] == [Setup(id, true), Finally(id), Opened(socket)];
    assert [Finally(id)] + [Opened(socket)] == [Finally(id), Opened(socket)];
    assert [Opened(socket)] + [] == [Opened(socket)];
  }

  /**
   * With no upstream and no set-up under way - at first, or after a restart of the backend - an
   * accepted request and the answers to the set-up it starts send all that is queued, that request last.
   */
  lemma GetsThrough(p: Proxy, e: Event)
    requires !p.disposed && !UnderWay(p) && Handled(p, e).accepted != p.accepted
    ensures var q := HandledAll(Handled(p, e), Answered(p));
            && q.queue == [] && q.sent == p.sent + p.queue + [e.frame.message] && UpstreamIs(q, Open) && q.setup.None?
  {
    AcceptedExactly(p, e);
    var r := Handled(p, e);
    assert p.accepted + [] == p.accepted;
    assert r.queue == p.queue + [e.frame.message] && r.started == p.started + 1;
    ConnectsAndFlushes(r);
    assert p.sent + (p.queue + [e.frame.message]) == p.sent + p.queue + [e.frame.message];
  }

  /** With an open upstream it is sent at once. */
  lemma SentAtOnce(p: Proxy, e: Event)
    requires UpstreamIs(p, Open) && Handled(p, e).accepted != p.accepted
    ensures Handled(p, e).sent == p.sent + [e.frame.message]
  {
    assert p.accepted + [] == p.accepted;
  }

  /** The connection whose requests count is the latest attached, until it closes or the proxy is closed. */
  lemma CurrentExactly(p: Proxy, e: Event)
    requires !p.disposed
    ensures Handled(p, e).downstream ==
            if e.Attach? then Some(e.socket)
            else if e.Close? || (e.DownstreamClosed? && p.downstream == Some(e.socket)) then None
            else p.downstream
    ensures e.Attach? ==> DownIs(Handled(p, e), e.socket, Open)
  {
  }

  /** An open connection of the device ends exactly with these. */
  predicate EndsDownstream(p: Proxy, e: Event, socket: nat) {
    match e
    case DownstreamClosing(s) => s == socket
    case DownstreamClosed(s) => s == socket
    case Attach(s) => if p.disposed then s == socket else p.downstream == Some(socket) && s != socket
    case Close => !p.disposed && p.downstream == Some(socket)
    case UpstreamClosed(u) => !p.disposed && u < |p.sockets| && p.upstream == Some(u) && p.downstream == Some(socket)
    case Incoming(s, frame, _) => !p.disposed && p.downstream == Some(socket) && s == socket && frame.Invalid?
    case _ => false
  }

  lemma DownstreamEndsExactly(p: Proxy, e: Event, socket: nat)
    requires DownIs(p, socket, Open)
    ensures DownIs(Handled(p, e), socket, Open) <==> !EndsDownstream(p, e, socket)
  {
  }

  // ---- how much a device can send ----

  /** The clock readings at which a run asked the limiter. */
  function Asked(bucket: Bucket, run: seq<Event>): seq<real> {
    if run == [] then []
    else
      var p, e := After(bucket, run[..|run| - 1]), run[|run| - 1];
      Asked(bucket, run[..|run| - 1]) +
      if Asks(p, e) then [e.now] else []
  }

  /** Whether a step asks the limiter. */
  predicate Asks(p: Proxy, e: Event) {
    e.Incoming? && p.downstream == Some(e.socket) && !p.disposed && !e.frame.Invalid?
  }

  lemma StepAccepts(p: Proxy, e: Event)
    ensures var q := Handled(p, e);
            if Asks(p, e)
            then q.bucket == Consumed(p.bucket, e.now).0
                 && |q.accepted| <= |p.accepted| + if Consumed(p.bucket, e.now).1 then 1 else 0
            else q.bucket == p.bucket && q.accepted == p.accepted
  {
  }

  ghost predicate WithinLimit(bucket: Bucket, clocks: seq<real>, p: Proxy) {
    p.bucket == RateLimiter.After(bucket, clocks) && |p.accepted| <= Count(bucket, clocks, 0, |clocks|)
  }

  lemma StepWithinLimit(bucket: Bucket, clocks: seq<real>, p: Proxy, e: Event)
    requires WithinLimit(bucket, clocks, p)
    ensures WithinLimit(bucket, clocks + if Asks(p, e) then [e.now] else [], Handled(p, e))
  {
    StepAccepts(p, e);
    if Asks(p, e) {
      AskedOnce(bucket, clocks, e.now);
    } else {
      assert clocks + [] == clocks;
    }
  }

  lemma {:induction false} AcceptedWithinLimit(bucket: Bucket, run: seq<Event>)
    ensures WithinLimit(bucket, Asked(bucket, run), After(bucket, run))
    decreases |run|
  {
    if run != [] {
      AcceptedWithinLimit(bucket, run[..|run| - 1]);
      StepWithinLimit(bucket, Asked(bucket, run[..|run| - 1]), After(bucket, run[..|run| - 1]), run[|run| - 1]);
    }
  }

  lemma AskedOnce(bucket: Bucket, clocks: seq<real>, now: real)
    ensures var more, n := clocks + [now], |clocks|;
            && RateLimiter.After(bucket, more) == Consumed(RateLimiter.After(bucket, clocks), now).0
            && Count(bucket, more, 0, n + 1)
               == Count(bucket, clocks, 0, n) + if Consumed(RateLimiter.After(bucket, clocks), now).1 then 1 else 0
  {
    assert (clocks + [now])[..|clocks|] == clocks;
    CountPrefix(bucket, clocks, now, |clocks|);
  }

  lemma {:induction false} CountPrefix(bucket: Bucket, clocks: seq<real>, now: real, n: nat)
    requires n <= |clocks|
    ensures Count(bucket, clocks + [now], 0, n) == Count(bucket, clocks, 0, n)
    decreases n
  {
    if n > 0 {
      CountPrefix(bucket, clocks, now, n - 1);
      assert (clocks + [now])[..n - 1] == clocks[..n - 1];
    }
  }

  /** Over a whole run at most the burst plus the refill since the first request goes upstream. */
  lemma SentWithinAllowance(startedAt: real, run: seq<Event>)
    ensures var start := Bucket(60.0, 120.0 / 60000.0, 60.0, startedAt);
            var p, clocks := After(start, run), Asked(start, run);
            if clocks == [] then p.sent == []
            else |p.sent| as real <= Allowance(start, clocks, 0, |clocks| - 1)
  {
    var start := Bucket(60.0, 120.0 / 60000.0, 60.0, startedAt);
    var p, clocks := After(start, run), Asked(start, run);
    AlwaysInvariant(start, run);
    AcceptedWithinLimit(start, run);
    SubsequenceShorter(p.sent + p.queue, p.accepted);
    if clocks != [] {
      WindowBound(start, clocks, 0, |clocks| - 1);
    }
  }
}
