/**
 * ControlActivationGate of native/computer-observation/control-activation.h: one bounded wait for
 * the target window to be foreground with every key released.
 */
module ActivationGate {

  const STABLE_MS := 100
  const PATIENCE_MS := 1500

  datatype Status = Waiting | Ready | FocusRequired | UserBusy | Cancelled

  datatype Sample = Sample(now: nat, current: bool, foreground: bool, released: bool)

  datatype Gate = Gate(started: nat, stableSince: nat, stable: bool, seenForeground: bool)

  function Fresh(started: nat): Gate {
    Gate(started, 0, false, false)
  }

  function Sampled(g: Gate, s: Sample): (Gate, Status) {
    if !s.current then (g, Cancelled)
    else if g.seenForeground && !s.foreground then (g, FocusRequired)
    else
      var good := s.foreground && s.released;
      var h := g.(seenForeground := g.seenForeground || s.foreground,
                  stable := good,
                  stableSince := if good && !g.stable then s.now else g.stableSince);
      if good && s.now - h.stableSince >= STABLE_MS then (h, Ready)
      else if s.now - g.started >= PATIENCE_MS then (h, if s.foreground then UserBusy else FocusRequired)
      else (h, Waiting)
  }

  class ControlActivationGate {
    const started: nat
    var stableSince: nat
    var stable: bool
    var seenForeground: bool

    constructor (started: nat)
      ensures State() == Fresh(started)
    {
      this.started := started;
      stableSince, stable, seenForeground := 0, false, false;
    }

    ghost function State(): Gate
      reads this
    {
      Gate(started, stableSince, stable, seenForeground)
    }

    method Sample(s: Sample) returns (status: Status)
      modifies this
      ensures (State(), status) == Sampled(old(State()), s)
    {
      if !s.current {
        return Cancelled;
      }
      if seenForeground && !s.foreground {
        return FocusRequired;
      }
      seenForeground := seenForeground || s.foreground;
      if s.foreground && s.released {
        if !stable {
          stable := true;
          stableSince := s.now;
        }
        if s.now - stableSince >= STABLE_MS {
          return Ready;
        }
      } else {
        stable := false;
      }
      if s.now - started >= PATIENCE_MS {
        return if s.foreground then UserBusy else FocusRequired;
      }
      return Waiting;
    }
  }

  // ---- waits: samples until the first status that is not Waiting ----

  function After(started: nat, samples: seq<Sample>): Gate {
    if samples == [] then Fresh(started)
    else Sampled(After(started, samples[..|samples| - 1]), samples[|samples| - 1]).0
  }

  function Answer(started: nat, samples: seq<Sample>): Status
    requires samples != []
  {
    Sampled(After(started, samples[..|samples| - 1]), samples[|samples| - 1]).1
  }

  /** Samples of one wait: in time order from the start, still waiting before the last one. */
  ghost predicate Wait(started: nat, samples: seq<Sample>) {
    && (forall i :: 0 <= i < |samples| ==> samples[i].now >= started)
    && (forall i, j :: 0 <= i < j < |samples| ==> samples[i].now <= samples[j].now)
    && (forall n :: 0 < n < |samples| ==> Answer(started, samples[..n]).Waiting?)
  }

  predicate Good(s: Sample) {
    s.current && s.foreground && s.released
  }

  /** The samples from `first` on are all good. */
  predicate GoodFrom(samples: seq<Sample>, first: nat) {
    forall i :: first <= i < |samples| ==> Good(samples[i])
  }

  /** Where the last unbroken stretch of good samples begins. */
  function StretchStart(samples: seq<Sample>): (n: nat)
    ensures n <= |samples|
    ensures GoodFrom(samples, n)
    ensures n > 0 ==> !Good(samples[n - 1])
  {
    if samples == [] || !Good(samples[|samples| - 1]) then |samples|
    else StretchStart(samples[..|samples| - 1])
  }

  lemma WaitPrefix(started: nat, samples: seq<Sample>)
    requires Wait(started, samples) && samples != []
    ensures Wait(started, samples[..|samples| - 1])
  {
    var init := samples[..|samples| - 1];
    forall n | 0 < n < |init|
      ensures Answer(started, init[..n]).Waiting?
    {
      assert init[..n] == samples[..n];
    }
  }

  ghost predicate Seen(samples: seq<Sample>) {
    exists i :: 0 <= i < |samples| && samples[i].foreground
  }

  lemma SeenNext(init: seq<Sample>, s: Sample)
    ensures Seen(init + [s]) <==> Seen(init) || s.foreground
  {
    var samples := init + [s];
    assert samples[|init|] == s;
    if Seen(init) {
      var i :| 0 <= i < |init| && init[i].foreground;
      assert samples[i].foreground;
    }
    if Seen(samples) && !s.foreground {
      var i :| 0 <= i < |samples| && samples[i].foreground;
      assert init[i].foreground;
    }
  }

  /** The fields that the stretch determines. */
  ghost predicate Tracks(g: Gate, samples: seq<Sample>) {
    && (g.stable <==> StretchStart(samples) < |samples|)
    && (g.stable ==> g.stableSince == samples[StretchStart(samples)].now)
  }

  lemma TracksNext(g: Gate, init: seq<Sample>, s: Sample)
    requires Tracks(g, init) && Sampled(g, s).1.Waiting?
    ensures Tracks(Sampled(g, s).0, init + [s])
  {
    assert (init + [s])[..|init|] == init;
    assert init == [] ==> StretchStart(init) == 0;
  }

  /** The gate's fields, told from the samples alone. */
  ghost predicate Remembers(started: nat, samples: seq<Sample>) {
    var g := After(started, samples);
    && g.started == started && (g.seenForeground <==> Seen(samples)) && Tracks(g, samples)
    && forall i :: 0 <= i < |samples| ==> samples[i].current
  }

  lemma RemembersNext(started: nat, init: seq<Sample>, s: Sample)
    requires Remembers(started, init) && Answer(started, init + [s]).Waiting?
    ensures Remembers(started, init + [s])
  {
    assert (init + [s])[..|init|] == init;
    SeenNext(init, s);
    TracksNext(After(started, init), init, s);
  }

  lemma WaitedBefore(started: nat, samples: seq<Sample>)
    requires Wait(started, samples) && |samples| > 1
    ensures Answer(started, samples[..|samples| - 1]).Waiting?
  {
  }

  /** So it is as long as a wait goes on. */
  lemma {:induction false} GateRemembers(started: nat, samples: seq<Sample>)
    requires Wait(started, samples)
    requires samples != [] ==> Answer(started, samples).Waiting?
    ensures Remembers(started, samples)
    decreases |samples|
  {
    if samples != [] {
      var init, last := samples[..|samples| - 1], samples[|samples| - 1];
      WaitPrefix(started, samples);
      if init != [] {
        WaitedBefore(started, samples);
      }
      GateRemembers(started, init);
      assert samples == init + [last];
      RemembersNext(started, init, last);
    }
  }

  /**
   * Ready, exactly: the samples end in an unbroken stretch, spanning at least 100 ms, in which
   * the request is current, the window foreground and every key released - and the foreground,
   * once seen, was never lost.
   */
  lemma ReadyExactly(started: nat, samples: seq<Sample>)
    requires Wait(started, samples) && samples != []
    ensures var last, first := samples[|samples| - 1], StretchStart(samples);
            Answer(started, samples).Ready? <==>
            first < |samples| && last.now - samples[first].now >= 100
    ensures Answer(started, samples).Ready? ==>
              forall i, j :: 0 <= i < j < |samples| && samples[i].foreground ==> samples[j].foreground
  {
    var init := samples[..|samples| - 1];
    WaitPrefix(started, samples);
    if init != [] {
      assert init == samples[..|init|];
    }
    GateRemembers(started, init);
    NeverLost(started, samples);
  }

  /** The answer to one more sample, from what the gate remembers. */
  lemma AnswerTo(started: nat, init: seq<Sample>, last: Sample)
    requires Remembers(started, init)
    ensures var answer, first := Answer(started, init + [last]), StretchStart(init + [last]);
            var late := last.now - started >= 1500;
            var steady := first <= |init| && last.now - (init + [last])[first].now >= 100;
            && (answer.Cancelled? <==> !last.current)
            && (answer.FocusRequired? <==> last.current && !last.foreground && (Seen(init) || late))
            && (answer.UserBusy? <==> last.current && last.foreground && late && !steady)
  {
    assert (init + [last])[..|init|] == init;
    assert init == [] ==> StretchStart(init) == 0;
  }

  lemma RemembersInit(started: nat, samples: seq<Sample>)
    requires Wait(started, samples) && samples != []
    ensures Remembers(started, samples[..|samples| - 1])
  {
    WaitPrefix(started, samples);
    if |samples| > 1 {
      WaitedBefore(started, samples);
    }
    GateRemembers(started, samples[..|samples| - 1]);
  }

  /**
   * Every other answer, exactly: a request that is no longer current is cancelled; focus is required
   * once the foreground is lost, or not there after 1500 ms; and the user is busy if it is there then,
   * but not for an unbroken 100 ms with every key released.
   */
  lemma AnswerExactly(started: nat, samples: seq<Sample>)
    requires Wait(started, samples) && samples != []
    ensures var answer, last, first := Answer(started, samples), samples[|samples| - 1], StretchStart(samples);
            var late := last.now - started >= 1500;
            var steady := first < |samples| && last.now - samples[first].now >= 100;
            && (answer.Cancelled? <==> !last.current)
            && (answer.FocusRequired? <==> last.current && !last.foreground && (Seen(samples[..|samples| - 1]) || late))
            && (answer.UserBusy? <==> last.current && last.foreground && late && !steady)
  {
    var init, last := samples[..|samples| - 1], samples[|samples| - 1];
    RemembersInit(started, samples);
    assert samples == init + [last];
    AnswerTo(started, init, last);
  }

  /** Losing the foreground ends the wait, and not with Ready. */
  lemma LosingFocusEnds(started: nat, samples: seq<Sample>, i: nat)
    requires Wait(started, samples) && i + 1 < |samples|
    requires samples[i].foreground && !samples[|samples| - 1].foreground
    ensures Answer(started, samples).FocusRequired? || Answer(started, samples).Cancelled?
  {
    var init := samples[..|samples| - 1];
    WaitPrefix(started, samples);
    assert init == samples[..|init|];
    GateRemembers(started, init);
    assert init[i].foreground;
  }

  lemma {:induction false} NeverLost(started: nat, samples: seq<Sample>)
    requires Wait(started, samples)
    ensures forall i, j :: 0 <= i < j < |samples| - 1 && samples[i].foreground ==> samples[j].foreground
    ensures samples != [] && Answer(started, samples).Ready? ==> samples[|samples| - 1].foreground
  {
    forall i, j | 0 <= i < j < |samples| - 1 && samples[i].foreground
      ensures samples[j].foreground
    {
      var upTo := samples[..j + 1];
      assert Answer(started, upTo).Waiting?;
      forall n | 0 < n < |upTo|
        ensures Answer(started, upTo[..n]).Waiting?
      {
        assert upTo[..n] == samples[..n];
      }
      if !samples[j].foreground {
        LosingFocusEnds(started, upTo, i);
      }
    }
  }

  /** The wait is bounded: at or after 1500 ms no sample answers Waiting. */
  lemma PatienceEnds(started: nat, samples: seq<Sample>)
    requires Wait(started, samples) && samples != []
    requires samples[|samples| - 1].now - started >= 1500
    ensures !Answer(started, samples).Waiting?
  {
    var init := samples[..|samples| - 1];
    WaitPrefix(started, samples);
    if init != [] {
      assert init == samples[..|init|];
    }
    GateRemembers(started, init);
  }
}
