/**
 * Keyboard actions of native/computer-observation/control.cpp: what has reached the desktop when an
 * action succeeds, fails, or is cut off inside a batch. The checks of the target window, SendInput's
 * result and interference by stop or pause are arbitrary; compensating releases are taken to arrive.
 */
module InputActions {
  import opened Wrappers

  datatype Key = VirtualKey(code: nat) | Character(unit: nat)

  datatype KeyEvent = KeyEvent(key: Key, extended: bool, up: bool)

  datatype Code = Paused | Stale | NotSupported | InvalidRequest | Unknown | Validation(reason: nat)

  datatype Action =
    | Click
    | Scroll
    | PressKey(name: string, fields: nat)
    | TypeText(text: seq<nat>, fields: nat)
    | Other

  datatype Result = Dispatched | Failed(code: Code)

  // ---- what an action means to send ----

  const VK_BACK := 0x08
  const VK_TAB := 0x09
  const VK_RETURN := 0x0D
  const VK_SHIFT := 0x10
  const VK_CONTROL := 0x11
  const VK_ESCAPE := 0x1B
  const VK_PRIOR := 0x21
  const VK_DOWN := 0x28
  const VK_DELETE := 0x2E

  const KEYS: map<string, nat> := map[
    "Enter" := VK_RETURN, "Tab" := VK_TAB, "Escape" := VK_ESCAPE, "Backspace" := VK_BACK, "Delete" := VK_DELETE,
    "ArrowLeft" := 0x25, "ArrowRight" := 0x27, "ArrowUp" := 0x26, "ArrowDown" := VK_DOWN,
    "Home" := 0x24, "End" := 0x23, "PageUp" := VK_PRIOR, "PageDown" := 0x22]

  datatype Stroke = Stroke(modifier: Option<nat>, code: nat)

  function StrokeOf(name: string): Option<Stroke> {
    if name == "Shift+Tab" then Some(Stroke(Some(VK_SHIFT), VK_TAB))
    else if |name| == 6 && name[..5] == "Ctrl+" && name[5] in "AFSZY" then
      Some(Stroke(Some(VK_CONTROL), name[5] as int))
    else if name in KEYS then Some(Stroke(None, KEYS[name]))
    else None
  }

  function Down(key: Key, extended: bool): KeyEvent {
    KeyEvent(key, extended, false)
  }

  function Up(e: KeyEvent): KeyEvent {
    e.(up := true)
  }

  /** Modifier down, key down, key up, modifier up. */
  function StrokeEvents(s: Stroke): seq<KeyEvent> {
    var extended := s.code == VK_DELETE || VK_PRIOR <= s.code <= VK_DOWN;
    var press := Down(VirtualKey(s.code), extended);
    var held := if s.modifier.Some? then [Down(VirtualKey(s.modifier.value), false)] else [];
    var freed := if s.modifier.Some? then [Up(Down(VirtualKey(s.modifier.value), false))] else [];
    held + [press, Up(press)] + freed
  }

  function CharacterEvents(unit: nat): seq<KeyEvent> {
    var press := Down(Character(unit), false);
    [press, Up(press)]
  }

  function TextEvents(text: seq<nat>): seq<KeyEvent> {
    if text == [] then [] else TextEvents(text[..|text| - 1]) + CharacterEvents(text[|text| - 1])
  }

  /** The events of a well-formed keyboard action; None for anything that is refused. */
  function Planned(a: Action): Option<seq<KeyEvent>> {
    match a
    case PressKey(name, fields) =>
      var stroke := StrokeOf(name);
      if stroke.None? || fields != 2 then None else Some(StrokeEvents(stroke.value))
    case TypeText(text, fields) =>
      if text == [] || |text| > 4096 || fields != 2 then None else Some(TextEvents(text))
    case _ => None
  }

  // ---- keys left held down ----

  /** The last event of `key` is a press. */
  function Held(events: seq<KeyEvent>, key: Key): bool {
    if events == [] then false
    else
      var last := events[|events| - 1];
      if last.key == key then !last.up else Held(events[..|events| - 1], key)
  }

  ghost predicate AllReleased(events: seq<KeyEvent>) {
    forall key :: !Held(events, key)
  }

  lemma {:induction false} HeldConcat(a: seq<KeyEvent>, b: seq<KeyEvent>, key: Key)
    ensures Held(a + b, key) ==> Held(a, key) || Held(b, key)
    ensures !Held(b, key) && !Held(a, key) ==> !Held(a + b, key)
    decreases |b|
  {
    if b == [] {
      assert a + b == a;
    } else {
      assert (a + b)[..|a + b| - 1] == a + b[..|b| - 1];
      HeldConcat(a, b[..|b| - 1], key);
    }
  }

  lemma HeldLast(a: seq<KeyEvent>, e: KeyEvent, key: Key)
    ensures Held(a + [e], key) == if e.key == key then !e.up else Held(a, key)
  {
    assert (a + [e])[..|a|] == a;
  }

  lemma ReleasedConcat(a: seq<KeyEvent>, b: seq<KeyEvent>)
    requires AllReleased(a) && AllReleased(b)
    ensures AllReleased(a + b)
  {
    forall key
      ensures !Held(a + b, key)
    {
      HeldConcat(a, b, key);
    }
  }

  /** What injected() sends to undo the first events of a batch: an up for every down. */
  function Releases(sent: seq<KeyEvent>): seq<KeyEvent> {
    if sent == [] then []
    else
      var last := sent[|sent| - 1];
      Releases(sent[..|sent| - 1]) + if last.up then [] else [Up(last)]
  }

  lemma {:induction false} ReleasesFree(sent: seq<KeyEvent>, key: Key)
    ensures forall i :: 0 <= i < |Releases(sent)| ==> Releases(sent)[i].up
    ensures !Held(Releases(sent), key)
    ensures Held(sent, key) ==> exists i :: 0 <= i < |Releases(sent)| && Releases(sent)[i].key == key
    decreases |sent|
  {
    if sent != [] {
      var n := |sent| - 1;
      ReleasesFree(sent[..n], key);
      var rest := Releases(sent[..n]);
      if !sent[n].up {
        assert Releases(sent)[..|rest|] == rest;
        assert Releases(sent)[|rest|] == Up(sent[n]);
      } else {
        assert Releases(sent) == rest;
      }
    }
  }

  /** With a release behind it, no press counts. */
  lemma {:induction false} HeldAfterRelease(a: seq<KeyEvent>, b: seq<KeyEvent>, key: Key)
    requires forall i :: 0 <= i < |b| ==> b[i].up
    requires exists i :: 0 <= i < |b| && b[i].key == key
    ensures !Held(a + b, key)
    decreases |b|
  {
    var n := |b| - 1;
    assert (a + b)[|a + b| - 1] == b[n] && (a + b)[..|a + b| - 1] == a + b[..n];
    if b[n].key != key {
      var i :| 0 <= i < |b| && b[i].key == key;
      assert b[..n][i].key == key;
      HeldAfterRelease(a, b[..n], key);
    }
  }

  /** After a cut-off batch and its releases no key of the batch is left down. */
  lemma CutOffReleased(sent: seq<KeyEvent>)
    ensures AllReleased(sent + Releases(sent))
  {
    forall key
      ensures !Held(sent + Releases(sent), key)
    {
      ReleasesFree(sent, key);
      if Held(sent, key) {
        HeldAfterRelease(sent, Releases(sent), key);
      } else {
        HeldConcat(sent, Releases(sent), key);
      }
    }
  }

  lemma PairReleased(press: KeyEvent)
    requires !press.up
    ensures AllReleased([press, Up(press)])
  {
    forall key
      ensures !Held([press, Up(press)], key)
    {
      assert [press, Up(press)] == [press] + [Up(press)] && [press] == [] + [press];
      HeldLast([press], Up(press), key);
      HeldLast([], press, key);
    }
  }

  lemma StrokeReleased(s: Stroke)
    requires s.modifier.Some? ==> s.modifier.value != s.code
    ensures AllReleased(StrokeEvents(s))
  {
    var press := Down(VirtualKey(s.code), s.code == VK_DELETE || VK_PRIOR <= s.code <= VK_DOWN);
    PairReleased(press);
    if s.modifier.Some? {
      var held := Down(VirtualKey(s.modifier.value), false);
      var events := StrokeEvents(s);
      var middle := [held] + [press, Up(press)];
      assert events == middle + [Up(held)];
      forall key
        ensures !Held(events, key)
      {
        HeldLast(middle, Up(held), key);
        HeldLast([], held, key);
        assert [] + [held] == [held];
        HeldConcat([held], [press, Up(press)], key);
      }
    } else {
      assert StrokeEvents(s) == [press, Up(press)];
    }
  }

  lemma {:induction false} TextReleased(text: seq<nat>)
    ensures AllReleased(TextEvents(text))
  {
    if text != [] {
      TextReleased(text[..|text| - 1]);
      PairReleased(Down(Character(text[|text| - 1]), false));
      ReleasedConcat(TextEvents(text[..|text| - 1]), CharacterEvents(text[|text| - 1]));
    }
  }

  /** A plan that is sent whole presses nothing it does not release. */
  lemma PlannedReleased(a: Action)
    requires Planned(a).Some?
    ensures AllReleased(Planned(a).value)
  {
    match a
    case PressKey(name, _) =>
      var stroke := StrokeOf(name).value;
      assert stroke.code != VK_SHIFT && stroke.code != VK_CONTROL;
      StrokeReleased(stroke);
    case TypeText(text, _) => TextReleased(text);
  }

  /**
   * What happens: the n-th check of the target, how much SendInput takes of the n-th batch, and
   * whether another thread stops or pauses at the n-th moment.
   */
  datatype Script = Script(check: nat -> Option<nat>, takes: nat -> nat, stop: nat -> bool)
  {
    ghost predicate Quiet(from: nat, n: nat) {
      forall i :: from <= i < from + n ==> !stop(i)
    }

    ghost predicate Passes(from: nat, n: nat) {
      forall i :: from <= i < from + n ==> check(i).None?
    }

    ghost predicate TakesWhole(from: nat, n: nat, size: nat) {
      forall i :: from <= i < from + n ==> takes(i) >= size
    }
  }

  /** A planned action goes out in so many batches of so many events. */
  function Batches(a: Action): nat {
    if a.TypeText? then |a.text| else 1
  }

  function BatchSize(a: Action): nat {
    if a.PressKey? && StrokeOf(a.name).Some? then |StrokeEvents(StrokeOf(a.name).value)| else 2
  }

  class InputController {
    const script: Script
    var active: bool
    var generation: nat
    var desktop: seq<KeyEvent>

    // How many checks, batches and moments there have been.
    var checked: nat
    var batched: nat
    var moments: nat

    constructor (script: Script, active: bool, generation: nat)
      ensures this.script == script && this.active == active && this.generation == generation
      ensures desktop == [] && checked == 0 && batched == 0 && moments == 0
    {
      this.script, this.active, this.generation := script, active, generation;
      desktop, checked, batched, moments := [], 0, 0, 0;
    }

    /** Control is active and of the generation that the caller means. */
    predicate InControl(expected: nat)
      reads this
    {
      active && generation == expected
    }

    /** A stop or pause of another thread may come in between. */
    method Interference(ghost expected: nat)
      modifies this`moments, this`active, this`generation
      ensures moments == old(moments) + 1
      ensures InControl(expected) <==> old(InControl(expected)) && !script.stop(old(moments))
    {
      if script.stop(moments) {
        active := false;
        generation := generation + 1;
      }
      moments := moments + 1;
    }

    method Validate() returns (failure: Option<Code>)
      modifies this`checked
      ensures checked == old(checked) + 1
      ensures failure == match script.check(old(checked)) case Some(reason) => Some(Validation(reason)) case None => None
    {
      var answer := script.check(checked);
      checked := checked + 1;
      return if answer.Some? then Some(Validation(answer.value)) else None;
    }

    method SendInput(events: seq<KeyEvent>) returns (sent: nat)
      modifies this`batched, this`desktop
      ensures batched == old(batched) + 1
      ensures sent == if script.takes(old(batched)) < |events| then script.takes(old(batched)) else |events|
      ensures desktop == old(desktop) + events[..sent]
    {
      sent := script.takes(batched);
      if sent > |events| {
        sent := |events|;
      }
      batched := batched + 1;
      desktop := desktop + events[..sent];
    }

    /** A cut-off batch: an up for every down of it that went out. */
    method Release(events: seq<KeyEvent>)
      modifies this`desktop
      ensures desktop == old(desktop) + Releases(events)
    {
      for i := 0 to |events|
        invariant desktop == old(desktop) + Releases(events[..i])
      {
        assert events[..i + 1][..i] == events[..i];
        if !events[i].up {
          desktop := desktop + [Up(events[i])];
        }
      }
      assert events[..|events|] == events;
    }

    /** One batch under the mutex: all of it, none of it, or a part that is taken back. */
    method Injected(events: seq<KeyEvent>, expected: nat) returns (failure: Option<Code>)
      modifies this`moments, this`active, this`generation, this`batched, this`desktop
      ensures failure == if !old(InControl(expected)) || script.stop(old(moments)) then Some(Paused)
                         else if script.takes(old(batched)) < |events| then Some(Unknown) else None
      ensures failure.None? ==> desktop == old(desktop) + events
      ensures failure.None? ==> moments == old(moments) + 2 && batched == old(batched) + 1
      ensures failure.None? ==> (InControl(expected) <==> !script.stop(old(moments) + 1))
      ensures failure == Some(Paused) ==> desktop == old(desktop)
      ensures failure == Some(Unknown) ==> !active && var part := events[..script.takes(old(batched))];
                desktop == old(desktop) + (part + Releases(part))
    {
      Interference(expected);
      if !active || generation != expected {
        return Some(Paused);
      }
      var sent := SendInput(events);
      Interference(expected);
      if sent != |events| {
        Release(events[..sent]);
        active := false;
        return Some(Unknown);
      }
      assert events[..sent] == events;
      return None;
    }

    /** One code unit: a check, then a batch. */
    method TypeUnit(unit: nat, expected: nat) returns (failure: Option<Code>)
      modifies this
      ensures failure.None? <==>
                && script.check(old(checked)).None? && script.takes(old(batched)) >= 2
                && old(InControl(expected)) && !script.stop(old(moments))
      ensures failure.None? ==> desktop == old(desktop) + CharacterEvents(unit)
      ensures failure.None? ==> checked == old(checked) + 1 && batched == old(batched) + 1 && moments == old(moments) + 2
      ensures failure.None? ==> (InControl(expected) <==> !script.stop(old(moments) + 1))
      ensures failure.Some? && failure.value != Unknown ==> desktop == old(desktop)
      ensures failure == Some(Unknown) ==> exists events :: desktop == old(desktop) + events && AllReleased(events)
    {
      failure := Validate();
      if failure.None? {
        failure := Injected(CharacterEvents(unit), expected);
        CutOffReleased(CharacterEvents(unit)[..if script.takes(old(batched)) < 2 then script.takes(old(batched)) else 2]);
      }
    }

    /** Nothing stands in the way of typing `n` code units; a stop after the last is not noticed here. */
    ghost predicate Typable(n: nat, expected: nat)
      reads this
    {
      && script.Passes(checked, n) && script.TakesWhole(batched, n, 2)
      && (n > 0 ==> InControl(expected) && script.Quiet(moments, 2 * n - 1))
    }

    /** The text branch: one batch per code unit, each after its own check. */
    method Type(text: seq<nat>, expected: nat) returns (failure: Option<Code>)
      modifies this
      ensures failure.None? <==> old(Typable(|text|, expected))
      ensures failure.None? ==> desktop == old(desktop) + TextEvents(text) && moments == old(moments) + 2 * |text|
      ensures failure.None? && text != [] ==> (InControl(expected) <==> !script.stop(moments - 1))
      ensures failure.Some? && failure.value != Unknown ==> desktop == old(desktop)
      ensures failure == Some(Unknown) ==> exists events :: desktop == old(desktop) + events && AllReleased(events)
    {
      var dispatched := false;
      for i := 0 to |text|
        invariant desktop == old(desktop) + TextEvents(text[..i])
        invariant dispatched <==> i > 0
        invariant old(Typable(i, expected))
        invariant checked == old(checked) + i && batched == old(batched) + i && moments == old(moments) + 2 * i
        invariant InControl(expected) <==> old(InControl(expected)) && (i > 0 ==> !script.stop(moments - 1))
      {
        assert text[..i + 1][..i] == text[..i];
        ghost var before := desktop;
        failure := TypeUnit(text[i], expected);
        if failure.Some? {
          ghost var tail := [];
          if failure.value.Unknown? {
            tail :| desktop == before + tail && AllReleased(tail);
          }
          TextReleased(text[..i]);
          ReleasedConcat(TextEvents(text[..i]), tail);
          assert desktop == old(desktop) + (TextEvents(text[..i]) + tail);
          return if dispatched then Some(Unknown) else failure;
        }
        dispatched := true;
      }
      assert text[..|text|] == text;
      return None;
    }

    /** The code an action is refused with before any key event, if it is. */
    ghost function Refusal(a: Action, expected: nat, sameObservation: bool): Option<Code>
      reads this
    {
      if !InControl(expected) || script.stop(moments) then Some(Paused)
      else if !sameObservation then Some(Stale)
      else if a.Click? || a.Scroll? then Some(NotSupported)
      else if script.check(checked).Some? then Some(Validation(script.check(checked).value))
      else if Planned(a).None? then Some(InvalidRequest)
      else None
    }

    /** Nothing disturbs the action: not the checks, not SendInput, and no stop or pause. */
    ghost predicate Undisturbed(a: Action, expected: nat)
      reads this
    {
      && InControl(expected) && script.Quiet(moments, 2 * Batches(a) + 2)
      && script.Passes(checked, Batches(a) + 1) && script.TakesWhole(batched, Batches(a), BatchSize(a))
    }

    /** The keyboard branches, once the action is planned. */
    method Perform(a: Action, expected: nat) returns (failure: Option<Code>)
      requires Planned(a).Some?
      modifies this
      ensures failure.None? <==>
                && old(InControl(expected)) && script.Quiet(old(moments), 2 * Batches(a) - 1)
                && script.Passes(old(checked), Batches(a)) && script.TakesWhole(old(batched), Batches(a), BatchSize(a))
      ensures failure.None? ==> desktop == old(desktop) + Planned(a).value && moments == old(moments) + 2 * Batches(a)
      ensures failure.None? ==> (InControl(expected) <==> !script.stop(moments - 1))
      ensures failure.Some? && failure.value != Unknown ==> desktop == old(desktop)
      ensures failure == Some(Unknown) ==> exists events :: desktop == old(desktop) + events && AllReleased(events)
    {
      match a {
        case PressKey(name, _) =>
          failure := Validate();
          if failure.None? {
            var events := StrokeEvents(StrokeOf(name).value);
            failure := Injected(events, expected);
            if failure == Some(Unknown) {
              ghost var part := events[..script.takes(old(batched))];
              CutOffReleased(part);
            }
          }
        case TypeText(text, _) =>
          failure := Type(text, expected);
      }
    }

    /**
     * A keyboard action: dispatched, exactly if it is planned and nothing disturbs it, every planned
     * event has gone out in order; a code other than Unknown means none did; Unknown leaves no key down.
     */
    method Act(a: Action, expected: nat, sameObservation: bool) returns (r: Result)
      modifies this
      ensures r.Dispatched? <==> Planned(a).Some? && sameObservation && old(Undisturbed(a, expected))
      ensures r.Dispatched? ==> desktop == old(desktop) + Planned(a).value
      ensures old(Refusal(a, expected, sameObservation)).Some? ==>
                r == Failed(old(Refusal(a, expected, sameObservation)).value) && desktop == old(desktop)
      ensures r.Failed? && r.code != Unknown ==> desktop == old(desktop)
      ensures r == Failed(Unknown) ==> exists events :: desktop == old(desktop) + events && AllReleased(events)
    {
      Interference(expected);
      if !active || expected != generation {
        return Failed(Paused);
      }
      if !sameObservation {
        return Failed(Stale);
      }
      if a.Click? || a.Scroll? {
        return Failed(NotSupported);
      }
      var failure := Validate();
      if failure.Some? {
        return Failed(failure.value);
      }
      if Planned(a).None? {
        return Failed(InvalidRequest);
      }
      PlannedReleased(a);
      failure := Perform(a, expected);
      if failure.Some? {
        return Failed(failure.value);
      }
      Interference(expected);
      if !active || generation != expected {
        return Failed(Unknown);
      }
      return Dispatched;
    }
  }
}
