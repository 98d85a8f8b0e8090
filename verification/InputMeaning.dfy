/**
 * What the key events of an action mean to the window that gets them: which keys are typed, and with
 * which modifiers held (native/computer-observation/control.cpp).
 */
module InputMeaning {
  import opened Wrappers
  import opened InputActions

  /** A key that is typed, and what is held with it. */
  datatype Typed = Typed(key: Key, extended: bool, shift: bool, control: bool)

  /** What a window has seen: whether Shift and Control are down, and what has been typed. */
  datatype View = View(shift: bool, control: bool, typed: seq<Typed>)

  function Sees(v: View, e: KeyEvent): View {
    if e.key == VirtualKey(0x10) then v.(shift := !e.up)
    else if e.key == VirtualKey(0x11) then v.(control := !e.up)
    else if e.up then v
    else v.(typed := v.typed + [Typed(e.key, e.extended, v.shift, v.control)])
  }

  function SeesAll(v: View, events: seq<KeyEvent>): View {
    if events == [] then v else Sees(SeesAll(v, events[..|events| - 1]), events[|events| - 1])
  }

  lemma SeesNext(v: View, events: seq<KeyEvent>, e: KeyEvent)
    ensures SeesAll(v, events + [e]) == Sees(SeesAll(v, events), e)
  {
    assert (events + [e])[..|events|] == events;
  }

  lemma SeesTwo(v: View, events: seq<KeyEvent>, a: KeyEvent, b: KeyEvent)
    ensures SeesAll(v, events + [a, b]) == Sees(Sees(SeesAll(v, events), a), b)
  {
    assert events + [a, b] == events + [a] + [b];
    SeesNext(v, events, a);
    SeesNext(v, events + [a], b);
  }

  /** The Windows virtual-key code of a named key. */
  function NamedKey(name: string): Option<nat> {
    if name == "Backspace" then Some(0x08)
    else if name == "Tab" then Some(0x09)
    else if name == "Enter" then Some(0x0D)
    else if name == "Escape" then Some(0x1B)
    else if name == "PageUp" then Some(0x21)
    else if name == "PageDown" then Some(0x22)
    else if name == "End" then Some(0x23)
    else if name == "Home" then Some(0x24)
    else if name == "ArrowLeft" then Some(0x25)
    else if name == "ArrowUp" then Some(0x26)
    else if name == "ArrowRight" then Some(0x27)
    else if name == "ArrowDown" then Some(0x28)
    else if name == "Delete" then Some(0x2E)
    else None
  }

  /** The keys of the cursor block, which Windows marks as extended. */
  predicate CursorBlock(code: nat) {
    code == 0x2E || 0x21 <= code <= 0x28
  }

  /** What pressing a key by this name should type. */
  function Meant(name: string): Option<Typed> {
    if name == "Shift+Tab" then Some(Typed(VirtualKey(0x09), false, true, false))
    else if name == "Ctrl+A" then Some(Typed(VirtualKey(65), false, false, true))
    else if name == "Ctrl+F" then Some(Typed(VirtualKey(70), false, false, true))
    else if name == "Ctrl+S" then Some(Typed(VirtualKey(83), false, false, true))
    else if name == "Ctrl+Y" then Some(Typed(VirtualKey(89), false, false, true))
    else if name == "Ctrl+Z" then Some(Typed(VirtualKey(90), false, false, true))
    else if NamedKey(name).Some? then Some(Typed(VirtualKey(NamedKey(name).value), CursorBlock(NamedKey(name).value), false, false))
    else None
  }

  lemma KeysExactly(name: string)
    ensures name in KEYS <==> NamedKey(name).Some?
    ensures name in KEYS ==> KEYS[name] == NamedKey(name).value
  {
  }

  lemma ControlKeys(name: string)
    requires |name| == 6 && name[..5] == "Ctrl+"
    ensures name == "Ctrl+" + [name[5]] && name !in KEYS && name != "Shift+Tab"
    ensures Meant(name).Some? <==> name[5] in "AFSZY"
    ensures name[5] in "AFSZY" ==> Meant(name) == Some(Typed(VirtualKey(name[5] as int), false, false, true))
  {
    assert name == name[..5] + [name[5]];
    assert name[0] == 'C' && name[4] == '+';
  }

  lemma StrokeMeans(name: string)
    ensures StrokeOf(name).Some? <==> Meant(name).Some?
    ensures StrokeOf(name).Some? ==>
              var s, m := StrokeOf(name).value, Meant(name).value;
              && m.key == VirtualKey(s.code) && m.extended == (s.code == 0x2E || 0x21 <= s.code <= 0x28)
              && s.modifier == (if m.shift then Some(0x10) else if m.control then Some(0x11) else None)
              && !(m.shift && m.control) && s.code != 0x10 && s.code != 0x11
  {
    if |name| == 6 && name[..5] == "Ctrl+" {
      ControlKeys(name);
    } else {
      KeysExactly(name);
    }
  }

  lemma PlainStroke(s: Stroke, v: View)
    requires s.modifier.None? && s.code != 0x10 && s.code != 0x11
    ensures SeesAll(v, StrokeEvents(s)) ==
            v.(typed := v.typed + [Typed(VirtualKey(s.code), s.code == 0x2E || 0x21 <= s.code <= 0x28, v.shift, v.control)])
  {
    var press := Down(VirtualKey(s.code), s.code == VK_DELETE || VK_PRIOR <= s.code <= VK_DOWN);
    assert StrokeEvents(s) == [] + [press, Up(press)];
    SeesTwo(v, [], press, Up(press));
  }

  lemma ModifiedStroke(s: Stroke, v: View)
    requires s.modifier in {Some(0x10), Some(0x11)} && s.code != 0x10 && s.code != 0x11 && !v.shift && !v.control
    ensures SeesAll(v, StrokeEvents(s)) ==
            v.(typed := v.typed + [Typed(VirtualKey(s.code), s.code == 0x2E || 0x21 <= s.code <= 0x28,
                                         s.modifier == Some(0x10), s.modifier == Some(0x11))])
  {
    var press := Down(VirtualKey(s.code), s.code == VK_DELETE || VK_PRIOR <= s.code <= VK_DOWN);
    var held := Down(VirtualKey(s.modifier.value), false);
    assert StrokeEvents(s) == [] + [held, press] + [Up(press), Up(held)];
    SeesTwo(v, [], held, press);
    SeesTwo(v, [] + [held, press], Up(press), Up(held));
  }

  lemma {:induction false} TextMeans(text: seq<nat>, v: View)
    ensures SeesAll(v, TextEvents(text)) ==
            v.(typed := v.typed + seq(|text|, i requires 0 <= i < |text| => Typed(Character(text[i]), false, v.shift, v.control)))
  {
    if text == [] {
      assert v.typed + [] == v.typed;
    } else {
      var n := |text| - 1;
      var press := Down(Character(text[n]), false);
      TextMeans(text[..n], v);
      SeesTwo(v, TextEvents(text[..n]), press, Up(press));
    }
  }

  /** Neither Shift nor Control down. */
  function Fresh(): View {
    View(false, false, [])
  }

  /**
   * What a planned action means: the one key of its name with the modifier of its name, or the
   * characters of its text one after the other without any; and every modifier is up again. Planned,
   * exactly, are the named keys and combinations, and texts of 1 to 4096 code units.
   */
  lemma PlanMeans(a: Action)
    ensures Planned(a).Some? <==>
            match a
            case PressKey(name, fields) => fields == 2 && Meant(name).Some?
            case TypeText(text, fields) => fields == 2 && 1 <= |text| <= 4096
            case _ => false
    ensures a.PressKey? && Planned(a).Some? ==>
              SeesAll(Fresh(), Planned(a).value) == View(false, false, [Meant(a.name).value])
    ensures a.TypeText? && Planned(a).Some? ==>
              SeesAll(Fresh(), Planned(a).value) ==
              View(false, false, seq(|a.text|, i requires 0 <= i < |a.text| => Typed(Character(a.text[i]), false, false, false)))
  {
    match a
    case PressKey(name, fields) =>
      StrokeMeans(name);
      if Planned(a).Some? {
        var s := StrokeOf(name).value;
        if s.modifier.None? {
          PlainStroke(s, Fresh());
        } else {
          ModifiedStroke(s, Fresh());
        }
      }
    case TypeText(text, fields) => TextMeans(text, Fresh());
    case _ =>
  }
}
