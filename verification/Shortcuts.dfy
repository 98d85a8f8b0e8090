/**
 * The shortcut table of src/contracts/keyboard-shortcuts.ts: bindings, their platform signatures,
 * and the pass that removes conflicting overrides. A binding is its list of tokens; splitting at
 * plus signs and trimming are outside the model. Commands are numbered in table order.
 */
module Shortcuts {
  import opened Wrappers

  datatype Platform = Mac | OtherPlatform

  type Binding = seq<string>

  const COMMANDS := 16
  type Command = c: nat | c < COMMANDS

  const DEFAULTS: seq<Binding> := [
    ["Mod", "KeyB"], ["Mod", "KeyJ"], ["Mod", "Alt", "KeyB"], ["Mod", "KeyN"],
    ["Mod", "PageUp"], ["Mod", "PageDown"], ["PageUp"], ["PageDown"],
    ["Mod", "KeyF"], ["Shift", "KeyA"], ["F3"], ["Home"],
    ["Mod", "Enter"], ["Delete"], ["Mod", "KeyZ"], ["Mod", "Shift", "KeyZ"]]

  const MODIFIERS: seq<string> := ["Mod", "Ctrl", "Meta", "Alt", "Shift"]

  const NAMED_KEYS: set<string> := {
    "ArrowUp", "ArrowDown", "ArrowLeft", "ArrowRight", "PageUp", "PageDown", "Home", "End", "Insert", "Delete",
    "Backspace", "Enter", "Space", "Tab", "Escape", "Comma", "Period", "Slash", "Semicolon", "Quote", "BracketLeft",
    "BracketRight", "Backslash", "Minus", "Equal", "Backquote", "NumpadAdd", "NumpadSubtract", "NumpadMultiply",
    "NumpadDivide", "NumpadDecimal", "NumpadEnter"}

  const PRINTABLE_NAMED: set<string> := {
    "Space", "Comma", "Period", "Slash", "Semicolon", "Quote", "BracketLeft", "BracketRight", "Backslash", "Minus",
    "Equal", "Backquote", "NumpadAdd", "NumpadSubtract", "NumpadMultiply", "NumpadDivide", "NumpadDecimal"}

  // ---- tokens ----

  function Lower(s: string): string {
    seq(|s|, i requires 0 <= i < |s| => if 'A' <= s[i] <= 'Z' then (s[i] as int + 32) as char else s[i])
  }

  /** The modifier a token names, whatever its case. */
  function ModifierOf(token: string): Option<string> {
    if Lower(token) == Lower("Mod") then Some("Mod")
    else if Lower(token) == Lower("Ctrl") then Some("Ctrl")
    else if Lower(token) == Lower("Meta") then Some("Meta")
    else if Lower(token) == Lower("Alt") then Some("Alt")
    else if Lower(token) == Lower("Shift") then Some("Shift")
    else None
  }

  predicate Digit(c: char) {
    '0' <= c <= '9'
  }

  predicate LetterKey(t: string) {
    |t| == 4 && t[..3] == "Key" && 'A' <= t[3] <= 'Z'
  }

  predicate DigitKey(t: string) {
    (|t| == 6 && t[..5] == "Digit" && Digit(t[5])) || (|t| == 7 && t[..6] == "Numpad" && Digit(t[6]))
  }

  predicate FunctionKey(t: string) {
    || (|t| == 2 && t[0] == 'F' && '1' <= t[1] <= '9')
    || (|t| == 3 && t[0] == 'F' && t[1] == '1' && Digit(t[2]))
    || (|t| == 3 && t[0] == 'F' && t[1] == '2' && '0' <= t[2] <= '4')
  }

  predicate IsKey(t: string) {
    LetterKey(t) || DigitKey(t) || FunctionKey(t) || t in NAMED_KEYS
  }

  predicate Printable(t: string) {
    LetterKey(t) || DigitKey(t) || t in PRINTABLE_NAMED
  }

  /** What reading a binding's tokens has found so far. */
  datatype Parsed = Bad | Parsed(modifiers: set<string>, key: Option<string>)

  function ParseToken(p: Parsed, token: string): Parsed {
    if p.Bad? then Bad
    else if ModifierOf(token).Some? then p.(modifiers := p.modifiers + {ModifierOf(token).value})
    else if !IsKey(token) || p.key.Some? then Bad
    else p.(key := Some(token))
  }

  function Parse(tokens: seq<string>): Parsed {
    if tokens == [] then Parsed({}, None) else ParseToken(Parse(tokens[..|tokens| - 1]), tokens[|tokens| - 1])
  }

  /** The modifiers found, in the fixed order. */
  function OrderedUpTo(modifiers: set<string>, n: nat): seq<string>
    requires n <= |MODIFIERS|
  {
    if n == 0 then []
    else OrderedUpTo(modifiers, n - 1) + if MODIFIERS[n - 1] in modifiers then [MODIFIERS[n - 1]] else []
  }

  function Ordered(modifiers: set<string>): seq<string> {
    OrderedUpTo(modifiers, |MODIFIERS|)
  }

  function Rendered(p: Parsed): Option<Binding> {
    if p.Bad? || p.key.None? || (Printable(p.key.value) && p.modifiers == {}) then None
    else Some(Ordered(p.modifiers) + [p.key.value])
  }

  function Normalized(tokens: seq<string>): Option<Binding> {
    Rendered(Parse(tokens))
  }

  method NormalizeShortcutBinding(tokens: seq<string>) returns (binding: Option<Binding>)
    ensures binding == Normalized(tokens)
  {
    var modifiers: set<string> := {};
    var key: Option<string> := None;
    for i := 0 to |tokens|
      invariant Parse(tokens[..i]) == Parsed(modifiers, key)
    {
      assert tokens[..i + 1][..i] == tokens[..i];
      var modifier := ModifierOf(tokens[i]);
      if modifier.Some? {
        modifiers := modifiers + {modifier.value};
        continue;
      }
      if !IsKey(tokens[i]) || key.Some? {
        BadStays(tokens, i + 1);
        return None;
      }
      key := Some(tokens[i]);
    }
    assert tokens[..|tokens|] == tokens;
    if key.None? || (Printable(key.value) && modifiers == {}) {
      return None;
    }
    return Some(Ordered(modifiers) + [key.value]);
  }

  lemma {:induction false} BadStays(tokens: seq<string>, n: nat)
    requires n <= |tokens| && Parse(tokens[..n]).Bad?
    ensures Parse(tokens).Bad?
    decreases |tokens| - n
  {
    if n == |tokens| {
      assert tokens[..n] == tokens;
    } else {
      assert tokens[..n + 1][..n] == tokens[..n];
      BadStays(tokens, n + 1);
    }
  }

  // ---- signatures ----

  datatype Signature = Signature(ctrl: bool, meta: bool, alt: bool, shift: bool, key: string)

  function SignatureOf(binding: Binding, platform: Platform): Option<Signature> {
    var p := Parse(binding);
    if Rendered(p).None? then None
    else
      var m := p.modifiers;
      Some(Signature("Ctrl" in m || ("Mod" in m && platform.OtherPlatform?),
                     "Meta" in m || ("Mod" in m && platform.Mac?), "Alt" in m, "Shift" in m, p.key.value))
  }

  /** Normalising twice is normalising once, and keeps the signature. */
  lemma NormalIsStable(tokens: seq<string>, platform: Platform)
    requires Normalized(tokens).Some?
    ensures Normalized(Normalized(tokens).value) == Normalized(tokens)
    ensures SignatureOf(Normalized(tokens).value, platform) == SignatureOf(tokens, platform)
  {
    ParsedModifiers(tokens);
    var p := Parse(tokens);
    OrderedParses(p.modifiers);
    ParseAppend(Ordered(p.modifiers), p.key.value);
    KeyIsNoModifier(p.key.value);
  }

  lemma ParseAppend(tokens: seq<string>, token: string)
    ensures Parse(tokens + [token]) == ParseToken(Parse(tokens), token)
  {
    assert (tokens + [token])[..|tokens|] == tokens;
  }

  lemma {:induction false} ParsedModifiers(tokens: seq<string>)
    ensures var p := Parse(tokens);
            p.Bad? || (p.modifiers <= {"Mod", "Ctrl", "Meta", "Alt", "Shift"} && (p.key.Some? ==> IsKey(p.key.value)))
  {
    if tokens != [] {
      ParsedModifiers(tokens[..|tokens| - 1]);
    }
  }

  lemma ModifiersAreModifiers()
    ensures ModifierOf("Mod") == Some("Mod") && ModifierOf("Ctrl") == Some("Ctrl") && ModifierOf("Meta") == Some("Meta")
    ensures ModifierOf("Alt") == Some("Alt") && ModifierOf("Shift") == Some("Shift")
  {
    assert Lower("Ctrl")[0] == 'c' && Lower("Mod")[0] == 'm' && Lower("Meta")[0] == 'm';
    assert Lower("Alt")[0] == 'a' && Lower("Shift")[0] == 's';
    assert |Lower("Mod")| == 3 && |Lower("Meta")| == 4;
  }

  function Chosen(modifiers: set<string>, n: nat): set<string>
    requires n <= |MODIFIERS|
  {
    set m | m in MODIFIERS[..n] && m in modifiers
  }

  lemma ModifierAt(i: nat)
    requires i < |MODIFIERS|
    ensures ModifierOf(MODIFIERS[i]) == Some(MODIFIERS[i])
  {
    ModifiersAreModifiers();
  }

  lemma OrderedNext(modifiers: set<string>, n: nat, m: string, chosen: set<string>)
    requires 0 < n <= |MODIFIERS| && m == MODIFIERS[n - 1] && ModifierOf(m) == Some(m)
    requires Parse(OrderedUpTo(modifiers, n - 1)) == Parsed(chosen, None)
    ensures Parse(OrderedUpTo(modifiers, n)) == Parsed(chosen + if m in modifiers then {m} else {}, None)
  {
    ParseOptional(OrderedUpTo(modifiers, n - 1), m, if m in modifiers then [m] else []);
  }

  lemma {:induction false} OrderedParsesUpTo(modifiers: set<string>, n: nat)
    requires n <= |MODIFIERS|
    ensures Parse(OrderedUpTo(modifiers, n)) == Parsed(Chosen(modifiers, n), None)
  {
    if n > 0 {
      OrderedParsesUpTo(modifiers, n - 1);
      ModifierAt(n - 1);
      OrderedNext(modifiers, n, MODIFIERS[n - 1], Chosen(modifiers, n - 1));
      ChosenNext(modifiers, n);
    }
  }

  lemma ChosenNext(modifiers: set<string>, n: nat)
    requires 0 < n <= |MODIFIERS|
    ensures Chosen(modifiers, n) == Chosen(modifiers, n - 1) + if MODIFIERS[n - 1] in modifiers then {MODIFIERS[n - 1]} else {}
  {
    assert MODIFIERS[..n] == MODIFIERS[..n - 1] + [MODIFIERS[n - 1]];
  }

  lemma OrderedParses(modifiers: set<string>)
    requires modifiers <= {"Mod", "Ctrl", "Meta", "Alt", "Shift"}
    ensures Parse(Ordered(modifiers)) == Parsed(modifiers, None)
  {
    OrderedParsesUpTo(modifiers, |MODIFIERS|);
    assert MODIFIERS[..|MODIFIERS|] == MODIFIERS;
    assert Chosen(modifiers, |MODIFIERS|) == modifiers;
  }

  lemma ParseOptional(before: seq<string>, modifier: string, part: seq<string>)
    requires !Parse(before).Bad? && ModifierOf(modifier) == Some(modifier)
    requires part == [] || part == [modifier]
    ensures Parse(before + part)
         == Parse(before).(modifiers := Parse(before).modifiers + if part == [] then {} else {modifier})
  {
    if part == [] {
      assert before + part == before;
    } else {
      ParseAppend(before, modifier);
    }
  }

  lemma LowerKeeps(s: string, i: nat)
    requires i < |s|
    ensures |Lower(s)| == |s| && (!('A' <= s[i] <= 'Z') ==> Lower(s)[i] == s[i])
    ensures 'A' <= s[i] <= 'Z' ==> Lower(s)[i] as int == s[i] as int + 32
  {
  }

  /** No key token is a modifier in any spelling. */
  lemma KeyIsNoModifier(t: string)
    requires IsKey(t)
    ensures ModifierOf(t).None?
  {
    if ModifierOf(t).Some? {
      ModifierLetters(t, ModifierOf(t).value);
      KeyLetters(t);
    }
  }

  /** A modifier in some spelling is told by its length and its first or second letter. */
  predicate LooksLikeModifier(t: string) {
    || (|t| == 3 && (t[0] == 'M' || t[0] == 'm' || t[0] == 'A' || t[0] == 'a'))
    || (|t| == 4 && (t[0] == 'C' || t[0] == 'c' || t[0] == 'M' || t[0] == 'm'))
    || (|t| == 5 && (t[1] == 'H' || t[1] == 'h'))
  }

  lemma ModifierLetters(t: string, m: string)
    requires Lower(t) == Lower(m) && (m == "Mod" || m == "Ctrl" || m == "Meta" || m == "Alt" || m == "Shift")
    ensures LooksLikeModifier(t)
  {
    assert |t| == |Lower(t)| == |Lower(m)| == |m|;
    LowerKeeps(t, 0);
    LowerKeeps(m, 0);
    LowerKeeps(t, 1);
    LowerKeeps(m, 1);
  }

  lemma KeyLetters(t: string)
    requires IsKey(t)
    ensures !LooksLikeModifier(t)
  {
  }

  // ---- which tokens are keys ----

  function DigitChar(d: nat): char
    requires d < 10
  {
    '0' + d as char
  }

  /** A number below 100 in decimal. */
  function Decimal(n: nat): string
    requires n < 100
  {
    if n < 10 then [DigitChar(n)] else [DigitChar(n / 10), DigitChar(n % 10)]
  }

  lemma LetterKeys(t: string)
    ensures LetterKey(t) <==> exists c: char :: 'A' <= c <= 'Z' && t == "Key" + [c]
  {
    if LetterKey(t) {
      assert t == t[..3] + [t[3]];
    }
    forall c: char | 'A' <= c <= 'Z' && t == "Key" + [c]
      ensures LetterKey(t)
    {
      assert t[..3] == "Key" && t[3] == c;
    }
  }

  lemma DigitKeys(t: string)
    ensures DigitKey(t) <==> exists c: char :: '0' <= c <= '9' && (t == "Digit" + [c] || t == "Numpad" + [c])
  {
    if DigitKey(t) {
      var c := t[|t| - 1];
      assert t == t[..|t| - 1] + [c];
      assert '0' <= c <= '9' && (t == "Digit" + [c] || t == "Numpad" + [c]);
    }
    forall c: char | '0' <= c <= '9' && (t == "Digit" + [c] || t == "Numpad" + [c])
      ensures DigitKey(t)
    {
      assert t == "Digit" + [c] ==> t[..5] == "Digit" && t[5] == c;
      assert t == "Numpad" + [c] ==> t[..6] == "Numpad" && t[6] == c;
    }
  }

  /** The function keys are F1 to F24. */
  lemma FunctionKeys(t: string)
    ensures FunctionKey(t) <==> exists n: nat :: 1 <= n <= 24 && t == "F" + Decimal(n)
  {
    if FunctionKey(t) {
      var n := if |t| == 2 then (t[1] - '0') as nat else (t[1] - '0') as nat * 10 + (t[2] - '0') as nat;
      assert t == "F" + Decimal(n);
    }
    forall n: nat | 1 <= n <= 24 && t == "F" + Decimal(n)
      ensures FunctionKey(t)
    {
      assert t[1..] == Decimal(n);
    }
  }

  // ---- what a binding may be ----

  ghost predicate AllModifiers(tokens: seq<string>) {
    forall i :: 0 <= i < |tokens| ==> ModifierOf(tokens[i]).Some?
  }

  /** The `k`-th token is the key, and every other one names a modifier. */
  ghost predicate KeyAt(tokens: seq<string>, k: nat) {
    k < |tokens| && IsKey(tokens[k]) && forall i :: 0 <= i < |tokens| && i != k ==> ModifierOf(tokens[i]).Some?
  }

  ghost predicate Names(tokens: seq<string>, modifier: string) {
    exists i :: 0 <= i < |tokens| && ModifierOf(tokens[i]) == Some(modifier)
  }

  lemma NamesNext(init: seq<string>, last: string, modifier: string)
    ensures Names(init + [last], modifier) <==> Names(init, modifier) || ModifierOf(last) == Some(modifier)
  {
    var tokens := init + [last];
    assert tokens[|init|] == last;
    if Names(init, modifier) {
      var i :| 0 <= i < |init| && ModifierOf(init[i]) == Some(modifier);
      assert tokens[i] == init[i];
    }
    if Names(tokens, modifier) && ModifierOf(last) != Some(modifier) {
      var i :| 0 <= i < |tokens| && ModifierOf(tokens[i]) == Some(modifier);
      assert tokens[i] == init[i];
    }
  }

  lemma ModifiersNext(init: seq<string>, last: string)
    ensures AllModifiers(init + [last]) <==> AllModifiers(init) && ModifierOf(last).Some?
  {
    var tokens := init + [last];
    assert tokens[|init|] == last;
    assert forall i :: 0 <= i < |init| ==> tokens[i] == init[i];
  }

  lemma KeyNext(init: seq<string>, last: string, k: nat)
    ensures KeyAt(init + [last], k) <==>
            if k < |init| then KeyAt(init, k) && ModifierOf(last).Some? else k == |init| && IsKey(last) && AllModifiers(init)
  {
    var tokens := init + [last];
    assert tokens[|init|] == last;
    assert forall i :: 0 <= i < |init| ==> tokens[i] == init[i];
  }

  /** What parsing finds: modifiers only; or one key among them; anything else is bad. */
  lemma {:induction false} ParseFinds(tokens: seq<string>)
    ensures Parse(tokens).Parsed? && Parse(tokens).key.None? <==> AllModifiers(tokens)
    ensures forall k: nat :: KeyAt(tokens, k) ==> Parse(tokens).Parsed? && Parse(tokens).key == Some(tokens[k])
    ensures Parse(tokens).Parsed? && Parse(tokens).key.Some? ==> exists k: nat :: KeyAt(tokens, k)
    ensures Parse(tokens).Parsed? ==> forall m :: m in Parse(tokens).modifiers <==> Names(tokens, m)
    decreases |tokens|
  {
    if tokens != [] {
      var init, last := tokens[..|tokens| - 1], tokens[|tokens| - 1];
      assert tokens == init + [last];
      ParseFinds(init);
      ModifiersNext(init, last);
      if IsKey(last) {
        KeyIsNoModifier(last);
      }
      forall k: nat
        ensures KeyAt(tokens, k) <==>
                if k < |init| then KeyAt(init, k) && ModifierOf(last).Some? else k == |init| && IsKey(last) && AllModifiers(init)
      {
        KeyNext(init, last, k);
      }
      forall m
        ensures Names(tokens, m) <==> Names(init, m) || ModifierOf(last) == Some(m)
      {
        NamesNext(init, last, m);
      }
      if Parse(tokens).Parsed? && Parse(tokens).key.Some? {
        if IsKey(last) && ModifierOf(last).None? {
          assert KeyAt(tokens, |init|);
        } else {
          var k: nat :| KeyAt(init, k);
          assert KeyAt(tokens, k);
        }
      }
    }
  }

  lemma OrderedExactly(modifiers: set<string>)
    ensures Ordered(modifiers) ==
            (if "Mod" in modifiers then ["Mod"] else []) + (if "Ctrl" in modifiers then ["Ctrl"] else [])
            + (if "Meta" in modifiers then ["Meta"] else []) + (if "Alt" in modifiers then ["Alt"] else [])
            + (if "Shift" in modifiers then ["Shift"] else [])
  {
    var none: seq<string> := OrderedUpTo(modifiers, 0);
    assert none == [];
    assert OrderedUpTo(modifiers, 1) == none + if "Mod" in modifiers then ["Mod"] else [];
    assert OrderedUpTo(modifiers, 2) == OrderedUpTo(modifiers, 1) + if "Ctrl" in modifiers then ["Ctrl"] else [];
    assert OrderedUpTo(modifiers, 3) == OrderedUpTo(modifiers, 2) + if "Meta" in modifiers then ["Meta"] else [];
    assert OrderedUpTo(modifiers, 4) == OrderedUpTo(modifiers, 3) + if "Alt" in modifiers then ["Alt"] else [];
    assert OrderedUpTo(modifiers, 5) == OrderedUpTo(modifiers, 4) + if "Shift" in modifiers then ["Shift"] else [];
  }

  /**
   * A binding is normal exactly if one of its tokens is a key and the others name modifiers, of which
   * a printable key needs one; and it becomes its modifiers in the fixed order, and the key.
   */
  lemma NormalizedExactly(tokens: seq<string>)
    ensures Normalized(tokens).Some? <==> exists k: nat :: KeyAt(tokens, k) && (Printable(tokens[k]) ==> |tokens| > 1)
    ensures forall k: nat :: KeyAt(tokens, k) && Normalized(tokens).Some? ==>
              Normalized(tokens).value ==
              (if Names(tokens, "Mod") then ["Mod"] else []) + (if Names(tokens, "Ctrl") then ["Ctrl"] else [])
              + (if Names(tokens, "Meta") then ["Meta"] else []) + (if Names(tokens, "Alt") then ["Alt"] else [])
              + (if Names(tokens, "Shift") then ["Shift"] else []) + [tokens[k]]
  {
    ParseFinds(tokens);
    if Parse(tokens).Parsed? {
      OrderedExactly(Parse(tokens).modifiers);
      forall k: nat | KeyAt(tokens, k)
        ensures |tokens| > 1 <==> exists m :: Names(tokens, m)
      {
        OthersName(tokens, k);
      }
    }
  }

  /** Beside its key a binding has other tokens exactly if it names a modifier. */
  lemma OthersName(tokens: seq<string>, k: nat)
    requires KeyAt(tokens, k)
    ensures |tokens| > 1 <==> exists m :: Names(tokens, m)
  {
    KeyIsNoModifier(tokens[k]);
    if |tokens| > 1 {
      var i := if k == 0 then 1 else 0;
      assert Names(tokens, ModifierOf(tokens[i]).value);
    }
  }

  // ---- overrides and conflicts ----

  type Overrides = map<Command, Binding>

  function Effective(o: Overrides, c: Command): Binding {
    if c in o then o[c] else DEFAULTS[c]
  }

  function EffectiveSignature(o: Overrides, c: Command, platform: Platform): Option<Signature> {
    SignatureOf(Effective(o, c), platform)
  }

  /** `binding` would clash with the effective binding of a command other than `c`. */
  predicate Conflicts(o: Overrides, c: Command, binding: Binding, platform: Platform) {
    SignatureOf(binding, platform).Some? &&
    exists d: Command :: d != c && EffectiveSignature(o, d, platform) == SignatureOf(binding, platform)
  }

  method FindShortcutConflict(o: Overrides, c: Command, binding: Binding, platform: Platform) returns (r: Option<Command>)
    ensures r.Some? <==> Conflicts(o, c, binding, platform)
    ensures r.Some? ==> r.value != c && EffectiveSignature(o, r.value, platform) == SignatureOf(binding, platform)
    ensures r.Some? ==> forall e: Command :: e < r.value && e != c ==>
              EffectiveSignature(o, e, platform) != SignatureOf(binding, platform)
  {
    var signature := SignatureOf(binding, platform);
    if signature.None? {
      return None;
    }
    for d := 0 to COMMANDS
      invariant forall e: Command :: e < d && e != c ==> EffectiveSignature(o, e, platform) != signature
    {
      if d != c && EffectiveSignature(o, d, platform) == signature {
        return Some(d);
      }
    }
    return None;
  }

  // ---- the conflict-removal pass ----

  /** Whether an override clashes with another command's effective binding. */
  type Clash = (Overrides, Command) -> bool

  function ClashIn(platform: Platform): Clash {
    (o: Overrides, c: Command) => c in o && Conflicts(o, c, o[c], platform)
  }

  /** The pass over the commands before `n`, in table order. */
  function PassUpTo(o: Overrides, clash: Clash, n: nat): Overrides
    requires n <= COMMANDS
  {
    if n == 0 then o
    else
      var before := PassUpTo(o, clash, n - 1);
      if clash(before, n - 1) then before - {n - 1} else before
  }

  function Pass(o: Overrides, platform: Platform): Overrides {
    PassUpTo(o, ClashIn(platform), COMMANDS)
  }

  /** A binding that is normal and not the default becomes a candidate. */
  function WithCandidate(before: Overrides, c: Command, normalized: Option<Binding>): Overrides {
    if normalized.Some? && normalized.value != DEFAULTS[c] then before[c := normalized.value] else before
  }

  function CandidatesUpTo(value: map<Command, Binding>, n: nat): Overrides
    requires n <= COMMANDS
  {
    if n == 0 then map[]
    else
      var c: Command := n - 1;
      WithCandidate(CandidatesUpTo(value, n - 1), c, if c in value then Normalized(value[c]) else None)
  }

  method NormalizeKeyboardShortcutOverrides(value: map<Command, Binding>, platform: Platform) returns (candidates: Overrides)
    ensures candidates == Pass(CandidatesUpTo(value, COMMANDS), platform)
    ensures AllDistinct(candidates, platform) <==>
            forall c, d :: !FallsBackOnto(CandidatesUpTo(value, COMMANDS), platform, c, d)
  {
    candidates := CollectCandidates(value);
    AnyInput(value, platform);
    candidates := RemoveConflicts(candidates, platform);
  }

  method CollectCandidates(value: map<Command, Binding>) returns (candidates: Overrides)
    ensures candidates == CandidatesUpTo(value, COMMANDS)
  {
    candidates := map[];
    for c := 0 to COMMANDS
      invariant candidates == CandidatesUpTo(value, c)
    {
      var normalized := None;
      if c in value {
        normalized := NormalizeShortcutBinding(value[c]);
      }
      if normalized.Some? && normalized.value != DEFAULTS[c] {
        candidates := candidates[c := normalized.value];
      }
    }
  }

  lemma PassNext(o: Overrides, platform: Platform, c: Command)
    ensures var before := PassUpTo(o, ClashIn(platform), c);
            PassUpTo(o, ClashIn(platform), c + 1)
            == if c in before && Conflicts(before, c, before[c], platform) then before - {c} else before
  {
  }

  method RemoveConflicts(all: Overrides, platform: Platform) returns (candidates: Overrides)
    ensures candidates == Pass(all, platform)
  {
    candidates := all;
    for c := 0 to COMMANDS
      invariant candidates == PassUpTo(all, ClashIn(platform), c)
    {
      PassNext(all, platform, c);
      if c in candidates {
        var conflict := FindShortcutConflict(candidates, c, candidates[c], platform);
        if conflict.Some? {
          candidates := candidates - {c};
        }
      }
    }
  }

  // ---- what the pass achieves ----

  /** Every effective binding has a signature of its own. */
  ghost predicate AllDistinct(o: Overrides, platform: Platform) {
    forall c: Command, d: Command :: c != d ==>
      EffectiveSignature(o, c, platform).None? || EffectiveSignature(o, c, platform) != EffectiveSignature(o, d, platform)
  }

  ghost predicate AllNormal(o: Overrides) {
    forall c :: c in o ==> Normalized(o[c]) == Some(o[c])
  }

  lemma CandidateNormal(before: Overrides, c: Command, normalized: Option<Binding>)
    requires AllNormal(before) && (normalized.Some? ==> Normalized(normalized.value) == normalized)
    ensures AllNormal(WithCandidate(before, c, normalized))
  {
  }

  lemma NormalOrNone(tokens: Binding)
    ensures Normalized(tokens).Some? ==> Normalized(Normalized(tokens).value) == Normalized(tokens)
  {
    if Normalized(tokens).Some? {
      NormalIsStable(tokens, Mac);
    }
  }

  lemma CandidatesNext(value: map<Command, Binding>, c: Command, normalized: Option<Binding>)
    requires AllNormal(CandidatesUpTo(value, c)) && normalized == if c in value then Normalized(value[c]) else None
    requires normalized.Some? ==> Normalized(normalized.value) == normalized
    ensures AllNormal(CandidatesUpTo(value, c + 1))
  {
    CandidateNormal(CandidatesUpTo(value, c), c, normalized);
  }

  lemma {:induction false} CandidatesNormal(value: map<Command, Binding>, n: nat)
    requires n <= COMMANDS
    ensures AllNormal(CandidatesUpTo(value, n))
  {
    if n > 0 {
      var c: Command := n - 1;
      CandidatesNormal(value, c);
      if c in value {
        NormalOrNone(value[c]);
      }
      CandidatesNext(value, c, if c in value then Normalized(value[c]) else None);
    }
  }

  lemma {:induction false} PassOnlyDeletes(o: Overrides, clash: Clash, n: nat)
    requires n <= COMMANDS
    ensures PassUpTo(o, clash, n).Keys <= o.Keys
    ensures forall c :: c in PassUpTo(o, clash, n) ==> PassUpTo(o, clash, n)[c] == o[c]
    ensures forall c :: c in o && c >= n ==> c in PassUpTo(o, clash, n)
  {
    if n > 0 {
      PassOnlyDeletes(o, clash, n - 1);
    }
  }

  lemma {:induction false} PassShrinks(o: Overrides, clash: Clash, m: nat, n: nat)
    requires m <= n <= COMMANDS
    ensures PassUpTo(o, clash, n).Keys <= PassUpTo(o, clash, m).Keys
    decreases n
  {
    if m < n {
      PassShrinks(o, clash, m, n - 1);
    }
  }

  lemma {:induction false} StaysIn(o: Overrides, clash: Clash, m: nat, n: nat, c: Command)
    requires c < m <= n <= COMMANDS && c in PassUpTo(o, clash, m)
    ensures c in PassUpTo(o, clash, n)
    decreases n
  {
    if m < n {
      StaysIn(o, clash, m, n - 1, c);
    }
  }

  /** An override is deleted exactly if it clashes when its turn comes. */
  lemma DeletedInTurn(o: Overrides, clash: Clash, c: Command)
    requires c in o
    ensures c in PassUpTo(o, clash, c) && PassUpTo(o, clash, c)[c] == o[c]
    ensures c !in PassUpTo(o, clash, COMMANDS) <==> clash(PassUpTo(o, clash, c), c)
  {
    PassOnlyDeletes(o, clash, c);
    if clash(PassUpTo(o, clash, c), c) {
      assert c !in PassUpTo(o, clash, c + 1);
      PassShrinks(o, clash, c + 1, COMMANDS);
    } else {
      assert c in PassUpTo(o, clash, c + 1);
      StaysIn(o, clash, c + 1, COMMANDS, c);
    }
  }

  /** With no clash the pass has nothing to do. */
  lemma {:induction false} PassKeepsClear(o: Overrides, clash: Clash, n: nat)
    requires n <= COMMANDS && forall c: Command :: !clash(o, c)
    ensures PassUpTo(o, clash, n) == o
  {
    if n > 0 {
      PassKeepsClear(o, clash, n - 1);
    }
  }

  lemma PassKeepsDistinct(o: Overrides, platform: Platform)
    requires AllDistinct(o, platform)
    ensures Pass(o, platform) == o
  {
    forall c: Command
      ensures !ClashIn(platform)(o, c)
    {
      if c in o {
        NoConflict(o, platform, c);
      }
    }
    PassKeepsClear(o, ClashIn(platform), COMMANDS);
  }

  lemma NoConflict(o: Overrides, platform: Platform, c: Command)
    requires AllDistinct(o, platform) && c in o
    ensures !Conflicts(o, c, o[c], platform)
  {
    assert EffectiveSignature(o, c, platform) == SignatureOf(o[c], platform);
  }

  /** When the pass deletes nothing, no override clashed with anything. */
  lemma NothingDeleted(o: Overrides, platform: Platform, c: Command)
    requires Pass(o, platform) == o && c in o
    ensures !Conflicts(o, c, o[c], platform)
  {
    PassOnlyDeletes(o, ClashIn(platform), c);
    PassShrinks(o, ClashIn(platform), c, COMMANDS);
    PassShrinks(o, ClashIn(platform), c + 1, COMMANDS);
    assert PassUpTo(o, ClashIn(platform), c) == o;
  }

  // ---- the table of defaults ----

  datatype Shape = Shape(mod: bool, alt: bool, shift: bool, key: string)

  function SignatureFor(s: Shape, platform: Platform): Signature {
    Signature(s.mod && platform.OtherPlatform?, s.mod && platform.Mac?, s.alt, s.shift, s.key)
  }

  lemma NamesDiffer()
    ensures "Mod" != "Ctrl" && "Mod" != "Meta" && "Mod" != "Alt" && "Mod" != "Shift"
    ensures "Ctrl" != "Alt" && "Ctrl" != "Shift" && "Meta" != "Alt" && "Meta" != "Shift" && "Alt" != "Shift"
  {
    assert "Mod"[0] == 'M' && "Alt"[0] == 'A';
  }

  lemma KeyAlone(key: string, platform: Platform)
    requires IsKey(key) && !Printable(key)
    ensures SignatureOf([key], platform) == Some(SignatureFor(Shape(false, false, false, key), platform))
  {
    KeyIsNoModifier(key);
    ParseAppend([], key);
    assert [] + [key] == [key];
  }

  lemma ParseOne(modifier: string)
    requires modifier in MODIFIERS
    ensures Parse([modifier]) == Parsed({modifier}, None)
  {
    ModifiersAreModifiers();
    ParseAppend([], modifier);
    assert [] + [modifier] == [modifier];
  }

  lemma KeyWith(modifier: string, key: string, platform: Platform)
    requires modifier in {"Mod", "Shift"} && IsKey(key)
    ensures SignatureOf([modifier, key], platform)
         == Some(SignatureFor(Shape(modifier == "Mod", false, modifier == "Shift", key), platform))
  {
    NamesDiffer();
    ParseOne(modifier);
    KeyIsNoModifier(key);
    ParseAppend([modifier], key);
    assert [modifier] + [key] == [modifier, key];
  }

  lemma KeyWithTwo(modifier: string, key: string, platform: Platform)
    requires modifier in {"Alt", "Shift"} && IsKey(key)
    ensures SignatureOf(["Mod", modifier, key], platform)
         == Some(SignatureFor(Shape(true, modifier == "Alt", modifier == "Shift", key), platform))
  {
    NamesDiffer();
    ModifiersAreModifiers();
    ParseOne("Mod");
    KeyIsNoModifier(key);
    ParseAppend(["Mod"], modifier);
    ParseAppend(["Mod", modifier], key);
    assert ["Mod"] + [modifier] == ["Mod", modifier] && ["Mod", modifier] + [key] == ["Mod", modifier, key];
    assert Parse(["Mod", modifier]) == Parsed({"Mod", modifier}, None);
  }

  function DefaultShape(c: Command): Shape {
    [Shape(true, false, false, "KeyB"), Shape(true, false, false, "KeyJ"),
     Shape(true, true, false, "KeyB"), Shape(true, false, false, "KeyN"),
     Shape(true, false, false, "PageUp"), Shape(true, false, false, "PageDown"),
     Shape(false, false, false, "PageUp"), Shape(false, false, false, "PageDown"),
     Shape(true, false, false, "KeyF"), Shape(false, false, true, "KeyA"),
     Shape(false, false, false, "F3"), Shape(false, false, false, "Home"),
     Shape(true, false, false, "Enter"), Shape(false, false, false, "Delete"),
     Shape(true, false, false, "KeyZ"), Shape(true, false, true, "KeyZ")][c]
  }

  lemma DefaultKeyIsKey(c: Command)
    ensures IsKey(DefaultShape(c).key)
  {
  }

  lemma DefaultSignature(c: Command, platform: Platform)
    ensures SignatureOf(DEFAULTS[c], platform) == Some(SignatureFor(DefaultShape(c), platform))
  {
    NamesDiffer();
    var key := DefaultShape(c).key;
    DefaultKeyIsKey(c);
    if c == 2 {
      KeyWithTwo("Alt", key, platform);
    } else if c == 15 {
      KeyWithTwo("Shift", key, platform);
    } else if c == 9 {
      KeyWith("Shift", key, platform);
    } else if c in {6, 7, 10, 11, 13} {
      KeyAlone(key, platform);
    } else {
      KeyWith("Mod", key, platform);
    }
  }

  /** Enough of a signature to tell the defaults apart: modifiers, key length, last letter. */
  function Print(s: Signature): (bool, bool, bool, bool, int, char) {
    (s.ctrl, s.meta, s.alt, s.shift, |s.key|, if s.key == [] then ' ' else s.key[|s.key| - 1])
  }

  function DefaultPrint(c: Command): (bool, bool, bool, int, char) {
    [(true, false, false, 4, 'B'), (true, false, false, 4, 'J'), (true, true, false, 4, 'B'), (true, false, false, 4, 'N'),
     (true, false, false, 6, 'p'), (true, false, false, 8, 'n'), (false, false, false, 6, 'p'), (false, false, false, 8, 'n'),
     (true, false, false, 4, 'F'), (false, false, true, 4, 'A'), (false, false, false, 2, '3'), (false, false, false, 4, 'e'),
     (true, false, false, 5, 'r'), (false, false, false, 6, 'e'), (true, false, false, 4, 'Z'), (true, false, true, 4, 'Z')][c]
  }

  lemma KeyPrinted(c: Command)
    ensures var key := DefaultShape(c).key;
            key != [] && (|key|, key[|key| - 1]) == (DefaultPrint(c).3, DefaultPrint(c).4)
  {
  }

  lemma ShapePrinted(c: Command, platform: Platform)
    ensures var (mod, alt, shift, length, last) := DefaultPrint(c);
            Print(SignatureFor(DefaultShape(c), platform))
            == (mod && platform.OtherPlatform?, mod && platform.Mac?, alt, shift, length, last)
  {
    KeyPrinted(c);
  }

  lemma DefaultPrinted(c: Command, platform: Platform)
    ensures SignatureOf(DEFAULTS[c], platform).Some?
    ensures var (mod, alt, shift, length, last) := DefaultPrint(c);
            Print(SignatureOf(DEFAULTS[c], platform).value)
            == (mod && platform.OtherPlatform?, mod && platform.Mac?, alt, shift, length, last)
  {
    DefaultSignature(c, platform);
    ShapePrinted(c, platform);
  }

  lemma PrintsDiffer(c: Command, d: Command)
    requires c != d
    ensures DefaultPrint(c) != DefaultPrint(d)
  {
  }

  /** The defaults clash with each other on neither platform. */
  lemma DefaultsDistinct(c: Command, d: Command, platform: Platform)
    requires c != d
    ensures SignatureOf(DEFAULTS[c], platform).Some?
    ensures SignatureOf(DEFAULTS[c], platform) != SignatureOf(DEFAULTS[d], platform)
  {
    DefaultPrinted(c, platform);
    DefaultPrinted(d, platform);
    PrintsDiffer(c, d);
  }

  /** The pass deletes nothing exactly when all effective bindings are distinct. */
  lemma DeletesNothingIffDistinct(o: Overrides, platform: Platform)
    requires AllNormal(o)
    ensures Pass(o, platform) == o <==> AllDistinct(o, platform)
  {
    if AllDistinct(o, platform) {
      PassKeepsDistinct(o, platform);
    }
    if Pass(o, platform) == o {
      forall c: Command, d: Command | c != d
        ensures EffectiveSignature(o, c, platform) != EffectiveSignature(o, d, platform)
             || EffectiveSignature(o, c, platform).None?
      {
        if c in o {
          NothingDeleted(o, platform, c);
        } else if d in o {
          NothingDeleted(o, platform, d);
        } else {
          DefaultsDistinct(c, d, platform);
        }
      }
    }
  }

  /** The guard of the deletion at the turn of `c`: its binding clashes with the table as it then is. */
  predicate ClashesInTurn(o: Overrides, platform: Platform, c: Command) {
    c in o && Conflicts(PassUpTo(o, ClashIn(platform), c), c, o[c], platform)
  }

  /** The pass deletes exactly the overrides that clash at their turn. */
  lemma DeletedIffClashes(o: Overrides, platform: Platform, c: Command)
    requires c in o
    ensures c !in Pass(o, platform) <==> ClashesInTurn(o, platform, c)
  {
    DeletedInTurn(o, ClashIn(platform), c);
  }

  /**
   * An earlier override that does not clash at its turn uses the default of a later overridden
   * command that does.
   */
  ghost predicate FallsBackOnto(o: Overrides, platform: Platform, c: Command, d: Command) {
    && c < d && c in o && d in o
    && SignatureOf(o[c], platform) == SignatureOf(DEFAULTS[d], platform)
    && !ClashesInTurn(o, platform, c) && ClashesInTurn(o, platform, d)
  }

  lemma FallsBack(o: Overrides, platform: Platform, c: Command, d: Command)
    ensures FallsBackOnto(o, platform, c, d) <==>
              && c < d && c in o && c in Pass(o, platform) && d in o && d !in Pass(o, platform)
              && SignatureOf(o[c], platform) == SignatureOf(DEFAULTS[d], platform)
  {
    if c in o && d in o {
      DeletedIffClashes(o, platform, c);
      DeletedIffClashes(o, platform, d);
    }
  }

  /** One pass is enough exactly when no deletion falls back onto an override kept before it. */
  lemma OnePassEnough(o: Overrides, platform: Platform)
    requires AllNormal(o)
    ensures AllDistinct(Pass(o, platform), platform) <==> forall c, d :: !FallsBackOnto(o, platform, c, d)
  {
    var p := Pass(o, platform);
    PassOnlyDeletes(o, ClashIn(platform), COMMANDS);
    forall c: Command, d: Command | FallsBackOnto(o, platform, c, d)
      ensures !AllDistinct(p, platform)
    {
      FallsBack(o, platform, c, d);
      DefaultsDistinct(d, c, platform);
      assert EffectiveSignature(p, c, platform) == EffectiveSignature(p, d, platform);
    }
    if forall c, d :: !FallsBackOnto(o, platform, c, d) {
      forall c: Command, d: Command | c != d
        ensures EffectiveSignature(p, c, platform) != EffectiveSignature(p, d, platform)
             || EffectiveSignature(p, c, platform).None?
      {
        KeptApart(o, platform, c, d);
        KeptApart(o, platform, d, c);
        if c !in p && d !in p {
          DefaultsDistinct(c, d, platform);
        }
      }
    }
  }

  lemma KeptApart(o: Overrides, platform: Platform, c: Command, d: Command)
    requires c != d && forall c, d :: !FallsBackOnto(o, platform, c, d)
    ensures var p := Pass(o, platform);
            c in p ==> EffectiveSignature(p, c, platform).None?
                       || EffectiveSignature(p, c, platform) != EffectiveSignature(p, d, platform)
  {
    var p := Pass(o, platform);
    PassOnlyDeletes(o, ClashIn(platform), COMMANDS);
    if c in p {
      DeletedIffClashes(o, platform, c);
      var before := PassUpTo(o, ClashIn(platform), c);
      PassOnlyDeletes(o, ClashIn(platform), c);
      PassShrinks(o, ClashIn(platform), c, COMMANDS);
      assert SignatureOf(o[c], platform).Some? ==> EffectiveSignature(before, d, platform) != SignatureOf(o[c], platform);
      if d in before && d !in p {
        if d < c {
          StaysIn(o, ClashIn(platform), c, COMMANDS, d);
        }
        FallsBack(o, platform, c, d);
      } else {
        assert Effective(before, d) == Effective(p, d);
      }
    }
  }

  /** In particular when no override uses the default of a later overridden command. */
  lemma NoBorrowedDefault(o: Overrides, platform: Platform)
    requires AllNormal(o)
    requires forall c, d :: c in o && d in o && c < d ==> SignatureOf(o[c], platform) != SignatureOf(DEFAULTS[d], platform)
    ensures AllDistinct(Pass(o, platform), platform)
  {
    OnePassEnough(o, platform);
  }

  /** A concrete table for which one pass leaves a clash: the panel's key goes to the sidebar while
      the panel moves onto a key already taken. */
  function Displaced(): Overrides {
    map[0 := DEFAULTS[1], 1 := DEFAULTS[3]]
  }

  lemma DisplacedFirst(platform: Platform)
    ensures PassUpTo(Displaced(), ClashIn(platform), 1) == Displaced()
  {
    var o := Displaced();
    var c: Command := 0;
    DefaultsDistinct(1, 3, platform);
    forall d: Command | d != c
      ensures EffectiveSignature(o, d, platform) != SignatureOf(o[c], platform)
    {
      if d != 1 {
        DefaultsDistinct(1, d, platform);
      }
    }
    assert PassUpTo(o, ClashIn(platform), 0) == o;
  }

  lemma DisplacedSecond(platform: Platform)
    ensures PassUpTo(Displaced(), ClashIn(platform), 2) == map[0 := DEFAULTS[1]]
  {
    var o := Displaced();
    DisplacedFirst(platform);
    DefaultsDistinct(3, 0, platform);
    var c, d: Command := 1, 3;
    assert EffectiveSignature(o, d, platform) == SignatureOf(o[c], platform);
    assert Conflicts(o, c, o[c], platform);
    assert o - {c} == map[0 := DEFAULTS[1]];
  }

  /** The pass leaves the sidebar's override and lets the panel fall back onto the same key. */
  lemma DisplacedPass(platform: Platform)
    ensures var p := Pass(Displaced(), platform);
            0 in p && p[0] == DEFAULTS[1] && 1 !in p
  {
    var o := Displaced();
    var c: Command := 0;
    DisplacedFirst(platform);
    DisplacedSecond(platform);
    PassShrinks(o, ClashIn(platform), 2, COMMANDS);
    PassOnlyDeletes(o, ClashIn(platform), COMMANDS);
    StaysIn(o, ClashIn(platform), 1, COMMANDS, c);
  }

  lemma DisplacedNormal()
    ensures AllNormal(Displaced())
  {
    NormalDefault(1);
    NormalDefault(3);
  }

  lemma OnePassCanFail(platform: Platform)
    ensures AllNormal(Displaced()) && !AllDistinct(Pass(Displaced(), platform), platform)
  {
    var p := Pass(Displaced(), platform);
    var c, d: Command := 0, 1;
    DisplacedNormal();
    DisplacedPass(platform);
    DefaultsDistinct(1, 0, platform);
    assert EffectiveSignature(p, c, platform) == EffectiveSignature(p, d, platform);
  }

  lemma NormalDefault(c: Command)
    requires c == 1 || c == 3
    ensures Normalized(DEFAULTS[c]) == Some(DEFAULTS[c])
  {
    var key := DefaultShape(c).key;
    assert IsKey(key);
    ParseOne("Mod");
    KeyIsNoModifier(key);
    ParseAppend(["Mod"], key);
    assert ["Mod"] + [key] == DEFAULTS[c];
    OnlyMod();
  }

  lemma OnlyMod()
    ensures Ordered({"Mod"}) == ["Mod"]
  {
    NamesDiffer();
    var m := {"Mod"};
    assert OrderedUpTo(m, 1) == ["Mod"];
    assert OrderedUpTo(m, 2) == ["Mod"];
    assert OrderedUpTo(m, 3) == ["Mod"];
    assert OrderedUpTo(m, 4) == ["Mod"];
  }

  // ---- passes until nothing changes ----

  lemma DeletionShrinks(o: Overrides, platform: Platform)
    ensures Pass(o, platform) != o ==> |Pass(o, platform)| < |o|
  {
    PassOnlyDeletes(o, ClashIn(platform), COMMANDS);
    var p := Pass(o, platform);
    if p != o {
      assert p.Keys == o.Keys ==> p == o;
      ProperSubsetSize(p.Keys, o.Keys);
    }
  }

  function Settled(o: Overrides, platform: Platform): Overrides
    decreases |o|
  {
    DeletionShrinks(o, platform);
    if Pass(o, platform) == o then o else Settled(Pass(o, platform), platform)
  }

  /** Repeating the pass ends without clashes, having only deleted. */
  lemma {:induction false} SettledDistinct(o: Overrides, platform: Platform)
    requires AllNormal(o)
    ensures AllDistinct(Settled(o, platform), platform)
    ensures Settled(o, platform).Keys <= o.Keys
    ensures forall c :: c in Settled(o, platform) ==> Settled(o, platform)[c] == o[c]
    decreases |o|
  {
    if Pass(o, platform) == o {
      DeletesNothingIffDistinct(o, platform);
    } else {
      DeletionShrinks(o, platform);
      PassOnlyDeletes(o, ClashIn(platform), COMMANDS);
      SettledDistinct(Pass(o, platform), platform);
    }
  }

  // ---- for what is read from any input ----

  /** The table that normalising builds before it removes conflicts satisfies what the laws ask for. */
  lemma AnyInput(value: map<Command, Binding>, platform: Platform)
    ensures var o := CandidatesUpTo(value, COMMANDS);
            && (Pass(o, platform) == o <==> AllDistinct(o, platform))
            && (AllDistinct(Pass(o, platform), platform) <==> forall c, d :: !FallsBackOnto(o, platform, c, d))
            && AllDistinct(Settled(o, platform), platform)
  {
    var o := CandidatesUpTo(value, COMMANDS);
    CandidatesNormal(value, COMMANDS);
    DeletesNothingIffDistinct(o, platform);
    OnePassEnough(o, platform);
    SettledDistinct(o, platform);
  }

  // ---- key events ----

  /** A key event: the character or name of the key, its place on the keyboard, and what is held. */
  datatype KeyEvent = KeyEvent(key: string, code: string, ctrl: bool, meta: bool, alt: bool, shift: bool)

  const LONG_S: char := '\U{017F}'
  const KELVIN: char := '\U{212A}'

  /** The letter that a one-character key folds to, in upper case; the Kelvin sign is its own. */
  function LetterOf(c: char): Option<char> {
    if 'a' <= c <= 'z' then Some((c as int - 32) as char)
    else if 'A' <= c <= 'Z' then Some(c)
    else if c == LONG_S then Some('S')
    else if c == KELVIN then Some(KELVIN)
    else None
  }

  function KeyAlias(key: string): string {
    if key == " " then "Space"
    else if key == "Esc" then "Escape"
    else if key == "Up" then "ArrowUp"
    else if key == "Down" then "ArrowDown"
    else if key == "Left" then "ArrowLeft"
    else if key == "Right" then "ArrowRight"
    else key
  }

  /** The key's token: its place if that is one, or else what it types. */
  function EventKey(e: KeyEvent): Option<string> {
    if IsKey(e.code) then Some(e.code)
    else if |e.key| == 1 && LetterOf(e.key[0]).Some? then Some("Key" + [LetterOf(e.key[0]).value])
    else if |e.key| == 1 && Digit(e.key[0]) then Some("Digit" + e.key)
    else if IsKey(KeyAlias(e.key)) then Some(KeyAlias(e.key))
    else None
  }

  predicate ModifierKey(key: string) {
    key == "Control" || key == "Meta" || key == "Alt" || key == "Shift"
  }

  /** The modifiers held, as a binding names them on the platform. */
  function HeldModifiers(e: KeyEvent, platform: Platform): seq<string> {
    (if platform.Mac? then When(e.meta, "Mod") + When(e.ctrl, "Ctrl") else When(e.ctrl, "Mod") + When(e.meta, "Meta"))
    + When(e.alt, "Alt") + When(e.shift, "Shift")
  }

  function When(held: bool, modifier: string): seq<string> {
    if held then [modifier] else []
  }

  /** What recording the event gives. */
  function Recorded(e: KeyEvent, platform: Platform): Option<Binding> {
    if ModifierKey(e.key) || EventKey(e).None? then None
    else Normalized(HeldModifiers(e, platform) + [EventKey(e).value])
  }

  method Push(tokens: seq<string>, held: bool, modifier: string) returns (r: seq<string>)
    ensures r == tokens + When(held, modifier)
  {
    r := if held then tokens + [modifier] else tokens;
  }

  method ShortcutBindingFromKeyboardEvent(e: KeyEvent, platform: Platform) returns (binding: Option<Binding>)
    ensures binding == Recorded(e, platform)
  {
    if e.key == "Control" || e.key == "Meta" || e.key == "Alt" || e.key == "Shift" {
      return None;
    }
    var keyToken := EventKey(e);
    if keyToken.None? {
      return None;
    }
    var modifiers := [];
    if platform.Mac? {
      modifiers := Push(modifiers, e.meta, "Mod");
      modifiers := Push(modifiers, e.ctrl, "Ctrl");
      assert modifiers == When(e.meta, "Mod") + When(e.ctrl, "Ctrl");
    } else {
      modifiers := Push(modifiers, e.ctrl, "Mod");
      modifiers := Push(modifiers, e.meta, "Meta");
      assert modifiers == When(e.ctrl, "Mod") + When(e.meta, "Meta");
    }
    modifiers := Push(modifiers, e.alt, "Alt");
    modifiers := Push(modifiers, e.shift, "Shift");
    binding := NormalizeShortcutBinding(modifiers + [keyToken.value]);
  }

  // ---- dispatch ----

  predicate Matches(e: KeyEvent, binding: Binding, platform: Platform) {
    var s := SignatureOf(binding, platform);
    && s.Some? && EventKey(e) == Some(s.value.key)
    && e.ctrl == s.value.ctrl && e.meta == s.value.meta && e.alt == s.value.alt && e.shift == s.value.shift
  }

  method FindMatchingShortcutCommand(e: KeyEvent, o: Overrides, platform: Platform) returns (r: Option<Command>)
    ensures r.None? <==> forall c: Command :: !Matches(e, Effective(o, c), platform)
    ensures r.Some? ==> Matches(e, Effective(o, r.value), platform)
    ensures r.Some? ==> forall c: Command :: c < r.value ==> !Matches(e, Effective(o, c), platform)
  {
    for d := 0 to COMMANDS
      invariant forall c: Command :: c < d ==> !Matches(e, Effective(o, c), platform)
    {
      if Matches(e, Effective(o, d), platform) {
        return Some(d);
      }
    }
    return None;
  }

  /** Without clashes an event matches at most one command, so the table order decides nothing. */
  lemma DispatchUnambiguous(e: KeyEvent, o: Overrides, platform: Platform, c: Command, d: Command)
    requires AllDistinct(o, platform)
    requires Matches(e, Effective(o, c), platform) && Matches(e, Effective(o, d), platform)
    ensures c == d
  {
    assert EffectiveSignature(o, c, platform) == EffectiveSignature(o, d, platform);
  }

  lemma SignatureKey(binding: Binding, platform: Platform)
    requires SignatureOf(binding, platform).Some?
    ensures IsKey(SignatureOf(binding, platform).value.key)
  {
    ParsedModifiers(binding);
  }

  /** With a clash, some event matches two commands. */
  lemma ClashIsAmbiguous(o: Overrides, platform: Platform)
    requires !AllDistinct(o, platform)
    ensures exists e, c: Command, d: Command ::
              c != d && Matches(e, Effective(o, c), platform) && Matches(e, Effective(o, d), platform)
  {
    var c: Command, d: Command :| c != d && EffectiveSignature(o, c, platform).Some?
      && EffectiveSignature(o, c, platform) == EffectiveSignature(o, d, platform);
    var s := EffectiveSignature(o, c, platform).value;
    SignatureKey(Effective(o, c), platform);
    var e := KeyEvent("", s.key, s.ctrl, s.meta, s.alt, s.shift);
    assert Matches(e, Effective(o, c), platform) && Matches(e, Effective(o, d), platform);
  }

  // ---- recording ----

  /** The set of modifiers held. */
  function HeldSet(e: KeyEvent, platform: Platform): set<string> {
    (if platform.Mac? then WhenSet(e.meta, "Mod") + WhenSet(e.ctrl, "Ctrl") else WhenSet(e.ctrl, "Mod") + WhenSet(e.meta, "Meta"))
    + WhenSet(e.alt, "Alt") + WhenSet(e.shift, "Shift")
  }

  lemma ParsePart(before: seq<string>, modifier: string, held: bool)
    requires Parse(before).Parsed? && modifier in MODIFIERS
    ensures Parse(before + When(held, modifier))
         == Parsed(Parse(before).modifiers + if held then {modifier} else {}, Parse(before).key)
  {
    ModifiersAreModifiers();
    ParseOptional(before, modifier, When(held, modifier));
  }

  function WhenSet(held: bool, modifier: string): set<string> {
    if held then {modifier} else {}
  }

  lemma TwoParse(before: seq<string>, modifiers: set<string>, first: string, second: string, a: bool, b: bool)
    requires Parse(before) == Parsed(modifiers, None) && first in MODIFIERS && second in MODIFIERS
    ensures Parse(before + When(a, first) + When(b, second))
         == Parsed(modifiers + WhenSet(a, first) + WhenSet(b, second), None)
  {
    ParsePart(before, first, a);
    ParsePart(before + When(a, first), second, b);
  }

  lemma FourParse(first: string, second: string, a: bool, b: bool, c: bool, d: bool)
    requires first in MODIFIERS && second in MODIFIERS
    ensures Parse(When(a, first) + When(b, second) + When(c, "Alt") + When(d, "Shift"))
         == Parsed(WhenSet(a, first) + WhenSet(b, second) + WhenSet(c, "Alt") + WhenSet(d, "Shift"), None)
  {
    TwoParse([], {}, first, second, a, b);
    assert [] + When(a, first) == When(a, first);
    assert {} + WhenSet(a, first) == WhenSet(a, first);
    TwoParse(When(a, first) + When(b, second), WhenSet(a, first) + WhenSet(b, second), "Alt", "Shift", c, d);
  }

  lemma HeldParses(e: KeyEvent, platform: Platform)
    ensures Parse(HeldModifiers(e, platform)) == Parsed(HeldSet(e, platform), None)
  {
    if platform.Mac? {
      FourParse("Mod", "Ctrl", e.meta, e.ctrl, e.alt, e.shift);
    } else {
      FourParse("Mod", "Meta", e.ctrl, e.meta, e.alt, e.shift);
    }
  }

  lemma RecordedParses(e: KeyEvent, platform: Platform, key: string)
    requires IsKey(key)
    ensures Parse(HeldModifiers(e, platform) + [key]) == Parsed(HeldSet(e, platform), Some(key))
  {
    HeldParses(e, platform);
    KeyIsNoModifier(key);
    ParseAppend(HeldModifiers(e, platform), key);
  }

  lemma DigitTokens(key: string)
    requires |key| == 1 && Digit(key[0])
    ensures IsKey("Digit" + key)
  {
    var t := "Digit" + key;
    assert t[..5] == "Digit" && t[5] == key[0];
  }

  /** A key's token is a key, or the letter that is none: of the Kelvin sign. */
  lemma EventKeyIsKey(e: KeyEvent)
    requires EventKey(e).Some? && !IsKey(EventKey(e).value)
    ensures EventKey(e).value == ['K', 'e', 'y', KELVIN] && ModifierOf(EventKey(e).value).None?
  {
    var t := EventKey(e).value;
    if |e.key| != 1 || LetterOf(e.key[0]).None? {
      DigitTokens(e.key);
      assert false;
    }
    assert t[..3] == "Key" && t[3] == LetterOf(e.key[0]).value;
    assert t == ['K', 'e', 'y', KELVIN];
    if ModifierOf(t).Some? {
      ModifierLetters(t, ModifierOf(t).value);
    }
  }

  lemma HeldBy(e: KeyEvent, platform: Platform)
    ensures var held := HeldSet(e, platform);
            && ("Ctrl" in held || ("Mod" in held && platform.OtherPlatform?) <==> e.ctrl)
            && ("Meta" in held || ("Mod" in held && platform.Mac?) <==> e.meta)
            && ("Alt" in held <==> e.alt) && ("Shift" in held <==> e.shift)
            && (held == {} <==> !(e.ctrl || e.meta || e.alt || e.shift))
  {
    NamesDiffer();
  }

  lemma RecordedSignature(e: KeyEvent, platform: Platform, key: string)
    requires IsKey(key)
    ensures var tokens := HeldModifiers(e, platform) + [key];
            && (Normalized(tokens).Some? <==> (Printable(key) ==> e.ctrl || e.meta || e.alt || e.shift))
            && (Normalized(tokens).Some? ==> SignatureOf(tokens, platform) == Some(Signature(e.ctrl, e.meta, e.alt, e.shift, key)))
  {
    RecordedParses(e, platform, key);
    HeldBy(e, platform);
  }

  /**
   * An event is recorded exactly if it is no modifier's own, its key is a token, and a modifier is
   * held if that is printable; what is recorded has exactly the modifiers that are held.
   */
  lemma RecordedExactly(e: KeyEvent, platform: Platform)
    ensures Recorded(e, platform).Some? <==>
            && e.key != "Control" && e.key != "Meta" && e.key != "Alt" && e.key != "Shift"
            && EventKey(e).Some? && IsKey(EventKey(e).value)
            && (Printable(EventKey(e).value) ==> e.ctrl || e.meta || e.alt || e.shift)
    ensures Recorded(e, platform).Some? ==>
              SignatureOf(Recorded(e, platform).value, platform)
              == Some(Signature(e.ctrl, e.meta, e.alt, e.shift, EventKey(e).value))
  {
    if EventKey(e).Some? {
      var key := EventKey(e).value;
      var tokens := HeldModifiers(e, platform) + [key];
      if IsKey(key) {
        RecordedSignature(e, platform, key);
        if Normalized(tokens).Some? {
          NormalIsStable(tokens, platform);
        }
      } else {
        EventKeyIsKey(e);
        HeldParses(e, platform);
        ParseAppend(HeldModifiers(e, platform), key);
      }
    }
  }

  /** Every event that is recorded is matched by what was recorded, on the same platform. */
  lemma RecordingRoundTrip(e: KeyEvent, platform: Platform)
    requires Recorded(e, platform).Some?
    ensures Matches(e, Recorded(e, platform).value, platform)
  {
    RecordedExactly(e, platform);
  }

  // ---- the token of a key ----

  /** A key in its usual place is told by that; a letter that is typed, in either case, by itself; */
  lemma LetterToken(e: KeyEvent, n: nat)
    requires n < 26
    ensures IsKey(e.code) ==> EventKey(e) == Some(e.code)
    ensures !IsKey(e.code) && (e.key == ['a' + n as char] || e.key == ['A' + n as char]) ==>
              EventKey(e) == Some("Key" + ['A' + n as char])
  {
  }

  /** and so is a digit, and the long s, which folds to one; */
  lemma DigitToken(e: KeyEvent, n: nat)
    requires n < 10 && !IsKey(e.code)
    ensures e.key == ['0' + n as char] ==> EventKey(e) == Some("Digit" + ['0' + n as char])
    ensures e.key == ['\U{017F}'] ==> EventKey(e) == Some("KeyS")
  {
    assert "Key" + ['S'] == "KeyS";
  }

  /** the older names of keys stand for the present ones; */
  lemma AliasToken(e: KeyEvent)
    requires !IsKey(e.code)
    ensures e.key == " " ==> EventKey(e) == Some("Space")
    ensures e.key == "Esc" ==> EventKey(e) == Some("Escape")
    ensures e.key == "Up" ==> EventKey(e) == Some("ArrowUp")
    ensures e.key == "Down" ==> EventKey(e) == Some("ArrowDown")
    ensures e.key == "Left" ==> EventKey(e) == Some("ArrowLeft")
    ensures e.key == "Right" ==> EventKey(e) == Some("ArrowRight")
  {
    assert |"Esc"| == 3 && |"Up"| == 2 && |"Down"| == 4 && |"Left"| == 4 && |"Right"| == 5 && " "[0] == ' ';
    assert "Up"[0] == 'U' && "Esc"[0] == 'E' && "Down"[0] == 'D' && "Left"[0] == 'L' && "Right"[0] == 'R';
  }

  /** and every other key has its name for a token, if that is one. */
  lemma OtherToken(e: KeyEvent)
    requires !IsKey(e.code) && |e.key| != 1
    requires e.key != "Esc" && e.key != "Up" && e.key != "Down" && e.key != "Left" && e.key != "Right"
    ensures EventKey(e) == if IsKey(e.key) then Some(e.key) else None
  {
    assert |" "| == 1;
  }

  /** A single character that is neither letter nor digit nor blank is no key. */
  lemma NoToken(e: KeyEvent, c: char)
    requires !IsKey(e.code) && e.key == [c]
    requires !('a' <= c <= 'z' || 'A' <= c <= 'Z' || '0' <= c <= '9') && c != ' ' && c != '\U{017F}' && c != '\U{212A}'
    ensures EventKey(e).None?
  {
    assert e.key[0] == c && " "[0] == ' ' && |"Up"| == 2;
  }

  /** And recorded for a command, in a table without clashes, it then gives that command and no other. */
  lemma RecordedDispatches(e: KeyEvent, o: Overrides, platform: Platform, c: Command, d: Command)
    requires Recorded(e, platform).Some? && AllDistinct(o[c := Recorded(e, platform).value], platform)
    ensures Matches(e, Effective(o[c := Recorded(e, platform).value], d), platform) <==> d == c
  {
    var table := o[c := Recorded(e, platform).value];
    RecordingRoundTrip(e, platform);
    assert Matches(e, Effective(table, c), platform);
    if Matches(e, Effective(table, d), platform) {
      DispatchUnambiguous(e, table, platform, c, d);
    }
  }

  /** The keys of a default: Mod is Meta on a Mac and Ctrl elsewhere. */
  function Pressed(s: Shape, platform: Platform): KeyEvent {
    KeyEvent("", s.key, s.mod && platform.OtherPlatform?, s.mod && platform.Mac?, s.alt, s.shift)
  }

  /** Without overrides, the keys of a default give its command and no other. */
  lemma DefaultsDispatch(c: Command, d: Command, platform: Platform)
    ensures Matches(Pressed(DefaultShape(c), platform), Effective(map[], d), platform) <==> d == c
  {
    DefaultSignature(c, platform);
    DefaultSignature(d, platform);
    DefaultKeyIsKey(c);
    if d != c {
      DefaultsDistinct(c, d, platform);
    }
  }
}
