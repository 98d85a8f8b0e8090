/**
 * Windows argv quoting (scripts/lib/windows-process-job.cs) against the argument
 * rules of the Microsoft C runtime, which is what the child process applies.
 */
module ArgvQuoting {

  function Slashes(n: nat): (s: string)
    ensures |s| == n
    ensures forall i :: 0 <= i < n ==> s[i] == '\\'
  {
    seq(n, _ => '\\')
  }

  /** What is still to be printed when `pending` backslashes have been read but not yet written. */
  function QuoteTail(value: string, pending: nat): string {
    if value == [] then Slashes(2 * pending) + "\""
    else if value[0] == '\\' then QuoteTail(value[1..], pending + 1)
    else if value[0] == '"' then Slashes(2 * pending + 1) + "\"" + QuoteTail(value[1..], 0)
    else Slashes(pending) + [value[0]] + QuoteTail(value[1..], 0)
  }

  function Quoted(value: string): string {
    "\"" + QuoteTail(value, 0)
  }

  method Quote(value: string) returns (result: string)
    ensures result == Quoted(value)
  {
    result := "\"";
    var slashes: nat := 0;
    for i := 0 to |value|
      invariant Quoted(value) == result + QuoteTail(value[i..], slashes)
    {
      var c := value[i];
      assert value[i..][1..] == value[i + 1..];
      ghost var before := result;
      if c == '\\' {
        slashes := slashes + 1;
        continue;
      }
      if c == '"' {
        result := result + Slashes(slashes * 2 + 1);
      } else {
        result := result + Slashes(slashes);
      }
      result := result + [c];
      assert before + QuoteTail(value[i..], slashes) == result + QuoteTail(value[i + 1..], 0);
      slashes := 0;
    }
    assert value[|value|..] == [];
    result := result + Slashes(slashes * 2) + "\"";
  }

  /** The command line `Run` hands to CreateProcess. */
  function CommandTail(args: seq<string>): string {
    if args == [] then "" else " " + Quoted(args[0]) + CommandTail(args[1..])
  }

  method CommandLine(executable: string, args: seq<string>) returns (command: string)
    ensures command == Quoted(executable) + CommandTail(args)
  {
    command := Quote(executable);
    for i := 0 to |args|
      invariant Quoted(executable) + CommandTail(args) == command + CommandTail(args[i..])
    {
      var quoted := Quote(args[i]);
      ghost var before := command;
      command := command + " " + quoted;
      assert args[i..][1..] == args[i + 1..];
      assert before + CommandTail(args[i..]) == command + CommandTail(args[i + 1..]);
    }
    assert args[|args|..] == [];
  }

  // ---- the C runtime's reading of a command line ----

  predicate Blank(c: char) {
    c == ' ' || c == '\t'
  }

  /**
   * One argument after the program name, read from the front of `s`: 2n backslashes before a
   * quote stand for n and the quote toggles quoting, 2n+1 stand for n and a literal quote, a
   * doubled quote inside quotes is a literal quote, and other backslashes are literal. Returns
   * the argument and the unread rest.
   */
  function ReadArgument(s: string, quoted: bool, slashes: nat): (r: (string, string))
    ensures |r.1| <= |s|
    ensures !quoted && s != [] && !Blank(s[0]) ==> |r.1| < |s|
    decreases |s|
  {
    if s == [] then (Slashes(slashes), [])
    else if s[0] == '\\' then ReadArgument(s[1..], quoted, slashes + 1)
    else if s[0] == '"' then
      if slashes % 2 == 1 then
        var (arg, rest) := ReadArgument(s[1..], quoted, 0);
        (Slashes(slashes / 2) + "\"" + arg, rest)
      else if quoted && 1 < |s| && s[1] == '"' then
        var (arg, rest) := ReadArgument(s[2..], quoted, 0);
        (Slashes(slashes / 2) + "\"" + arg, rest)
      else
        var (arg, rest) := ReadArgument(s[1..], !quoted, 0);
        (Slashes(slashes / 2) + arg, rest)
    else if Blank(s[0]) && !quoted then (Slashes(slashes), s)
    else
      var (arg, rest) := ReadArgument(s[1..], quoted, 0);
      (Slashes(slashes) + [s[0]] + arg, rest)
  }

  function ReadArguments(s: string): seq<string>
    decreases |s|
  {
    if s == [] then []
    else if Blank(s[0]) then ReadArguments(s[1..])
    else
      var (arg, rest) := ReadArgument(s, false, 0);
      [arg] + ReadArguments(rest)
  }

  /** The program name: quotes only toggle, backslashes are ordinary. */
  function ReadProgram(s: string, quoted: bool): (r: (string, string))
    ensures '"' !in r.0
    decreases |s|
  {
    if s == [] then ([], [])
    else if s[0] == '"' then ReadProgram(s[1..], !quoted)
    else if Blank(s[0]) && !quoted then ([], s)
    else
      var (name, rest) := ReadProgram(s[1..], quoted);
      ([s[0]] + name, rest)
  }

  function ReadCommandLine(s: string): seq<string> {
    var (program, rest) := ReadProgram(s, false);
    [program] + ReadArguments(rest)
  }

  // ---- printing and reading undo each other ----

  lemma {:induction false} SkipSlashes(k: nat, t: string, quoted: bool, slashes: nat)
    ensures ReadArgument(Slashes(k) + t, quoted, slashes) == ReadArgument(t, quoted, slashes + k)
    decreases k
  {
    if k == 0 {
      assert Slashes(0) + t == t;
    } else {
      assert (Slashes(k) + t)[1..] == Slashes(k - 1) + t;
      SkipSlashes(k - 1, t, quoted, slashes + 1);
    }
  }

  predicate StartsBlankOrEnds(s: string) {
    s == [] || Blank(s[0])
  }

  lemma ReadLiteralQuote(slashes: nat, t: string)
    requires slashes % 2 == 1
    ensures ReadArgument("\"" + t, true, slashes)
         == (Slashes(slashes / 2) + "\"" + ReadArgument(t, true, 0).0, ReadArgument(t, true, 0).1)
  {
    assert ("\"" + t)[1..] == t;
  }

  /** 2n+1 backslashes and a quote are read as n backslashes and the quote. */
  lemma ReadEscapedQuote(n: nat, t: string)
    ensures ReadArgument(Slashes(2 * n + 1) + "\"" + t, true, 0)
         == (Slashes(n) + "\"" + ReadArgument(t, true, 0).0, ReadArgument(t, true, 0).1)
  {
    var k := 2 * n + 1;
    assert Slashes(k) + "\"" + t == Slashes(k) + ("\"" + t);
    SkipSlashes(k, "\"" + t, true, 0);
    ReadLiteralQuote(k, t);
    assert k / 2 == n;
  }

  /** 2n backslashes and a quote at the end of an argument are read as n backslashes. */
  lemma ReadClosingQuote(n: nat, rest: string)
    requires StartsBlankOrEnds(rest)
    ensures ReadArgument(Slashes(2 * n) + "\"" + rest, true, 0) == (Slashes(n), rest)
  {
    assert Slashes(2 * n) + "\"" + rest == Slashes(2 * n) + ("\"" + rest);
    SkipSlashes(2 * n, "\"" + rest, true, 0);
    assert ("\"" + rest)[1..] == rest;
    assert ReadArgument(rest, false, 0) == ([], rest);
    assert Slashes(2 * n / 2) + [] == Slashes(n);
  }

  lemma ReadOrdinary(n: nat, c: char, t: string)
    requires c != '\\' && c != '"'
    ensures ReadArgument(Slashes(n) + [c] + t, true, 0)
         == (Slashes(n) + [c] + ReadArgument(t, true, 0).0, ReadArgument(t, true, 0).1)
  {
    assert Slashes(n) + [c] + t == Slashes(n) + ([c] + t);
    SkipSlashes(n, [c] + t, true, 0);
    assert ([c] + t)[1..] == t;
  }

  // Regrouping of concatenations.

  lemma MoveSlash(pending: nat, value: string)
    requires value != [] && value[0] == '\\'
    ensures Slashes(pending + 1) + value[1..] == Slashes(pending) + value
  {
  }

  lemma PutBack(front: string, value: string, end: string)
    requires value != []
    ensures front + ([value[0]] + (Slashes(0) + value[1..] + end)) == front + value + end
  {
    assert [value[0]] + (Slashes(0) + value[1..]) == value;
  }

  lemma PutBackPlain(front: string, value: string)
    requires value != []
    ensures front + [value[0]] + (Slashes(0) + value[1..]) == front + value
  {
  }

  lemma Regroup(a: string, b: string, c: string, d: string)
    ensures a + b + c + d == a + b + (c + d)
  {
  }

  lemma {:induction false} TailRoundTrip(value: string, pending: nat, rest: string)
    requires StartsBlankOrEnds(rest)
    ensures ReadArgument(QuoteTail(value, pending) + rest, true, 0) == (Slashes(pending) + value, rest)
    decreases |value|
  {
    if value == [] {
      ReadClosingQuote(pending, rest);
      assert Slashes(pending) + value == Slashes(pending);
    } else if value[0] == '\\' {
      TailRoundTrip(value[1..], pending + 1, rest);
      MoveSlash(pending, value);
    } else {
      var c, tail := value[0], QuoteTail(value[1..], 0);
      TailRoundTrip(value[1..], 0, rest);
      PutBackPlain(Slashes(pending), value);
      if c == '"' {
        Regroup(Slashes(2 * pending + 1), "\"", tail, rest);
        ReadEscapedQuote(pending, tail + rest);
      } else {
        Regroup(Slashes(pending), [c], tail, rest);
        ReadOrdinary(pending, c, tail + rest);
      }
    }
  }

  /** An empty argument prints as two quotes: they open and close, they are not a doubled quote. */
  lemma OpeningQuote(value: string, rest: string)
    requires StartsBlankOrEnds(rest)
    ensures ReadArgument(Quoted(value) + rest, false, 0) == (value, rest)
  {
    var body := QuoteTail(value, 0) + rest;
    TailRoundTrip(value, 0, rest);
    assert Quoted(value) + rest == "\"" + body;
    assert ("\"" + body)[1..] == body;
    assert Slashes(0) + value == value;
  }

  lemma ReadNext(s: string, arg: string, rest: string)
    requires s != [] && !Blank(s[0]) && ReadArgument(s, false, 0) == (arg, rest)
    ensures ReadArguments(" " + s) == [arg] + ReadArguments(rest)
  {
    assert (" " + s)[1..] == s;
  }

  lemma FirstArgument(arg: string, rest: string)
    requires StartsBlankOrEnds(rest)
    ensures ReadArguments(" " + (Quoted(arg) + rest)) == [arg] + ReadArguments(rest)
  {
    var s := Quoted(arg) + rest;
    OpeningQuote(arg, rest);
    assert s[0] == '"';
    ReadNext(s, arg, rest);
  }

  lemma {:induction false} ArgumentsRoundTrip(args: seq<string>)
    ensures ReadArguments(CommandTail(args)) == args
  {
    if args != [] {
      var rest := CommandTail(args[1..]);
      ArgumentsRoundTrip(args[1..]);
      FirstArgument(args[0], rest);
      assert CommandTail(args) == " " + (Quoted(args[0]) + rest);
    }
  }

  /** Before the closing quote the doubled backslashes stay doubled. */
  lemma ProgramEnd(pending: nat, rest: string)
    requires StartsBlankOrEnds(rest)
    ensures ReadProgram(Slashes(2 * pending) + "\"" + rest, true) == (Slashes(pending) + Slashes(pending), rest)
  {
    var t := "\"" + rest;
    assert Slashes(2 * pending) + "\"" + rest == Slashes(2 * pending) + t;
    ProgramSlashes(2 * pending, t, true);
    assert t[1..] == rest && ReadProgram(rest, false) == ([], rest);
    assert Slashes(2 * pending) + [] == Slashes(pending) + Slashes(pending);
  }

  lemma ProgramOrdinary(pending: nat, c: char, t: string)
    requires c != '"'
    ensures ReadProgram(Slashes(pending) + [c] + t, true)
         == (Slashes(pending) + ([c] + ReadProgram(t, true).0), ReadProgram(t, true).1)
  {
    var s := [c] + t;
    assert Slashes(pending) + [c] + t == Slashes(pending) + s;
    ProgramSlashes(pending, s, true);
    assert s[1..] == t;
  }

  /** The program name the runtime sees for a quoted executable without quotes in it. */
  lemma {:induction false} ProgramTail(value: string, pending: nat, rest: string)
    requires '"' !in value && StartsBlankOrEnds(rest)
    ensures ReadProgram(QuoteTail(value, pending) + rest, true)
         == (Slashes(pending) + value + Slashes(TrailingSlashes(value, pending)), rest)
    decreases |value|
  {
    if value == [] {
      ProgramEnd(pending, rest);
      assert Slashes(pending) + value == Slashes(pending);
    } else if value[0] == '\\' {
      ProgramTail(value[1..], pending + 1, rest);
      MoveSlash(pending, value);
    } else {
      var c, tail := value[0], QuoteTail(value[1..], 0);
      ProgramTail(value[1..], 0, rest);
      Regroup(Slashes(pending), [c], tail, rest);
      ProgramOrdinary(pending, c, tail + rest);
      PutBack(Slashes(pending), value, Slashes(TrailingSlashes(value[1..], 0)));
    }
  }

  /** How many backslashes end `pending` backslashes followed by `value`. */
  function TrailingSlashes(value: string, pending: nat): (n: nat)
    ensures value != [] ==> (n == 0 <==> value[|value| - 1] != '\\')
    ensures value == [] ==> n == pending
  {
    if value == [] then pending
    else TrailingSlashes(value[1..], if value[0] == '\\' then pending + 1 else 0)
  }

  lemma {:induction false} ProgramSlashes(k: nat, t: string, quoted: bool)
    ensures ReadProgram(Slashes(k) + t, quoted) == (Slashes(k) + ReadProgram(t, quoted).0, ReadProgram(t, quoted).1)
    decreases k
  {
    if k == 0 {
      assert Slashes(0) + t == t;
      assert Slashes(0) + ReadProgram(t, quoted).0 == ReadProgram(t, quoted).0;
    } else {
      assert (Slashes(k) + t)[1..] == Slashes(k - 1) + t;
      ProgramSlashes(k - 1, t, quoted);
      assert ['\\'] + (Slashes(k - 1) + ReadProgram(t, quoted).0) == Slashes(k) + ReadProgram(t, quoted).0;
    }
  }

  predicate PlainExecutable(executable: string) {
    '"' !in executable && (executable == [] || executable[|executable| - 1] != '\\')
  }

  /** Every argument survives; the program name does exactly when it is a plain path. */
  lemma CommandLineRoundTrip(executable: string, args: seq<string>)
    ensures PlainExecutable(executable) ==>
              ReadCommandLine(Quoted(executable) + CommandTail(args)) == [executable] + args
    ensures ReadCommandLine(Quoted(executable) + CommandTail(args))[0] == executable
            <==> PlainExecutable(executable)
  {
    var tail := CommandTail(args);
    var line := Quoted(executable) + tail;
    assert line[1..] == QuoteTail(executable, 0) + tail;
    if '"' !in executable {
      ProgramTail(executable, 0, tail);
      var extra := TrailingSlashes(executable, 0);
      assert Slashes(0) + executable == executable;
      if PlainExecutable(executable) {
        assert executable + Slashes(extra) == executable;
        ArgumentsRoundTrip(args);
      } else {
        assert |executable + Slashes(extra)| > |executable|;
      }
    }
  }

  // ---- program names with quotes in them ----

  /** Reading the name, no blank comes while the quotes in it leave the reader outside quotes. */
  predicate NoGap(value: string, quoted: bool) {
    value == [] ||
    if value[0] == '"' then NoGap(value[1..], !quoted)
    else (quoted || !Blank(value[0])) && NoGap(value[1..], quoted)
  }

  /** Whether the name leaves the reader inside quotes. */
  predicate EndsQuoted(value: string, quoted: bool) {
    if value == [] then quoted else EndsQuoted(value[1..], quoted != (value[0] == '"'))
  }

  /** Quotes come in pairs, and between the first and second of a pair there is no blank. */
  predicate QuotesPaired(executable: string) {
    NoGap(executable, true) && EndsQuoted(executable, true)
  }

  lemma {:induction false} ClosingQuoteIsLast(value: string, pending: nat)
    ensures var t := QuoteTail(value, pending);
            t != [] && t[|t| - 1] == '"'
  {
    if value != [] {
      ClosingQuoteIsLast(value[1..], if value[0] == '\\' then pending + 1 else 0);
    }
  }

  lemma {:induction false} SomethingToRead(s: string, i: nat)
    requires i < |s| && !Blank(s[i])
    ensures ReadArguments(s) != []
  {
    if Blank(s[0]) {
      SomethingToRead(s[1..], i - 1);
    }
  }

  lemma ProgramQuote(k: nat, t: string, quoted: bool)
    ensures ReadProgram(Slashes(k) + "\"" + t, quoted).1 == ReadProgram(t, !quoted).1
  {
    var s := "\"" + t;
    assert Slashes(k) + "\"" + t == Slashes(k) + s;
    ProgramSlashes(k, s, quoted);
    assert s[1..] == t;
  }

  lemma ProgramCharacter(k: nat, c: char, t: string, quoted: bool)
    requires c != '"'
    ensures ReadProgram(Slashes(k) + [c] + t, quoted).1
         == if Blank(c) && !quoted then [c] + t else ReadProgram(t, quoted).1
  {
    var s := [c] + t;
    assert Slashes(k) + [c] + t == Slashes(k) + s;
    ProgramSlashes(k, s, quoted);
    assert s[1..] == t;
  }

  lemma StopsInName(c: char, value: string, rest: string)
    ensures ReadArguments([c] + (QuoteTail(value, 0) + rest)) != []
  {
    ClosingQuoteIsLast(value, 0);
    var n := |QuoteTail(value, 0)|;
    assert ([c] + (QuoteTail(value, 0) + rest))[n] == '"';
    SomethingToRead([c] + (QuoteTail(value, 0) + rest), n);
  }

  /** Where the runtime takes the program name to end. */
  lemma {:induction false} NameEnds(value: string, pending: nat, rest: string, quoted: bool)
    ensures var left := ReadProgram(QuoteTail(value, pending) + rest, quoted).1;
            if NoGap(value, quoted) then left == ReadProgram(rest, !EndsQuoted(value, quoted)).1
            else ReadArguments(left) != []
    decreases |value|
  {
    if value == [] {
      ProgramQuote(2 * pending, rest, quoted);
    } else if value[0] == '\\' {
      NameEnds(value[1..], pending + 1, rest, quoted);
    } else {
      var c, tail := value[0], QuoteTail(value[1..], 0);
      NameEnds(value[1..], 0, rest, quoted != (c == '"'));
      if c == '"' {
        Regroup(Slashes(2 * pending + 1), "\"", tail, rest);
        ProgramQuote(2 * pending + 1, tail + rest, quoted);
      } else {
        Regroup(Slashes(pending), [c], tail, rest);
        ProgramCharacter(pending, c, tail + rest, quoted);
        StopsInName(c, value[1..], rest);
      }
    }
  }

  lemma AfterName(executable: string, args: seq<string>)
    ensures var left := ReadProgram(QuoteTail(executable, 0) + CommandTail(args), true).1;
            ReadCommandLine(Quoted(executable) + CommandTail(args))[1..] == ReadArguments(left)
  {
    assert (Quoted(executable) + CommandTail(args))[1..] == QuoteTail(executable, 0) + CommandTail(args);
  }

  lemma PairedSurvive(executable: string, args: seq<string>)
    requires QuotesPaired(executable)
    ensures ReadCommandLine(Quoted(executable) + CommandTail(args))[1..] == args
  {
    AfterName(executable, args);
    NameEnds(executable, 0, CommandTail(args), true);
    assert ReadProgram(CommandTail(args), false).1 == CommandTail(args);
    ArgumentsRoundTrip(args);
  }

  /** An argument that an unpaired quote in the name draws into the name. */
  lemma DrawnIn()
    ensures ReadProgram(CommandTail(["x"]), true).1 == []
  {
    var t := CommandTail(["x"]);
    assert Quoted("x") == ['"', 'x', '"'];
    assert t == [' ', '"', 'x', '"'];
    assert t[1..] == ['"', 'x', '"'] && t[1..][1..] == ['x', '"'] && t[1..][1..][1..] == ['"'];
    assert ReadProgram(['"'], false) == ([], []);
    assert ReadProgram(['x', '"'], false).1 == [];
  }

  lemma UnpairedLose(executable: string) returns (args: seq<string>)
    requires !QuotesPaired(executable)
    ensures ReadCommandLine(Quoted(executable) + CommandTail(args))[1..] != args
  {
    args := if NoGap(executable, true) then ["x"] else [];
    AfterName(executable, args);
    NameEnds(executable, 0, CommandTail(args), true);
    DrawnIn();
  }

  /** Every list of arguments survives exactly if the quotes in the program name are paired. */
  lemma ArgumentsSurvive(executable: string)
    ensures QuotesPaired(executable) <==>
            forall args :: ReadCommandLine(Quoted(executable) + CommandTail(args))[1..] == args
  {
    if QuotesPaired(executable) {
      forall args
        ensures ReadCommandLine(Quoted(executable) + CommandTail(args))[1..] == args
      {
        PairedSurvive(executable, args);
      }
    } else {
      var args := UnpairedLose(executable);
    }
  }

  /** As they are in a name without quotes. */
  lemma {:induction false} QuoteFree(executable: string)
    requires '"' !in executable
    ensures QuotesPaired(executable)
  {
    if executable != [] {
      QuoteFree(executable[1..]);
    }
  }
}
