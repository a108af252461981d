/** Splitting a command line into arguments, with quotes and backslashes but without a shell. */
module CommandLine {
  import opened Options
  import opened Text

  datatype Split = Arguments(args: seq<string>) | UnclosedQuote | EmptyCommand

  /** The accumulators of the scanning loop. */
  datatype Scan = Scan(args: seq<string>, current: string, quote: Option<char>, escaped: bool, started: bool)

  const START := Scan([], "", None, false, false)

  function Take(s: Scan, ch: char): Scan {
    s.(current := s.current + [ch], started := true)
  }

  function Step(s: Scan, ch: char): Scan {
    if s.escaped then Take(s, ch).(escaped := false)
    else if ch == '\\' then s.(escaped := true, started := true)
    else if s.quote == Some(ch) then s.(quote := None, started := true)
    else if s.quote.Some? then Take(s, ch)
    else if ch == '"' || ch == '\'' then s.(quote := Some(ch), started := true)
    else if !IsWhitespace(ch) then Take(s, ch)
    else if s.started then s.(args := s.args + [s.current], current := "", started := false)
    else s
  }

  function Run(s: Scan, text: string): Scan
    decreases |text|
  {
    if text == "" then s else Run(Step(s, text[0]), text[1..])
  }

  function Finish(s: Scan): Split {
    var current := if s.escaped then s.current + "\\" else s.current;
    if s.quote.Some? then UnclosedQuote
    else if s.started then Arguments(s.args + [current])
    else if s.args == [] then EmptyCommand
    else Arguments(s.args)
  }

  function SplitCommandLine(raw: string): Split {
    Finish(Run(START, Trim(raw)))
  }

  method ScanCommandLine(raw: string) returns (r: Split)
    ensures r == SplitCommandLine(raw)
  {
    var text := Trim(raw);
    var args: seq<string>, current: string, quote: Option<char> := [], "", None;
    var escaped, started := false, false;
    var i := 0;
    while i < |text|
      invariant 0 <= i <= |text|
      invariant Run(Scan(args, current, quote, escaped, started), text[i..]) == Run(START, text)
    {
      var ch := text[i];
      assert text[i..][1..] == text[i + 1..];
      i := i + 1;
      if escaped {
        current, started, escaped := current + [ch], true, false;
        continue;
      }
      if ch == '\\' {
        escaped, started := true, true;
        continue;
      }
      if quote.Some? {
        if ch == quote.value {
          quote := None;
        } else {
          current := current + [ch];
        }
        started := true;
        continue;
      }
      if ch == '"' || ch == '\'' {
        quote, started := Some(ch), true;
      } else if IsWhitespace(ch) {
        if started {
          args, current, started := args + [current], "", false;
        }
      } else {
        current, started := current + [ch], true;
      }
    }
    if escaped {
      current := current + "\\";
    }
    if quote.Some? {
      return UnclosedQuote;
    }
    if started {
      args := args + [current];
    }
    r := if args == [] then EmptyCommand else Arguments(args);
  }

  lemma {:induction false} RunAppend(s: Scan, a: string, b: string)
    ensures Run(s, a + b) == Run(Run(s, a), b)
    decreases |a|
  {
    if a == "" {
      assert a + b == b;
    } else {
      assert (a + b)[1..] == a[1..] + b;
      RunAppend(Step(s, a[0]), a[1..], b);
    }
  }

  // ---- Splitting inverts quoting ---------------------------------------------------------------------

  function Escape(arg: string): string {
    if arg == "" then ""
    else (if arg[0] == '"' || arg[0] == '\\' then ['\\', arg[0]] else [arg[0]]) + Escape(arg[1..])
  }

  function Quote(arg: string): string { "\"" + Escape(arg) + "\"" }

  function QuoteAll(args: seq<string>): string
    requires args != []
  {
    if |args| == 1 then Quote(args[0]) else QuoteAll(args[..|args| - 1]) + " " + Quote(args[|args| - 1])
  }

  lemma CharacterIsTaken(s: Scan, c: char)
    requires s.quote == Some('"') && !s.escaped && s.started
    ensures Run(s, if c == '"' || c == '\\' then ['\\', c] else [c]) == s.(current := s.current + [c])
  {
    var taken := s.(current := s.current + [c]);
    assert [c][1..] == "" && ['\\', c][1..] == [c];
    if c == '"' || c == '\\' {
      var escaped := s.(escaped := true);
      assert Step(escaped, c) == taken && Run(escaped, [c]) == Run(taken, "");
    } else {
      assert Step(s, c) == taken;
    }
  }

  lemma {:induction false} EscapedIsTaken(s: Scan, arg: string)
    requires s.quote == Some('"') && !s.escaped && s.started
    ensures Run(s, Escape(arg)) == s.(current := s.current + arg)
    decreases |arg|
  {
    if arg == "" {
      assert s.current + arg == s.current;
    } else {
      var head := if arg[0] == '"' || arg[0] == '\\' then ['\\', arg[0]] else [arg[0]];
      RunAppend(s, head, Escape(arg[1..]));
      var t := s.(current := s.current + [arg[0]]);
      CharacterIsTaken(s, arg[0]);
      EscapedIsTaken(t, arg[1..]);
      assert t.current + arg[1..] == s.current + arg;
    }
  }

  lemma QuotedIsTaken(s: Scan, arg: string)
    requires s.quote == None && !s.escaped && !s.started && s.current == ""
    ensures Run(s, Quote(arg)) == s.(current := arg, started := true)
  {
    var opened' := s.(quote := Some('"'), started := true);
    assert Quote(arg) == "\"" + (Escape(arg) + "\"");
    RunAppend(s, "\"", Escape(arg) + "\"");
    assert "\""[1..] == "";
    assert Run(s, "\"") == opened';
    RunAppend(opened', Escape(arg), "\"");
    EscapedIsTaken(opened', arg);
    assert "" + arg == arg;
    var taken := opened'.(current := arg);
    assert Run(taken, "\"") == Step(taken, '"');
  }

  lemma {:induction false} QuotedListIsTaken(args: seq<string>)
    requires args != []
    ensures Run(START, QuoteAll(args)) == Scan(args[..|args| - 1], args[|args| - 1], None, false, true)
  {
    var last := args[|args| - 1];
    if |args| == 1 {
      QuotedIsTaken(START, last);
    } else {
      var init := args[..|args| - 1];
      QuotedListIsTaken(init);
      var before := Scan(init[..|init| - 1], init[|init| - 1], None, false, true);
      RunAppend(START, QuoteAll(init) + " ", Quote(last));
      RunAppend(START, QuoteAll(init), " ");
      assert " "[1..] == "";
      assert Run(before, " ") == Step(before, ' ');
      assert init[..|init| - 1] + [init[|init| - 1]] == init;
      QuotedIsTaken(Scan(init, "", None, false, false), last);
    }
  }

  lemma {:induction false} QuotedListIsTight(args: seq<string>)
    requires args != []
    ensures |QuoteAll(args)| >= 2 && QuoteAll(args)[0] == '"' && QuoteAll(args)[|QuoteAll(args)| - 1] == '"'
  {
    if |args| > 1 {
      QuotedListIsTight(args[..|args| - 1]);
    }
  }

  /** Quoting every argument of any non-empty list and splitting gives the list back. */
  lemma QuotingRoundTrip(args: seq<string>)
    requires args != []
    ensures SplitCommandLine(QuoteAll(args)) == Arguments(args)
  {
    QuotedListIsTight(args);
    TrimOfTight(QuoteAll(args));
    QuotedListIsTaken(args);
    assert args[..|args| - 1] + [args[|args| - 1]] == args;
  }

  // ---- Plain input splits at whitespace ----------------------------------------------------------------

  predicate Plain(s: string) { forall i :: 0 <= i < |s| ==> s[i] != '\\' && s[i] != '"' && s[i] != '\'' }

  lemma {:induction false} PlainWordIsTaken(s: Scan, word: string)
    requires s.quote == None && !s.escaped && Plain(word) && Solid(word) && word != ""
    ensures Run(s, word) == s.(current := s.current + word, started := true)
    decreases |word|
  {
    var t := Take(s, word[0]);
    if |word| == 1 {
      assert word[1..] == "";
      assert s.current + word == t.current;
    } else {
      PlainWordIsTaken(t, word[1..]);
      assert t.current + word[1..] == s.current + word;
    }
  }

  lemma FirstWordIsTaken(args: seq<string>, word: string, rest: string)
    requires Plain(word) && Solid(word) && word != ""
    ensures Run(Scan(args, "", None, false, false), word + rest) == Run(Scan(args, word, None, false, true), rest)
  {
    var s := Scan(args, "", None, false, false);
    RunAppend(s, word, rest);
    PlainWordIsTaken(s, word);
    assert "" + word == word;
  }

  /** Between words, the rest of the input contributes its words and nothing is left open but the last one. */
  lemma {:induction false} PlainRun(args: seq<string>, text: string)
    requires Plain(text)
    ensures Finish(Run(Scan(args, "", None, false, false), text)) ==
            if args + Words(text) == [] then EmptyCommand else Arguments(args + Words(text))
    decreases |text|
  {
    var s := Scan(args, "", None, false, false);
    if text == "" {
      assert args + Words(text) == args;
    } else if IsWhitespace(text[0]) {
      assert Step(s, text[0]) == s;
      PlainRun(args, text[1..]);
    } else {
      var n := WordLength(text);
      var word, rest := text[..n], text[n..];
      assert text == word + rest;
      FirstWordIsTaken(args, word, rest);
      AfterWord(args, word, rest);
      assert args + ([word] + Words(rest)) == (args + [word]) + Words(rest);
    }
  }

  lemma AfterWord(args: seq<string>, word: string, rest: string)
    requires Plain(rest) && (rest != "" ==> IsWhitespace(rest[0]))
    ensures Finish(Run(Scan(args, word, None, false, true), rest)) == Arguments(args + [word] + Words(rest))
    decreases |rest|, 0
  {
    if rest == "" {
      assert args + [word] + Words(rest) == args + [word];
    } else {
      assert Step(Scan(args, word, None, false, true), rest[0]) == Scan(args + [word], "", None, false, false);
      PlainRun(args + [word], rest[1..]);
    }
  }

  /** Without quotes and backslashes, the arguments are the whitespace-separated words. */
  lemma PlainInputSplitsAtWhitespace(raw: string)
    requires Plain(raw)
    ensures SplitCommandLine(raw) == if Words(raw) == [] then EmptyCommand else Arguments(Words(raw))
  {
    TrimKeepsCharacters(raw);
    forall i | 0 <= i < |Trim(raw)| ensures Trim(raw)[i] in raw {
      assert Trim(raw)[i] in Trim(raw);
    }
    PlainRun([], Trim(raw));
    WordsOfTrim(raw);
    assert [] + Words(raw) == Words(raw);
  }

  lemma TrimKeepsCharacters(s: string)
    ensures forall c :: c in Trim(s) ==> c in s
  {
    TrimStartKeepsCharacters(s);
    TrimEndKeepsCharacters(TrimStart(s));
  }

  lemma {:induction false} TrimStartKeepsCharacters(s: string)
    ensures forall c :: c in TrimStart(s) ==> c in s
  {
    if s != [] && IsWhitespace(s[0]) {
      TrimStartKeepsCharacters(s[1..]);
    }
  }

  lemma {:induction false} TrimEndKeepsCharacters(s: string)
    ensures forall c :: c in TrimEnd(s) ==> c in s
  {
    if s != [] && IsWhitespace(s[|s| - 1]) {
      TrimEndKeepsCharacters(s[..|s| - 1]);
    }
  }

  // ---- Nothing is made up ------------------------------------------------------------------------------

  predicate DrawnFrom(s: Scan, raw: string) {
    && (forall arg, c :: arg in s.args && c in arg ==> c in raw)
    && (forall c :: c in s.current ==> c in raw)
    && (s.escaped ==> '\\' in raw)
  }

  lemma {:induction false} RunDrawsFrom(s: Scan, text: string, raw: string)
    requires DrawnFrom(s, raw) && forall c :: c in text ==> c in raw
    ensures DrawnFrom(Run(s, text), raw)
    decreases |text|
  {
    if text != "" {
      assert text[0] in text;
      RunDrawsFrom(Step(s, text[0]), text[1..], raw);
    }
  }

  /** Every character of every argument occurs in the input. */
  lemma ArgumentsDrawFromInput(raw: string, arg: string, c: char)
    requires SplitCommandLine(raw).Arguments? && arg in SplitCommandLine(raw).args && c in arg
    ensures c in raw
  {
    TrimKeepsCharacters(raw);
    RunDrawsFrom(START, Trim(raw), raw);
  }

  predicate IsBlocked(c: char) {
    c == ';' || c == '&' || c == '|' || c == '>' || c == '<' || c == '`' || c == '\n' || c == '\r'
  }

  predicate HasShellMetacharacters(raw: string) {
    Contains(raw, "$(") || Contains(raw, "${") || exists c :: c in raw && IsBlocked(c)
  }

  const BLOCKED := ";&|<>`\n\r"

  /** The check refuses exactly the eight characters and a dollar directly before an opening bracket or brace. */
  lemma RefusedIff(raw: string)
    ensures HasShellMetacharacters(raw) <==>
            || (exists c :: c in raw && c in BLOCKED)
            || (exists i :: 0 <= i < |raw| - 1 && raw[i] == '$' && raw[i + 1] in ['(', '{'])
  {
    if i :| 0 <= i < |raw| - 1 && raw[i] == '$' && raw[i + 1] in ['(', '{'] {
      assert raw[i..i + 2] == "$(" || raw[i..i + 2] == "${";
      assert At(raw, "$(", i) || At(raw, "${", i);
    }
    if i :| 0 <= i <= |raw| && (At(raw, "$(", i) || At(raw, "${", i)) {
      PairAt(raw, if At(raw, "$(", i) then "$(" else "${", i);
      assert 0 <= i < |raw| - 1 && raw[i] == '$' && raw[i + 1] in ['(', '{'];
    }
    assert forall c :: IsBlocked(c) <==> c in BLOCKED;
  }

  lemma PairAt(raw: string, pair: string, i: nat)
    requires |pair| == 2 && i <= |raw| && At(raw, pair, i)
    ensures i < |raw| - 1 && raw[i] == pair[0] && raw[i + 1] == pair[1]
  {
    AtMeans(raw, pair, i, 0);
    AtMeans(raw, pair, i, 1);
  }

  /** What passes the check beforehand cannot contain a blocked character afterwards. */
  lemma CheckedArgumentsAreUnblocked(raw: string, arg: string, c: char)
    requires !HasShellMetacharacters(raw)
    requires SplitCommandLine(raw).Arguments? && arg in SplitCommandLine(raw).args && c in arg
    ensures c !in BLOCKED
  {
    ArgumentsDrawFromInput(raw, arg, c);
  }

  // ---- Open ends ------------------------------------------------------------------------------------------

  function Count(s: string, c: char): nat {
    if s == "" then 0 else Count(s[..|s| - 1], c) + if s[|s| - 1] == c then 1 else 0
  }

  /** The input has no backslash and no quotes but these. */
  predicate QuotedBy(raw: string, q: char) {
    && (q == '"' || q == '\'') && '\\' !in raw
    && forall c :: c in raw && (c == '"' || c == '\'') ==> c == q
  }

  lemma {:induction false} OpenIffOdd(text: string, q: char)
    requires QuotedBy(text, q)
    ensures Run(START, text).quote == (if Count(text, q) % 2 == 1 then Some(q) else None) && !Run(START, text).escaped
  {
    if text != "" {
      var before, last := text[..|text| - 1], text[|text| - 1];
      assert text == before + [last] && last in text;
      assert forall c :: c in before ==> c in text;
      OpenIffOdd(before, q);
      RunSnoc(before, last);
    }
  }

  lemma {:induction false} CountAppend(a: string, b: string, c: char)
    ensures Count(a + b, c) == Count(a, c) + Count(b, c)
    decreases |b|
  {
    if b == "" {
      assert a + b == a;
    } else {
      assert (a + b)[..|a + b| - 1] == a + b[..|b| - 1];
      CountAppend(a, b[..|b| - 1], c);
    }
  }

  lemma {:induction false} BlankHasNone(s: string, c: char)
    requires !IsWhitespace(c) && forall i :: 0 <= i < |s| ==> IsWhitespace(s[i])
    ensures Count(s, c) == 0
  {
    if s != "" {
      BlankHasNone(s[..|s| - 1], c);
    }
  }

  lemma TrimKeepsCount(raw: string, c: char)
    requires !IsWhitespace(c)
    ensures Count(Trim(raw), c) == Count(raw, c)
  {
    var start := TrimStartIsEnd(raw);
    var end := TrimEndIsStart(TrimStart(raw));
    CountAppend(start, TrimStart(raw), c);
    CountAppend(Trim(raw), end, c);
    BlankHasNone(start, c);
    BlankHasNone(end, c);
  }

  /** With one kind of quote and no backslash, the input is refused exactly when a quote has no partner. */
  lemma UnclosedIffOddQuotes(raw: string, q: char)
    requires QuotedBy(raw, q)
    ensures SplitCommandLine(raw) == UnclosedQuote <==> Count(raw, q) % 2 == 1
  {
    TrimKeepsCharacters(raw);
    TrimKeepsCount(raw, q);
    OpenIffOdd(Trim(raw), q);
  }

  /** A backslash at the very end is kept as it is. */
  lemma FinalBackslashStays(raw: string)
    requires Plain(raw) && Tight(raw) && raw != ""
    ensures var words := Words(raw);
            && words != []
            && SplitCommandLine(raw + "\\") == Arguments(words[..|words| - 1] + [words[|words| - 1] + "\\"])
  {
    PlainScan(raw);
    TrimOfTight(raw + "\\");
    RunSnoc(raw, '\\');
    var s := Run(START, raw);
    assert Words(raw)[..|Words(raw)| - 1] == s.args && Words(raw)[|Words(raw)| - 1] == s.current;
  }

  /** Scanned plain input ends inside its last word. */
  lemma PlainScan(raw: string)
    requires Plain(raw) && Tight(raw) && raw != ""
    ensures var s := Run(START, raw);
            s.quote == None && !s.escaped && s.started && Words(raw) == s.args + [s.current]
  {
    PlainRun([], raw);
    assert [] + Words(raw) == Words(raw);
    PlainNeverOpens(raw);
    LastCharacterStarts(raw);
  }

  lemma {:induction false} PlainNeverOpens(raw: string)
    requires Plain(raw)
    ensures Run(START, raw).quote == None && !Run(START, raw).escaped
  {
    if raw != "" {
      var before, last := raw[..|raw| - 1], raw[|raw| - 1];
      assert raw == before + [last];
      PlainNeverOpens(before);
      RunSnoc(before, last);
    }
  }

  lemma LastCharacterStarts(raw: string)
    requires Plain(raw) && Tight(raw) && raw != ""
    ensures Run(START, raw).started
  {
    var before, last := raw[..|raw| - 1], raw[|raw| - 1];
    assert raw == before + [last];
    PlainNeverOpens(before);
    RunSnoc(before, last);
  }

  // ---- Two-character markers ------------------------------------------------------------------------------

  /** The character becomes part of the current argument. */
  predicate Takes(s: Scan, ch: char) {
    || s.escaped
    || (ch != '\\' && s.quote != Some(ch)
        && (s.quote.Some? || (ch != '"' && ch != '\'' && !IsWhitespace(ch))))
  }

  /** The character stands between arguments. */
  predicate Separates(s: Scan, ch: char) { !s.escaped && s.quote.None? && IsWhitespace(ch) }

  predicate TakenAt(text: string, k: nat)
    requires k < |text|
  {
    Takes(Run(START, text[..k]), text[k])
  }

  /** A quote or backslash that only steers the scan. */
  predicate DroppedAt(text: string, k: nat)
    requires k < |text|
  {
    !TakenAt(text, k) && !Separates(Run(START, text[..k]), text[k])
  }

  /** The last character of the input that is kept is `c`, and no argument has ended since. */
  predicate KeepsLast(text: string, c: char) {
    exists j :: 0 <= j < |text| && text[j] == c && TakenAt(text, j) && forall k :: j < k < |text| ==> DroppedAt(text, k)
  }

  /** `a` and `b` are kept, in one argument, with nothing but dropped characters between them. */
  predicate KeepsPair(text: string, a: char, b: char) {
    exists i :: 0 <= i < |text| && text[i] == b && TakenAt(text, i) && KeepsLast(text[..i], a)
  }

  predicate LastIs(s: string, c: char) { s != "" && s[|s| - 1] == c }

  predicate HoldsPair(s: Scan, a: char, b: char) {
    Contains(s.current, [a, b]) || exists k :: 0 <= k < |s.args| && Contains(s.args[k], [a, b])
  }

  lemma RunSnoc(before: string, c: char)
    ensures Run(START, before + [c]) == Step(Run(START, before), c)
  {
    RunAppend(START, before, [c]);
    assert [c][1..] == "";
  }

  lemma {:induction false} UnstartedIsEmpty(text: string)
    ensures !Run(START, text).started ==> Run(START, text).current == ""
  {
    if text != "" {
      var before, last := text[..|text| - 1], text[|text| - 1];
      assert text == before + [last];
      UnstartedIsEmpty(before);
      RunSnoc(before, last);
    }
  }

  lemma SameBefore(before: string, ch: char)
    ensures forall k :: 0 <= k < |before| ==>
              && (before + [ch])[k] == before[k]
              && (TakenAt(before + [ch], k) <==> TakenAt(before, k))
              && (DroppedAt(before + [ch], k) <==> DroppedAt(before, k))
  {
    forall k | 0 <= k < |before|
      ensures (before + [ch])[..k] == before[..k]
    {
    }
  }

  lemma KeepsLastSnoc(before: string, ch: char, c: char)
    ensures var s := Run(START, before);
            KeepsLast(before + [ch], c) <==>
            if Takes(s, ch) then ch == c else !Separates(s, ch) && KeepsLast(before, c)
  {
    var text := before + [ch];
    assert text[..|before|] == before && text[|before|] == ch;
    SameBefore(before, ch);
    if TakenAt(text, |before|) && ch == c {
      assert KeepsLast(text, c);
    }
    if KeepsLast(before, c) && DroppedAt(text, |before|) {
      var j :| 0 <= j < |before| && before[j] == c && TakenAt(before, j)
               && forall k :: j < k < |before| ==> DroppedAt(before, k);
      assert text[j] == c && TakenAt(text, j);
    }
    if KeepsLast(text, c) {
      var j :| 0 <= j < |text| && text[j] == c && TakenAt(text, j) && forall k :: j < k < |text| ==> DroppedAt(text, k);
      if j < |before| {
        assert DroppedAt(text, |before|);
        assert before[j] == c && TakenAt(before, j);
      }
    }
  }

  lemma KeepsPairSnoc(before: string, ch: char, a: char, b: char)
    ensures KeepsPair(before + [ch], a, b) <==>
            KeepsPair(before, a, b) || (ch == b && Takes(Run(START, before), ch) && KeepsLast(before, a))
  {
    var text := before + [ch];
    assert text[..|before|] == before && text[|before|] == ch;
    forall k | 0 <= k < |before|
      ensures text[..k] == before[..k]
    {
    }
    if KeepsPair(before, a, b) {
      var i :| 0 <= i < |before| && before[i] == b && TakenAt(before, i) && KeepsLast(before[..i], a);
      assert text[i] == b && TakenAt(text, i) && KeepsLast(text[..i], a);
    }
  }

  lemma {:induction false} CurrentEndsIff(text: string, c: char)
    ensures LastIs(Run(START, text).current, c) <==> KeepsLast(text, c)
  {
    if text != "" {
      var before, last := text[..|text| - 1], text[|text| - 1];
      assert text == before + [last];
      CurrentEndsIff(before, c);
      UnstartedIsEmpty(before);
      RunSnoc(before, last);
      KeepsLastSnoc(before, last, c);
    }
  }

  lemma PairSnoc(s: string, ch: char, a: char, b: char)
    ensures Contains(s + [ch], [a, b]) <==> Contains(s, [a, b]) || (LastIs(s, a) && ch == b)
  {
    var t := s + [ch];
    if LastIs(s, a) && ch == b {
      assert t[|s| - 1..|s| + 1] == [a, b];
      assert At(t, [a, b], |s| - 1);
    }
    assert t == [] + s + [ch];
    ContainsGrows([], s, [ch], [a, b]);
    if i :| 0 <= i <= |t| && At(t, [a, b], i) {
      AtMeans(t, [a, b], i, 0);
      AtMeans(t, [a, b], i, 1);
      if i + 2 <= |s| {
        assert s[i..i + 2] == t[i..i + 2];
        assert At(s, [a, b], i);
      }
    }
  }

  lemma StepHoldsPairIff(s: Scan, ch: char, a: char, b: char)
    requires !s.started ==> s.current == ""
    ensures HoldsPair(Step(s, ch), a, b) <==> HoldsPair(s, a, b) || (Takes(s, ch) && LastIs(s.current, a) && ch == b)
  {
    var next := Step(s, ch);
    if Takes(s, ch) {
      PairSnoc(s.current, ch, a, b);
    } else if Separates(s, ch) && s.started {
      assert next.args[|s.args|] == s.current && next.current == "";
      assert forall k :: 0 <= k < |s.args| ==> next.args[k] == s.args[k];
      if k :| 0 <= k < |s.args| && Contains(s.args[k], [a, b]) {
        assert Contains(next.args[k], [a, b]);
      }
      if k :| 0 <= k < |next.args| && Contains(next.args[k], [a, b]) {
        assert k < |s.args| ==> Contains(s.args[k], [a, b]);
      }
    } else {
      assert next.args == s.args && next.current == s.current;
    }
  }

  lemma {:induction false} HoldsPairIff(text: string, a: char, b: char)
    ensures HoldsPair(Run(START, text), a, b) <==> KeepsPair(text, a, b)
  {
    if text != "" {
      var before, last := text[..|text| - 1], text[|text| - 1];
      assert text == before + [last];
      HoldsPairIff(before, a, b);
      CurrentEndsIff(before, a);
      UnstartedIsEmpty(before);
      RunSnoc(before, last);
      StepHoldsPairIff(Run(START, before), last, a, b);
      KeepsPairSnoc(before, last, a, b);
    }
  }

  /**
   An argument holds a marker like `$(` exactly when its two characters are kept with nothing but
   dropped quotes and backslashes between them; the check looks for them side by side only.
   */
  lemma MarkerSurvivesIff(raw: string, a: char, b: char)
    requires SplitCommandLine(raw).Arguments? && b != '\\'
    ensures var args := SplitCommandLine(raw).args;
            (exists k :: 0 <= k < |args| && Contains(args[k], [a, b])) <==> KeepsPair(Trim(raw), a, b)
  {
    var s, args := Run(START, Trim(raw)), SplitCommandLine(raw).args;
    HoldsPairIff(Trim(raw), a, b);
    UnstartedIsEmpty(Trim(raw));
    PairSnoc(s.current, '\\', a, b);
    assert !s.started ==> !Contains(s.current, [a, b]);
    if s.started {
      assert args[|s.args|] == if s.escaped then s.current + "\\" else s.current;
      forall k | 0 <= k < |s.args|
        ensures args[k] == s.args[k]
      {
      }
    }
  }

  lemma TrimmedContains(raw: string, part: string)
    ensures Contains(Trim(raw), part) ==> Contains(raw, part)
  {
    var start := TrimStartIsEnd(raw);
    var end := TrimEndIsStart(TrimStart(raw));
    assert start + (Trim(raw) + end) == start + Trim(raw) + end;
    ContainsGrows(start, Trim(raw), end, part);
  }

  /** Both characters are kept, and at least one character between them, all of them dropped. */
  predicate HidesPair(text: string, j: nat, i: nat, a: char, b: char) {
    && j + 1 < i < |text| && text[j] == a && text[i] == b && TakenAt(text, j) && TakenAt(text, i)
    && forall k :: j < k < i ==> DroppedAt(text, k)
  }

  /** What the side-by-side check misses has a dropped quote or backslash inside. */
  lemma MissedMarkersAreHidden(raw: string, a: char, b: char) returns (j: nat, i: nat)
    requires SplitCommandLine(raw).Arguments? && b != '\\' && !Contains(raw, [a, b])
    requires var args := SplitCommandLine(raw).args; exists k :: 0 <= k < |args| && Contains(args[k], [a, b])
    ensures HidesPair(Trim(raw), j, i, a, b)
  {
    var text := Trim(raw);
    MarkerSurvivesIff(raw, a, b);
    i :| 0 <= i < |text| && text[i] == b && TakenAt(text, i) && KeepsLast(text[..i], a);
    var before := text[..i];
    j :| 0 <= j < |before| && before[j] == a && TakenAt(before, j)
         && forall k :: j < k < |before| ==> DroppedAt(before, k);
    forall k | 0 <= k < i
      ensures before[..k] == text[..k] && before[k] == text[k]
    {
    }
    if j + 1 == i {
      assert text[j..j + 2] == [a, b];
      assert At(text, [a, b], j);
      TrimmedContains(raw, [a, b]);
    }
    assert forall k :: j < k < i ==> (DroppedAt(text, k) <==> DroppedAt(before, k));
  }

  /** So a marker can pass the check: a backslash between its characters hides it. */
  lemma HiddenMarkerPasses(raw: string)
    requires raw == "$\\(x"
    ensures !HasShellMetacharacters(raw) && SplitCommandLine(raw) == Arguments(["$(x"])
  {
    forall i | 0 <= i <= |raw|
      ensures !At(raw, "$(", i) && !At(raw, "${", i)
    {
      AtMeans(raw, "$(", i, 0);
      AtMeans(raw, "$(", i, 1);
      AtMeans(raw, "${", i, 0);
      AtMeans(raw, "${", i, 1);
    }
    TrimOfTight(raw);
    assert raw[1..] == "\\(x" && raw[1..][1..] == "(x" && raw[1..][1..][1..] == "x" && raw[1..][1..][1..][1..] == "";
    var one, two := Scan([], "$", None, false, true), Scan([], "$", None, true, true);
    var three, four := Scan([], "$(", None, false, true), Scan([], "$(x", None, false, true);
    assert Step(START, '$') == one && Step(one, '\\') == two && Step(two, '(') == three && Step(three, 'x') == four;
    assert Run(four, "") == four && Run(three, "x") == four && Run(two, "(x") == four && Run(one, "\\(x") == four;
  }

  // ---- The errors ---------------------------------------------------------------------------------------

  lemma {:induction false} SomethingStays(s: Scan, text: string)
    requires s.started || s.args != []
    ensures Run(s, text).started || Run(s, text).args != []
    decreases |text|
  {
    if text != "" {
      SomethingStays(Step(s, text[0]), text[1..]);
    }
  }

  /** Only blank input is an empty command, and a successful split is never empty. */
  lemma EmptyIffBlank(raw: string)
    ensures SplitCommandLine(raw) == EmptyCommand <==> Trim(raw) == ""
    ensures SplitCommandLine(raw).Arguments? ==> SplitCommandLine(raw).args != []
  {
    var text := Trim(raw);
    TrimIsTight(raw);
    if text != "" {
      SomethingStays(Step(START, text[0]), text[1..]);
    }
  }
}
