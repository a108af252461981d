/**
 The line lexers of the syntax highlighter.

 The Unicode classes of characters and the keyword table are parameters.  The specification walks
 from token to token; the loops advance an index that an escape at the end of the line may push past
 it.
 */
module SyntaxLexer {
  /** A character as Swift iterates them: one code point, or a cluster of several that read as one. */
  datatype Glyph = One(c: char) | Cluster(text: string)
  type Glyphs = seq<Glyph>

  datatype Style = Comment | StringText | Number | Keyword | TypeName | Call | Word | Punctuation | Key | Literal

  datatype StyledRun = StyledRun(text: Glyphs, style: Style)

  /** The tables the lexers look things up in. */
  datatype Classes = Classes(
    isNumber: Glyph -> bool, isLetter: Glyph -> bool, isUppercase: Glyph -> bool, isKeyword: Glyphs -> bool)

  datatype Language = SourceCode | JsonText

  /** The first end of token at or after `i`; `end` may lie one past the end of the line. */
  datatype Token = Token(end: nat, style: Style)

  /** Past the closing quote, skipping every escaped character. */
  function StringEnd(s: Glyphs, i: nat): (end: nat)
    requires i <= |s| + 1
    ensures i <= end <= |s| + 1
    decreases |s| + 1 - i
  {
    if i >= |s| then i
    else if s[i] == One('\\') then StringEnd(s, i + 2)
    else if s[i] == One('"') then i + 1
    else StringEnd(s, i + 1)
  }

  function SpanEnd(s: Glyphs, i: nat, inside: Glyph -> bool): (end: nat)
    requires i <= |s|
    ensures i <= end <= |s| && (i < |s| && inside(s[i]) ==> i < end)
    decreases |s| - i
  {
    if i < |s| && inside(s[i]) then SpanEnd(s, i + 1, inside) else i
  }

  function Clip(s: Glyphs, start: nat, end: nat): Glyphs
    requires start <= end
  {
    if end <= |s| then s[start..end] else if start <= |s| then s[start..] else []
  }

  function WordStyle(s: Glyphs, start: nat, end: nat, classes: Classes): Style
    requires start < end <= |s|
  {
    if classes.isKeyword(s[start..end]) then Keyword
    else if classes.isUppercase(s[start]) then TypeName
    else if end < |s| && s[end] == One('(') then Call
    else Word
  }

  function CodeToken(s: Glyphs, i: nat, classes: Classes): (t: Token)
    requires i < |s|
    ensures i < t.end <= |s| + 1
  {
    var c := s[i];
    if c == One('/') && i + 1 < |s| && s[i + 1] == One('/') then Token(|s|, Comment)
    else if c == One('"') then Token(StringEnd(s, i + 1), StringText)
    else if classes.isNumber(c) then Token(SpanEnd(s, i, IsNumberPart(classes)), Number)
    else if classes.isLetter(c) || c == One('_') then
      var end := SpanEnd(s, i, IsWordPart(classes));
      Token(end, WordStyle(s, i, end, classes))
    else Token(i + 1, Punctuation)
  }

  function IsNumberPart(classes: Classes): Glyph -> bool { c => classes.isNumber(c) || c == One('.') || c == One('_') }
  function IsWordPart(classes: Classes): Glyph -> bool {
    c => classes.isLetter(c) || classes.isNumber(c) || c == One('_')
  }
  function IsDecimalPart(classes: Classes): Glyph -> bool { c => classes.isNumber(c) || c == One('.') }
  function IsSpace(): Glyph -> bool { c => c == One(' ') }

  /** A string followed by a colon is a key. */
  predicate IsKey(s: Glyphs, end: nat) {
    end <= |s| && SpanEnd(s, end, IsSpace()) < |s| && s[SpanEnd(s, end, IsSpace())] == One(':')
  }

  function JsonToken(s: Glyphs, i: nat, classes: Classes): (t: Token)
    requires i < |s|
    ensures i < t.end <= |s| + 1
  {
    var c := s[i];
    if c == One('"') then
      var end := StringEnd(s, i + 1);
      Token(end, if IsKey(s, end) then Key else StringText)
    else if classes.isNumber(c) || (c == One('-') && i + 1 < |s| && classes.isNumber(s[i + 1])) then
      Token(SpanEnd(s, i + 1, IsDecimalPart(classes)), Number)
    else if classes.isLetter(c) then Token(SpanEnd(s, i, classes.isLetter), Literal)
    else Token(i + 1, Punctuation)
  }

  function NextToken(lang: Language, s: Glyphs, i: nat, classes: Classes): (t: Token)
    requires i < |s|
    ensures i < t.end <= |s| + 1
  {
    if lang == SourceCode then CodeToken(s, i, classes) else JsonToken(s, i, classes)
  }

  function Runs(lang: Language, s: Glyphs, i: nat, classes: Classes): seq<StyledRun>
    requires i <= |s| + 1
    decreases |s| + 1 - i
  {
    if i >= |s| then []
    else
      var t := NextToken(lang, s, i, classes);
      [StyledRun(Clip(s, i, t.end), t.style)] + Runs(lang, s, t.end, classes)
  }

  // ---- The loops -------------------------------------------------------------------------------------

  method ScanString(s: Glyphs, start: nat) returns (i: nat)
    requires start <= |s|
    ensures i == StringEnd(s, start)
  {
    i := start;
    while i < |s|
      invariant start <= i <= |s| + 1 && StringEnd(s, i) == StringEnd(s, start)
    {
      if s[i] == One('\\') {
        i := i + 2;
        continue;
      }
      if s[i] == One('"') {
        i := i + 1;
        return;
      }
      i := i + 1;
    }
  }

  method ScanSpan(s: Glyphs, start: nat, inside: Glyph -> bool) returns (i: nat)
    requires start <= |s|
    ensures i == SpanEnd(s, start, inside)
  {
    i := start;
    while i < |s| && inside(s[i])
      invariant start <= i <= |s| && SpanEnd(s, i, inside) == SpanEnd(s, start, inside)
    {
      i := i + 1;
    }
  }

  method HighlightCode(s: Glyphs, classes: Classes) returns (out: seq<StyledRun>)
    ensures out == Runs(SourceCode, s, 0, classes)
  {
    out := [];
    var i := 0;
    while i < |s|
      invariant 0 <= i <= |s| + 1
      invariant out + Runs(SourceCode, s, i, classes) == Runs(SourceCode, s, 0, classes)
      decreases |s| + 1 - i
    {
      var c, start, style := s[i], i, Punctuation;
      if c == One('/') && i + 1 < |s| && s[i + 1] == One('/') {
        i, style := |s|, Comment;
      } else if c == One('"') {
        i := ScanString(s, i + 1);
        style := StringText;
      } else if classes.isNumber(c) {
        i := ScanSpan(s, i, IsNumberPart(classes));
        style := Number;
      } else if classes.isLetter(c) || c == One('_') {
        i := ScanSpan(s, i, IsWordPart(classes));
        style := WordStyle(s, start, i, classes);
      } else {
        i := i + 1;
      }
      out := AppendRun(SourceCode, s, start, Token(i, style), classes, out);
    }
    assert out + [] == out;
  }

  method HighlightJson(s: Glyphs, classes: Classes) returns (out: seq<StyledRun>)
    ensures out == Runs(JsonText, s, 0, classes)
  {
    out := [];
    var i := 0;
    while i < |s|
      invariant 0 <= i <= |s| + 1
      invariant out + Runs(JsonText, s, i, classes) == Runs(JsonText, s, 0, classes)
      decreases |s| + 1 - i
    {
      var c, start, style := s[i], i, Punctuation;
      if c == One('"') {
        i := ScanString(s, i + 1);
        var j := i;
        if i <= |s| {
          j := ScanSpan(s, i, IsSpace());
        }
        style := if j < |s| && s[j] == One(':') then Key else StringText;
      } else if classes.isNumber(c) || (c == One('-') && i + 1 < |s| && classes.isNumber(s[i + 1])) {
        i := ScanSpan(s, i + 1, IsDecimalPart(classes));
        style := Number;
      } else if classes.isLetter(c) {
        i := ScanSpan(s, i, classes.isLetter);
        style := Literal;
      } else {
        i := i + 1;
      }
      out := AppendRun(JsonText, s, start, Token(i, style), classes, out);
    }
    assert out + [] == out;
  }

  method AppendRun(ghost lang: Language, s: Glyphs, start: nat, t: Token, ghost classes: Classes, runs: seq<StyledRun>)
    returns (out: seq<StyledRun>)
    requires start < |s| && t == NextToken(lang, s, start, classes)
    ensures out + Runs(lang, s, t.end, classes) == runs + Runs(lang, s, start, classes)
  {
    out := runs + [StyledRun(Clip(s, start, t.end), t.style)];
  }

  // ---- Nothing is lost -------------------------------------------------------------------------------

  function Concat(runs: seq<StyledRun>): Glyphs {
    if runs == [] then [] else runs[0].text + Concat(runs[1..])
  }

  predicate AllNonempty(runs: seq<StyledRun>) { forall r :: r in runs ==> r.text != [] }

  lemma FirstRun(lang: Language, s: Glyphs, i: nat, classes: Classes) returns (end: nat, style: Style)
    requires i < |s|
    ensures i < end <= |s| + 1
    ensures Runs(lang, s, i, classes) == [StyledRun(Clip(s, i, end), style)] + Runs(lang, s, end, classes)
  {
    var t := NextToken(lang, s, i, classes);
    end, style := t.end, t.style;
  }

  lemma ConcatCons(r: StyledRun, rest: seq<StyledRun>)
    ensures Concat([r] + rest) == r.text + Concat(rest)
    ensures r.text != [] && AllNonempty(rest) ==> AllNonempty([r] + rest)
  {
    assert ([r] + rest)[1..] == rest;
  }

  function From(s: Glyphs, i: nat): Glyphs { if i <= |s| then s[i..] else [] }

  lemma ClipThenFrom(s: Glyphs, start: nat, end: nat)
    requires start < end <= |s| + 1 && start < |s|
    ensures Clip(s, start, end) != [] && Clip(s, start, end) + From(s, end) == From(s, start)
  {
  }

  /** The runs from any position are the rest of the line, cut into non-empty pieces. */
  lemma {:induction false} RunsAreLossless(lang: Language, s: Glyphs, i: nat, classes: Classes)
    requires i <= |s| + 1
    ensures Concat(Runs(lang, s, i, classes)) == From(s, i) && AllNonempty(Runs(lang, s, i, classes))
    decreases |s| + 1 - i
  {
    if i < |s| {
      var end, style := FirstRun(lang, s, i, classes);
      RunsAreLossless(lang, s, end, classes);
      ConcatCons(StyledRun(Clip(s, i, end), style), Runs(lang, s, end, classes));
      ClipThenFrom(s, i, end);
    }
  }

  // ---- Where a string ends -----------------------------------------------------------------------------

  /** The backslashes directly before `k`, counted back no further than `low`. */
  function Backslashes(s: Glyphs, low: nat, k: nat): nat
    requires k <= |s|
  {
    if k <= low || s[k - 1] != One('\\') then 0 else 1 + Backslashes(s, low, k - 1)
  }

  /** A quote after an even number of backslashes, as read from `low`. */
  predicate ClosesAt(s: Glyphs, low: nat, k: nat) {
    low <= k < |s| && s[k] == One('"') && Backslashes(s, low, k) % 2 == 0
  }

  predicate EndsInsideEscape(s: Glyphs, low: nat)
    requires low <= |s|
  {
    (forall k :: low <= k < |s| ==> !ClosesAt(s, low, k)) && Backslashes(s, low, |s|) % 2 == 1
  }

  lemma {:induction false} BackslashesPastOther(s: Glyphs, low: nat, k: nat)
    requires low < k <= |s| && s[low] != One('\\')
    ensures Backslashes(s, low, k) == Backslashes(s, low + 1, k)
    decreases k
  {
    if k > low + 1 {
      BackslashesPastOther(s, low, k - 1);
    }
  }

  lemma {:induction false} BackslashesPastEscape(s: Glyphs, low: nat, k: nat)
    requires low + 2 <= k <= |s| && s[low] == One('\\')
    ensures Backslashes(s, low, k) % 2 == Backslashes(s, low + 2, k) % 2
    decreases k
  {
    if k > low + 2 {
      BackslashesPastEscape(s, low, k - 1);
    } else {
      assert Backslashes(s, low, low + 1) == 1 + Backslashes(s, low, low);
    }
  }

  /** The scan stops behind the first closing quote; without one, at the end of the line or one past it. */
  lemma {:induction false} StringEndIs(s: Glyphs, low: nat)
    requires low <= |s|
    ensures forall k :: low <= k < |s| && ClosesAt(s, low, k) ==> StringEnd(s, low) <= k + 1
    ensures if exists k :: low <= k < |s| && ClosesAt(s, low, k)
            then StringEnd(s, low) <= |s| && StringEnd(s, low) > 0 && ClosesAt(s, low, StringEnd(s, low) - 1)
            else StringEnd(s, low) == |s| + Backslashes(s, low, |s|) % 2
    decreases |s| - low
  {
    if low == |s| || s[low] == One('"') {
      assert low < |s| ==> ClosesAt(s, low, low);
    } else if s[low] == One('\\') {
      assert Backslashes(s, low, low) == 0;
      assert Backslashes(s, low, low + 1) == 1;
      if low + 2 <= |s| {
        StringEndIs(s, low + 2);
        forall k | low + 2 <= k <= |s|
          ensures k < |s| ==> (ClosesAt(s, low, k) <==> ClosesAt(s, low + 2, k))
          ensures Backslashes(s, low, k) % 2 == Backslashes(s, low + 2, k) % 2
        {
          BackslashesPastEscape(s, low, k);
        }
        assert !ClosesAt(s, low, low) && !ClosesAt(s, low, low + 1);
      }
    } else {
      StringEndIs(s, low + 1);
      forall k | low + 1 <= k <= |s|
        ensures k < |s| ==> (ClosesAt(s, low, k) <==> ClosesAt(s, low + 1, k))
        ensures Backslashes(s, low, k) == Backslashes(s, low + 1, k)
      {
        BackslashesPastOther(s, low, k);
      }
    }
  }

  /** A token pushes the index past the end of the line exactly when it is a string that ends inside an escape. */
  lemma OvershootsIff(lang: Language, s: Glyphs, i: nat, classes: Classes)
    requires i < |s|
    ensures NextToken(lang, s, i, classes).end == |s| + 1 <==> s[i] == One('"') && EndsInsideEscape(s, i + 1)
  {
    StringEndIs(s, i + 1);
  }

  /** Such a line is still one run, and nothing follows it. */
  lemma LineEndingInEscape(lang: Language, s: Glyphs, classes: Classes)
    requires s != [] && s[0] == One('"') && EndsInsideEscape(s, 1)
    ensures NextToken(lang, s, 0, classes).end == |s| + 1
    ensures Runs(lang, s, 0, classes) == [StyledRun(s, StringText)]
  {
    OvershootsIff(lang, s, 0, classes);
    assert s[0..] == s;
  }

  /** The shortest of them is a quote and a backslash: the index ends at three in a line of two. */
  lemma QuoteAndBackslash(lang: Language, classes: Classes)
    ensures var s := [One('"'), One('\\')];
            NextToken(lang, s, 0, classes).end == 3 && Runs(lang, s, 0, classes) == [StyledRun(s, StringText)]
  {
    var s := [One('"'), One('\\')];
    assert Backslashes(s, 1, 2) == 1 + Backslashes(s, 1, 1);
    LineEndingInEscape(lang, s, classes);
  }

  // ---- String literals -------------------------------------------------------------------------------

  /** A backslash before every quote and backslash. */
  function Escape(arg: Glyphs): Glyphs {
    if arg == [] then []
    else (if arg[0] == One('"') || arg[0] == One('\\') then [One('\\'), arg[0]] else [arg[0]]) + Escape(arg[1..])
  }

  function Quote(arg: Glyphs): Glyphs { [One('"')] + Escape(arg) + [One('"')] }

  lemma {:induction false} LiteralEnds(before: Glyphs, arg: Glyphs, rest: Glyphs)
    ensures StringEnd(before + (Escape(arg) + ([One('"')] + rest)), |before|) == |before| + |Escape(arg)| + 1
    decreases |arg|
  {
    var s := before + (Escape(arg) + ([One('"')] + rest));
    if arg == [] {
      assert s[|before|] == One('"');
    } else {
      var head := if arg[0] == One('"') || arg[0] == One('\\') then [One('\\'), arg[0]] else [arg[0]];
      assert Escape(arg) == head + Escape(arg[1..]);
      assert s == (before + head) + (Escape(arg[1..]) + ([One('"')] + rest));
      LiteralEnds(before + head, arg[1..], rest);
      assert s[|before|] == head[0];
    }
  }

  /** A quoted and escaped text is one run, whatever it contains and whatever follows. */
  lemma LiteralIsOneRun(lang: Language, arg: Glyphs, rest: Glyphs, classes: Classes)
    ensures var s := Quote(arg) + rest;
            && Runs(lang, s, 0, classes) != []
            && Runs(lang, s, 0, classes)[0].text == Quote(arg)
            && Runs(lang, s, 0, classes)[0].style in {StringText, Key}
  {
    var s := Quote(arg) + rest;
    assert s == [One('"')] + (Escape(arg) + ([One('"')] + rest));
    LiteralEnds([One('"')], arg, rest);
    assert s[0] == One('"') && s[..|Quote(arg)|] == Quote(arg);
  }

  // ---- TOML ------------------------------------------------------------------------------------------

  function IndexOf(s: Glyphs, c: Glyph): (n: nat)
    ensures n <= |s| && c !in s[..n] && (n < |s| ==> s[n] == c)
  {
    if s == [] || s[0] == c then 0
    else
      assert s[..1 + IndexOf(s[1..], c)] == [s[0]] + s[1..][..IndexOf(s[1..], c)];
      1 + IndexOf(s[1..], c)
  }

  /** `trimmed` is the text without surrounding spaces, used only to look at its first character. */
  function TomlRuns(text: Glyphs, trimmed: Glyphs): seq<StyledRun> {
    if [One('#')] <= trimmed then [StyledRun(text, Comment)]
    else if [One('[')] <= trimmed then [StyledRun(text, TypeName)]
    else
      var eq := IndexOf(text, One('='));
      if eq < |text| then
        [StyledRun(text[..eq], Key), StyledRun([One('=')], Punctuation), StyledRun(text[eq + 1..], StringText)]
      else [StyledRun(text, Word)]
  }

  /** The key of a TOML line never contains `=`, and the three pieces are the line. */
  lemma TomlIsLossless(text: Glyphs, trimmed: Glyphs)
    ensures Concat(TomlRuns(text, trimmed)) == text
    ensures |TomlRuns(text, trimmed)| == 3 ==> One('=') !in TomlRuns(text, trimmed)[0].text
  {
    var runs := TomlRuns(text, trimmed);
    if |runs| == 3 {
      assert runs[1..][1..] == [runs[2]] && [runs[2]][1..] == [];
      assert Concat([runs[2]]) == runs[2].text + [] == runs[2].text;
      assert text == text[..IndexOf(text, One('='))] + ([One('=')] + text[IndexOf(text, One('=')) + 1..]);
    } else {
      assert runs[1..] == [] && Concat(runs) == text + [];
    }
  }
}
