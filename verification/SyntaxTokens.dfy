/** Which piece of a line gets which style, said of the characters alone. */
module SyntaxTokens {
  import opened SyntaxLexer

  /** Nothing but such characters from `i` to `end`, and no further one behind. */
  predicate Stretch(s: Glyphs, i: nat, end: nat, inside: Glyph -> bool) {
    i <= end <= |s| && (forall k :: i <= k < end ==> inside(s[k])) && (end < |s| ==> !inside(s[end]))
  }

  /** A string runs to its first closing quote, else to the end of the line, and an escape there one further. */
  predicate StringReads(s: Glyphs, from: nat, end: nat)
    requires from <= |s|
  {
    if exists k :: from <= k < |s| && ClosesAt(s, from, k)
    then from < end <= |s| && ClosesAt(s, from, end - 1) && forall k :: from <= k < end - 1 ==> !ClosesAt(s, from, k)
    else end == |s| + Backslashes(s, from, |s|) % 2
  }

  predicate IsComment(s: Glyphs, i: nat) { i + 1 < |s| && s[i] == One('/') && s[i + 1] == One('/') }

  predicate StartsWord(c: Glyph, classes: Classes) { classes.isLetter(c) || c == One('_') }

  /** A keyword, else a capitalised name, else a call, else a plain word. */
  predicate WordReads(s: Glyphs, i: nat, end: nat, style: Style, classes: Classes)
    requires i < end <= |s|
  {
    var calls := end < |s| && s[end] == One('(');
    match style
    case Keyword => classes.isKeyword(s[i..end])
    case TypeName => !classes.isKeyword(s[i..end]) && classes.isUppercase(s[i])
    case Call => !classes.isKeyword(s[i..end]) && !classes.isUppercase(s[i]) && calls
    case Word => !classes.isKeyword(s[i..end]) && !classes.isUppercase(s[i]) && !calls
    case _ => false
  }

  /** How source code reads from `i`: a comment, a string, a number, a word, or one other character. */
  predicate CodeReads(s: Glyphs, i: nat, end: nat, style: Style, classes: Classes)
    requires i < |s|
  {
    var c := s[i];
    if IsComment(s, i) then style == Comment && end == |s|
    else if c == One('"') then style == StringText && StringReads(s, i + 1, end)
    else if classes.isNumber(c) then
      style == Number && Stretch(s, i, end, (d: Glyph) => classes.isNumber(d) || d == One('.') || d == One('_'))
    else if StartsWord(c, classes) then
      i < end && Stretch(s, i, end, (d: Glyph) => classes.isLetter(d) || classes.isNumber(d) || d == One('_'))
      && WordReads(s, i, end, style, classes)
    else style == Punctuation && end == i + 1
  }

  /** A string with only spaces between it and a colon. */
  predicate BeforeColon(s: Glyphs, end: nat) {
    exists k :: end <= k < |s| && s[k] == One(':') && forall j :: end <= j < k ==> s[j] == One(' ')
  }

  predicate StartsNumber(s: Glyphs, i: nat, classes: Classes)
    requires i < |s|
  {
    classes.isNumber(s[i]) || (s[i] == One('-') && i + 1 < |s| && classes.isNumber(s[i + 1]))
  }

  /** How JSON reads from `i`: a key or a string, a number with its sign, a literal, or one other character. */
  predicate JsonReads(s: Glyphs, i: nat, end: nat, style: Style, classes: Classes)
    requires i < |s|
  {
    var c := s[i];
    if c == One('"') then StringReads(s, i + 1, end) && style == if BeforeColon(s, end) then Key else StringText
    else if StartsNumber(s, i, classes) then
      style == Number && i < end && Stretch(s, i + 1, end, (d: Glyph) => classes.isNumber(d) || d == One('.'))
    else if classes.isLetter(c) then style == Literal && Stretch(s, i, end, classes.isLetter)
    else style == Punctuation && end == i + 1
  }

  predicate Reads(lang: Language, s: Glyphs, i: nat, end: nat, style: Style, classes: Classes)
    requires i < |s|
  {
    if lang == SourceCode then CodeReads(s, i, end, style, classes) else JsonReads(s, i, end, style, classes)
  }

  // ---- The tokens read so --------------------------------------------------------------------------------

  lemma {:induction false} SpanIsStretch(s: Glyphs, i: nat, inside: Glyph -> bool)
    requires i <= |s|
    ensures Stretch(s, i, SpanEnd(s, i, inside), inside)
    decreases |s| - i
  {
    if i < |s| && inside(s[i]) {
      SpanIsStretch(s, i + 1, inside);
    }
  }

  lemma SameStretch(s: Glyphs, i: nat, end: nat, inside: Glyph -> bool, also: Glyph -> bool)
    requires Stretch(s, i, end, inside) && forall c :: inside(c) <==> also(c)
    ensures Stretch(s, i, end, also)
  {
  }

  lemma StringEndReads(s: Glyphs, from: nat)
    requires from <= |s|
    ensures StringReads(s, from, StringEnd(s, from))
  {
    StringEndIs(s, from);
  }

  lemma KeyIsBeforeColon(s: Glyphs, end: nat)
    ensures IsKey(s, end) <==> BeforeColon(s, end)
  {
    if end <= |s| {
      SpanIsStretch(s, end, IsSpace());
      var after := SpanEnd(s, end, IsSpace());
      if k :| end <= k < |s| && s[k] == One(':') && forall j :: end <= j < k ==> s[j] == One(' ') {
        assert after == k;
      }
    }
  }

  lemma CodeTokenReads(s: Glyphs, i: nat, classes: Classes)
    requires i < |s|
    ensures CodeReads(s, i, CodeToken(s, i, classes).end, CodeToken(s, i, classes).style, classes)
  {
    StringEndReads(s, i + 1);
    if classes.isNumber(s[i]) {
      SpanIsStretch(s, i, IsNumberPart(classes));
      SameStretch(s, i, SpanEnd(s, i, IsNumberPart(classes)), IsNumberPart(classes),
                  (d: Glyph) => classes.isNumber(d) || d == One('.') || d == One('_'));
    } else if StartsWord(s[i], classes) {
      SpanIsStretch(s, i, IsWordPart(classes));
      SameStretch(s, i, SpanEnd(s, i, IsWordPart(classes)), IsWordPart(classes),
                  (d: Glyph) => classes.isLetter(d) || classes.isNumber(d) || d == One('_'));
    }
  }

  lemma JsonTokenReads(s: Glyphs, i: nat, classes: Classes)
    requires i < |s|
    ensures JsonReads(s, i, JsonToken(s, i, classes).end, JsonToken(s, i, classes).style, classes)
  {
    StringEndReads(s, i + 1);
    KeyIsBeforeColon(s, StringEnd(s, i + 1));
    if StartsNumber(s, i, classes) {
      SpanIsStretch(s, i + 1, IsDecimalPart(classes));
      SameStretch(s, i + 1, SpanEnd(s, i + 1, IsDecimalPart(classes)), IsDecimalPart(classes),
                  (d: Glyph) => classes.isNumber(d) || d == One('.'));
    } else if classes.isLetter(s[i]) {
      SpanIsStretch(s, i, classes.isLetter);
    }
  }

  // ---- Whole lines ---------------------------------------------------------------------------------------

  /** The runs are cut at these positions, and each reads so from its own. */
  ghost predicate CutAt(lang: Language, s: Glyphs, runs: seq<StyledRun>, cuts: seq<nat>, classes: Classes) {
    && |cuts| == |runs| + 1 && cuts[|runs|] >= |s|
    && forall k :: 0 <= k < |runs| ==>
         && cuts[k] < |s| && cuts[k] < cuts[k + 1] && Reads(lang, s, cuts[k], cuts[k + 1], runs[k].style, classes)
         && runs[k].text == if cuts[k + 1] <= |s| then s[cuts[k]..cuts[k + 1]] else s[cuts[k]..]
  }

  /** Every run of a line, from any position, is the piece its style stands for. */
  lemma {:induction false} RunsReadTheLine(lang: Language, s: Glyphs, i: nat, classes: Classes) returns (cuts: seq<nat>)
    requires i <= |s| + 1
    ensures CutAt(lang, s, Runs(lang, s, i, classes), cuts, classes) && cuts[0] == i
    decreases |s| + 1 - i
  {
    cuts := [i];
    if i < |s| {
      var t := NextToken(lang, s, i, classes);
      CodeTokenReads(s, i, classes);
      JsonTokenReads(s, i, classes);
      var rest := RunsReadTheLine(lang, s, t.end, classes);
      cuts := [i] + rest;
      CutsGrow(lang, s, i, rest, classes);
    }
  }

  lemma CutsGrow(lang: Language, s: Glyphs, i: nat, rest: seq<nat>, classes: Classes)
    requires i < |s| && rest != []
    requires var t := NextToken(lang, s, i, classes);
             && Reads(lang, s, i, t.end, t.style, classes)
             && CutAt(lang, s, Runs(lang, s, t.end, classes), rest, classes) && rest[0] == t.end
    ensures CutAt(lang, s, Runs(lang, s, i, classes), [i] + rest, classes)
  {
    var t, cuts := NextToken(lang, s, i, classes), [i] + rest;
    var runs, later := Runs(lang, s, i, classes), Runs(lang, s, t.end, classes);
    assert runs == [StyledRun(Clip(s, i, t.end), t.style)] + later;
    forall k | 0 < k < |runs|
      ensures runs[k] == later[k - 1] && cuts[k] == rest[k - 1] && cuts[k + 1] == rest[k]
    {
    }
  }

  /** A comment line, a table header, a key with its value, or plain text. */
  lemma TomlReads(text: Glyphs, trimmed: Glyphs)
    ensures var runs := TomlRuns(text, trimmed);
            if trimmed != [] && trimmed[0] == One('#') then runs == [StyledRun(text, Comment)]
            else if trimmed != [] && trimmed[0] == One('[') then runs == [StyledRun(text, TypeName)]
            else if One('=') !in text then runs == [StyledRun(text, Word)]
            else
              && |runs| == 3 && runs[0].style == Key && runs[2].style == StringText
              && runs[1] == StyledRun([One('=')], Punctuation) && One('=') !in runs[0].text
              && runs[0].text + ([One('=')] + runs[2].text) == text
  {
    if One('=') in text {
      var n := IndexOf(text, One('='));
      assert n < |text| by {
        assert text[..|text|] == text;
      }
      assert text == text[..n] + ([One('=')] + text[n + 1..]);
    }
  }
}
