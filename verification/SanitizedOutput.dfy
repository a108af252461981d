/**
 What is left of redaction when the redacted output is then truncated.

 Truncation may cut a word, and a piece of a harmless word can have the shape of a secret; it also
 adds a notice of its own.  The lemmas say exactly when the sanitised text is clean.
 */
module SanitizedOutput {
  import opened JsonValues
  import opened LineMapping
  import opened RedactedText
  import opened Redaction
  import opened Text
  import Utf8
  import opened WordMasking

  /** `sanitize_output` */
  function Sanitized(raw: string, max: nat): string { Utf8.Truncated(Redact(raw), max) }

  function Kept(text: string, max: nat): string { text[..Utf8.Fitting(text, max)] }

  predicate Fits(text: string, max: nat) { max == 0 || Bytes(text) <= max }

  /** What stands behind the last whitespace. */
  function LastWord(s: string): string {
    if s == "" || IsWhitespace(s[|s| - 1]) then "" else LastWord(s[..|s| - 1]) + [s[|s| - 1]]
  }

  predicate WordMayStart(before: string) { before == "" || IsWhitespace(before[|before| - 1]) }

  lemma {:induction false} LastWordSplits(s: string) returns (before: string)
    ensures s == before + LastWord(s) && Solid(LastWord(s)) && WordMayStart(before)
  {
    if s == "" || IsWhitespace(s[|s| - 1]) {
      before := s;
    } else {
      before := LastWordSplits(s[..|s| - 1]);
      assert s == s[..|s| - 1] + [s[|s| - 1]];
    }
  }

  lemma {:induction false} LastWordBehindSpace(before: string, space: char, s: string)
    requires IsWhitespace(space)
    ensures LastWord(before + [space] + s) == LastWord(s)
    decreases |s|
  {
    var t := before + [space] + s;
    if s == "" {
      assert t[|t| - 1] == space;
    } else {
      assert t[..|t| - 1] == before + [space] + s[..|s| - 1];
      LastWordBehindSpace(before, space, s[..|s| - 1]);
    }
  }

  predicate WordsSplit(before: string, rest: string) { Words(before + rest) == Words(before) + Words(rest) }

  lemma SpaceInFront(space: char, before: string, rest: string)
    requires IsWhitespace(space) && WordsSplit(before, rest)
    ensures WordsSplit([space] + before, rest)
  {
    assert ([space] + before) + rest == [space] + (before + rest);
    SpaceThen(space, before);
    SpaceThen(space, before + rest);
  }

  lemma WordInFront(word: string, before: string, rest: string)
    requires word != "" && Solid(word) && before != "" && IsWhitespace(before[0]) && WordsSplit(before, rest)
    ensures WordsSplit(word + before, rest)
  {
    assert (word + before) + rest == word + (before + rest);
    FirstWord(word, before);
    FirstWord(word, before + rest);
  }

  lemma {:induction false} WordsAppend(before: string, rest: string)
    requires WordMayStart(before)
    ensures WordsSplit(before, rest)
    decreases |before|
  {
    if before == "" {
      assert before + rest == rest;
    } else if IsWhitespace(before[0]) {
      assert before == [before[0]] + before[1..];
      WordsAppend(before[1..], rest);
      SpaceInFront(before[0], before[1..], rest);
    } else {
      var word, tail := FirstPiece(before);
      assert tail != "" && tail[|tail| - 1] == before[|before| - 1];
      WordsAppend(tail, rest);
      WordInFront(word, tail, rest);
    }
  }

  // ---- Cutting a clean line ----------------------------------------------------------------------------

  lemma WordsOfParts(start: string, word: string, rest: string)
    requires WordMayStart(start) && Solid(word)
    ensures Words(start + word) == Words(start) + if word == "" then [] else [word]
    ensures forall w :: w in Words(start) ==> w in Words(start + (word + rest))
  {
    WordsAppend(start, word);
    WordsAppend(start, word + rest);
    if word != "" {
      OneWord(word);
    }
  }

  lemma WordsOfPrefix(line: string, n: nat) returns (before: seq<string>)
    requires n <= |line|
    ensures forall word :: word in before ==> word in Words(line)
    ensures Words(line[..n]) == before + if LastWord(line[..n]) == "" then [] else [LastWord(line[..n])]
  {
    var start := LastWordSplits(line[..n]);
    var word := LastWord(line[..n]);
    before := Words(start);
    WordsOfParts(start, word, line[n..]);
    assert line == line[..n] + line[n..] == start + (word + line[n..]);
  }

  /** A piece from the start of a clean line is clean unless it ends in a secret-shaped piece of a word. */
  lemma PrefixCleanIff(line: string, n: nat)
    requires Clean(line) && n <= |line|
    ensures Clean(line[..n]) <==> !LooksSecret(LastWord(line[..n]))
  {
    var before := WordsOfPrefix(line, n);
    assert line == line[..n] + line[n..];
    LabelGrows(line[..n], line[n..]);
    MaskIsNoSecret();
    var word := LastWord(line[..n]);
    assert word != "" ==> word in Words(line[..n]);
  }

  lemma DroppingReturnKeepsCleanIff(line: string)
    ensures Clean(DropCarriageReturn(line)) <==> Clean(line)
  {
    var shorter := DropCarriageReturn(line);
    if Clean(line) {
      DroppingReturnKeepsClean(line);
    } else if shorter != line {
      assert line == shorter + ['\r'] == shorter + (['\r'] + "");
      WordsIgnoreEnd(shorter, '\r');
      EmptyLineIsUnlabelled();
      if !Labelled(shorter) {
        LabelSplits(shorter, '\r', "");
      }
    }
  }

  // ---- Cutting a clean text ----------------------------------------------------------------------------

  predicate CleanText(s: string) { AllClean(Lines(s)) }

  lemma AllCleanAppend(a: seq<string>, b: seq<string>)
    ensures AllClean(a + b) <==> AllClean(a) && AllClean(b)
  {
    assert forall k :: 0 <= k < |a| ==> (a + b)[k] == a[k];
    assert forall k :: 0 <= k < |b| ==> (a + b)[|a| + k] == b[k];
  }

  lemma CleanLineThen(line: string, rest: string)
    requires '\n' !in line
    ensures CleanText(line + ("\n" + rest)) <==> Clean(line) && CleanText(rest)
  {
    LineThen(line, rest);
    AllCleanAppend([DropCarriageReturn(line)], Lines(rest));
    DroppingReturnKeepsCleanIff(line);
    assert [DropCarriageReturn(line)][0] == DropCarriageReturn(line);
  }

  lemma CleanLastLine(line: string)
    requires '\n' !in line
    ensures CleanText(line) <==> Clean(line)
  {
    if line == "" {
      EmptyLineIsUnlabelled();
    } else {
      LineLengthIs(line, "");
      assert line + "" == line;
      assert Lines(line) == [line] && [line][0] == line;
    }
  }

  lemma CleanBehindLine(line: string, cut: string, rest: string)
    requires '\n' !in line
    ensures CleanText((line + ("\n" + cut)) + ("\n" + rest)) <==> Clean(line) && CleanText(cut + ("\n" + rest))
  {
    assert (line + ("\n" + cut)) + ("\n" + rest) == line + ("\n" + (cut + ("\n" + rest)));
    CleanLineThen(line, cut + ("\n" + rest));
  }

  /** Whatever stands before it, an unclean text stays unclean. */
  lemma {:induction false} DirtyEnd(before: string, rest: string)
    requires !CleanText(rest)
    ensures !CleanText(before + ("\n" + rest))
    decreases |before|
  {
    var m := LineLength(before);
    if m == |before| {
      assert before[..m] == before;
      CleanLineThen(before, rest);
    } else {
      var line, after := before[..m], before[m + 1..];
      assert before == line + ("\n" + after);
      DirtyEnd(after, rest);
      CleanBehindLine(line, after, rest);
    }
  }

  lemma FirstLineOf(s: string) returns (line: string, after: string)
    requires CleanText(s)
    ensures '\n' !in line && Clean(line) && CleanText(after)
    ensures if |s| == |line| then s == line && after == "" else s == line + ("\n" + after)
  {
    var m := LineLength(s);
    line, after := s[..m], "";
    if m == |s| {
      assert line == s;
      CleanLastLine(line);
      CleanLastLine("");
      EmptyLineIsUnlabelled();
    } else {
      after := s[m + 1..];
      assert s == line + ("\n" + after);
      CleanLineThen(line, after);
    }
  }

  lemma CutInLine(line: string, n: nat, rest: string)
    requires '\n' !in line && Clean(line) && n <= |line| && CleanText(rest)
    ensures CleanText(line[..n] + ("\n" + rest)) <==> !LooksSecret(LastWord(line[..n]))
  {
    PrefixCleanIff(line, n);
    CleanLineThen(line[..n], rest);
  }

  lemma CutBehindLine(line: string, cut: string, rest: string)
    requires '\n' !in line && Clean(line)
    ensures LastWord(line + ("\n" + cut)) == LastWord(cut)
    ensures CleanText((line + ("\n" + cut)) + ("\n" + rest)) <==> CleanText(cut + ("\n" + rest))
  {
    CleanBehindLine(line, cut, rest);
    assert line + ("\n" + cut) == line + ['\n'] + cut;
    LastWordBehindSpace(line, '\n', cut);
  }

  /** A clean text cut anywhere, with clean text on a new line behind it: only the word at the cut counts. */
  lemma {:induction false} CutCleanIff(s: string, n: nat, rest: string)
    requires CleanText(s) && n <= |s| && CleanText(rest)
    ensures CleanText(s[..n] + ("\n" + rest)) <==> !LooksSecret(LastWord(s[..n]))
    decreases |s|
  {
    var line, after := FirstLineOf(s);
    if n <= |line| {
      assert s[..n] == line[..n];
      CutInLine(line, n, rest);
    } else {
      var k := n - |line| - 1;
      assert s[..n] == line + ("\n" + after[..k]);
      CutBehindLine(line, after[..k], rest);
      CutCleanIff(after, k, rest);
    }
  }

  // ---- The notice -----------------------------------------------------------------------------------------

  predicate Digits(s: string) { s != "" && forall i :: 0 <= i < |s| ==> IsDigit(s[i]) }

  lemma {:induction false} DecimalIsDigits(n: nat)
    ensures Digits(Decimal(n))
  {
    if n >= 10 {
      DecimalIsDigits(n / 10);
    }
  }

  function Pow10(k: nat): nat { if k == 0 then 1 else 10 * Pow10(k - 1) }

  lemma {:induction false} DecimalLength(n: nat, k: nat)
    requires k > 0
    ensures |Decimal(n)| <= k <==> n < Pow10(k)
  {
    if k == 1 {
      assert Pow10(1) == 10;
      DecimalIsDigits(n / 10);
    } else if n >= 10 {
      DecimalLength(n / 10, k - 1);
    } else {
      PowGrows(k);
    }
  }

  lemma {:induction false} PowGrows(k: nat)
    requires k > 0
    ensures Pow10(k) >= 10
  {
    if k > 1 {
      PowGrows(k - 1);
    }
  }

  const SETTING := "max_output_bytes="

  lemma {:induction false} OneSegment(s: string)
    requires '.' !in s
    ensures |Segments(s)| == 1
  {
    if s != "" {
      OneSegment(s[1..]);
    }
  }

  lemma PrefixesStartWith(s: string, c: char)
    requires s != "" && s[0] == c && c !in ['A', 'g', 's', 'x']
    ensures !HasKnownPrefix(s)
  {
    assert forall k :: 0 <= k < |KNOWN_PREFIXES| ==>
        KNOWN_PREFIXES[k] != "" && KNOWN_PREFIXES[k][0] in ['A', 'g', 's', 'x'];
  }

  lemma SettingCharacters(s: string)
    requires s == "max_output_bytes="
    ensures forall i :: 0 <= i < |s| ==> IsTokenChar(s[i]) && s[i] != '.' && s[i] <= '~'
    ensures forall i :: 0 <= i < |s| ==> ToLower(s[i]) != 'k' && ToLower(s[i]) != 'r'
    ensures |s| == 17 && s[0] == 'm' && s[16] == '='
  {
  }

  lemma TrimOneEdge(s: string, edge: char)
    requires s != "" && IsTokenEdge(s[0]) && IsTokenEdge(s[|s| - 1]) && !IsTokenEdge(edge)
    ensures TrimEdges(s + [edge]) == s
  {
    assert (s + [edge])[..|s|] == s;
    assert TrimEdges(s) == s;
  }

  /** Token characters without a dot and without a known key are secret-shaped by their mixture only. */
  lemma MixtureDecides(word: string, s: string)
    requires s == TrimEdges(word) && |s| >= 16 && s[0] != '-' && '.' !in s
    requires !HasKnownPrefix(s) && !HasKnownPrefix(AfterDelimiter(s))
    ensures LooksSecret(word) <==> IsHighEntropy(s)
  {
    BytesAtLeastCharacters(s);
    OneSegment(s);
    assert "-----BEGIN"[0] == '-';
  }

  lemma SettingIsMixed(s: string)
    requires |s| > 17 && s[..17] == SETTING && Digits(s[17..])
    ensures '.' !in s && (IsHighEntropy(s) <==> |s| >= 32)
  {
    SettingCharacters(SETTING);
    forall i | 0 <= i < |s|
      ensures IsTokenChar(s[i]) && s[i] != '.' && s[i] <= '~'
    {
      assert s[i] == if i < 17 then s[..17][i] else s[17..][i - 17];
    }
    BytesAtLeastCharacters(s);
    assert s[0] == s[..17][0] && s[17] == s[17..][0];
    assert s[0] in s && IsLower(s[0]) && s[17] in s && IsDigit(s[17]);
  }

  /** The setting with a number behind it is secret-shaped when there are fifteen digits. */
  lemma SettingIsSecretIff(digits: string)
    requires Digits(digits)
    ensures LooksSecret(SETTING + digits + "]") <==> |digits| >= 15
  {
    var s := SETTING + digits;
    SettingCharacters(SETTING);
    assert s[..17] == SETTING && s[17..] == digits && s[|s| - 1] == digits[|digits| - 1];
    TrimOneEdge(s, ']');
    SettingIsMixed(s);
    PrefixesStartWith(s, 'm');
    AfterDelimiterIs(SETTING, digits);
    PrefixesStartWith(digits, digits[0]);
    MixtureDecides(s + "]", s);
  }

  lemma NoLabelWithoutKR(lower: string)
    requires 'k' !in lower && 'r' !in lower
    ensures !HasLabel(lower)
  {
    MissingCharacter(lower, "api_key", 4);
    MissingCharacter(lower, "api-key", 4);
    MissingCharacter(lower, "apikey", 3);
    MissingCharacter(lower, "token", 2);
    MissingCharacter(lower, "secret", 3);
    MissingCharacter(lower, "password", 6);
    MissingCharacter(lower, "authorization", 5);
  }

  lemma SettingWord(word: string, digits: string)
    requires Digits(digits) && word == SETTING + digits + "]"
    ensures !Labelled(word) && Solid(word) && word != ""
  {
    SettingCharacters(SETTING);
    forall i | 0 <= i < |word|
      ensures ToLower(word[i]) != 'k' && ToLower(word[i]) != 'r' && !IsWhitespace(word[i])
    {
      assert word[i] == if i < 17 then SETTING[i] else if i < |word| - 1 then digits[i - 17] else ']';
    }
    NoLabelWithoutKR(Lower(word));
  }

  lemma NoticeWords(first: string, second: string, third: string)
    requires first == "[truncated" && second == "by" && third == "ToolGateway:"
    ensures ShortAscii(first) && ShortAscii(second) && ShortAscii(third)
    ensures !Labelled(first) && !Labelled(second) && !Labelled(third)
  {
    assert Lower(first) == "[truncated" && Lower(second) == "by" && Lower(third) == "toolgateway:";
    NoLabelWithout(Lower(first), 'k');
    NoLabelWithout(Lower(second), 'k');
    NoLabelWithoutKR(Lower(third));
  }

  lemma ShortWordInFront(word: string, line: string)
    requires ShortAscii(word) && !Labelled(word)
    ensures Clean(line) ==> Clean(word + ([' '] + line))
    ensures HasSecret(line) ==> HasSecret(word + ([' '] + line))
  {
    ShortAsciiWord(word);
    SpacedWord(word, ' ', line);
    TrimmingSavesBytes(word);
    if Clean(line) {
      LabelSplits(word, ' ', line);
    }
    assert forall w :: w in Words(line) ==> w in Words(word + ([' '] + line));
  }

  lemma NoticeLineIs(max: nat)
    ensures Utf8.NoticeLine(max)
         == "[truncated" + ([' '] + ("by" + ([' '] + ("ToolGateway:" + ([' '] + (SETTING + Decimal(max) + "]"))))))
  {
    assert [' '] + "by" == " by" && [' '] + "ToolGateway:" == " ToolGateway:";
    assert [' '] + SETTING == " max_output_bytes=";
    SpaceJoins(SETTING + Decimal(max), "]");
    SpaceJoins(SETTING, Decimal(max));
    var setting := " max_output_bytes=" + Decimal(max) + "]";
    SpaceJoins("ToolGateway:", setting);
    SpaceJoins("by", " ToolGateway:" + setting);
  }

  lemma SpaceJoins(word: string, rest: string)
    ensures [' '] + (word + rest) == ([' '] + word) + rest
  {
  }

  /** The notice is clean for every limit of fewer than fifteen digits. */
  lemma NoticeCleanIff(max: nat)
    ensures '\n' !in Utf8.NoticeLine(max)
    ensures Clean(Utf8.NoticeLine(max)) <==> max < Pow10(14)
  {
    DecimalLength(max, 14);
    NoticeIsItsDigits(max);
  }

  lemma NoticeIsItsDigits(max: nat)
    ensures '\n' !in Utf8.NoticeLine(max)
    ensures Clean(Utf8.NoticeLine(max)) <==> |Decimal(max)| < 15
  {
    var word := SETTING + Decimal(max) + "]";
    DecimalIsDigits(max);
    SettingWord(word, Decimal(max));
    SettingIsSecretIff(Decimal(max));
    OneWord(word);
    assert HasSecret(word) <==> LooksSecret(word) by { assert word in [word]; }
    NoticeWords("[truncated", "by", "ToolGateway:");
    var gateway := "ToolGateway:" + ([' '] + word);
    ShortWordInFront("ToolGateway:", word);
    ShortWordInFront("by", gateway);
    ShortWordInFront("[truncated", "by" + ([' '] + gateway));
    NoticeLineIs(max);
  }

  // ---- The sanitised output ---------------------------------------------------------------------------

  /**
   The sanitised output is clean exactly when nothing was cut off, or the word at the cut is not
   secret-shaped and the limit in the notice is below a hundred million million.
   */
  lemma SanitizedCleanIff(raw: string, max: nat)
    ensures var text := Redact(raw);
            CleanText(Sanitized(raw, max)) <==>
            Fits(text, max) || (!LooksSecret(LastWord(Kept(text, max))) && max < Pow10(14))
  {
    var text := Redact(raw);
    RedactedTextIsClean(raw);
    if !Fits(text, max) {
      var notice := Utf8.NoticeLine(max);
      NoticeCleanIff(max);
      CleanLastLine(notice);
      assert Sanitized(raw, max) == Kept(text, max) + ("\n" + notice);
      if Clean(notice) {
        CutCleanIff(text, Utf8.Fitting(text, max), notice);
      } else {
        DirtyEnd(Kept(text, max), notice);
      }
    }
  }

  // ---- A cut that makes a secret ------------------------------------------------------------------------

  /** A letter and digits: the shape of a random key. */
  function Mixed(n: nat): string { seq(n, i => if i == 0 then 'a' else '1') }

  lemma MixedIsAscii(n: nat, rest: string)
    requires n > 0 && forall i :: 0 <= i < |rest| ==> '!' <= rest[i] <= '~'
    ensures Bytes(Mixed(n) + rest) == n + |rest| && Solid(Mixed(n) + rest)
    ensures !HasKnownPrefix(Mixed(n) + rest)
  {
    BytesAtLeastCharacters(Mixed(n) + rest);
    PrefixesStartWith(Mixed(n) + rest, 'a');
  }

  lemma {:induction false} NoDelimiter(s: string)
    requires '=' !in s && ':' !in s
    ensures AfterDelimiter(s) == s
  {
    if s != "" {
      NoDelimiter(s[..|s| - 1]);
      assert s == s[..|s| - 1] + [s[|s| - 1]];
    }
  }

  lemma MarkedCharacters(word: string)
    requires word == Mixed(32) + "!b"
    ensures |word| == 34 && word[0] == 'a' && word[32] == '!' && word[33] == 'b'
    ensures forall i :: 0 <= i < |word| ==> word[i] == 'a' || word[i] == '1' || word[i] == '!' || word[i] == 'b'
  {
  }

  /** The exclamation mark keeps the whole word from being mixed token characters. */
  lemma MarkedIsNoSecret(word: string)
    requires word == Mixed(32) + "!b"
    ensures !LooksSecret(word) && Solid(word)
  {
    MarkedCharacters(word);
    MixedIsAscii(32, "!b");
    NoDelimiter(word);
    assert TrimEdges(word) == word;
    assert word[32] in word && !IsTokenChar('!');
    MixtureDecides(word, word);
  }

  lemma MarkedIsHarmless(word: string)
    requires word == Mixed(32) + "!b"
    ensures Clean(word) && Solid(word) && word != ""
  {
    MarkedCharacters(word);
    assert Lower(word) == word;
    NoLabelWithout(word, 'k');
    MarkedIsNoSecret(word);
    OneWord(word);
  }

  lemma MixedIsSecret(key: string)
    requires key == Mixed(32)
    ensures LooksSecret(key)
  {
    assert key + "" == key;
    MixedIsAscii(32, "");
    assert TrimEdges(key) == key && key[0] in key && key[1] in key;
    NoDelimiter(key);
    MixtureDecides(key, key);
  }

  lemma {:induction false} SolidIsLastWord(word: string)
    requires Solid(word)
    ensures LastWord(word) == word
  {
    if word != "" {
      SolidIsLastWord(word[..|word| - 1]);
      assert word == word[..|word| - 1] + [word[|word| - 1]];
    }
  }

  lemma AsciiFitting(text: string, max: nat)
    requires max <= |text| && forall i :: 0 <= i < |text| ==> text[i] < '\U{0080}'
    ensures Utf8.Fitting(text, max) == max
  {
    Utf8.FittingIsLongest(text, max);
    BytesAtLeastCharacters(text[..max]);
    BytesAtLeastCharacters(text[..Utf8.Fitting(text, max)]);
  }

  lemma OneCleanLine(line: string)
    requires Clean(line) && Solid(line) && line != ""
    ensures Redact(line) == line && CleanText(line)
  {
    SolidHasNoNewline(line);
    CleanLastLine(line);
    LineLengthIs(line, "");
    assert line + "" == line && Lines(line) == [line];
    CleanLinesStay([line]);
  }

  /** Clean output that truncation spoils: the cut leaves the mixed part of a word on its own. */
  lemma CutCanRevealSecret(raw: string)
    requires raw == Mixed(32) + "!b"
    ensures Redact(raw) == raw && CleanText(raw) && !CleanText(Sanitized(raw, 32))
  {
    MarkedIsHarmless(raw);
    OneCleanLine(raw);
    MarkedCharacters(raw);
    AsciiFitting(raw, 32);
    assert Kept(raw, 32) == Mixed(32);
    MixedIsAscii(32, "!b");
    MixedIsSecret(Mixed(32));
    SolidIsLastWord(Mixed(32));
    SanitizedCleanIff(raw, 32);
  }
}
