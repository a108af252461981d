/** Which words count as secrets, said of their characters. */
module SecretShapes {
  import opened Redaction
  import opened Text

  // ---- The shapes ----------------------------------------------------------------------------------------

  const DIGITS := "0123456789"
  const LOWER := "abcdefghijklmnopqrstuvwxyz"
  const UPPER := "ABCDEFGHIJKLMNOPQRSTUVWXYZ"

  predicate LetterOrDigit(c: char) { c in DIGITS || c in LOWER || c in UPPER }

  predicate Only(s: string, also: string) { forall c :: c in s ==> LetterOrDigit(c) || c in also }

  predicate Without(s: string, chars: string) { forall c :: c in s ==> c !in chars }

  /** What is left of a word without the characters at its ends that are no letter, digit, `_`, `-` or `.`. */
  predicate Core(word: string, before: string, core: string, after: string) {
    && word == before + (core + after)
    && (forall c :: c in before || c in after ==> !LetterOrDigit(c) && c !in "_-.")
    && (core != "" ==> Only([core[0], core[|core| - 1]], "_-."))
  }

  /** A key of one of the known providers. */
  predicate StartsLikeAKey(s: string) {
    || "AKIA" <= s || "ASIA" <= s || "AIza" <= s || "sk-" <= s || "xox" <= s || "glpat-" <= s
    || "github_pat_" <= s || "ghp_" <= s || "gho_" <= s || "ghu_" <= s || "ghs_" <= s || "ghr_" <= s
  }

  predicate IsLongKey(s: string) { Bytes(s) >= 16 && StartsLikeAKey(s) }

  predicate EndsInDelimiter(s: string) { s != "" && (s[|s| - 1] == '=' || s[|s| - 1] == ':') }

  predicate Undelimited(s: string) { '=' !in s && ':' !in s }

  /** What stands behind the last `=` or `:` is a long key. */
  ghost predicate AssignsAKey(s: string) {
    exists name, key :: EndsInDelimiter(name) && Undelimited(key) && s == name + key && IsLongKey(key)
  }

  predicate IsHeader(s: string) { "-----BEGIN" <= s && Contains(s, "PRIVATE KEY") }

  predicate IsTokenPart(part: string) { |part| >= 10 && Only(part, "_-") }

  /** Three long parts with dots between them. */
  ghost predicate IsTriple(s: string) {
    exists a, b, c :: IsTokenPart(a) && IsTokenPart(b) && IsTokenPart(c) && s == a + ("." + (b + ("." + c)))
  }

  /** A long run of token characters with two of digits, capitals and small letters. */
  predicate IsMixedRun(s: string) {
    && |s| >= 32 && Only(s, "+/=_-")
    && (Without(s, DIGITS) ==> !Without(s, UPPER) && !Without(s, LOWER))
    && (Without(s, UPPER) ==> !Without(s, LOWER))
  }

  ghost predicate IsSecret(core: string) {
    && Bytes(core) >= 16
    && (StartsLikeAKey(core) || AssignsAKey(core) || IsHeader(core) || IsTriple(core) || IsMixedRun(core))
  }

  // ---- Characters ----------------------------------------------------------------------------------------

  lemma ClassesAre(c: char)
    ensures IsDigit(c) <==> c in DIGITS
    ensures IsLower(c) <==> c in LOWER
    ensures IsUpper(c) <==> c in UPPER
  {
    DigitsAre(c);
    LowerAre(c);
    UpperAre(c);
  }

  lemma DigitsAre(c: char)
    ensures '0' <= c <= '9' <==> c in DIGITS
  {
    if '0' <= c <= '9' {
      assert DIGITS[c as int - '0' as int] == c;
    }
  }

  lemma LowerAre(c: char)
    ensures 'a' <= c <= 'z' <==> c in LOWER
  {
    if 'a' <= c <= 'z' {
      assert LOWER[c as int - 'a' as int] == c;
    }
  }

  lemma UpperAre(c: char)
    ensures 'A' <= c <= 'Z' <==> c in UPPER
  {
    if 'A' <= c <= 'Z' {
      assert UPPER[c as int - 'A' as int] == c;
    }
  }

  lemma CharactersAre(c: char)
    ensures IsAlphanumeric(c) <==> LetterOrDigit(c)
    ensures IsTokenEdge(c) <==> LetterOrDigit(c) || c in "_-."
    ensures IsSegmentChar(c) <==> LetterOrDigit(c) || c in "_-"
    ensures IsTokenChar(c) <==> LetterOrDigit(c) || c in "+/=_-"
    ensures LetterOrDigit(c) || c in "+/=_-" ==> c < '\U{0080}'
  {
    ClassesAre(c);
  }

  lemma ShortInBytes(s: string)
    requires Only(s, "_-") || Only(s, "+/=_-")
    ensures Bytes(s) == |s|
  {
    forall i | 0 <= i < |s|
      ensures s[i] < '\U{0080}'
    {
      CharactersAre(s[i]);
    }
    BytesAtLeastCharacters(s);
  }

  // ---- The core of a word --------------------------------------------------------------------------------

  predicate NoEdge(s: string) { forall i :: 0 <= i < |s| ==> !IsTokenEdge(s[i]) }

  predicate Trimmed(s: string) { s != "" ==> IsTokenEdge(s[0]) && IsTokenEdge(s[|s| - 1]) }

  lemma CoreIs(word: string, before: string, core: string, after: string)
    ensures Core(word, before, core, after) <==>
            word == before + (core + after) && NoEdge(before) && NoEdge(after) && Trimmed(core)
  {
    forall c
      ensures IsTokenEdge(c) <==> LetterOrDigit(c) || c in "_-."
    {
      CharactersAre(c);
    }
    assert NoEdge(before) <==> forall c :: c in before ==> !IsTokenEdge(c);
    assert NoEdge(after) <==> forall c :: c in after ==> !IsTokenEdge(c);
  }

  lemma {:induction false} FrontIsTrimmed(before: string, rest: string)
    requires NoEdge(before)
    ensures TrimEdges(before + rest) == TrimEdges(rest)
  {
    if before == "" {
      assert before + rest == rest;
    } else {
      assert (before + rest)[1..] == before[1..] + rest;
      FrontIsTrimmed(before[1..], rest);
    }
  }

  lemma {:induction false} BackIsTrimmed(core: string, after: string)
    requires core != "" && Trimmed(core) && NoEdge(after)
    ensures TrimEdges(core + after) == core
    decreases |after|
  {
    if after == "" {
      assert core + after == core;
    } else {
      assert (core + after)[..|core + after| - 1] == core + after[..|after| - 1];
      BackIsTrimmed(core, after[..|after| - 1]);
    }
  }

  lemma CoreIsTrimmed(word: string, before: string, core: string, after: string)
    requires Core(word, before, core, after)
    ensures TrimEdges(word) == core
  {
    CoreIs(word, before, core, after);
    FrontIsTrimmed(before, core + after);
    if core == "" {
      assert after + "" == after && core + after == after;
      FrontIsTrimmed(after, "");
    } else {
      BackIsTrimmed(core, after);
    }
  }

  // ---- Keys ----------------------------------------------------------------------------------------------

  lemma KeysAre(s: string)
    ensures HasKnownPrefix(s) <==> StartsLikeAKey(s)
  {
    if !HasKnownPrefix(s) {
      assert !(KNOWN_PREFIXES[0] <= s) && !(KNOWN_PREFIXES[1] <= s) && !(KNOWN_PREFIXES[2] <= s);
      assert !(KNOWN_PREFIXES[3] <= s) && !(KNOWN_PREFIXES[4] <= s) && !(KNOWN_PREFIXES[5] <= s);
      assert !(KNOWN_PREFIXES[6] <= s) && !(KNOWN_PREFIXES[7] <= s) && !(KNOWN_PREFIXES[8] <= s);
      assert !(KNOWN_PREFIXES[9] <= s) && !(KNOWN_PREFIXES[10] <= s) && !(KNOWN_PREFIXES[11] <= s);
    }
  }

  lemma {:induction false} DelimiterSplits(s: string) returns (name: string)
    ensures s == name + AfterDelimiter(s) && Undelimited(AfterDelimiter(s))
    ensures name == "" || EndsInDelimiter(name)
  {
    if s == "" || EndsInDelimiter(s) {
      name := s;
    } else {
      var init, last := s[..|s| - 1], s[|s| - 1];
      name := DelimiterSplits(init);
      assert s == init + [last] == name + (AfterDelimiter(init) + [last]);
    }
  }

  lemma {:induction false} AssignedIsAfter(name: string, key: string)
    requires EndsInDelimiter(name) && Undelimited(key)
    ensures AfterDelimiter(name + key) == key
    decreases |key|
  {
    if key == "" {
      assert name + key == name;
    } else {
      var init, last := key[..|key| - 1], key[|key| - 1];
      assert key == init + [last] && last in key;
      assert (name + key)[..|name + key| - 1] == name + init && (name + key)[|name + key| - 1] == last;
      AssignedIsAfter(name, init);
    }
  }

  lemma LongKeysAre(s: string)
    ensures IsLongKey(s) <==> Bytes(s) >= 16 && HasKnownPrefix(s)
  {
    KeysAre(s);
  }

  lemma AssignmentsAre(s: string)
    ensures AssignsAKey(s) <==>
            AfterDelimiter(s) != s && Bytes(AfterDelimiter(s)) >= 16 && HasKnownPrefix(AfterDelimiter(s))
  {
    var name := DelimiterSplits(s);
    LongKeysAre(AfterDelimiter(s));
    if AfterDelimiter(s) != s && IsLongKey(AfterDelimiter(s)) {
      assert name != "";
    }
    if front, key :| EndsInDelimiter(front) && Undelimited(key) && s == front + key && IsLongKey(key) {
      AssignedIsAfter(front, key);
    }
  }

  // ---- Triples -------------------------------------------------------------------------------------------

  lemma {:induction false} SegmentsOfPart(part: string)
    requires '.' !in part
    ensures Segments(part) == [part]
  {
    if part != "" {
      SegmentsOfPart(part[1..]);
      assert [part[0]] + part[1..] == part;
    }
  }

  lemma {:induction false} SegmentsSplit(part: string, rest: string)
    requires '.' !in part
    ensures Segments(part + ("." + rest)) == [part] + Segments(rest)
  {
    var s := part + ("." + rest);
    if part == "" {
      assert s[1..] == rest;
    } else {
      assert s[1..] == part[1..] + ("." + rest);
      SegmentsSplit(part[1..], rest);
      assert [part[0]] + part[1..] == part;
      assert ([part[1..]] + Segments(rest))[1..] == Segments(rest);
    }
  }

  /** The first segment ends at the first dot. */
  lemma {:induction false} FirstSegment(s: string) returns (rest: string)
    ensures Segments(s) != []
    ensures if |Segments(s)| == 1 then s == Segments(s)[0]
            else s == Segments(s)[0] + ("." + rest) && Segments(rest) == Segments(s)[1..]
  {
    rest := "";
    if s != "" {
      rest := FirstSegment(s[1..]);
      if s[0] == '.' {
        rest := s[1..];
      }
    }
  }

  lemma PartIs(part: string)
    ensures IsTokenPart(part) <==> Bytes(part) >= 10 && forall c :: c in part ==> IsSegmentChar(c)
    ensures IsTokenPart(part) ==> '.' !in part
  {
    forall c
      ensures IsSegmentChar(c) <==> LetterOrDigit(c) || c in "_-"
    {
      CharactersAre(c);
    }
    if Only(part, "_-") {
      ShortInBytes(part);
    }
  }

  lemma TriplesAre(s: string)
    ensures IsTriple(s) <==> HasTokenShape(s)
  {
    if HasTokenShape(s) {
      var parts := Segments(s);
      var later := FirstSegment(s);
      var last := FirstSegment(later);
      var none := FirstSegment(last);
      PartIs(parts[0]);
      PartIs(parts[1]);
      PartIs(parts[2]);
      assert s == parts[0] + ("." + (parts[1] + ("." + parts[2])));
    }
    if a, b, c :| IsTokenPart(a) && IsTokenPart(b) && IsTokenPart(c) && s == a + ("." + (b + ("." + c))) {
      PartIs(a);
      PartIs(b);
      PartIs(c);
      SegmentsSplit(a, b + ("." + c));
      SegmentsSplit(b, c);
      SegmentsOfPart(c);
      assert Segments(s) == [a, b, c];
    }
  }

  // ---- Runs ----------------------------------------------------------------------------------------------

  lemma RunsAre(s: string)
    ensures IsMixedRun(s) <==> IsHighEntropy(s)
  {
    forall c
      ensures IsTokenChar(c) <==> LetterOrDigit(c) || c in "+/=_-"
      ensures IsDigit(c) <==> c in DIGITS
      ensures IsLower(c) <==> c in LOWER
      ensures IsUpper(c) <==> c in UPPER
    {
      CharactersAre(c);
      ClassesAre(c);
    }
    if Only(s, "+/=_-") {
      ShortInBytes(s);
    }
  }

  /**
   A word counts as a secret exactly if its core has sixteen bytes or more and is a provider's key,
   assigns one, is a key header, three dotted token parts, or one long mixed run.
   */
  lemma SecretIff(word: string, before: string, core: string, after: string)
    requires Core(word, before, core, after)
    ensures LooksSecret(word) <==> IsSecret(core)
  {
    CoreIsTrimmed(word, before, core, after);
    KeysAre(core);
    AssignmentsAre(core);
    TriplesAre(core);
    RunsAre(core);
  }

  /** Every word has a core. */
  lemma CoreExists(word: string) returns (before: string, core: string, after: string)
    ensures Core(word, before, core, after)
  {
    before, core, after := Split(word);
    CoreIs(word, before, core, after);
  }

  lemma {:induction false} Split(word: string) returns (before: string, core: string, after: string)
    ensures word == before + (core + after) && NoEdge(before) && NoEdge(after) && Trimmed(core)
    decreases |word|
  {
    before, core, after := "", word, "";
    if word != "" && !IsTokenEdge(word[0]) {
      before, core, after := Split(word[1..]);
      before := [word[0]] + before;
    } else if word != "" && !IsTokenEdge(word[|word| - 1]) {
      before, core, after := Split(word[..|word| - 1]);
      after := after + [word[|word| - 1]];
    }
  }
}
