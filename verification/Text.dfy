/** Whitespace, trimming and joining of strings, as the Rust standard library does them. */
module Text {
  /** The characters with the Unicode property White_Space. */
  predicate IsWhitespace(c: char) {
    || '\U{0009}' <= c <= '\U{000D}' || c == ' '
    || c == '\U{0085}' || c == '\U{00A0}' || c == '\U{1680}'
    || '\U{2000}' <= c <= '\U{200A}'
    || c == '\U{2028}' || c == '\U{2029}' || c == '\U{202F}' || c == '\U{205F}' || c == '\U{3000}'
  }

  /** The twenty-five characters with the Unicode property White_Space. */
  const WHITE_SPACE :=
    "\t\n\U{000B}\U{000C}\r \U{0085}\U{00A0}\U{1680}\U{2000}\U{2001}\U{2002}\U{2003}\U{2004}\U{2005}\U{2006}"
    + "\U{2007}\U{2008}\U{2009}\U{200A}\U{2028}\U{2029}\U{202F}\U{205F}\U{3000}"

  lemma WhitespaceIs(c: char)
    ensures IsWhitespace(c) <==> c in WHITE_SPACE
  {
    if '\t' <= c <= '\r' {
      assert WHITE_SPACE[c as int - '\t' as int] == c;
    } else if '\U{2000}' <= c <= '\U{200A}' {
      assert WHITE_SPACE[c as int - '\U{2000}' as int + 9] == c;
    } else if IsWhitespace(c) {
      assert c in [WHITE_SPACE[5], WHITE_SPACE[6], WHITE_SPACE[7], WHITE_SPACE[8], WHITE_SPACE[20], WHITE_SPACE[21],
                   WHITE_SPACE[22], WHITE_SPACE[23], WHITE_SPACE[24]];
    }
  }

  function TrimStart(s: string): string {
    if s != [] && IsWhitespace(s[0]) then TrimStart(s[1..]) else s
  }

  function TrimEnd(s: string): (r: string)
    ensures r <= s
  {
    if s != [] && IsWhitespace(s[|s| - 1]) then TrimEnd(s[..|s| - 1]) else s
  }

  function Trim(s: string): string {
    TrimEnd(TrimStart(s))
  }

  /** Neither end is whitespace. */
  predicate Tight(s: string) {
    s != [] ==> !IsWhitespace(s[0]) && !IsWhitespace(s[|s| - 1])
  }

  lemma {:induction false} TrimStartIsTight(s: string)
    ensures TrimStart(s) != [] ==> !IsWhitespace(TrimStart(s)[0])
  {
    if s != [] && IsWhitespace(s[0]) {
      TrimStartIsTight(s[1..]);
    }
  }

  lemma {:induction false} TrimEndIsTight(s: string)
    ensures TrimEnd(s) != [] ==> !IsWhitespace(TrimEnd(s)[|TrimEnd(s)| - 1])
    ensures TrimEnd(s) != [] ==> TrimEnd(s)[0] == s[0]
  {
    if s != [] && IsWhitespace(s[|s| - 1]) {
      TrimEndIsTight(s[..|s| - 1]);
    }
  }

  lemma TrimIsTight(s: string)
    ensures Tight(Trim(s))
  {
    TrimStartIsTight(s);
    TrimEndIsTight(TrimStart(s));
  }

  lemma TrimOfTight(s: string)
    requires Tight(s)
    ensures Trim(s) == s
  {
  }

  lemma {:induction false} TrimStartIsEnd(s: string) returns (start: string)
    ensures s == start + TrimStart(s) && forall i :: 0 <= i < |start| ==> IsWhitespace(start[i])
  {
    if s != [] && IsWhitespace(s[0]) {
      var before := TrimStartIsEnd(s[1..]);
      start := [s[0]] + before;
    } else {
      start := "";
    }
  }

  lemma {:induction false} TrimEndIsStart(s: string) returns (end: string)
    ensures s == TrimEnd(s) + end && forall i :: 0 <= i < |end| ==> IsWhitespace(end[i])
  {
    if s != [] && IsWhitespace(s[|s| - 1]) {
      var after := TrimEndIsStart(s[..|s| - 1]);
      end := after + [s[|s| - 1]];
      assert s == s[..|s| - 1] + [s[|s| - 1]];
    } else {
      end := "";
    }
  }

  /** Trimming takes the whitespace from both ends and nothing else. */
  lemma TrimTakesTheEnds(s: string) returns (start: string, end: string)
    ensures s == start + Trim(s) + end && Tight(Trim(s))
    ensures forall i :: 0 <= i < |start| ==> IsWhitespace(start[i])
    ensures forall i :: 0 <= i < |end| ==> IsWhitespace(end[i])
  {
    start := TrimStartIsEnd(s);
    end := TrimEndIsStart(TrimStart(s));
    assert s == start + (Trim(s) + end);
    TrimIsTight(s);
  }

  function Join(parts: seq<string>, separator: string): string {
    if parts == [] then ""
    else if |parts| == 1 then parts[0]
    else parts[0] + separator + Join(parts[1..], separator)
  }

  predicate NonemptyTight(parts: seq<string>) {
    forall p :: p in parts ==> p != "" && Tight(p)
  }

  /** Joining non-empty trimmed parts gives a trimmed text, empty only when there are no parts. */
  lemma {:induction false} JoinOfTight(parts: seq<string>, separator: string)
    requires NonemptyTight(parts)
    ensures Tight(Join(parts, separator)) && (Join(parts, separator) == "" <==> parts == [])
  {
    if |parts| > 1 {
      assert parts[0] in parts;
      JoinOfTight(parts[1..], separator);
      var tail := Join(parts[1..], separator);
      var joined := parts[0] + separator + tail;
      assert joined[0] == parts[0][0] && joined[|joined| - 1] == tail[|tail| - 1];
    } else if |parts| == 1 {
      assert parts[0] in parts;
    }
  }

  /** A non-empty text ends in a newline afterwards. */
  function WithFinalNewline(text: string): string {
    if text != "" && text[|text| - 1] != '\n' then text + "\n" else text
  }

  function StripPrefix(s: string, prefix: string): (r: (bool, string))
    ensures r.0 ==> s == prefix + r.1
  {
    if |prefix| <= |s| && s[..|prefix|] == prefix then (true, s[|prefix|..]) else (false, s)
  }

  /** How many characters come before the first newline. */
  function LineLength(s: string): (n: nat)
    ensures n <= |s| && '\n' !in s[..n] && (n < |s| ==> s[n] == '\n')
  {
    if s == "" || s[0] == '\n' then 0
    else
      assert s[..1 + LineLength(s[1..])] == [s[0]] + s[1..][..LineLength(s[1..])];
      1 + LineLength(s[1..])
  }

  function DropCarriageReturn(line: string): string {
    if line != "" && line[|line| - 1] == '\r' then line[..|line| - 1] else line
  }

  /** `str::lines`: a final newline ends the last line instead of starting another. */
  function Lines(s: string): seq<string>
    decreases |s|
  {
    if s == "" then []
    else
      var n := LineLength(s);
      if n == |s| then [s] else [DropCarriageReturn(s[..n])] + Lines(s[n + 1..])
  }

  // ---- Substrings -------------------------------------------------------------------------------------

  predicate At(s: string, part: string, i: nat) { i + |part| <= |s| && s[i..i + |part|] == part }

  predicate Contains(s: string, part: string) { exists i :: 0 <= i <= |s| && At(s, part, i) }

  lemma AtMeans(s: string, part: string, i: nat, j: nat)
    requires j < |part|
    ensures At(s, part, i) ==> s[i + j] == part[j]
  {
    if At(s, part, i) {
      assert s[i..i + |part|][j] == s[i + j];
    }
  }

  lemma MissingCharacter(s: string, part: string, j: nat)
    requires j < |part| && part[j] !in s
    ensures !Contains(s, part)
  {
    forall i | 0 <= i <= |s| ensures !At(s, part, i) {
      AtMeans(s, part, i, j);
    }
  }

  lemma SliceOfPiece(before: string, s: string, after: string, i: nat, n: nat)
    requires i + n <= |s|
    ensures var k := |before| + i; (before + s + after)[k..k + n] == s[i..i + n]
  {
  }

  /** A part found inside a piece is found at its place in the whole. */
  lemma ContainsGrows(before: string, s: string, after: string, part: string)
    ensures Contains(s, part) ==> Contains(before + s + after, part)
  {
    if i :| 0 <= i <= |s| && At(s, part, i) {
      var k := |before| + i;
      SliceOfPiece(before, s, after, i, |part|);
      assert At(before + s + after, part, k);
    }
  }

  /** A part without whitespace cannot straddle whitespace. */
  lemma ContainsSplits(a: string, space: char, b: string, part: string)
    requires Solid(part) && part != "" && IsWhitespace(space)
    ensures Contains(a + [space] + b, part) <==> Contains(a, part) || Contains(b, part)
  {
    var s := a + [space] + b;
    assert s[|a|] == space;
    assert s == [] + a + ([space] + b) && s == (a + [space]) + b + [];
    if i :| 0 <= i <= |s| && At(s, part, i) {
      if i <= |a| < i + |part| {
        AtMeans(s, part, i, |a| - i);
      } else if i < |a| {
        SliceOfPiece([], a, [space] + b, i, |part|);
        assert At(a, part, i);
      } else {
        SliceOfPiece(a + [space], b, [], i - |a| - 1, |part|);
        assert At(b, part, i - |a| - 1);
      }
    }
    ContainsGrows([], a, [space] + b, part);
    ContainsGrows(a + [space], b, [], part);
  }

  // ---- Words -----------------------------------------------------------------------------------------

  predicate Solid(s: string) { forall i :: 0 <= i < |s| ==> !IsWhitespace(s[i]) }

  /** How many characters come before the first whitespace. */
  function WordLength(s: string): (n: nat)
    ensures n <= |s| && Solid(s[..n]) && (n < |s| ==> IsWhitespace(s[n]))
    ensures s != [] && !IsWhitespace(s[0]) ==> 0 < n
  {
    if s == "" || IsWhitespace(s[0]) then 0
    else
      assert s[..1 + WordLength(s[1..])] == [s[0]] + s[1..][..WordLength(s[1..])];
      1 + WordLength(s[1..])
  }

  /** `split_whitespace`: the maximal runs without whitespace. */
  function Words(s: string): seq<string>
    decreases |s|
  {
    if s == "" then []
    else if IsWhitespace(s[0]) then Words(s[1..])
    else [s[..WordLength(s)]] + Words(s[WordLength(s)..])
  }

  lemma {:induction false} WordLengthIs(word: string, rest: string)
    requires Solid(word) && (rest != [] ==> IsWhitespace(rest[0]))
    ensures WordLength(word + rest) == |word|
    decreases |word|
  {
    if word == "" {
      assert word + rest == rest;
    } else {
      assert (word + rest)[1..] == word[1..] + rest;
      WordLengthIs(word[1..], rest);
    }
  }

  lemma {:induction false} WordsIgnoreEnd(s: string, space: char)
    requires IsWhitespace(space)
    ensures Words(s + [space]) == Words(s)
    decreases |s|
  {
    var t := s + [space];
    if s == "" {
      assert t[1..] == "";
    } else if IsWhitespace(s[0]) {
      assert t[1..] == s[1..] + [space];
      WordsIgnoreEnd(s[1..], space);
    } else {
      var n := WordLength(s);
      assert t == s[..n] + (s[n..] + [space]);
      WordLengthIs(s[..n], s[n..] + [space]);
      WordsIgnoreEnd(s[n..], space);
    }
  }

  lemma {:induction false} WordsOfTrimEnd(s: string)
    ensures Words(TrimEnd(s)) == Words(s)
  {
    if s != [] && IsWhitespace(s[|s| - 1]) {
      assert s == s[..|s| - 1] + [s[|s| - 1]];
      WordsIgnoreEnd(s[..|s| - 1], s[|s| - 1]);
      WordsOfTrimEnd(s[..|s| - 1]);
    }
  }

  lemma {:induction false} WordsOfTrimStart(s: string)
    ensures Words(TrimStart(s)) == Words(s)
  {
    if s != [] && IsWhitespace(s[0]) {
      WordsOfTrimStart(s[1..]);
    }
  }

  lemma WordsOfTrim(s: string)
    ensures Words(Trim(s)) == Words(s)
  {
    WordsOfTrimEnd(TrimStart(s));
    WordsOfTrimStart(s);
  }
}
