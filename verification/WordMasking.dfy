/** Replacing words of a line one by one, for any replacement that keeps a word a word. */
module WordMasking {
  import opened Text

  function ToLower(c: char): char {
    if 'A' <= c <= 'Z' then ((c as int) + 32) as char else c
  }

  function Lower(s: string): string { seq(|s|, i requires 0 <= i < |s| => ToLower(s[i])) }

  /** `split_inclusive(char::is_whitespace)` */
  function Pieces(line: string): seq<string>
    decreases |line|
  {
    if line == "" then []
    else
      var n := WordLength(line);
      if n == |line| then [line] else [line[..n + 1]] + Pieces(line[n + 1..])
  }

  function MaskPieces(pieces: seq<string>, mask: string -> string): string {
    if pieces == [] then ""
    else
      var word := TrimEnd(pieces[0]);
      mask(word) + pieces[0][|word|..] + MaskPieces(pieces[1..], mask)
  }

  /** A line rebuilt word by word, with its whitespace in place. */
  function MaskWords(line: string, mask: string -> string): string
    decreases |line|
  {
    if line == "" then ""
    else
      var n := WordLength(line);
      if n == |line| then mask(line) else mask(line[..n]) + [line[n]] + MaskWords(line[n + 1..], mask)
  }

  lemma TrimEndOfWord(word: string, space: string)
    requires Solid(word) && |space| <= 1 && (space != "" ==> IsWhitespace(space[0]))
    ensures TrimEnd(word + space) == word
  {
    if space == "" {
      assert word + space == word;
    } else {
      assert (word + space)[..|word|] == word;
    }
  }

  lemma {:induction false} PiecesAreWords(line: string, mask: string -> string)
    ensures MaskPieces(Pieces(line), mask) == MaskWords(line, mask)
    decreases |line|
  {
    if line != "" {
      var n := WordLength(line);
      if n == |line| {
        assert line[..n] == line && line + "" == line;
        TrimEndOfWord(line, "");
        assert [line][1..] == [] && mask(line) + "" + "" == mask(line);
      } else {
        var piece, rest := line[..n + 1], line[n + 1..];
        assert piece == line[..n] + [line[n]] && piece[n..] == [line[n]];
        TrimEndOfWord(line[..n], [line[n]]);
        assert ([piece] + Pieces(rest))[1..] == Pieces(rest);
        PiecesAreWords(rest, mask);
      }
    }
  }

  function MaskAll(words: seq<string>, mask: string -> string): seq<string> {
    if words == [] then [] else [mask(words[0])] + MaskAll(words[1..], mask)
  }

  /** Words stay words, and nothing appears or disappears. */
  ghost predicate Proper(mask: string -> string) {
    forall word :: KeepsWord(mask, word)
  }

  predicate KeepsWord(mask: string -> string, word: string) {
    (word == "" <==> mask(word) == "") && (Solid(word) ==> Solid(mask(word)))
  }

  lemma FirstWord(word: string, rest: string)
    requires word != "" && Solid(word) && (rest != "" ==> IsWhitespace(rest[0]))
    ensures Words(word + rest) == [word] + Words(rest)
  {
    WordLengthIs(word, rest);
    assert (word + rest)[..|word|] == word && (word + rest)[|word|..] == rest;
  }

  lemma SpaceThen(space: char, rest: string)
    requires IsWhitespace(space)
    ensures Words([space] + rest) == Words(rest)
  {
    assert ([space] + rest)[1..] == rest;
  }

  lemma SpacedWord(word: string, space: char, rest: string)
    requires Solid(word) && IsWhitespace(space)
    ensures Words(word + ([space] + rest)) == if word == "" then Words(rest) else [word] + Words(rest)
  {
    SpaceThen(space, rest);
    if word == "" {
      assert word + ([space] + rest) == [space] + rest;
    } else {
      FirstWord(word, [space] + rest);
    }
  }

  lemma OneWord(word: string)
    requires Solid(word) && word != ""
    ensures Words(word) == [word]
  {
    assert word + "" == word;
    FirstWord(word, "");
  }

  lemma MaskAllOfWord(word: string, words: seq<string>, mask: string -> string)
    requires KeepsWord(mask, word)
    ensures MaskAll(if word == "" then words else [word] + words, mask)
         == if mask(word) == "" then MaskAll(words, mask) else [mask(word)] + MaskAll(words, mask)
  {
    assert ([word] + words)[1..] == words;
  }

  lemma SpacedMasking(word: string, space: char, rest: string, mask: string -> string)
    requires Solid(word) && IsWhitespace(space)
    ensures MaskWords(word + ([space] + rest), mask) == mask(word) + ([space] + MaskWords(rest, mask))
  {
    var line := word + ([space] + rest);
    WordLengthIs(word, [space] + rest);
    assert line[..|word|] == word && line[|word|] == space && line[|word| + 1..] == rest;
    assert mask(word) + [space] + MaskWords(rest, mask) == mask(word) + ([space] + MaskWords(rest, mask));
  }

  lemma SpacedLine(line: string, word: string, space: char, rest: string, mask: string -> string)
    requires line == word + ([space] + rest)
    requires Solid(word) && IsWhitespace(space) && KeepsWord(mask, word) && MaskedWords(rest, mask)
    ensures MaskedWords(line, mask)
  {
    SpacedMasking(word, space, rest, mask);
    SpacedWord(word, space, rest);
    SpacedWord(mask(word), space, MaskWords(rest, mask));
    MaskAllOfWord(word, Words(rest), mask);
  }

  lemma FirstPiece(line: string) returns (word: string, tail: string)
    requires line != ""
    ensures line == word + tail && Solid(word)
    ensures if tail == "" then word != "" else IsWhitespace(tail[0])
  {
    word, tail := line[..WordLength(line)], line[WordLength(line)..];
  }

  lemma LoneWord(word: string, mask: string -> string)
    requires word != "" && Solid(word) && KeepsWord(mask, word)
    ensures MaskedWords(word, mask)
  {
    assert word + "" == word;
    WordLengthIs(word, "");
    OneWord(word);
    OneWord(mask(word));
    assert [word][1..] == [];
  }

  predicate MaskedWords(line: string, mask: string -> string) {
    Words(MaskWords(line, mask)) == MaskAll(Words(line), mask)
  }

  /** Masking acts on each word separately and leaves the words apart. */
  lemma {:induction false} WordsAreMasked(line: string, mask: string -> string)
    requires Proper(mask)
    ensures MaskedWords(line, mask)
    decreases |line|
  {
    if line != "" {
      var word, tail := FirstPiece(line);
      assert KeepsWord(mask, word);
      if tail == "" {
        assert line == word;
        LoneWord(line, mask);
      } else {
        assert tail == [tail[0]] + tail[1..];
        WordsAreMasked(tail[1..], mask);
        SpacedLine(line, word, tail[0], tail[1..], mask);
      }
    }
  }

  lemma {:induction false} MaskAllMembers(words: seq<string>, mask: string -> string, masked: string)
    requires masked in MaskAll(words, mask)
    ensures exists word :: word in words && masked == mask(word)
  {
    assert words[0] in words;
    if masked != mask(words[0]) {
      MaskAllMembers(words[1..], mask, masked);
      var word :| word in words[1..] && masked == mask(word);
      assert word in words;
    }
  }

  /** If no replacement brings in `part`, neither does masking a line, whatever the letter case. */
  lemma {:induction false} MaskingAddsNoPart(line: string, mask: string -> string, part: string)
    requires Solid(part) && part != ""
    requires forall word :: Contains(Lower(mask(word)), part) ==> Contains(Lower(word), part)
    ensures Contains(Lower(MaskWords(line, mask)), part) ==> Contains(Lower(line), part)
    decreases |line|
  {
    if line != "" {
      var n := WordLength(line);
      if n < |line| {
        var word, space, rest := line[..n], line[n], line[n + 1..];
        assert line == word + [space] + rest;
        MaskingAddsNoPart(rest, mask, part);
        LowerSplits(word, space, rest);
        LowerSplits(mask(word), space, MaskWords(rest, mask));
        ContainsSplits(Lower(word), space, Lower(rest), part);
        ContainsSplits(Lower(mask(word)), space, Lower(MaskWords(rest, mask)), part);
      }
    }
  }

  lemma LowerSplits(a: string, space: char, b: string)
    requires IsWhitespace(space)
    ensures Lower(a + [space] + b) == Lower(a) + [space] + Lower(b)
  {
  }

  predicate EndsInReturn(s: string) { s != "" && s[|s| - 1] == '\r' }

  /** The whitespace at the end of a line survives masking. */
  lemma {:induction false} MaskingKeepsTheEnd(line: string, mask: string -> string)
    requires Proper(mask)
    ensures line == "" <==> MaskWords(line, mask) == ""
    ensures EndsInReturn(line) <==> EndsInReturn(MaskWords(line, mask))
    decreases |line|
  {
    if line != "" {
      var n := WordLength(line);
      assert KeepsWord(mask, line[..n]);
      if n < |line| {
        MaskingKeepsTheEnd(line[n + 1..], mask);
      } else {
        assert line[..n] == line;
        SolidEnd(line);
        SolidEnd(mask(line));
      }
    }
  }

  lemma SolidEnd(word: string)
    requires Solid(word)
    ensures !EndsInReturn(word)
  {
  }

  lemma {:induction false} MaskingAddsNoNewline(line: string, mask: string -> string)
    requires Proper(mask)
    ensures '\n' in MaskWords(line, mask) ==> '\n' in line
    decreases |line|
  {
    if line != "" {
      var n := WordLength(line);
      assert KeepsWord(mask, line[..n]);
      SolidHasNoNewline(mask(line[..n]));
      if n < |line| {
        MaskingAddsNoNewline(line[n + 1..], mask);
        assert line[n] in line;
      } else {
        assert line[..n] == line;
      }
    }
  }

  lemma SolidHasNoNewline(word: string)
    requires Solid(word)
    ensures '\n' !in word
  {
  }
}
