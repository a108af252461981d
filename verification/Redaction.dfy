/**
 Redacting labelled lines and secret-shaped words from tool output.

 The main results hold for whole texts: the lines stay in place, no labelled line and no
 secret-shaped word is left, and redacting again changes nothing.
 */
module Redaction {
  import opened LineMapping
  import opened Text
  import Utf8
  import opened WordMasking

  const MASK := "[REDACTED]"

  // ---- Labels ----------------------------------------------------------------------------------------

  predicate HasLabel(lower: string) {
    || Contains(lower, "api_key") || Contains(lower, "api-key") || Contains(lower, "apikey")
    || Contains(lower, "token") || Contains(lower, "secret")
    || Contains(lower, "password") || Contains(lower, "authorization")
  }

  predicate Labelled(line: string) { HasLabel(Lower(line)) }

  // ---- Secret-shaped words ---------------------------------------------------------------------------

  predicate IsDigit(c: char) { '0' <= c <= '9' }
  predicate IsUpper(c: char) { 'A' <= c <= 'Z' }
  predicate IsLower(c: char) { 'a' <= c <= 'z' }
  predicate IsAlphanumeric(c: char) { IsDigit(c) || IsUpper(c) || IsLower(c) }
  predicate IsTokenEdge(c: char) { IsAlphanumeric(c) || c == '_' || c == '-' || c == '.' }
  predicate IsSegmentChar(c: char) { IsAlphanumeric(c) || c == '_' || c == '-' }
  predicate IsTokenChar(c: char) { IsSegmentChar(c) || c == '+' || c == '/' || c == '=' }

  function TrimEdges(s: string): string
    decreases |s|
  {
    if s != "" && !IsTokenEdge(s[0]) then TrimEdges(s[1..])
    else if s != "" && !IsTokenEdge(s[|s| - 1]) then TrimEdges(s[..|s| - 1])
    else s
  }

  function Bytes(s: string): nat { |Utf8.Encode(s)| }

  const KNOWN_PREFIXES := [
    "AKIA", "ASIA", "ghp_", "gho_", "ghu_", "ghs_", "ghr_", "github_pat_", "sk-", "xox", "AIza", "glpat-"]

  predicate HasKnownPrefix(s: string) {
    exists k :: 0 <= k < |KNOWN_PREFIXES| && KNOWN_PREFIXES[k] <= s
  }

  /** What follows the last `=` or `:`. */
  function AfterDelimiter(s: string): string {
    if s == "" || s[|s| - 1] == '=' || s[|s| - 1] == ':' then ""
    else AfterDelimiter(s[..|s| - 1]) + [s[|s| - 1]]
  }

  function Segments(s: string): seq<string> {
    if s == "" then [""]
    else
      var rest := Segments(s[1..]);
      if s[0] == '.' || rest == [] then [""] + rest else [[s[0]] + rest[0]] + rest[1..]
  }

  predicate HasTokenShape(s: string) {
    && |Segments(s)| == 3
    && forall part :: part in Segments(s) ==> Bytes(part) >= 10 && forall c :: c in part ==> IsSegmentChar(c)
  }

  function Ones(b: bool): nat { if b then 1 else 0 }

  predicate IsHighEntropy(s: string) {
    && Bytes(s) >= 32
    && (forall c :: c in s ==> IsTokenChar(c))
    && Ones(exists c :: c in s && IsDigit(c)) + Ones(exists c :: c in s && IsUpper(c))
     + Ones(exists c :: c in s && IsLower(c)) >= 2
  }

  /** `looks_like_secret_value` */
  predicate LooksSecret(word: string) {
    var s := TrimEdges(word);
    var after := AfterDelimiter(s);
    && Bytes(s) >= 16
    && (|| HasKnownPrefix(s)
        || (after != s && Bytes(after) >= 16 && HasKnownPrefix(after))
        || ("-----BEGIN" <= s && Contains(s, "PRIVATE KEY"))
        || HasTokenShape(s)
        || IsHighEntropy(s))
  }

  predicate HasSecret(line: string) { exists word :: word in Words(line) && LooksSecret(word) }

  // ---- Redaction -------------------------------------------------------------------------------------

  function Mask(word: string): string { if LooksSecret(word) then MASK else word }

  /** `redact_secret_shaped_tokens` */
  function RedactWords(line: string): string {
    if HasSecret(line) then MaskPieces(Pieces(line), Mask) else line
  }

  function RedactLine(line: string): string {
    if Labelled(line) then MASK else RedactWords(line)
  }

  /** `redact_sensitive_text` */
  function Redact(raw: string): string {
    Unlines(MapLines(Lines(raw), RedactLine), EndsInNewline(raw))
  }

  // ---- Which words count as secrets ------------------------------------------------------------------

  lemma {:induction false} BytesAtLeastCharacters(s: string)
    ensures Bytes(s) >= |s|
    ensures (forall i :: 0 <= i < |s| ==> s[i] < '\U{0080}') ==> Bytes(s) == |s|
  {
    if s != "" {
      BytesAtLeastCharacters(s[1..]);
    }
  }

  lemma {:induction false} TrimmingSavesBytes(s: string)
    ensures Bytes(TrimEdges(s)) <= Bytes(s)
    decreases |s|
  {
    if s != "" && !IsTokenEdge(s[0]) {
      TrimmingSavesBytes(s[1..]);
    } else if s != "" && !IsTokenEdge(s[|s| - 1]) {
      Utf8.EncodeAppend(s[..|s| - 1], [s[|s| - 1]]);
      assert s == s[..|s| - 1] + [s[|s| - 1]];
      TrimmingSavesBytes(s[..|s| - 1]);
    }
  }

  /** Words of fewer than sixteen bytes are left alone. */
  lemma ShortWordsSurvive(word: string)
    requires Bytes(word) < 16
    ensures Mask(word) == word
  {
    TrimmingSavesBytes(word);
  }

  lemma {:induction false} AfterDelimiterIs(before: string, key: string)
    requires before != "" && (before[|before| - 1] == '=' || before[|before| - 1] == ':')
    requires forall i :: 0 <= i < |key| ==> IsTokenEdge(key[i])
    ensures AfterDelimiter(before + key) == key
    decreases |key|
  {
    var s := before + key;
    if key == "" {
      assert s == before;
    } else {
      var init := key[..|key| - 1];
      AfterDelimiterIs(before, init);
      assert s[..|s| - 1] == before + init && key == init + [key[|key| - 1]];
    }
  }

  /** A key with a known prefix is masked on its own and when assigned to a name. */
  lemma KnownKeysAreMasked(before: string, key: string)
    requires |key| >= 16 && HasKnownPrefix(key) && forall i :: 0 <= i < |key| ==> IsTokenEdge(key[i])
    requires before != "" && IsTokenEdge(before[0])
    requires before[|before| - 1] == '=' || before[|before| - 1] == ':'
    ensures Mask(key) == MASK && Mask(before + key) == MASK
  {
    BytesAtLeastCharacters(key);
    BytesAtLeastCharacters(before + key);
    AfterDelimiterIs(before, key);
    var word := before + key;
    assert word[|word| - 1] == key[|key| - 1] && TrimEdges(word) == word;
  }

  // ---- The mask itself is neither labelled nor secret-shaped ------------------------------------------

  lemma MaskIsNoSecret()
    ensures !LooksSecret(MASK) && !LooksSecret("")
  {
    BytesAtLeastCharacters(MASK);
    TrimmingSavesBytes(MASK);
    TrimmingSavesBytes("");
  }

  lemma MaskIsSolid()
    ensures Solid(MASK)
  {
  }

  lemma MaskedWordIsNoSecret(word: string)
    ensures !LooksSecret(Mask(word))
  {
    MaskIsNoSecret();
  }

  lemma MaskIsProper()
    ensures Proper(Mask)
  {
    MaskIsNoSecret();
    MaskIsSolid();
  }

  lemma MaskHasNoLabel()
    ensures !HasLabel(Lower(MASK))
  {
    var s := Lower(MASK);
    assert s == "[redacted]";
    MissingCharacter(s, "api_key", 1);
    MissingCharacter(s, "api-key", 1);
    MissingCharacter(s, "apikey", 1);
    MissingCharacter(s, "token", 1);
    MissingCharacter(s, "secret", 0);
    MissingCharacter(s, "password", 0);
    MissingCharacter(s, "authorization", 1);
  }
}
