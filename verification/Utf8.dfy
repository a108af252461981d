/**
 Truncating a text to a number of bytes without cutting a character.

 Characters are encoded as in section 3 of RFC 3629, and the loop looks only at bytes; it is
 proved to stop at the longest whole-character prefix.
 */
module Utf8 {
  import opened JsonValues
  import opened LineSplitter

  predicate IsContinuation(b: byte) { 0x80 <= b < 0xC0 }

  function EncodeChar(c: char): (r: Bytes)
    ensures 1 <= |r| <= 4 && !IsContinuation(r[0])
    ensures forall i :: 1 <= i < |r| ==> IsContinuation(r[i])
  {
    var n := c as int;
    if n < 0x80 then [n]
    else if n < 0x800 then [0xC0 + n / 0x40, 0x80 + n % 0x40]
    else if n < 0x1_0000 then [0xE0 + n / 0x1000, 0x80 + n / 0x40 % 0x40, 0x80 + n % 0x40]
    else [0xF0 + n / 0x4_0000, 0x80 + n / 0x1000 % 0x40, 0x80 + n / 0x40 % 0x40, 0x80 + n % 0x40]
  }

  /** A byte above what marks it. */
  function Payload(b: int, mark: int): int { b - mark }

  /** What the bytes of one character stand for: the payload of its lead byte, then six bits a byte. */
  function CodeOf(b: Bytes): int
    requires 1 <= |b| <= 4
  {
    if |b| == 1 then b[0]
    else if |b| == 2 then 64 * Payload(b[0], 192) + Payload(b[1], 128)
    else if |b| == 3 then 64 * (64 * Payload(b[0], 224) + Payload(b[1], 128)) + Payload(b[2], 128)
    else
      64 * (64 * (64 * Payload(b[0], 240) + Payload(b[1], 128)) + Payload(b[2], 128)) + Payload(b[3], 128)
  }

  lemma SixBits(n: nat)
    ensures n / 0x1000 == n / 0x40 / 0x40 && n / 0x4_0000 == n / 0x1000 / 0x40
    ensures n == 64 * (n / 0x40) + n % 0x40
  {
  }

  lemma CharacterIs(c: char)
    ensures CodeOf(EncodeChar(c)) == c as int
  {
    var n := c as int;
    SixBits(n);
    SixBits(n / 0x40);
    SixBits(n / 0x1000);
  }

  /** A character reads back, and its first byte tells how many there are. */
  lemma CharacterReadsBack(c: char)
    ensures CodeOf(EncodeChar(c)) == c as int
    ensures var b := EncodeChar(c);
            |b| == if b[0] < 0x80 then 1 else if b[0] < 0xE0 then 2 else if b[0] < 0xF0 then 3 else 4
  {
    CharacterIs(c);
  }

  function Encode(s: string): Bytes {
    if s == "" then [] else EncodeChar(s[0]) + Encode(s[1..])
  }

  /** `str::is_char_boundary` */
  predicate IsBoundary(bytes: Bytes, i: nat) {
    i == 0 || i == |bytes| || (i < |bytes| && !IsContinuation(bytes[i]))
  }

  lemma {:induction false} EncodeAppend(a: string, b: string)
    ensures Encode(a + b) == Encode(a) + Encode(b)
    decreases |a|
  {
    if a == "" {
      assert a + b == b;
    } else {
      assert (a + b)[1..] == a[1..] + b;
      EncodeAppend(a[1..], b);
    }
  }

  /** Different texts have different bytes. */
  lemma {:induction false} EncodingIsExact(a: string, b: string)
    requires Encode(a) == Encode(b)
    ensures a == b
    decreases |a|
  {
    if a != "" && b != "" {
      var first, other := EncodeChar(a[0]), EncodeChar(b[0]);
      CharacterReadsBack(a[0]);
      CharacterReadsBack(b[0]);
      assert Encode(a)[0] == first[0] && Encode(b)[0] == other[0];
      assert Encode(a)[..|first|] == first && Encode(b)[..|first|] == other;
      assert a[0] == b[0];
      assert Encode(a)[|first|..] == Encode(a[1..]) && Encode(b)[|first|..] == Encode(b[1..]);
      EncodingIsExact(a[1..], b[1..]);
    }
  }

  /** How many bytes the first `n` characters take. */
  function Width(s: string, n: nat): nat
    requires n <= |s|
  {
    |Encode(s[..n])|
  }

  lemma PrefixIsPrefix(s: string, n: nat)
    requires n <= |s|
    ensures Width(s, n) <= |Encode(s)| && Encode(s)[..Width(s, n)] == Encode(s[..n])
  {
    assert s == s[..n] + s[n..];
    EncodeAppend(s[..n], s[n..]);
  }

  lemma WidthStep(s: string, n: nat)
    requires 0 < n <= |s|
    ensures Width(s, n) == |EncodeChar(s[0])| + Width(s[1..], n - 1)
  {
    assert s[..n][1..] == s[1..][..n - 1];
  }

  /** The bytes after which a text may be cut are exactly the ends of its characters. */
  lemma {:induction false} BoundaryIffCharacterEnd(s: string, i: nat)
    requires i <= |Encode(s)|
    ensures IsBoundary(Encode(s), i) <==> exists n :: 0 <= n <= |s| && Width(s, n) == i
    decreases |s|
  {
    if i == 0 {
      assert Width(s, 0) == 0;
    } else {
      var first, rest := EncodeChar(s[0]), s[1..];
      var k := i - |first|;
      if k < 0 {
        forall n | 0 <= n <= |s| ensures Width(s, n) != i {
          if n > 0 {
            WidthStep(s, n);
          }
        }
      } else {
        BoundaryIffCharacterEnd(rest, k);
        StartIsBoundary(rest, k);
        assert i < |Encode(s)| ==> Encode(s)[i] == Encode(rest)[k];
        if n :| 0 <= n <= |rest| && Width(rest, n) == k {
          WidthStep(s, n + 1);
          assert Width(s, n + 1) == i;
        } else {
          forall n | 0 <= n <= |s| ensures Width(s, n) != i {
            if n > 0 {
              WidthStep(s, n);
              assert Width(rest, n - 1) != k;
            }
          }
        }
      }
    }
  }

  lemma StartIsBoundary(s: string, k: nat)
    ensures k == 0 && k < |Encode(s)| ==> !IsContinuation(Encode(s)[k])
  {
  }

  /** The number of leading characters that fit into `max` bytes. */
  function Fitting(s: string, max: nat): (n: nat)
    ensures n <= |s|
  {
    if s == "" || |EncodeChar(s[0])| > max then 0 else 1 + Fitting(s[1..], max - |EncodeChar(s[0])|)
  }

  /** It is the longest prefix that fits, and at most three bytes stay unused. */
  lemma {:induction false} FittingIsLongest(s: string, max: nat)
    ensures Width(s, Fitting(s, max)) <= max
    ensures forall n :: 0 <= n <= |s| && Width(s, n) <= max ==>
              n <= Fitting(s, max) && Width(s, n) <= Width(s, Fitting(s, max))
    ensures |Encode(s)| > max ==> max - Width(s, Fitting(s, max)) <= 3
    decreases |s|
  {
    var best := Fitting(s, max);
    if best == 0 {
      forall n | 0 < n <= |s| ensures Width(s, n) > max {
        WidthStep(s, n);
      }
    } else {
      var rest, left := s[1..], max - |EncodeChar(s[0])|;
      FittingIsLongest(rest, left);
      WidthStep(s, best);
      forall n | 0 < n <= |s| && Width(s, n) <= max ensures n <= best && Width(s, n) <= Width(s, best) {
        WidthStep(s, n);
        assert Width(rest, n - 1) <= left;
      }
    }
  }

  function NoticeLine(max: nat): string {
    "[truncated" + (" by" + (" ToolGateway:" + (" max_output_bytes=" + Decimal(max) + "]")))
  }

  function Notice(max: nat): string { "\n" + NoticeLine(max) }

  /** `truncate_utf8`; a limit of zero gives no text and no notice. */
  function Truncated(s: string, max: nat): string {
    if max == 0 then "" else if |Encode(s)| <= max then s else s[..Fitting(s, max)] + Notice(max)
  }

  method TruncateUtf8(raw: Bytes, ghost s: string, max: nat) returns (r: Bytes)
    requires raw == Encode(s)
    ensures r == Encode(Truncated(s, max))
  {
    if max == 0 {
      return [];
    }
    if |raw| <= max {
      return raw;
    }
    FittingIsLongest(s, max);
    ghost var best := Width(s, Fitting(s, max));
    BoundaryIffCharacterEnd(s, best);
    var end := max;
    while !IsBoundary(raw, end)
      invariant best <= end <= max
      invariant max - 3 <= best
      decreases end
    {
      end := end - 1;
    }
    BoundaryIffCharacterEnd(s, end);
    assert end == best;
    PrefixIsPrefix(s, Fitting(s, max));
    EncodeAppend(s[..Fitting(s, max)], Notice(max));
    r := raw[..end] + Encode(Notice(max));
  }
}
