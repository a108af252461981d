/** Replacing the lines of a text and reading the result back as lines. */
module LineMapping {
  import opened Text
  import opened WordMasking

  function MapLines(lines: seq<string>, f: string -> string): (r: seq<string>)
    ensures |r| == |lines| && forall k :: 0 <= k < |lines| ==> r[k] == f(lines[k])
  {
    if lines == [] then [] else [f(lines[0])] + MapLines(lines[1..], f)
  }

  predicate EndsInNewline(s: string) { s != "" && s[|s| - 1] == '\n' }

  function Unlines(lines: seq<string>, terminated: bool): string {
    Join(lines, "\n") + if terminated then "\n" else ""
  }

  /** Lines as `str::lines` cuts them: free of newlines, and an unterminated last line is not empty. */
  predicate WellEnded(lines: seq<string>, terminated: bool) {
    && (forall k :: 0 <= k < |lines| ==> '\n' !in lines[k])
    && (terminated ==> lines != [])
    && (!terminated && lines != [] ==> lines[|lines| - 1] != "")
  }

  lemma {:induction false} LinesAreWellEnded(s: string)
    ensures WellEnded(Lines(s), EndsInNewline(s))
    decreases |s|
  {
    if s != "" {
      var n := LineLength(s);
      if n == |s| {
        assert s[..n] == s;
      } else {
        LinesAreWellEnded(s[n + 1..]);
      }
    }
  }

  /** The lines that come back when the text is read again: each terminated line loses one carriage return. */
  function Reread(lines: seq<string>, terminated: bool): (r: seq<string>)
    ensures |r| == |lines|
  {
    if lines == [] then []
    else if |lines| == 1 && !terminated then lines
    else [DropCarriageReturn(lines[0])] + Reread(lines[1..], terminated)
  }

  lemma {:induction false} LineLengthIs(line: string, rest: string)
    requires '\n' !in line && (rest != "" ==> rest[0] == '\n')
    ensures LineLength(line + rest) == |line|
    decreases |line|
  {
    if line == "" {
      assert line + rest == rest;
    } else {
      assert (line + rest)[1..] == line[1..] + rest;
      LineLengthIs(line[1..], rest);
    }
  }

  lemma LineThen(line: string, rest: string)
    requires '\n' !in line
    ensures Lines(line + ("\n" + rest)) == [DropCarriageReturn(line)] + Lines(rest)
  {
    var s := line + ("\n" + rest);
    LineLengthIs(line, "\n" + rest);
    assert s[..|line|] == line && s[|line| + 1..] == rest;
  }

  lemma LinesOfOne(line: string, terminated: bool)
    requires '\n' !in line && (!terminated ==> line != "")
    ensures Lines(Unlines([line], terminated)) == Reread([line], terminated)
    ensures EndsInNewline(Unlines([line], terminated)) == terminated
  {
    if terminated {
      assert Unlines([line], terminated) == line + ("\n" + "");
      LineThen(line, "");
    } else {
      assert Unlines([line], terminated) == line + "" == line;
      LineLengthIs(line, "");
    }
  }

  /** Joining lines and cutting them again gives the same lines, up to those carriage returns. */
  lemma {:induction false} LinesOfUnlines(lines: seq<string>, terminated: bool)
    requires WellEnded(lines, terminated)
    ensures Lines(Unlines(lines, terminated)) == Reread(lines, terminated)
    ensures EndsInNewline(Unlines(lines, terminated)) == terminated
  {
    if lines == [] {
    } else if |lines| == 1 {
      LinesOfOne(lines[0], terminated);
      assert lines == [lines[0]];
    } else {
      var rest := Unlines(lines[1..], terminated);
      LinesOfUnlines(lines[1..], terminated);
      assert Unlines(lines, terminated) == lines[0] + ("\n" + rest);
      LineThen(lines[0], rest);
      RestIsNotEmpty(lines[1..], terminated);
    }
  }

  lemma {:induction false} RestIsNotEmpty(lines: seq<string>, terminated: bool)
    requires WellEnded(lines, terminated) && lines != []
    ensures Unlines(lines, terminated) != ""
  {
    if |lines| > 1 {
      RestIsNotEmpty(lines[1..], terminated);
    }
  }

  predicate Terminated(k: nat, count: nat, terminated: bool) { k < count - 1 || (k < count && terminated) }

  predicate NoReturnsLeft(lines: seq<string>, terminated: bool) {
    forall k :: 0 <= k < |lines| && Terminated(k, |lines|, terminated) ==> !EndsInReturn(lines[k])
  }

  lemma {:induction false} RereadKeepsIff(lines: seq<string>, terminated: bool)
    ensures Reread(lines, terminated) == lines <==> NoReturnsLeft(lines, terminated)
  {
    if lines == [] || (|lines| == 1 && !terminated) {
    } else {
      var rest := lines[1..];
      RereadKeepsIff(rest, terminated);
      NoReturnsLeftSplits(lines, terminated);
      var reread := Reread(lines, terminated);
      assert reread[1..] == Reread(rest, terminated) && lines == [lines[0]] + rest;
    }
  }

  lemma NoReturnsLeftSplits(lines: seq<string>, terminated: bool)
    requires |lines| > 1 || (|lines| == 1 && terminated)
    ensures NoReturnsLeft(lines, terminated) <==> !EndsInReturn(lines[0]) && NoReturnsLeft(lines[1..], terminated)
  {
    var rest := lines[1..];
    forall k | 0 <= k < |rest|
      ensures rest[k] == lines[k + 1] && Terminated(k, |rest|, terminated) == Terminated(k + 1, |lines|, terminated)
    {
    }
    if NoReturnsLeft(lines, terminated) {
      assert Terminated(0, |lines|, terminated);
    } else {
      var k :| 0 <= k < |lines| && Terminated(k, |lines|, terminated) && EndsInReturn(lines[k]);
      if k > 0 {
        assert rest[k - 1] == lines[k] && Terminated(k - 1, |rest|, terminated);
      }
    }
  }

  lemma {:induction false} RereadShortens(lines: seq<string>, terminated: bool)
    ensures |Unlines(Reread(lines, terminated), terminated)| <= |Unlines(lines, terminated)|
    ensures Unlines(Reread(lines, terminated), terminated) == Unlines(lines, terminated) <==>
            Reread(lines, terminated) == lines
    ensures Reread(lines, terminated) != lines ==>
              |Unlines(Reread(lines, terminated), terminated)| < |Unlines(lines, terminated)|
  {
    if |lines| > 1 {
      RereadShortens(lines[1..], terminated);
      var reread := Reread(lines, terminated);
      assert reread[1..] == Reread(lines[1..], terminated);
      assert reread == [reread[0]] + reread[1..] && lines == [lines[0]] + lines[1..];
    }
  }
}
