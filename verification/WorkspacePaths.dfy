/** The lexical path guard: which file a workspace-relative path denotes. */
module WorkspacePaths {
  import opened Options

  /** A file is named by its normal components; `a`, `./a` and `a//.` are the same file. */
  type Target = seq<string>

  /** Split at every slash; always at least one piece. */
  function Pieces(path: string): (r: seq<string>)
    ensures r != []
    decreases |path|
  {
    if path == [] then [""]
    else
      var rest := Pieces(path[1..]);
      if path[0] == '/' then [""] + rest else [[path[0]] + rest[0]] + rest[1..]
  }

  /** Empty pieces and `.` vanish. */
  function Normal(pieces: seq<string>): seq<string> {
    if pieces == [] then []
    else (if pieces[0] == "" || pieces[0] == "." then [] else [pieces[0]]) + Normal(pieces[1..])
  }

  /** Absolute paths, parent components and paths naming the workspace itself are refused. */
  function Resolve(path: string): Option<Target> {
    if path == "" || path[0] == '/' then None
    else
      var parts := Normal(Pieces(path));
      if parts == [] || ".." in parts then None else Some(parts)
  }

  predicate PlainPiece(piece: string) {
    piece != "" && piece != "." && piece != ".." && '/' !in piece
  }

  function Join(parts: seq<string>): string {
    if parts == [] then ""
    else if |parts| == 1 then parts[0]
    else parts[0] + "/" + Join(parts[1..])
  }

  lemma {:induction false} PiecesOfPlain(piece: string, rest: string)
    requires '/' !in piece
    ensures Pieces(piece + rest) == [piece + Pieces(rest)[0]] + Pieces(rest)[1..]
    decreases |piece|
  {
    if piece == "" {
      assert piece + rest == rest && "" + Pieces(rest)[0] == Pieces(rest)[0];
    } else {
      assert (piece + rest)[1..] == piece[1..] + rest;
      PiecesOfPlain(piece[1..], rest);
      assert [piece[0]] + (piece[1..] + Pieces(rest)[0]) == piece + Pieces(rest)[0];
    }
  }

  lemma {:induction false} PiecesOfJoin(parts: seq<string>)
    requires parts != [] && forall p :: p in parts ==> PlainPiece(p)
    ensures Pieces(Join(parts)) == parts
    decreases |parts|
  {
    assert PlainPiece(parts[0]);
    if |parts| == 1 {
      PiecesOfPlain(parts[0], "");
      assert parts[0] + "" == parts[0];
    } else {
      var tail := Join(parts[1..]);
      PiecesOfJoin(parts[1..]);
      PiecesOfPlain(parts[0], "/" + tail);
      assert ("/" + tail)[1..] == tail;
      assert parts[0] + ("/" + tail) == parts[0] + "/" + tail;
      assert parts[0] + "" == parts[0];
    }
  }

  lemma {:induction false} NormalOfPlain(parts: seq<string>)
    requires forall p :: p in parts ==> PlainPiece(p)
    ensures Normal(parts) == parts
  {
    if parts != [] {
      assert parts[0] in parts;
      NormalOfPlain(parts[1..]);
    }
  }

  /** Every file has a canonical spelling, and distinct canonical spellings denote distinct files. */
  lemma CanonicalPathResolvesToItself(parts: seq<string>)
    requires parts != [] && forall p :: p in parts ==> PlainPiece(p)
    ensures Resolve(Join(parts)) == Some(parts)
  {
    PiecesOfJoin(parts);
    NormalOfPlain(parts);
    assert parts[0] in parts;
    assert Join(parts)[0] == parts[0][0] && parts[0][0] in parts[0];
  }

  lemma PiecesOfDotted(piece: string)
    requires PlainPiece(piece)
    ensures Pieces("./" + piece) == [".", piece]
  {
    PiecesOfPlain(piece, "");
    assert piece + "" == piece;
    var tail := "/" + piece;
    assert tail[1..] == piece && Pieces(tail) == ["", piece];
    PiecesOfPlain(".", tail);
    assert "./" + piece == "." + tail && "." + "" == ".";
  }

  /** Raw paths are not canonical: this pair differs as text and denotes one file. */
  lemma TwoSpellingsOneFile(piece: string)
    requires PlainPiece(piece)
    ensures "./" + piece != piece && Resolve("./" + piece) == Resolve(piece)
  {
    PiecesOfPlain(piece, "");
    assert piece + "" == piece && Pieces("") == [""];
    PiecesOfDotted(piece);
    DottedIsNormal(piece);
    assert |"./" + piece| == 2 + |piece|;
    assert piece[0] in piece;
  }

  lemma DottedIsNormal(piece: string)
    ensures Normal([".", piece]) == Normal([piece])
  {
    assert [".", piece][1..] == [piece];
  }

  // ---- Canonical spellings -------------------------------------------------------------------------------

  lemma {:induction false} PiecesHaveNoSlash(path: string)
    ensures forall p :: p in Pieces(path) ==> '/' !in p
    decreases |path|
  {
    if path != [] {
      var rest := Pieces(path[1..]);
      PiecesHaveNoSlash(path[1..]);
      assert rest[0] in rest;
      assert forall p :: p in rest[1..] ==> p in rest;
    }
  }

  lemma {:induction false} NormalKeeps(pieces: seq<string>)
    ensures forall p :: p in Normal(pieces) ==> p in pieces && p != "" && p != "."
  {
    if pieces != [] {
      NormalKeeps(pieces[1..]);
    }
  }

  lemma ResolvedPiecesArePlain(path: string)
    requires Resolve(path).Some?
    ensures Resolve(path).value != [] && forall p :: p in Resolve(path).value ==> PlainPiece(p)
  {
    PiecesHaveNoSlash(path);
    NormalKeeps(Pieces(path));
  }

  function Canonical(path: string): string
    requires Resolve(path).Some?
  {
    Join(Resolve(path).value)
  }

  /**
   Every accepted path names the same file as its canonical spelling, and two paths name one file
   exactly when those agree.
   */
  lemma SameFileIffSameCanonicalPath(a: string, b: string)
    requires Resolve(a).Some? && Resolve(b).Some?
    ensures Resolve(Canonical(a)) == Resolve(a)
    ensures Resolve(a) == Resolve(b) <==> Canonical(a) == Canonical(b)
  {
    ResolvedPiecesArePlain(a);
    ResolvedPiecesArePlain(b);
    CanonicalPathResolvesToItself(Resolve(a).value);
    CanonicalPathResolvesToItself(Resolve(b).value);
  }
}
