/**
 * The part of Node's POSIX `path` module that the adapter uses to build
 * object keys: `path.join` of two arguments and `path.parse(p).name +
 * path.parse(p).ext`. Paths are cut into pieces at '/'; `path.join` is
 * modelled for arguments whose joined text `path.normalize` leaves alone.
 */
module NodePath {

  const Sep: char := '/'

  /** The pieces of s between separators; JoinPieces puts them back together. */
  function Split(s: string): (pieces: seq<string>)
    ensures |pieces| >= 1
    ensures forall i :: 0 <= i < |pieces| ==> Sep !in pieces[i]
  {
    if s == [] then [[]]
    else
      var rest := Split(s[1..]);
      if s[0] == Sep then [[]] + rest else [[s[0]] + rest[0]] + rest[1..]
  }

  /** The pieces with a separator between each two. */
  function JoinPieces(pieces: seq<string>): (s: string)
    requires |pieces| >= 1
  {
    if |pieces| == 1 then pieces[0] else pieces[0] + [Sep] + JoinPieces(pieces[1..])
  }

  lemma {:induction false} SplitNoSep(s: string)
    requires Sep !in s
    ensures Split(s) == [s]
  {
    if s != [] {
      SplitNoSep(s[1..]);
      assert [s[0]] + s[1..] == s;
    }
  }

  /** Splitting distributes over a separator. */
  lemma {:induction false} SplitAppend(a: string, b: string)
    ensures Split(a + [Sep] + b) == Split(a) + Split(b)
  {
    if a == [] {
      assert a + [Sep] + b == [Sep] + b;
      assert ([Sep] + b)[1..] == b;
    } else {
      assert (a + [Sep] + b)[1..] == a[1..] + [Sep] + b;
      SplitAppend(a[1..], b);
    }
  }

  /** Joining pieces without separators and splitting the result gives the pieces back. */
  lemma {:induction false} SplitJoinPieces(pieces: seq<string>)
    requires |pieces| >= 1
    requires forall i :: 0 <= i < |pieces| ==> Sep !in pieces[i]
    ensures Split(JoinPieces(pieces)) == pieces
  {
    SplitNoSep(pieces[0]);
    if |pieces| > 1 {
      SplitJoinPieces(pieces[1..]);
      SplitAppend(pieces[0], JoinPieces(pieces[1..]));
      assert [pieces[0]] + pieces[1..] == pieces;
    }
  }

  /** Splitting a path and joining the pieces gives the path back. */
  lemma {:induction false} JoinSplit(s: string)
    ensures JoinPieces(Split(s)) == s
  {
    if s != [] {
      JoinSplit(s[1..]);
      var rest := Split(s[1..]);
      if s[0] == Sep {
        assert Split(s)[1..] == rest;
      } else if |rest| > 1 {
        assert Split(s)[1..] == rest[1..];
        assert JoinPieces(rest) == rest[0] + [Sep] + JoinPieces(rest[1..]);
      }
    }
  }

  /** Piece i of a path in normal form: not "." or "..", and empty only as the root of an absolute path. */
  predicate NormalPiece(pieces: seq<string>, i: nat)
    requires i < |pieces|
  {
    pieces[i] != "." && pieces[i] != ".." && (pieces[i] == [] ==> i == 0 && |pieces| > 1)
  }

  /**
   * p is a non-empty path that `path.normalize` returns unchanged and that
   * has no trailing separator: no doubled '/', no "." or ".." piece.
   */
  predicate IsNormal(p: string) {
    var pieces := Split(p);
    forall i :: 0 <= i < |pieces| ==> NormalPiece(pieces, i)
  }

  /** A normal path that does not start at the root. */
  predicate IsNormalRelative(p: string) {
    IsNormal(p) && Split(p)[0] != []
  }

  /** A path that is empty or ends in a separator has an empty last piece. */
  lemma SplitEnd(s: string)
    ensures s == [] ==> Split(s) == [[]]
    ensures s != [] && s[|s| - 1] == Sep ==> |Split(s)| > 1 && Split(s)[|Split(s)| - 1] == []
  {
    if s != [] && s[|s| - 1] == Sep {
      var q := s[..|s| - 1];
      assert s == q + [Sep] + [];
      SplitAppend(q, []);
    }
  }

  /** A path whose first piece is non-empty neither is empty nor starts at the root. */
  lemma FirstPieceNotEmpty(s: string)
    requires Split(s)[0] != []
    ensures s != [] && s[0] != Sep
  {
  }

  lemma NormalNotEmpty(p: string)
    requires IsNormal(p)
    ensures p != [] && p[|p| - 1] != Sep
  {
    var pieces := Split(p);
    SplitEnd(p);
    assert NormalPiece(pieces, 0);
    assert NormalPiece(pieces, |pieces| - 1);
  }

  /**
   * `path.join(a, b)`, where an empty argument is skipped and two empty
   * arguments give ".". For non-empty arguments the pieces of the result
   * are those of a followed by those of b, and the result is again normal.
   */
  function Join(a: string, b: string): (p: string)
    requires a == [] || IsNormal(a)
    requires b == [] || IsNormalRelative(b)
    ensures a == [] && b == [] ==> p == "."
    ensures a == [] && b != [] ==> p == b
    ensures a != [] && b == [] ==> p == a
    ensures a != [] && b != [] ==> Split(p) == Split(a) + Split(b)
    ensures a != [] || b != [] ==> IsNormal(p)
  {
    if a == [] && b == [] then "."
    else if a == [] then b
    else if b == [] then a
    else
      JoinNormal(a, b);
      a + [Sep] + b
  }

  lemma JoinNormal(a: string, b: string)
    requires IsNormal(a) && IsNormalRelative(b)
    ensures Split(a + [Sep] + b) == Split(a) + Split(b)
    ensures IsNormal(a + [Sep] + b)
  {
    SplitAppend(a, b);
    var pa, pb := Split(a), Split(b);
    var pieces := pa + pb;
    forall i | 0 <= i < |pieces| ensures NormalPiece(pieces, i) {
      if i < |pa| {
        assert NormalPiece(pa, i);
      } else {
        assert pieces[i] == pb[i - |pa|];
        assert NormalPiece(pb, i - |pa|);
      }
    }
  }

  /** s without the separators at its end. */
  function StripTrailingSeps(s: string): (t: string)
    ensures |t| <= |s| && t == s[..|t|]
    ensures t == [] || t[|t| - 1] != Sep
    ensures forall i :: |t| <= i < |s| ==> s[i] == Sep
  {
    if s != [] && s[|s| - 1] == Sep then StripTrailingSeps(s[..|s| - 1]) else s
  }

  /** The text after the last separator of t. */
  function LastPiece(t: string): (b: string)
    ensures Sep !in b
    ensures |b| <= |t| && b == t[|t| - |b|..]
    ensures |b| < |t| ==> t[|t| - |b| - 1] == Sep
  {
    if t == [] || t[|t| - 1] == Sep then []
    else
      var init := t[..|t| - 1];
      var b := LastPiece(init);
      assert init[|init| - |b|..] + [t[|t| - 1]] == t[|t| - |b| - 1..];
      b + [t[|t| - 1]]
  }

  /**
   * The `base` field of `path.parse(p)`: the last piece of p once trailing
   * separators are ignored. It is a suffix of that trimmed path, preceded
   * by a separator unless it is all of it.
   */
  function BaseName(p: string): (b: string)
    ensures Sep !in b
    ensures var t := StripTrailingSeps(p);
      |b| <= |t| && b == t[|t| - |b|..] && (|b| < |t| ==> t[|t| - |b| - 1] == Sep)
  {
    LastPiece(StripTrailingSeps(p))
  }

  lemma BaseNameOfPiece(p: string)
    requires Sep !in p
    ensures BaseName(p) == p
  {
  }

  /** Index of the last occurrence of c in s, or -1. */
  function LastIndexOf(s: string, c: char): (k: int)
    ensures -1 <= k < |s|
    ensures k == -1 ==> c !in s
    ensures k >= 0 ==> s[k] == c && forall j :: k < j < |s| ==> s[j] != c
  {
    if s == [] then -1
    else if s[|s| - 1] == c then |s| - 1
    else LastIndexOf(s[..|s| - 1], c)
  }

  /** The `name` and `ext` fields of `path.parse`. */
  datatype ParsedName = ParsedName(name: string, ext: string)

  /**
   * Splits a base name at its last '.': no extension when there is no dot,
   * when the only dot that could start it is the first character (".bashrc")
   * and for "..".
   */
  function ParseBase(base: string): (r: ParsedName)
    ensures r.name + r.ext == base
    ensures r.ext == [] || (r.ext[0] == '.' && r.name != [] && '.' !in r.ext[1..])
    ensures r.ext == [] <==> LastIndexOf(base, '.') <= 0 || base == ".."
  {
    var k := LastIndexOf(base, '.');
    if k <= 0 || base == ".." then ParsedName(base, [])
    else ParsedName(base[..k], base[k..])
  }

  /** `path.parse(p).name + path.parse(p).ext`, which is the base name of p. */
  function NameWithExt(p: string): (s: string)
    ensures s == BaseName(p)
  {
    var parsed := ParseBase(BaseName(p));
    parsed.name + parsed.ext
  }
}
