/** Value wrappers and the small string operations of java.lang.String that the
    dispatch core relies on (indexOf, startsWith, trim, toUpperCase, split on '/'). */
module Common {

  datatype Option<+T> = None | Some(value: T)

  datatype Result<+T, +E> = Success(value: T) | Failure(error: E)

  /** `String.startsWith`: `p` is a prefix of `s`. */
  predicate StartsWith(s: string, p: string) {
    p <= s
  }

  /** `indexOf(x, from)`: the first index at or after `from` holding `x`, or -1. */
  function IndexOfFrom<T(==)>(s: seq<T>, x: T, from: nat): (r: int)
    ensures r == -1 || (from <= r < |s| && s[r] == x)
    ensures r == -1 ==> forall i :: from <= i < |s| ==> s[i] != x
    ensures r >= 0 ==> forall i :: from <= i < r ==> s[i] != x
    decreases |s| - from
  {
    if from >= |s| then -1
    else if s[from] == x then from
    else IndexOfFrom(s, x, from + 1)
  }

  function IndexOf<T(==)>(s: seq<T>, x: T): (r: int)
    ensures r == -1 <==> x !in s
    ensures r >= 0 ==> r < |s| && s[r] == x && x !in s[..r]
  {
    IndexOfFrom(s, x, 0)
  }

  /** The text before the first occurrence of `x`, or the whole of `s`
      (`indexOf` followed by `substring(0, i)`). */
  function Before<T(==)>(s: seq<T>, x: T): (r: seq<T>)
    ensures r <= s && x !in r
    ensures x in s ==> |r| < |s| && s[|r|] == x
    ensures x !in s ==> r == s
  {
    var i := IndexOf(s, x);
    if i >= 0 then s[..i] else s
  }

  /** An allow-list that is exactly `["*"]`: keep everything. */
  predicate KeepsAll(names: seq<string>) {
    |names| == 1 && names[0] == "*"
  }

  // ---------------------------------------------------------------------------
  // trim / toUpperCase

  /** `String.trim` removes every leading and trailing character whose code is at most U+0020. */
  predicate IsTrimmed(c: char) {
    c <= ' '
  }

  function TrimStart(s: string): (r: string)
    ensures |r| <= |s| && r == s[|s| - |r|..]
    ensures r == [] || !IsTrimmed(r[0])
    ensures forall i :: 0 <= i < |s| - |r| ==> IsTrimmed(s[i])
  {
    if s != [] && IsTrimmed(s[0]) then TrimStart(s[1..]) else s
  }

  function TrimEnd(s: string): (r: string)
    ensures r <= s
    ensures r == [] || !IsTrimmed(r[|r| - 1])
    ensures forall i :: |r| <= i < |s| ==> IsTrimmed(s[i])
  {
    if s != [] && IsTrimmed(s[|s| - 1]) then TrimEnd(s[..|s| - 1]) else s
  }

  function Trim(s: string): string {
    TrimEnd(TrimStart(s))
  }

  /** Upper-casing of the ASCII letters; every other character is kept. */
  function UpperChar(c: char): (r: char)
    ensures 'a' <= c <= 'z' ==> r as int == c as int - 32
    ensures !('a' <= c <= 'z') ==> r == c
  {
    if 'a' <= c <= 'z' then (c as int - 32) as char else c
  }

  function ToUpper(s: string): (r: string)
    ensures |r| == |s|
    ensures forall i :: 0 <= i < |s| ==> r[i] == UpperChar(s[i])
  {
    if s == [] then [] else [UpperChar(s[0])] + ToUpper(s[1..])
  }

  // ---------------------------------------------------------------------------
  // String.split("/")

  /** The pieces of `s` between the '/' characters, empty pieces included:
      always one more piece than there are separators. */
  function Pieces(s: string): (r: seq<string>)
    ensures |r| >= 1
    ensures forall k :: 0 <= k < |r| ==> '/' !in r[k]
    decreases |s|
  {
    var i := IndexOf(s, '/');
    if i < 0 then [s] else [s[..i]] + Pieces(s[i + 1..])
  }

  function DropTrailingEmpty(ps: seq<string>): (r: seq<string>)
    ensures r <= ps
    ensures r == [] || r[|r| - 1] != ""
    ensures forall k :: |r| <= k < |ps| ==> ps[k] == ""
  {
    if ps != [] && ps[|ps| - 1] == "" then DropTrailingEmpty(ps[..|ps| - 1]) else ps
  }

  /** `String.split("/")`: a string without separator gives itself (so "" gives [""]);
      otherwise the pieces with the trailing empty ones removed (so "/" gives []). */
  function JavaSplit(s: string): seq<string> {
    if '/' !in s then [s] else DropTrailingEmpty(Pieces(s))
  }

  /** Joins the parts with '/' in between: the inverse of `Pieces`. */
  function JoinSlash(parts: seq<string>): string
    requires |parts| >= 1
  {
    if |parts| == 1 then parts[0] else parts[0] + "/" + JoinSlash(parts[1..])
  }

  lemma {:induction false} PiecesJoin(parts: seq<string>)
    requires |parts| >= 1
    requires forall k :: 0 <= k < |parts| ==> '/' !in parts[k]
    ensures Pieces(JoinSlash(parts)) == parts
    decreases |parts|
  {
    if |parts| == 1 {
    } else {
      var s := JoinSlash(parts);
      var rest := JoinSlash(parts[1..]);
      assert s == parts[0] + "/" + rest;
      assert s[|parts[0]|] == '/';
      assert s[..|parts[0]|] == parts[0];
      assert IndexOf(s, '/') == |parts[0]| by {
        assert '/' !in s[..|parts[0]|];
      }
      assert s[|parts[0]| + 1..] == rest;
      PiecesJoin(parts[1..]);
    }
  }

  /** Splitting a '/'-joined sequence of separator-free parts whose last part is
      not empty gives the parts back. */
  lemma JavaSplitJoin(parts: seq<string>)
    requires |parts| >= 1 && parts[|parts| - 1] != ""
    requires forall k :: 0 <= k < |parts| ==> '/' !in parts[k]
    ensures JavaSplit(JoinSlash(parts)) == parts
  {
    PiecesJoin(parts);
    if '/' !in JoinSlash(parts) {
      if |parts| > 1 {
        JoinSlashHasSlash(parts);
      }
    }
  }

  lemma JoinSlashHasSlash(parts: seq<string>)
    requires |parts| > 1
    ensures '/' in JoinSlash(parts)
  {
    assert JoinSlash(parts)[|parts[0]|] == '/';
  }
}
