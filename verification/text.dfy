/**
 * String helpers shared by the client components: white space, `trim`,
 * `split(" ")`/`join`, ASCII upper-casing and the lexicographic order that
 * JavaScript's `>` and SQLite's TEXT comparison apply to strings.
 */
module Text {

  /** The white-space characters recognised by `String.prototype.trim` and by `\s`
      (the line terminators, tab, vertical tab, form feed, space, no-break space
      and the byte-order mark; the other Unicode space separators are left out). */
  predicate IsSpace(c: char) {
    c == ' ' || c == '\t' || c == '\n' || c == '\r' || c == '\U{000B}' || c == '\U{000C}'
    || c == '\U{00A0}' || c == '\U{FEFF}' || c == '\U{2028}' || c == '\U{2029}'
  }

  /** Every character of `s` is white space (so `s.trim()` is empty and falsy). */
  predicate AllSpace(s: string) {
    forall k :: 0 <= k < |s| ==> IsSpace(s[k])
  }

  /** `s` contains no white space at all. */
  predicate NoSpace(s: string) {
    forall k :: 0 <= k < |s| ==> !IsSpace(s[k])
  }

  /** Drops the leading white space. */
  function TrimStart(s: string): (r: string)
    ensures |r| <= |s| && r == s[|s| - |r|..]
    ensures r == [] || !IsSpace(r[0])
    ensures forall k :: 0 <= k < |s| - |r| ==> IsSpace(s[k])
  {
    if s != [] && IsSpace(s[0]) then TrimStart(s[1..]) else s
  }

  /** Drops the trailing white space. */
  function TrimEnd(s: string): (r: string)
    ensures |r| <= |s| && r == s[..|r|]
    ensures r == [] || !IsSpace(r[|r| - 1])
    ensures forall k :: |r| <= k < |s| ==> IsSpace(s[k])
  {
    if s != [] && IsSpace(s[|s| - 1]) then TrimEnd(s[..|s| - 1]) else s
  }

  /** `String.prototype.trim`: the slice of `s` left after cutting off the white
      space at both ends. `Trimmed` pins it down (see `TrimmedUnique`). */
  function Trim(s: string): (r: string)
    ensures Trimmed(s, TrimIndex(s), r)
    ensures r == [] <==> AllSpace(s)
  {
    TrimBothFacts(s);
    TrimEnd(TrimStart(s))
  }

  /** Where the trimmed string starts: after the leading white space. */
  function TrimIndex(s: string): (i: nat)
    ensures i <= |s|
  {
    |s| - |TrimStart(s)|
  }

  /** `r` occurs in `s` starting at index `i`. */
  ghost predicate SliceAt(s: string, i: int, r: string) {
    0 <= i <= |s| - |r| && r == s[i..i + |r|]
  }

  /** `r` is `s[i..]` with white space only cut off before and after it, and `r`
      neither starts nor ends with white space. */
  ghost predicate Trimmed(s: string, i: int, r: string) {
    && SliceAt(s, i, r)
    && (forall k :: 0 <= k < i ==> IsSpace(s[k]))
    && (forall k :: i + |r| <= k < |s| ==> IsSpace(s[k]))
    && (r == [] || (!IsSpace(r[0]) && !IsSpace(r[|r| - 1])))
  }

  /** What trimming the start and then the end leaves of `s`. */
  lemma TrimBothFacts(s: string)
    ensures Trimmed(s, TrimIndex(s), TrimEnd(TrimStart(s)))
    ensures TrimEnd(TrimStart(s)) == [] <==> AllSpace(s)
  {
    var t := TrimStart(s);
    var r := TrimEnd(t);
    var i := TrimIndex(s);
    TrimSlice(s, t, i, r);
    CutSuffixSpace(s, t, i, |r|);
    TrimEnds(t, r);
    TrimEmpty(s, t, i, r);
  }

  /** The part `TrimEnd` keeps of `t == s[i..]` is a slice of `s` at `i`. */
  lemma TrimSlice(s: string, t: string, i: int, r: string)
    requires 0 <= i <= |s| && t == s[i..] && |r| <= |t| && r == t[..|r|]
    ensures SliceAt(s, i, r)
  {
    assert r == s[i..][..|r|];
  }

  /** Neither end of what is left is white space. */
  lemma TrimEnds(t: string, r: string)
    requires t == [] || !IsSpace(t[0])
    requires |r| <= |t| && r == t[..|r|]
    requires r == [] || !IsSpace(r[|r| - 1])
    ensures r == [] || (!IsSpace(r[0]) && !IsSpace(r[|r| - 1]))
  {
    if r != [] {
      assert r[0] == t[0];
    }
  }

  /** Nothing is left exactly when `s` is all white space. */
  lemma TrimEmpty(s: string, t: string, i: int, r: string)
    requires 0 <= i <= |s| && t == s[i..]
    requires forall k :: 0 <= k < i ==> IsSpace(s[k])
    requires t == [] || !IsSpace(t[0])
    requires |r| <= |t| && r == t[..|r|]
    requires forall k :: |r| <= k < |t| ==> IsSpace(t[k])
    ensures r == [] <==> AllSpace(s)
  {
    if r == [] {
      assert t == [];
    } else {
      assert s[i] == t[0];
    }
  }

  /** What `TrimEnd` cuts off `t == s[i..]` is white space of `s`. */
  lemma CutSuffixSpace(s: string, t: string, i: int, n: int)
    requires 0 <= i <= |s| && t == s[i..] && 0 <= n <= |t|
    requires forall k :: n <= k < |t| ==> IsSpace(t[k])
    ensures forall k :: i + n <= k < |s| ==> IsSpace(s[k])
  {
    forall k | i + n <= k < |s| ensures IsSpace(s[k]) {
      assert s[k] == t[k - i];
    }
  }

  /** At most one string is `s` trimmed: so `Trim(s)` is exactly that string. */
  lemma TrimmedUnique(s: string, i: int, r: string, j: int, q: string)
    requires Trimmed(s, i, r) && Trimmed(s, j, q)
    ensures r == q
  {
    if r != [] && q != [] {
      FirstNonSpace(s, i, j);
      LastNonSpace(s, i + |r|, j + |q|);
    }
  }

  /** Two indices of a non-space character with only white space before them
      are the same index. */
  lemma FirstNonSpace(s: string, i: int, j: int)
    requires 0 <= i < |s| && 0 <= j < |s|
    requires AllSpace(s[..i]) && !IsSpace(s[i])
    requires AllSpace(s[..j]) && !IsSpace(s[j])
    ensures i == j
  {
  }

  /** Two ends of a non-space character with only white space after them are
      the same end. */
  lemma LastNonSpace(s: string, e: int, f: int)
    requires 0 < e <= |s| && 0 < f <= |s|
    requires AllSpace(s[e..]) && !IsSpace(s[e - 1])
    requires AllSpace(s[f..]) && !IsSpace(s[f - 1])
    ensures e == f
  {
  }

  /** Any string that is `s` trimmed is what `Trim` returns. */
  lemma TrimExact(s: string, i: int, r: string)
    requires Trimmed(s, i, r)
    ensures Trim(s) == r
  {
    TrimmedUnique(s, TrimIndex(s), Trim(s), i, r);
  }

  /** Trimming twice is trimming once. */
  lemma TrimIdempotent(s: string)
    ensures Trim(Trim(s)) == Trim(s)
  {
    var r := Trim(s);
    if r != [] {
      assert TrimStart(r) == r;
      assert TrimEnd(r) == r;
    }
  }

  /** ASCII upper-casing of one character (`toUpperCase` restricted to a-z). */
  function UpperChar(c: char): (u: char)
    ensures 'a' <= c <= 'z' ==> u as int == c as int - 32
    ensures !('a' <= c <= 'z') ==> u == c
  {
    if 'a' <= c <= 'z' then (c as int - 32) as char else c
  }

  /** `toUpperCase` on a whole string, character by character. */
  function Upper(s: string): (r: string)
    ensures |r| == |s|
    ensures forall k :: 0 <= k < |s| ==> r[k] == UpperChar(s[k])
  {
    if s == [] then [] else [UpperChar(s[0])] + Upper(s[1..])
  }

  /** `a < b` on strings: lexicographic order on characters, a proper prefix first. */
  predicate StrLess(a: string, b: string) {
    if a == [] then b != []
    else if b == [] then false
    else if a[0] != b[0] then a[0] < b[0]
    else StrLess(a[1..], b[1..])
  }

  lemma {:induction false} StrLessIrreflexive(a: string)
    ensures !StrLess(a, a)
  {
    if a != [] {
      StrLessIrreflexive(a[1..]);
    }
  }

  lemma {:induction false} StrLessTransitive(a: string, b: string, c: string)
    requires StrLess(a, b) && StrLess(b, c)
    ensures StrLess(a, c)
  {
    if a != [] && b != [] && c != [] && a[0] == b[0] && b[0] == c[0] {
      StrLessTransitive(a[1..], b[1..], c[1..]);
    }
  }

  /** Any two different strings are ordered one way or the other. */
  lemma {:induction false} StrLessTotal(a: string, b: string)
    requires a != b
    ensures StrLess(a, b) || StrLess(b, a)
  {
    if a != [] && b != [] && a[0] == b[0] {
      assert a == [a[0]] + a[1..] && b == [b[0]] + b[1..];
      StrLessTotal(a[1..], b[1..]);
    }
  }

  lemma {:induction false} StrLessAsymmetric(a: string, b: string)
    requires StrLess(a, b)
    ensures !StrLess(b, a)
  {
    if a != [] && b != [] && a[0] == b[0] {
      StrLessAsymmetric(a[1..], b[1..]);
    }
  }

  /** `s.split(" ")`: the pieces between the space characters, empty pieces included. */
  function SplitSpaces(s: string): (r: seq<string>)
    ensures |r| >= 1
    ensures forall k :: 0 <= k < |r| ==> ' ' !in r[k]
  {
    if s == [] then [[]]
    else
      var rest := SplitSpaces(s[1..]);
      if s[0] == ' ' then [[]] + rest else [[s[0]] + rest[0]] + rest[1..]
  }

  /** `pieces.join(" ")`. */
  function JoinSpaces(pieces: seq<string>): string
    requires |pieces| >= 1
  {
    if |pieces| == 1 then pieces[0] else pieces[0] + " " + JoinSpaces(pieces[1..])
  }

  /** Splitting on spaces and joining with spaces gives the string back. */
  lemma {:induction false} SplitJoin(s: string)
    ensures JoinSpaces(SplitSpaces(s)) == s
  {
    if s != [] {
      var rest := SplitSpaces(s[1..]);
      SplitJoin(s[1..]);
      if s[0] == ' ' {
        assert JoinSpaces([[]] + rest) == [] + " " + JoinSpaces(rest);
      } else {
        var first := [s[0]] + rest[0];
        JoinHead(first, rest, s[0]);
      }
    }
  }

  /** Prepending a character to the first piece prepends it to the joined text. */
  lemma JoinHead(first: string, rest: seq<string>, c: char)
    requires |rest| >= 1 && first == [c] + rest[0]
    ensures JoinSpaces([first] + rest[1..]) == [c] + JoinSpaces(rest)
  {
    var pieces := [first] + rest[1..];
    if |rest| == 1 {
      assert pieces == [first];
    } else {
      assert pieces[1..] == rest[1..];
    }
  }
}
