/** The string primitives the record pipeline relies on: `trim`, `split`,
    `includes`, and the line/field joining used when exporting. Strings are
    sequences of Unicode scalar values. */
module Text {

  /** The characters `String.prototype.trim` strips: the WhiteSpace and
      LineTerminator code points of ECMA-262 (tab, vertical tab, form feed,
      the space separators of category Zs, the byte order mark, and the four
      line terminators). */
  predicate IsSpace(c: char) {
    c in {'\t', '\n', '\U{B}', '\U{C}', '\r', ' ', '\U{A0}', '\U{1680}',
          '\U{2000}', '\U{2001}', '\U{2002}', '\U{2003}', '\U{2004}', '\U{2005}',
          '\U{2006}', '\U{2007}', '\U{2008}', '\U{2009}', '\U{200A}',
          '\U{2028}', '\U{2029}', '\U{202F}', '\U{205F}', '\U{3000}', '\U{FEFF}'}
  }

  predicate AllSpace(s: string) {
    forall k :: 0 <= k < |s| ==> IsSpace(s[k])
  }

  /** `s.includes(pat)`: `pat` occurs in `s` as a contiguous piece. */
  predicate Contains(s: string, pat: string) {
    exists i :: 0 <= i <= |s| - |pat| && OccursAt(s, pat, i)
  }

  /** `pat` occurs in `s` starting at index `i`. */
  predicate OccursAt(s: string, pat: string, i: int) {
    0 <= i <= |s| - |pat| && s[i..i + |pat|] == pat
  }

  /** `r` occurs in `s` at `i`, and everything around it is space. */
  predicate TrimmedAt(s: string, r: string, i: int) {
    OccursAt(s, r, i) && AllSpace(s[..i]) && AllSpace(s[i + |r|..])
  }

  /** Number of occurrences of the character `c` in `s`. */
  function Count(s: string, c: char): nat {
    multiset(s)[c]
  }

  /** Drops leading trim-space: what is dropped is all space, what is kept
      is a suffix of `s` that does not start with space. */
  function TrimStart(s: string): (r: string)
    ensures |r| <= |s| && r == s[|s| - |r|..]
    ensures forall k :: 0 <= k < |s| - |r| ==> IsSpace(s[k])
    ensures r == [] || !IsSpace(r[0])
  {
    if |s| > 0 && IsSpace(s[0]) then TrimStart(s[1..]) else s
  }

  /** Drops trailing trim-space: what is dropped is all space, what is kept
      is a prefix of `s` that does not end with space. */
  function TrimEnd(s: string): (r: string)
    ensures |r| <= |s| && r == s[..|r|]
    ensures forall k :: |r| <= k < |s| ==> IsSpace(s[k])
    ensures r == [] || !IsSpace(r[|r| - 1])
  {
    if |s| > 0 && IsSpace(s[|s| - 1]) then TrimEnd(s[..|s| - 1]) else s
  }

  /** `s.trim()`: the piece of `s` left once the white space at both ends
      is cut off. What is cut is all space; the piece is empty exactly when
      `s` is all space, and otherwise neither starts nor ends with space. */
  function Trim(s: string): (r: string)
    ensures TrimmedAt(s, r, |s| - |TrimStart(s)|)
    ensures Contains(s, r)
    ensures r == [] <==> AllSpace(s)
    ensures r != [] ==> !IsSpace(r[0]) && !IsSpace(r[|r| - 1])
  {
    TrimCut(s);
    TrimPiece(s);
    TrimEnd(TrimStart(s))
  }

  /** What trimming cuts from either end is space. */
  lemma TrimCut(s: string)
    ensures TrimmedAt(s, TrimEnd(TrimStart(s)), |s| - |TrimStart(s)|)
  {
    var t := TrimStart(s);
    var r := TrimEnd(t);
    var i := |s| - |t|;
    assert s[i..i + |r|] == r;
    assert s[i + |r|..] == t[|r|..];
  }

  lemma TrimPiece(s: string)
    ensures var r := TrimEnd(TrimStart(s));
      && Contains(s, r)
      && (r == [] <==> AllSpace(s))
  {
    var t := TrimStart(s);
    var r := TrimEnd(t);
    var i := |s| - |t|;
    assert OccursAt(s, r, i);
    if r != [] {
      assert !IsSpace(s[i]) by { assert t[0] == s[i]; }
    }
  }

  /** Text that neither starts nor ends with space is its own trim. */
  lemma TrimUnpadded(s: string)
    requires s != [] && !IsSpace(s[0]) && !IsSpace(s[|s| - 1])
    ensures Trim(s) == s
  {
    assert TrimStart(s) == s;
  }

  /** Trimming twice is trimming once. */
  lemma TrimIdempotent(s: string)
    ensures Trim(Trim(s)) == Trim(s)
  {
    var r := Trim(s);
    if r != [] {
      TrimUnpadded(r);
    }
  }

  /** Index of the first `c` in `s`. */
  function FirstIndex(s: string, c: char): (i: nat)
    requires c in s
    ensures i < |s| && s[i] == c && c !in s[..i]
  {
    if s[0] == c then 0
    else
      assert c in s[1..] by { var j :| 0 <= j < |s| && s[j] == c; assert s[1..][j - 1] == c; }
      var j := FirstIndex(s[1..], c);
      assert s[..j + 1] == [s[0]] + s[1..][..j];
      j + 1
  }

  /** `parts.join(sep)` with a one-character separator. */
  function Join(parts: seq<string>, sep: char): string
    requires |parts| > 0
  {
    if |parts| == 1 then parts[0] else parts[0] + [sep] + Join(parts[1..], sep)
  }

  /** `s.split(sep)` with a one-character separator: the pieces between
      consecutive separators. There is one piece more than there are
      separators, no piece holds the separator, and joining the pieces
      back gives `s`. */
  function Split(s: string, sep: char): (parts: seq<string>)
    ensures |parts| == Count(s, sep) + 1
    ensures forall k :: 0 <= k < |parts| ==> sep !in parts[k]
    ensures Join(parts, sep) == s
    decreases |s|
  {
    if sep in s then
      var i := FirstIndex(s, sep);
      assert s == s[..i] + [sep] + s[i + 1..];
      assert multiset(s) == multiset(s[..i]) + multiset{sep} + multiset(s[i + 1..]) by {
        calc {
          multiset(s);
          multiset(s[..i] + [sep] + s[i + 1..]);
          multiset(s[..i]) + multiset{sep} + multiset(s[i + 1..]);
        }
      }
      assert multiset(s[..i])[sep] == 0;
      [s[..i]] + Split(s[i + 1..], sep)
    else
      assert multiset(s)[sep] == 0;
      [s]
  }

  /** The first separator after a separator-free prefix is the one right
      after it. */
  lemma {:induction false} FirstIndexAfter(p: string, sep: char, rest: string)
    requires sep !in p
    ensures sep in p + [sep] + rest
    ensures FirstIndex(p + [sep] + rest, sep) == |p|
  {
    var s := p + [sep] + rest;
    assert s[|p|] == sep;
    if p != [] {
      assert s[1..] == p[1..] + [sep] + rest;
      assert s[0] == p[0];
      FirstIndexAfter(p[1..], sep, rest);
    }
  }

  /** Splitting undoes joining, provided no piece holds the separator. */
  lemma {:induction false} SplitJoin(parts: seq<string>, sep: char)
    requires |parts| > 0
    requires forall k :: 0 <= k < |parts| ==> sep !in parts[k]
    ensures Split(Join(parts, sep), sep) == parts
  {
    var p := parts[0];
    if |parts| == 1 {
      assert sep !in p;
    } else {
      var rest := Join(parts[1..], sep);
      var s := p + [sep] + rest;
      assert sep !in p;
      FirstIndexAfter(p, sep, rest);
      assert s[..|p|] == p;
      assert s[|p| + 1..] == rest;
      assert Split(s, sep) == [p] + Split(rest, sep);
      SplitJoin(parts[1..], sep);
      assert parts == [p] + parts[1..];
    }
  }

  lemma JoinThree(a: string, b: string, c: string, sep: char)
    ensures Join([a, b, c], sep) == a + [sep] + b + [sep] + c
  {
    assert [a, b, c][1..] == [b, c];
    assert [b, c][1..] == [c];
    assert Join([c], sep) == c;
    assert Join([b, c], sep) == b + [sep] + c;
    assert Join([a, b, c], sep) == a + [sep] + (b + [sep] + c);
  }

  /** A string with exactly two separators is the join of its three pieces:
      every such string has the shape `a + sep + b + sep + c`. */
  lemma TwoSeparators(s: string, sep: char)
    requires Count(s, sep) == 2
    ensures var parts := Split(s, sep);
      |parts| == 3 && s == parts[0] + [sep] + parts[1] + [sep] + parts[2]
  {
    var parts := Split(s, sep);
    assert parts == [parts[0], parts[1], parts[2]];
    JoinThree(parts[0], parts[1], parts[2], sep);
  }

  /** Number of separators in a join of separator-free pieces. */
  lemma {:induction false} CountJoin(parts: seq<string>, sep: char)
    requires |parts| > 0
    ensures Count(Join(parts, sep), sep) == |parts| - 1 + SumCounts(parts, sep)
  {
    if |parts| > 1 {
      CountJoin(parts[1..], sep);
      var rest := Join(parts[1..], sep);
      assert multiset(parts[0] + [sep] + rest) == multiset(parts[0]) + multiset{sep} + multiset(rest);
    }
  }

  /** Total number of separators held inside the pieces. */
  function SumCounts(parts: seq<string>, sep: char): nat
  {
    if |parts| == 0 then 0 else Count(parts[0], sep) + SumCounts(parts[1..], sep)
  }

  lemma {:induction false} SumCountsZero(parts: seq<string>, sep: char)
    ensures SumCounts(parts, sep) == 0 <==> forall k :: 0 <= k < |parts| ==> sep !in parts[k]
  {
    if |parts| > 0 {
      SumCountsZero(parts[1..], sep);
      assert forall k :: 1 <= k < |parts| ==> parts[k] == parts[1..][k - 1];
    }
  }
}
