/** The few operations on Python `str` values that the agent code relies on:
    `strip()`, `"\n".join(...)`, the `in` test and the last piece of
    `split(sep)`. A `str` is a sequence of Unicode scalar values.
    `SplitLines` is not one of them: it is the inverse of the newline join,
    used to read a joined tool list back line by line. */
module Text {
  import opened Wrappers

  /** `c.isspace()`: the characters Python strips with `str.strip()` and
      matches with `\s` in a `str` regular expression. */
  predicate IsSpace(c: char) {
    || c == ' '
    || ('\t' <= c <= '\r')
    || ('\U{1c}' <= c <= '\U{1f}')
    || c == '\U{85}' || c == '\U{a0}' || c == '\U{1680}'
    || ('\U{2000}' <= c <= '\U{200a}')
    || c == '\U{2028}' || c == '\U{2029}' || c == '\U{202f}' || c == '\U{205f}'
    || c == '\U{3000}'
  }

  /** `s.lstrip()` */
  function StripLeft(s: string): string {
    if s != [] && IsSpace(s[0]) then StripLeft(s[1..]) else s
  }

  /** `s.rstrip()` */
  function StripRight(s: string): string {
    if s != [] && IsSpace(s[|s| - 1]) then StripRight(s[..|s| - 1]) else s
  }

  /** `s.strip()` */
  function Strip(s: string): string {
    StripRight(StripLeft(s))
  }

  /** `lstrip` removes exactly the leading run of whitespace. */
  lemma {:induction false} StripLeftSpec(s: string)
    ensures var r := StripLeft(s);
      |r| <= |s| && r == s[|s| - |r|..] && (r == [] || !IsSpace(r[0]))
      && forall k :: 0 <= k < |s| - |r| ==> IsSpace(s[k])
    decreases |s|
  {
    if s != [] && IsSpace(s[0]) {
      StripLeftSpec(s[1..]);
      var r := StripLeft(s);
      forall k | 0 <= k < |s| - |r| ensures IsSpace(s[k]) {
        if k > 0 {
          assert s[k] == s[1..][k - 1];
        }
      }
    }
  }

  /** `rstrip` removes exactly the trailing run of whitespace. */
  lemma {:induction false} StripRightSpec(s: string)
    ensures var r := StripRight(s);
      |r| <= |s| && r == s[..|r|] && (r == [] || !IsSpace(r[|r| - 1]))
      && forall k :: |r| <= k < |s| ==> IsSpace(s[k])
    decreases |s|
  {
    if s != [] && IsSpace(s[|s| - 1]) {
      StripRightSpec(s[..|s| - 1]);
      var r := StripRight(s);
      forall k | |r| <= k < |s| ensures IsSpace(s[k]) {
        if k < |s| - 1 {
          assert s[k] == s[..|s| - 1][k];
        }
      }
    }
  }

  /** The result of `strip` neither starts nor ends with whitespace. */
  lemma {:induction false} StripEdges(s: string)
    ensures var r := Strip(s); r == [] || (!IsSpace(r[0]) && !IsSpace(r[|r| - 1]))
  {
    var l := StripLeft(s);
    StripLeftSpec(s);
    StripRightSpec(l);
    var r := StripRight(l);
    if r != [] {
      assert r[0] == l[0];
    }
  }

  /** `Strip(s)` is the part of `s` between a run of leading and a run of
      trailing whitespace. */
  lemma {:induction false} StripInfix(s: string) returns (a: nat, b: nat)
    ensures a <= b <= |s| && Strip(s) == s[a..b]
    ensures forall k :: 0 <= k < a ==> IsSpace(s[k])
    ensures forall k :: b <= k < |s| ==> IsSpace(s[k])
  {
    var l := StripLeft(s);
    var r := StripRight(l);
    StripLeftSpec(s);
    StripRightSpec(l);
    a := |s| - |l|;
    b := a + |r|;
    DropTake(s, a, |r|);
    forall k | b <= k < |s| ensures IsSpace(s[k]) {
      assert s[k] == l[k - a];
    }
  }

  lemma {:induction false} AppendAssoc<T>(a: seq<T>, b: seq<T>, c: seq<T>)
    ensures a + (b + c) == a + b + c
  {
  }

  /** Regrouping a prefix, a newline-prefixed part, and a part of two
      newline-prefixed pieces, without looking at the pieces. */
  lemma {:induction false} Regroup<T>(pre: seq<T>, a: seq<T>, nl: seq<T>, x: seq<T>, y: seq<T>, z: seq<T>)
    ensures pre + (a + (nl + x)) + (nl + y + nl + z) == pre + a + nl + x + nl + y + nl + z
  {
  }

  /** A one-element suffix is the last element. */
  lemma {:induction false} LastOfSuffix<T>(h: seq<T>, e: seq<T>)
    requires |e| == 1 && |e| <= |h| && h[|h| - |e|..] == e
    ensures h != [] && h[|h| - 1] == e[0]
  {
    assert h[|h| - 1] == h[|h| - 1..][0];
  }

  lemma {:induction false} AppendPair<T>(h: seq<T>, a: T, b: T)
    ensures h + [a] + [b] == h + [a, b]
  {
  }

  lemma {:induction false} DropTake(s: string, a: nat, m: nat)
    requires a + m <= |s|
    ensures s[a..][..m] == s[a..a + m]
  {
  }

  /** Text that neither starts nor ends with whitespace is left as it is. */
  lemma {:induction false} StripUnchanged(s: string)
    requires s == [] || (!IsSpace(s[0]) && !IsSpace(s[|s| - 1]))
    ensures Strip(s) == s
  {
    if s != [] {
      assert StripLeft(s) == s;
      assert StripRight(s) == s;
    }
  }

  /** Stripping twice is stripping once. */
  lemma {:induction false} StripIdempotent(s: string)
    ensures Strip(Strip(s)) == Strip(s)
  {
    StripEdges(s);
    StripUnchanged(Strip(s));
  }

  predicate StartsWith(s: string, p: string) {
    |p| <= |s| && s[..|p|] == p
  }

  predicate EndsWith(s: string, p: string) {
    |p| <= |s| && s[|s| - |p|..] == p
  }

  /** `t` occurs in `s` at index `i`. */
  predicate IsAt(s: string, t: string, i: nat) {
    i + |t| <= |s| && s[i..i + |t|] == t
  }

  /** The last index below `i` at which `t` occurs in `s`. */
  function LastBefore(s: string, t: string, i: nat): (r: Option<nat>)
    ensures r.Some? ==> r.value < i && IsAt(s, t, r.value)
    ensures r.Some? ==> forall k :: r.value < k < i ==> !IsAt(s, t, k)
    ensures r.None? ==> forall k :: 0 <= k < i ==> !IsAt(s, t, k)
  {
    if i == 0 then None
    else if IsAt(s, t, i - 1) then Some(i - 1)
    else LastBefore(s, t, i - 1)
  }

  /** The last index at which `t` occurs in `s`. */
  function LastIndex(s: string, t: string): Option<nat> {
    LastBefore(s, t, |s| + 1)
  }

  /** Python's `t in s`. */
  predicate Contains(s: string, t: string) {
    LastIndex(s, t).Some?
  }

  /** A concatenation starts with its first piece and ends with the rest. */
  lemma {:induction false} Framing(a: string, m: string, q: string, u: string, n: string)
    ensures StartsWith(a + m + q + u + n, a) && EndsWith(a + m + q + u + n, q + u + n)
  {
    assert a + m + q + u + n == a + (m + q + u + n);
    assert a + m + q + u + n == (a + m) + (q + u + n);
  }

  /** A string inside `s[a..b]` is inside `s`. */
  lemma {:induction false} ContainsInfix(s: string, a: nat, b: nat, t: string)
    requires a <= b <= |s| && Contains(s[a..b], t)
    ensures Contains(s, t)
  {
    var k := LastIndex(s[a..b], t).value;
    SliceOfSlice(s, a, b, k, k + |t|);
    assert IsAt(s, t, a + k);
  }

  /** A string inside the middle part of a concatenation is inside the whole. */
  lemma {:induction false} ContainsMiddle(x: string, y: string, z: string, t: string)
    requires Contains(y, t)
    ensures Contains(x + y + z, t)
  {
    var s := x + y + z;
    assert s[|x|..|x| + |y|] == y;
    ContainsInfix(s, |x|, |x| + |y|, t);
  }

  /** `s.split(t)[-1]`: the text after the last occurrence of `t`, or all of
      `s` when `t` does not occur. (Python splits left to right without
      overlap; for a separator that cannot overlap itself, such as
      `"Final Answer:"`, the last piece is what follows the last occurrence.) */
  function AfterLast(s: string, t: string): (r: string)
    requires t != []
    ensures |r| <= |s| && r == s[|s| - |r|..]
    ensures !Contains(s, t) ==> r == s
    ensures Contains(s, t) ==> |r| + |t| <= |s| && IsAt(s, t, |s| - |r| - |t|)
    ensures !Contains(r, t)
  {
    match LastIndex(s, t)
    case None => s
    case Some(i) =>
      var r := s[i + |t|..];
      assert !Contains(r, t) by {
        if Contains(r, t) {
          var k := LastIndex(r, t).value;
          var j := i + |t| + k;
          assert IsAt(r, t, k);
          assert r == s[i + |t|..|s|];
          SliceOfSlice(s, i + |t|, |s|, k, k + |t|);
          assert IsAt(s, t, j);
          assert false;
        }
      }
      r
  }

  /** `"\n".join(xs)` */
  function JoinLines(xs: seq<string>): string {
    if |xs| == 0 then ""
    else if |xs| == 1 then xs[0]
    else xs[0] + "\n" + JoinLines(xs[1..])
  }

  /** Each of `xs` preceded by a newline, all concatenated. */
  function NewlinePrefixed(xs: seq<string>): string {
    if xs == [] then "" else "\n" + xs[0] + NewlinePrefixed(xs[1..])
  }

  lemma {:induction false} NewlinePrefixedAppend(xs: seq<string>, ys: seq<string>)
    ensures NewlinePrefixed(xs + ys) == NewlinePrefixed(xs) + NewlinePrefixed(ys)
  {
    if xs != [] {
      assert (xs + ys)[1..] == xs[1..] + ys;
      NewlinePrefixedAppend(xs[1..], ys);
      calc {
        NewlinePrefixed(xs + ys);
        "\n" + xs[0] + NewlinePrefixed(xs[1..] + ys);
        "\n" + xs[0] + (NewlinePrefixed(xs[1..]) + NewlinePrefixed(ys));
        ("\n" + xs[0] + NewlinePrefixed(xs[1..])) + NewlinePrefixed(ys);
        NewlinePrefixed(xs) + NewlinePrefixed(ys);
      }
    } else {
      assert xs + ys == ys;
    }
  }

  /** Joining puts a newline in front of every element but the first. */
  lemma {:induction false} JoinLinesCons(x: string, xs: seq<string>)
    ensures JoinLines([x] + xs) == x + NewlinePrefixed(xs)
    decreases |xs|
  {
    if xs != [] {
      assert ([x] + xs)[1..] == xs;
      assert xs == [xs[0]] + xs[1..];
      JoinLinesCons(xs[0], xs[1..]);
    }
  }

  /** One element, preceded by a newline. */
  lemma {:induction false} NewlinePrefixedOne(x: string)
    ensures NewlinePrefixed([x]) == "\n" + x
  {
    assert [x][1..] == [];
  }

  /** Two elements, each preceded by a newline. */
  lemma {:induction false} NewlinePrefixedTwo(x: string, y: string)
    ensures NewlinePrefixed([x, y]) == "\n" + x + "\n" + y
  {
    assert [x, y][1..] == [y];
    NewlinePrefixedOne(y);
    AppendAssoc("\n" + x, "\n", y);
  }

  /** Joining a head and three runs of elements. */
  lemma {:induction false} JoinLinesLayout(a: string, xs: seq<string>, ys: seq<string>, zs: seq<string>)
    ensures JoinLines([a] + xs + ys + zs)
      == a + NewlinePrefixed(xs) + NewlinePrefixed(ys) + NewlinePrefixed(zs)
  {
    assert [a] + xs + ys + zs == [a] + (xs + ys + zs);
    JoinLinesCons(a, xs + ys + zs);
    NewlinePrefixedAppend(xs + ys, zs);
    NewlinePrefixedAppend(xs, ys);
    AppendAssoc(a, NewlinePrefixed(xs) + NewlinePrefixed(ys), NewlinePrefixed(zs));
    AppendAssoc(a, NewlinePrefixed(xs), NewlinePrefixed(ys));
  }

  /** When every element ends with `c`, so does their prefixed concatenation
      (unless it is empty). */
  lemma {:induction false} NewlinePrefixedLast(xs: seq<string>, c: char)
    requires forall k :: 0 <= k < |xs| ==> xs[k] != [] && xs[k][|xs[k]| - 1] == c
    ensures var p := NewlinePrefixed(xs); p == [] <==> xs == []
    ensures var p := NewlinePrefixed(xs); p != [] ==> p[|p| - 1] == c
  {
    if xs != [] {
      NewlinePrefixedLast(xs[1..], c);
    }
  }

  /** The index of the first newline in `s`. */
  function FirstNewline(s: string): (r: Option<nat>)
    ensures r.Some? ==> r.value < |s| && s[r.value] == '\n' && '\n' !in s[..r.value]
    ensures r.None? ==> '\n' !in s
  {
    if s == [] then None
    else if s[0] == '\n' then Some(0)
    else match FirstNewline(s[1..])
      case None => None
      case Some(i) =>
        assert s[..i + 1] == [s[0]] + s[1..][..i];
        Some(i + 1)
  }

  /** The first newline is the only one with no newline before it. */
  lemma {:induction false} FirstNewlineIs(s: string, i: nat)
    requires i < |s| && s[i] == '\n' && '\n' !in s[..i]
    ensures FirstNewline(s) == Some(i)
    decreases i
  {
    if i > 0 {
      assert s[0] == s[..i][0];
      assert s[1..][..i - 1] == s[..i][1..];
      FirstNewlineIs(s[1..], i - 1);
    }
  }

  /** The pieces of `s` between newlines: the inverse of joining with
      `"\n"`, the same value Python's `s.split("\n")` gives. */
  function SplitLines(s: string): (r: seq<string>)
    ensures |r| >= 1
    decreases |s|
  {
    match FirstNewline(s)
    case None => [s]
    case Some(i) => [s[..i]] + SplitLines(s[i + 1..])
  }

  /** Splitting and joining again gives back the text. */
  lemma {:induction false} JoinSplitLines(s: string)
    ensures JoinLines(SplitLines(s)) == s
    decreases |s|
  {
    match FirstNewline(s)
    case None =>
    case Some(i) =>
      var t := SplitLines(s[i + 1..]);
      JoinSplitLines(s[i + 1..]);
      assert SplitLines(s)[1..] == t;
      assert s == s[..i] + "\n" + s[i + 1..];
  }

  /** No piece of a split holds a newline. */
  lemma {:induction false} SplitLinesNewlineFree(s: string)
    ensures forall k :: 0 <= k < |SplitLines(s)| ==> '\n' !in SplitLines(s)[k]
    decreases |s|
  {
    match FirstNewline(s)
    case None =>
    case Some(i) =>
      SplitLinesNewlineFree(s[i + 1..]);
      assert SplitLines(s)[1..] == SplitLines(s[i + 1..]);
  }

  /** The first newline of `x + "\n" + y`, for a newline-free `x`. */
  lemma {:induction false} FirstNewlineAfter(x: string, y: string)
    requires '\n' !in x
    ensures var s := x + "\n" + y; FirstNewline(s) == Some(|x|) && s[..|x|] == x && s[|x| + 1..] == y
  {
    var s := x + "\n" + y;
    assert s[..|x|] == x;
    assert s[|x| + 1..] == y;
    FirstNewlineIs(s, |x|);
  }

  /** Splitting a join of newline-free lines gives back the lines. */
  lemma {:induction false} SplitJoinLines(xs: seq<string>)
    requires |xs| >= 1
    requires forall k :: 0 <= k < |xs| ==> '\n' !in xs[k]
    ensures SplitLines(JoinLines(xs)) == xs
    decreases |xs|
  {
    if |xs| > 1 {
      var rest := JoinLines(xs[1..]);
      FirstNewlineAfter(xs[0], rest);
      SplitJoinLines(xs[1..]);
      assert [xs[0]] + xs[1..] == xs;
    }
  }

  /** Each element of `xs` occurs in their newline-prefixed concatenation. */
  lemma {:induction false} NewlinePrefixedContains(xs: seq<string>, k: nat)
    requires k < |xs|
    ensures Contains(NewlinePrefixed(xs), xs[k])
  {
    var p := NewlinePrefixed(xs);
    if k == 0 {
      assert p[1..1 + |xs[0]|] == xs[0];
      assert IsAt(p, xs[0], 1);
    } else {
      NewlinePrefixedContains(xs[1..], k - 1);
      var tail := NewlinePrefixed(xs[1..]);
      assert p == ("\n" + xs[0]) + tail;
      assert p[|"\n" + xs[0]|..|p|] == tail;
      assert xs[1..][k - 1] == xs[k];
      ContainsInfix(p, |"\n" + xs[0]|, |p|, xs[k]);
    }
  }

  lemma {:induction false} SliceOfSlice<T>(s: seq<T>, a: nat, b: nat, i: nat, j: nat)
    requires a <= b <= |s| && i <= j <= b - a
    ensures s[a..b][i..j] == s[a + i..a + j]
  {
    forall k | 0 <= k < j - i ensures s[a..b][i..j][k] == s[a + i + k] {
      assert s[a..b][i..j][k] == s[a..b][i + k];
    }
  }
}
