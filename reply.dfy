/** Reading a model reply: the `Final Answer:` test, and the search for a
    directive line such as `Tool: <name>` with `re.search(key + r"\s*(.+)")`.
    Both agent loops read replies this way, each with its own pair of keys. */
module Reply {
  import opened Wrappers
  import opened Text

  const FINAL: string := "Final Answer:"

  // ---------------------------------------------------------------------
  // The regular expression `key\s*(.+)`
  // ---------------------------------------------------------------------

  /** `s[j..q]` is all whitespace: `\s*` can match it. */
  predicate SpacesBetween(s: string, j: nat, q: nat) {
    q <= |s| && forall k :: j <= k < q ==> IsSpace(s[k])
  }

  /** After `\s*` has matched `s[j..q]`, the group `(.+)` can start at `q`
      (`.` is any character except a newline). */
  predicate CanStart(s: string, j: nat, q: nat) {
    j <= q < |s| && q <= |s| && SpacesBetween(s, j, q) && s[q] != '\n'
  }

  /** The length of the whitespace run at `j`. */
  function SpaceRun(s: string, j: nat): (n: nat)
    requires j <= |s|
    ensures j + n <= |s| && SpacesBetween(s, j, j + n)
    ensures j + n == |s| || !IsSpace(s[j + n])
    decreases |s| - j
  {
    if j < |s| && IsSpace(s[j]) then 1 + SpaceRun(s, j + 1) else 0
  }

  /** The end of the line holding position `q`: what greedy `.+` reaches. */
  function LineEnd(s: string, q: nat): (e: nat)
    requires q <= |s|
    ensures q <= e <= |s| && (e == |s| || s[e] == '\n')
    ensures forall k :: q <= k < e ==> s[k] != '\n'
    decreases |s| - q
  {
    if q == |s| || s[q] == '\n' then q else LineEnd(s, q + 1)
  }

  /** The last position in `[j, e)` that is not a newline. */
  function LastNonNewline(s: string, j: nat, e: nat): (r: Option<nat>)
    requires e <= |s|
    ensures r.Some? ==> j <= r.value < e && s[r.value] != '\n'
    ensures r.Some? ==> forall k :: r.value < k < e ==> s[k] == '\n'
    ensures r.None? ==> forall k :: j <= k < e ==> s[k] == '\n'
    decreases e
  {
    if e <= j then None
    else if s[e - 1] != '\n' then Some(e - 1)
    else LastNonNewline(s, j, e - 1)
  }

  /** Where the group starts after `key` has matched up to `j`: `\s*` takes
      the whole whitespace run when a non-space follows it; when the run
      reaches the end of the text, it gives back characters until `.` can
      match, i.e. up to the last character that is not a newline. */
  function GroupStart(s: string, j: nat): (r: Option<nat>)
    requires j <= |s|
    ensures r.Some? ==> CanStart(s, j, r.value)
  {
    var n := SpaceRun(s, j);
    if j + n < |s| then Some(j + n)
    else
      match LastNonNewline(s, j, |s|)
      case None => None
      case Some(q) =>
        assert SpacesBetween(s, j, j + n);
        Some(q)
  }

  /** The group `(.+)` of a match whose key ends at `j`, if `\s*(.+)` matches there. */
  function GroupAt(s: string, j: nat): (r: Option<string>)
    requires j <= |s|
  {
    match GroupStart(s, j)
    case None => None
    case Some(q) => Some(s[q..LineEnd(s, q)])
  }

  /** The regular expression's choice: `\s*` is greedy, so the group starts
      at the LAST position it can start at, and there is a match exactly when
      some position can start the group. */
  lemma {:induction false} GroupStartGreedy(s: string, j: nat)
    requires j <= |s|
    ensures GroupStart(s, j).Some? ==>
      forall q :: GroupStart(s, j).value < q < |s| ==> !CanStart(s, j, q)
    ensures GroupStart(s, j).None? <==> forall q :: j <= q < |s| ==> !CanStart(s, j, q)
  {
    var n := SpaceRun(s, j);
    if j + n < |s| {
      forall q | j + n < q < |s| ensures !CanStart(s, j, q) {
        assert !IsSpace(s[j + n]);
      }
    } else {
      var r := LastNonNewline(s, j, |s|);
      if r.None? {
        forall q | j <= q < |s| ensures !CanStart(s, j, q) {
          assert s[q] == '\n';
        }
      } else {
        assert CanStart(s, j, r.value);
      }
    }
  }

  /** A group is one non-empty line fragment. */
  lemma {:induction false} GroupShape(s: string, j: nat)
    requires j <= |s| && GroupAt(s, j).Some?
    ensures var g := GroupAt(s, j).value; g != [] && '\n' !in g
  {
    var q := GroupStart(s, j).value;
    var e := LineEnd(s, q);
    var g := s[q..e];
    assert g[0] == s[q];
    forall k | 0 <= k < |g| ensures g[k] != '\n' {
      assert g[k] == s[q + k];
    }
  }

  /** There is no match after `j` exactly when nothing but newlines follows. */
  lemma {:induction false} GroupAtNone(s: string, j: nat)
    requires j <= |s|
    ensures GroupAt(s, j).None? <==> forall k :: j <= k < |s| ==> s[k] == '\n'
  {
    GroupStartGreedy(s, j);
    if GroupAt(s, j).None? {
      forall k | j <= k < |s| ensures s[k] == '\n' {
        var n := SpaceRun(s, j);
        assert j + n == |s|;
        assert !CanStart(s, j, k);
        assert SpacesBetween(s, j, k);
      }
    } else {
      var q := GroupStart(s, j).value;
      assert s[q] != '\n';
    }
  }

  /** `key\s*(.+)` matches with `key` at `p`. */
  predicate MatchesAt(s: string, key: string, p: nat) {
    IsAt(s, key, p) && GroupAt(s, p + |key|).Some?
  }

  /** `re.search`: the leftmost position at or after `p` where the pattern
      matches, and its group. */
  function SearchFrom(s: string, key: string, p: nat): (r: Option<string>)
    decreases |s| - p
  {
    if p + |key| > |s| then None
    else if MatchesAt(s, key, p) then GroupAt(s, p + |key|)
    else SearchFrom(s, key, p + 1)
  }

  function Search(s: string, key: string): Option<string> {
    SearchFrom(s, key, 0)
  }

  /** The search finds the group of the leftmost match, and finds nothing
      only when the pattern matches nowhere. */
  lemma {:induction false} SearchFromLeftmost(s: string, key: string, p: nat)
    ensures SearchFrom(s, key, p).Some? ==>
      exists m: nat :: (p <= m && MatchesAt(s, key, m)
        && SearchFrom(s, key, p) == GroupAt(s, m + |key|)
        && forall k :: p <= k < m ==> !MatchesAt(s, key, k))
    ensures SearchFrom(s, key, p).None? <==> forall k :: p <= k ==> !MatchesAt(s, key, k)
    decreases |s| - p
  {
    if p + |key| > |s| {
      forall k | p <= k ensures !MatchesAt(s, key, k) {
        assert !IsAt(s, key, k);
      }
    } else if MatchesAt(s, key, p) {
    } else {
      SearchFromLeftmost(s, key, p + 1);
      if SearchFrom(s, key, p).Some? {
        var m :| p + 1 <= m && MatchesAt(s, key, m)
          && SearchFrom(s, key, p + 1) == GroupAt(s, m + |key|)
          && forall k :: p + 1 <= k < m ==> !MatchesAt(s, key, k);
        assert forall k :: p <= k < m ==> !MatchesAt(s, key, k);
      }
    }
  }

  /** `Search` is `re.search(key + r"\s*(.+)", s)`: a match at the leftmost
      occurrence of `key` that some non-newline character follows. */
  lemma {:induction false} SearchLeftmost(s: string, key: string)
    ensures Search(s, key).Some? ==>
      exists m: nat :: (MatchesAt(s, key, m)
        && Search(s, key) == GroupAt(s, m + |key|)
        && forall k :: 0 <= k < m ==> !MatchesAt(s, key, k))
    ensures Search(s, key).None? <==> forall k :: 0 <= k ==> !MatchesAt(s, key, k)
  {
    SearchFromLeftmost(s, key, 0);
  }

  // ---------------------------------------------------------------------
  // Replies
  // ---------------------------------------------------------------------

  /** What a loop makes of one stripped reply. */
  datatype Reading =
      /** the text after the last `Final Answer:`, stripped */
    | Answer(answer: string)
      /** both directives found: the stripped name and input groups */
    | Directive(name: string, input: string)
      /** a directive is missing */
    | NoDirective

  /** The reply test both loops share: `Final Answer:` first, then the two
      directive searches with their groups stripped. */
  function Read(text: string, nameKey: string, inputKey: string): (r: Reading)
    ensures r.Answer? <==> Contains(text, FINAL)
  {
    if Contains(text, FINAL) then Answer(Strip(AfterLast(text, FINAL)))
    else
      match (Search(text, nameKey), Search(text, inputKey))
      case (Some(a), Some(b)) => Directive(Strip(a), Strip(b))
      case _ => NoDirective
  }

  /** A final answer is the text after the last `Final Answer:` (the last
      index at which it occurs), stripped, and it holds no `Final Answer:`
      itself. A `Tool:`/`Action:` line does
      not change this: the test comes first. */
  lemma {:induction false} ReadAnswer(text: string, nameKey: string, inputKey: string)
    requires Contains(text, FINAL)
    ensures Read(text, nameKey, inputKey).Answer?
    ensures var a := Read(text, nameKey, inputKey).answer;
      !Contains(a, FINAL) && a == Strip(text[LastIndex(text, FINAL).value + |FINAL|..])
  {
    var tail := AfterLast(text, FINAL);
    var a, b := StripInfix(tail);
    if Contains(Strip(tail), FINAL) {
      ContainsInfix(tail, a, b, FINAL);
    }
  }

  /** A directive is read exactly when there is no final answer and both
      searches match; otherwise the reply has no directive. */
  lemma {:induction false} ReadDirective(text: string, nameKey: string, inputKey: string)
    ensures Read(text, nameKey, inputKey).Directive? <==>
      !Contains(text, FINAL) && Search(text, nameKey).Some? && Search(text, inputKey).Some?
    ensures Read(text, nameKey, inputKey).Directive? ==>
      Read(text, nameKey, inputKey).name == Strip(Search(text, nameKey).value)
      && Read(text, nameKey, inputKey).input == Strip(Search(text, inputKey).value)
    ensures Read(text, nameKey, inputKey).NoDirective? <==>
      !Contains(text, FINAL) && (Search(text, nameKey).None? || Search(text, inputKey).None?)
  {
  }
}
