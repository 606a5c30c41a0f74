/** The ChatML prompt codec of `src/chatml.py`: role markers, blocks, the
    assembled prompt, and the sanitizer that defuses reserved tokens in
    user text. */
module ChatML {
  import opened Wrappers
  import opened Text

  const BEGIN: string := "<|begin_of_text|>"
  const END: string := "<|end_of_text|>"
  const ValidRoles: seq<string> := ["system", "assistant", "user"]

  /** `CHATML_TOKENS` */
  const ReservedTokens: set<string> := {
    "<|system|>", "<|user|>", "<|assistant|>",
    "<|begin_of_text|>", "<|end_of_text|>",
    "<|im_start|>", "<|im_end|>"
  }

  /** One `(role, message)` entry of a conversation history. */
  datatype Turn = Turn(role: string, text: string)

  // ---------------------------------------------------------------------
  // Reserved tokens and the sanitizer
  // ---------------------------------------------------------------------

  /** A character of the class `[a-z_]`. */
  predicate IsNameChar(c: char) {
    ('a' <= c <= 'z') || c == '_'
  }

  /** `t` is, as a whole, a match of `<\|[a-z_]+?\|>`. */
  predicate IsToken(t: string) {
    && |t| >= 5
    && t[0] == '<' && t[1] == '|'
    && t[|t| - 2] == '|' && t[|t| - 1] == '>'
    && forall k :: 2 <= k < |t| - 2 ==> IsNameChar(t[k])
  }

  /** No substring of `s` is a reserved-token match. */
  predicate TokenFree(s: string) {
    forall i, j :: 0 <= i <= j <= |s| ==> !IsToken(s[i..j])
  }

  /** The number of `[a-z_]` characters in a row from index `i` of `s`. */
  function NameRun(s: string, i: nat): (n: nat)
    requires i <= |s|
    ensures i + n <= |s|
    decreases |s| - i
  {
    if i < |s| && IsNameChar(s[i]) then 1 + NameRun(s, i + 1) else 0
  }

  /** The run is made of name characters and cannot be extended. */
  lemma {:induction false} NameRunMaximal(s: string, i: nat)
    requires i <= |s|
    ensures forall k :: i <= k < i + NameRun(s, i) ==> IsNameChar(s[k])
    ensures i + NameRun(s, i) < |s| ==> !IsNameChar(s[i + NameRun(s, i)])
    decreases |s| - i
  {
    if i < |s| && IsNameChar(s[i]) {
      NameRunMaximal(s, i + 1);
    }
  }

  /** A maximal run of `m` name characters is what `NameRun` counts. */
  lemma {:induction false} NameRunExact(s: string, i: nat, m: nat)
    requires i + m <= |s|
    requires forall k :: i <= k < i + m ==> IsNameChar(s[k])
    requires i + m == |s| || !IsNameChar(s[i + m])
    ensures NameRun(s, i) == m
    decreases m
  {
    if m > 0 {
      NameRunExact(s, i + 1, m - 1);
    }
  }

  /** The length of the match of `<\|[a-z_]+?\|>` that starts at index `i`
      of `s`, or 0 when none does. Since `|` is outside the name class, the
      lazy and the greedy readings of the pattern agree: the name is the
      whole run of `[a-z_]` after `<|`. */
  function MatchAt(s: string, i: nat): (n: nat)
    requires i <= |s|
    ensures i + n <= |s|
  {
    if i + 1 < |s| && s[i] == '<' && s[i + 1] == '|' then
      var k := NameRun(s, i + 2);
      if 0 < k && i + 3 + k < |s| && s[i + 2 + k] == '|' && s[i + 3 + k] == '>' then k + 4 else 0
    else 0
  }

  /** What `MatchAt` finds is a reserved-token match. */
  lemma {:induction false} MatchAtIsToken(s: string, i: nat)
    requires i <= |s|
    ensures MatchAt(s, i) > 0 ==> IsToken(s[i..i + MatchAt(s, i)])
  {
    var n := MatchAt(s, i);
    if n > 0 {
      NameRunMaximal(s, i + 2);
      var t := s[i..i + n];
      forall k | 2 <= k < n - 2 ensures IsNameChar(t[k]) {
        assert t[k] == s[i + k];
      }
    }
  }

  /** A reserved-token match at index `i` is what `MatchAt` finds. */
  lemma {:induction false} MatchAtFinds(s: string, i: nat, j: nat)
    requires i <= j <= |s| && IsToken(s[i..j])
    ensures MatchAt(s, i) == j - i
  {
    var t := s[i..j];
    assert forall k :: i + 2 <= k < j - 2 ==> s[k] == t[k - i];
    assert s[j - 2] == t[|t| - 2];
    NameRunExact(s, i + 2, j - i - 4);
  }

  /** No reserved-token match starts anywhere in `s`. */
  predicate NoMatch(s: string) {
    forall i :: 0 <= i < |s| ==> MatchAt(s, i) == 0
  }

  lemma {:induction false} TokenFreeIff(s: string)
    ensures TokenFree(s) <==> NoMatch(s)
  {
    if TokenFree(s) {
      forall i | 0 <= i < |s| ensures MatchAt(s, i) == 0 {
        MatchAtIsToken(s, i);
      }
    }
    if NoMatch(s) {
      forall i, j | 0 <= i <= j <= |s| ensures !IsToken(s[i..j]) {
        if IsToken(s[i..j]) {
          MatchAtFinds(s, i, j);
        }
      }
    }
  }

  /** The pattern looks only forward: text put in front does not change a
      match. */
  lemma {:induction false} NameRunShift(p: string, s: string, i: nat)
    requires i <= |s|
    ensures NameRun(p + s, |p| + i) == NameRun(s, i)
    decreases |s| - i
  {
    if i < |s| {
      assert (p + s)[|p| + i] == s[i];
      NameRunShift(p, s, i + 1);
    }
  }

  lemma {:induction false} MatchAtShift(p: string, s: string, i: nat)
    requires i <= |s|
    ensures MatchAt(p + s, |p| + i) == MatchAt(s, i)
  {
    if i + 2 <= |s| {
      NameRunShift(p, s, i + 2);
    }
  }

  /** The sanitized text of `s[i..]`: every match `<|name|>`, scanned left to
      to right without overlap, becomes `[name]`; other characters are
      copied. */
  function SanitizeFrom(s: string, i: nat): (r: string)
    requires i <= |s|
    ensures |r| <= |s| - i
    decreases |s| - i
  {
    if i == |s| then []
    else
      var n := MatchAt(s, i);
      if n > 0 then "[" + s[i + 2..i + n - 2] + "]" + SanitizeFrom(s, i + n)
      else [s[i]] + SanitizeFrom(s, i + 1)
  }

  /** `sanitize_chatml_input` */
  function Sanitize(s: string): (r: string)
    ensures |r| <= |s|
  {
    SanitizeFrom(s, 0)
  }

  /** One step of the scan at a match. */
  lemma {:induction false} SanitizeMatchOne(s: string, i: nat)
    requires i < |s| && MatchAt(s, i) > 0
    ensures SanitizeFrom(s, i) == "[" + s[i + 2..i + MatchAt(s, i) - 2] + "]" + SanitizeFrom(s, i + MatchAt(s, i))
  {
  }

  /** One step of the scan at a character that starts no match. */
  lemma {:induction false} SanitizeCopyOne(s: string, i: nat)
    requires i < |s| && MatchAt(s, i) == 0
    ensures SanitizeFrom(s, i) == [s[i]] + SanitizeFrom(s, i + 1)
  {
  }

  /** The step at a match, with the match given by its end. */
  lemma {:induction false} SanitizeMatchUpTo(s: string, i: nat, j: nat)
    requires i < j <= |s| && MatchAt(s, i) == j - i
    ensures SanitizeFrom(s, i) == "[" + s[i + 2..j - 2] + "]" + SanitizeFrom(s, j)
  {
    SanitizeMatchOne(s, i);
    assert i + MatchAt(s, i) == j;
    assert i + MatchAt(s, i) - 2 == j - 2;
  }

  /** Each match `<|name|>` is rewritten to `[name]`, and sanitizing goes on
      right after it. */
  lemma {:induction false} SanitizeToken(s: string, i: nat, j: nat)
    requires i <= j <= |s| && IsToken(s[i..j])
    ensures SanitizeFrom(s, i) == "[" + s[i + 2..j - 2] + "]" + SanitizeFrom(s, j)
  {
    MatchAtFinds(s, i, j);
    SanitizeMatchUpTo(s, i, j);
  }

  /** The first character of the output: `[` for a match, else the input's. */
  lemma {:induction false} SanitizeHead(s: string, i: nat)
    requires i < |s|
    ensures SanitizeFrom(s, i) != []
    ensures SanitizeFrom(s, i)[0] == if MatchAt(s, i) > 0 then '[' else s[i]
  {
  }

  /** Peeling the first element off a slice in front of more text. */
  lemma {:induction false} ConsSlice(s: string, i: nat, j: nat, t: string)
    requires i < j <= |s|
    ensures [s[i]] + (s[i + 1..j] + t) == s[i..j] + t
  {
    assert s[i..j] == [s[i]] + s[i + 1..j];
  }

  /** Text without `<` is copied unchanged. */
  lemma {:induction false} SanitizeCopies(s: string, i: nat, j: nat)
    requires i <= j <= |s|
    requires forall k :: i <= k < j ==> s[k] != '<'
    ensures SanitizeFrom(s, i) == s[i..j] + SanitizeFrom(s, j)
    decreases j - i
  {
    if i < j {
      assert MatchAt(s, i) == 0;
      SanitizeCopyOne(s, i);
      SanitizeCopies(s, i + 1, j);
      ConsSlice(s, i, j, SanitizeFrom(s, j));
    }
  }

  /** When a match can begin at the front of `"<|" + name + v`. */
  lemma {:induction false} MatchAtFront(name: string, v: string)
    requires forall k :: 0 <= k < |name| ==> IsNameChar(name[k])
    requires v == [] || !IsNameChar(v[0])
    ensures MatchAt("<|" + name + v, 0) > 0 <==> (name != [] && |v| >= 2 && v[0] == '|' && v[1] == '>')
  {
    var r := "<|" + name + v;
    assert forall k :: 2 <= k < 2 + |name| ==> r[k] == name[k - 2];
    assert 2 + |name| < |r| ==> r[2 + |name|] == v[0];
    NameRunExact(r, 2, |name|);
    assert 3 + |name| < |r| ==> r[3 + |name|] == v[1];
  }

  /** Sanitized text starts with `|>` only where the input does, and never
      with a name character that the input lacks. */
  lemma {:induction false} SanitizeFront(s: string, j: nat)
    requires j <= |s|
    ensures var v := SanitizeFrom(s, j);
      v != [] && IsNameChar(v[0]) ==> j < |s| && IsNameChar(s[j])
    ensures var v := SanitizeFrom(s, j);
      |v| >= 2 && v[0] == '|' && v[1] == '>' ==> j + 1 < |s| && s[j] == '|' && s[j + 1] == '>'
  {
    if j < |s| {
      SanitizeHead(s, j);
      if s[j] == '|' {
        assert SanitizeFrom(s, j) == "|" + SanitizeFrom(s, j + 1);
        if j + 1 < |s| {
          SanitizeHead(s, j + 1);
        }
      }
    }
  }

  /** Regrouping the two leading characters of a `<|`. */
  lemma {:induction false} LtBarRegroup(a: char, b: char, x: string)
    requires a == '<' && b == '|'
    ensures [a] + ([b] + x) == "<|" + x
  {
  }

  /** A `<|` that starts no match is copied. */
  lemma {:induction false} SanitizeLtBarFront(s: string, i: nat)
    requires i + 1 < |s| && s[i] == '<' && s[i + 1] == '|' && MatchAt(s, i) == 0
    ensures SanitizeFrom(s, i) == "<|" + SanitizeFrom(s, i + 2)
  {
    SanitizeCopyOne(s, i);
    SanitizeCopyOne(s, i + 1);
    LtBarRegroup(s[i], s[i + 1], SanitizeFrom(s, i + 2));
  }

  /** A run of name characters, taken as a slice. */
  lemma {:induction false} NameSlice(s: string, i: nat, j: nat)
    requires i <= j <= |s|
    requires forall k :: i <= k < j ==> IsNameChar(s[k])
    ensures forall k :: 0 <= k < |s[i..j]| ==> IsNameChar(s[i..j][k])
  {
    forall k | 0 <= k < |s[i..j]| ensures IsNameChar(s[i..j][k]) {
      assert s[i..j][k] == s[i + k];
    }
  }

  /** The output at a `<|` that starts no match, up to the end `j` of a run
      of name characters. */
  lemma {:induction false} SanitizeLtBarShape(s: string, i: nat, j: nat)
    requires i + 1 < |s| && s[i] == '<' && s[i + 1] == '|' && MatchAt(s, i) == 0
    requires i + 2 <= j <= |s| && forall k :: i + 2 <= k < j ==> IsNameChar(s[k])
    ensures SanitizeFrom(s, i) == "<|" + s[i + 2..j] + SanitizeFrom(s, j)
  {
    SanitizeLtBarFront(s, i);
    SanitizeCopies(s, i + 2, j);
    AppendAssoc("<|", s[i + 2..j], SanitizeFrom(s, j));
  }

  /** After a `<|` that starts no match, the run of name characters is
      either empty or not closed by `|>`, and it cannot be extended. */
  lemma {:induction false} UnmatchedRun(s: string, i: nat)
    requires i + 1 < |s| && s[i] == '<' && s[i + 1] == '|' && MatchAt(s, i) == 0
    ensures var j := i + 2 + NameRun(s, i + 2);
      && j <= |s|
      && (forall k :: i + 2 <= k < j ==> IsNameChar(s[k]))
      && (j == |s| || !IsNameChar(s[j]))
      && (j > i + 2 ==> !(j + 1 < |s| && s[j] == '|' && s[j + 1] == '>'))
  {
    NameRunMaximal(s, i + 2);
  }

  /** `"<|" + name + v` starts no match when `v` neither extends the name
      nor, after a non-empty name, closes it. */
  lemma {:induction false} FrontUnmatched(name: string, v: string)
    requires forall k :: 0 <= k < |name| ==> IsNameChar(name[k])
    requires v == [] || !IsNameChar(v[0])
    requires name != [] ==> !(|v| >= 2 && v[0] == '|' && v[1] == '>')
    ensures MatchAt("<|" + name + v, 0) == 0
  {
    MatchAtFront(name, v);
  }

  /** A name that the input neither extends nor, when non-empty, closes at
      `j` is not closed in the output either. */
  lemma {:induction false} UnmatchedOutputFront(s: string, j: nat, name: string)
    requires j <= |s|
    requires forall k :: 0 <= k < |name| ==> IsNameChar(name[k])
    requires j == |s| || !IsNameChar(s[j])
    requires name != [] ==> !(j + 1 < |s| && s[j] == '|' && s[j + 1] == '>')
    ensures MatchAt("<|" + name + SanitizeFrom(s, j), 0) == 0
  {
    SanitizeFront(s, j);
    FrontUnmatched(name, SanitizeFrom(s, j));
  }

  /** A `<|` that does not start a match in the input does not start one in
      the output either. */
  lemma {:induction false} SanitizeUnmatchedLtBar(s: string, i: nat)
    requires i + 1 < |s| && s[i] == '<' && s[i + 1] == '|' && MatchAt(s, i) == 0
    ensures MatchAt(SanitizeFrom(s, i), 0) == 0
  {
    var j := i + 2 + NameRun(s, i + 2);
    UnmatchedRun(s, i);
    NameSlice(s, i + 2, j);
    SanitizeLtBarShape(s, i, j);
    UnmatchedOutputFront(s, j, s[i + 2..j]);
  }

  /** A `<` that does not start a match in the input does not start one in
      the output either. */
  lemma {:induction false} SanitizeUnmatchedLt(s: string, i: nat)
    requires i < |s| && s[i] == '<' && MatchAt(s, i) == 0
    ensures MatchAt(SanitizeFrom(s, i), 0) == 0
  {
    if i + 1 < |s| && s[i + 1] == '|' {
      SanitizeUnmatchedLtBar(s, i);
    } else {
      SanitizeCopyOne(s, i);
      if i + 1 < |s| {
        SanitizeHead(s, i + 1);
      }
    }
  }

  /** A character that starts no match, in front of match-free text. */
  lemma {:induction false} NoMatchCons(c: char, r: string)
    requires MatchAt([c] + r, 0) == 0 && NoMatch(r)
    ensures NoMatch([c] + r)
  {
    forall i | 0 <= i < |[c] + r| ensures MatchAt([c] + r, i) == 0 {
      if i > 0 {
        MatchAtShift([c], r, i - 1);
      }
    }
  }

  /** `<`-free text in front of match-free text. */
  lemma {:induction false} NoMatchAppend(p: string, r: string)
    requires forall k :: 0 <= k < |p| ==> p[k] != '<'
    requires NoMatch(r)
    ensures NoMatch(p + r)
  {
    forall i | 0 <= i < |p + r| ensures MatchAt(p + r, i) == 0 {
      if i >= |p| {
        MatchAtShift(p, r, i - |p|);
      }
    }
  }

  /** A bracketed name holds no `<`. */
  lemma {:induction false} BracketedNoLt(name: string)
    requires forall k :: 0 <= k < |name| ==> IsNameChar(name[k])
    ensures var b := "[" + name + "]"; forall k :: 0 <= k < |b| ==> b[k] != '<'
  {
    var b := "[" + name + "]";
    forall k | 0 <= k < |b| ensures b[k] != '<' {
      if 0 < k < |b| - 1 {
        assert b[k] == name[k - 1];
      }
    }
  }

  /** `<`-free brackets around a name, in front of match-free text. */
  lemma {:induction false} BracketedNoMatch(name: string, r: string)
    requires forall k :: 0 <= k < |name| ==> IsNameChar(name[k])
    requires NoMatch(r)
    ensures NoMatch("[" + name + "]" + r)
  {
    BracketedNoLt(name);
    NoMatchAppend("[" + name + "]", r);
  }

  /** The name of a match is made of name characters. */
  lemma {:induction false} MatchName(s: string, i: nat, n: nat)
    requires i < |s| && MatchAt(s, i) == n > 0
    ensures i + 2 <= i + n - 2 <= |s| && forall k :: i + 2 <= k < i + n - 2 ==> IsNameChar(s[k])
  {
    NameRunMaximal(s, i + 2);
    assert i + 2 + NameRun(s, i + 2) == i + n - 2;
  }

  /** A match at index `i` becomes `[name]`, which holds no `<`. */
  lemma {:induction false} SanitizeMatchStep(s: string, i: nat)
    requires i < |s| && MatchAt(s, i) > 0
    requires NoMatch(SanitizeFrom(s, i + MatchAt(s, i)))
    ensures NoMatch(SanitizeFrom(s, i))
  {
    var n := MatchAt(s, i);
    var name, rest := s[i + 2..i + n - 2], SanitizeFrom(s, i + n);
    MatchName(s, i, n);
    NameSlice(s, i + 2, i + n - 2);
    BracketedNoMatch(name, rest);
    SanitizeMatchUpTo(s, i, i + n);
    NoMatchTransfer(SanitizeFrom(s, i), "[" + name + "]" + rest);
  }

  lemma {:induction false} NoMatchTransfer(x: string, y: string)
    requires x == y && NoMatch(y)
    ensures NoMatch(x)
  {
  }

  /** A character at index `i` that starts no match is copied, and starts
      no match in the output. */
  lemma {:induction false} SanitizeCopyStep(s: string, i: nat)
    requires i < |s| && MatchAt(s, i) == 0
    requires NoMatch(SanitizeFrom(s, i + 1))
    ensures NoMatch(SanitizeFrom(s, i))
  {
    assert SanitizeFrom(s, i) == [s[i]] + SanitizeFrom(s, i + 1);
    if s[i] == '<' {
      SanitizeUnmatchedLt(s, i);
    }
    NoMatchCons(s[i], SanitizeFrom(s, i + 1));
  }

  /** No reserved-token match starts anywhere in sanitized text. */
  lemma {:induction false} SanitizeNoMatch(s: string, i: nat)
    requires i <= |s|
    ensures NoMatch(SanitizeFrom(s, i))
    decreases |s| - i
  {
    if i < |s| {
      var n := MatchAt(s, i);
      if n > 0 {
        SanitizeNoMatch(s, i + n);
        SanitizeMatchStep(s, i);
      } else {
        SanitizeNoMatch(s, i + 1);
        SanitizeCopyStep(s, i);
      }
    }
  }

  /** Injection containment: sanitized text holds no reserved-token match. */
  lemma {:induction false} SanitizeTokenFree(s: string)
    ensures TokenFree(Sanitize(s))
  {
    SanitizeNoMatch(s, 0);
    TokenFreeIff(Sanitize(s));
  }

  /** Text without a match is copied unchanged. */
  lemma {:induction false} SanitizeUnchanged(s: string, i: nat)
    requires i <= |s| && NoMatch(s)
    ensures SanitizeFrom(s, i) == s[i..]
    decreases |s| - i
  {
    if i < |s| {
      SanitizeUnchanged(s, i + 1);
      assert s[i..] == [s[i]] + s[i + 1..];
    }
  }

  /** The texts the sanitizer leaves alone are exactly the token-free ones. */
  lemma {:induction false} SanitizeFixedPoints(s: string)
    ensures Sanitize(s) == s <==> TokenFree(s)
  {
    SanitizeTokenFree(s);
    TokenFreeIff(s);
    if TokenFree(s) {
      SanitizeUnchanged(s, 0);
    }
  }

  /** Sanitizing twice is sanitizing once. */
  lemma {:induction false} SanitizeIdempotent(s: string)
    ensures Sanitize(Sanitize(s)) == Sanitize(s)
  {
    SanitizeTokenFree(s);
    SanitizeFixedPoints(Sanitize(s));
  }

  /** Every member of `CHATML_TOKENS` is a reserved-token match. */
  lemma {:induction false} ReservedAreTokens()
    ensures forall t :: t in ReservedTokens ==> IsToken(t)
  {
  }

  /** A token-free text contains no member of `CHATML_TOKENS`. */
  lemma {:induction false} TokenFreeNoReserved(s: string)
    requires TokenFree(s)
    ensures forall t :: t in ReservedTokens ==> !Contains(s, t)
  {
    ReservedAreTokens();
  }

  /** Sanitized text contains no member of `CHATML_TOKENS`. */
  lemma {:induction false} SanitizeNoReserved(s: string)
    ensures forall t :: t in ReservedTokens ==> !Contains(Sanitize(s), t)
  {
    SanitizeTokenFree(s);
    TokenFreeNoReserved(Sanitize(s));
  }

  /** The pattern is case-sensitive: an upper-case marker is not touched. */
  lemma {:induction false} SanitizeKeepsUpperCase()
    ensures Sanitize("<|USER|>") == "<|USER|>"
  {
    var s := "<|USER|>";
    assert NoMatch(s) by {
      forall i | 0 <= i < |s| ensures MatchAt(s, i) == 0 {
        if i == 0 {
          assert !IsNameChar(s[2]);
        }
      }
    }
    SanitizeUnchanged(s, 0);
  }

  /** A substring of a token-free text is token-free. */
  lemma {:induction false} TokenFreeInfix(s: string, a: nat, b: nat)
    requires a <= b <= |s| && TokenFree(s)
    ensures TokenFree(s[a..b])
  {
    forall i, j | 0 <= i <= j <= b - a ensures !IsToken(s[a..b][i..j]) {
      SliceOfSlice(s, a, b, i, j);
    }
  }

  /** Stripping keeps text token-free. */
  lemma {:induction false} StripTokenFree(s: string)
    requires TokenFree(s)
    ensures TokenFree(Strip(s))
  {
    var a, b := StripInfix(s);
    TokenFreeInfix(s, a, b);
  }

  // ---------------------------------------------------------------------
  // Role markers and blocks
  // ---------------------------------------------------------------------

  /** `chatml_role`: the marker of a role, or `ValueError` for a role other
      than `system`, `assistant` and `user`. The message keeps the stray `$`
      that the source's f-string puts before the role. */
  function Role(role: string): (r: Result<string, Error>)
    ensures r.Ok? <==> role in ValidRoles
    ensures r.Err? ==> r.error == ValueError("Invalid ChatML role: '$" + role + "'")
  {
    if role in ValidRoles then Ok("<|" + role + "|>")
    else Err(ValueError("Invalid ChatML role: '$" + role + "'"))
  }

  /** A role marker is a reserved token whose name is the role, and it is
      one of `CHATML_TOKENS`. */
  lemma {:induction false} RoleMarker(role: string)
    requires role in ValidRoles
    ensures var m := Role(role).value;
      m in ReservedTokens && IsToken(m) && m[2..|m| - 2] == role
  {
    var m := Role(role).value;
    assert m[2..|m| - 2] == role;
    if role == "system" {
      assert m == "<|system|>";
    } else if role == "assistant" {
      assert m == "<|assistant|>";
    } else {
      assert m == "<|user|>";
    }
    ReservedAreTokens();
  }

  /** `chatml_block`: the role marker, the stripped content and the
      end-of-text marker, one per line. */
  function Block(role: string, content: string): (r: Result<string, Error>)
    ensures r.Ok? <==> role in ValidRoles
    ensures r.Err? ==> r.error == Role(role).error
  {
    match Role(role)
    case Err(e) => Err(e)
    case Ok(marker) => Ok(marker + "\n" + Strip(content) + "\n" + END)
  }

  /** Reads a block back: the role named by the marker on its first line and
      the text between that line and the closing end-of-text line. */
  function ParseBlock(b: string): Option<Turn> {
    match FirstNewline(b)
    case None => None
    case Some(i) =>
      var marker := b[..i];
      var body := b[i + 1..];
      if |marker| >= 4 && StartsWith(marker, "<|") && EndsWith(marker, "|>")
         && marker[2..|marker| - 2] in ValidRoles && EndsWith(body, "\n" + END)
      then Some(Turn(marker[2..|marker| - 2], body[..|body| - |END| - 1]))
      else None
  }

  /** The pieces of a role marker. */
  lemma {:induction false} MarkerParts(role: string)
    requires role in ValidRoles
    ensures var m := "<|" + role + "|>";
      '\n' !in m && |m| >= 4 && StartsWith(m, "<|") && EndsWith(m, "|>") && m[2..|m| - 2] == role
  {
    var m := "<|" + role + "|>";
    assert '\n' !in role;
    assert m[2..|m| - 2] == role;
  }

  /** The pieces of a block body: content, newline, end-of-text marker. */
  lemma {:induction false} BodyParts(c: string)
    ensures var body := c + "\n" + END;
      EndsWith(body, "\n" + END) && body[..|body| - |END| - 1] == c
  {
    var t := "\n" + END;
    assert (c + t)[..|c|] == c;
    assert (c + t)[|c|..] == t;
    AppendAssoc(c, "\n", END);
  }

  /** A framed text reads back as its role and text. */
  lemma {:induction false} ParseFramed(role: string, c: string)
    requires role in ValidRoles
    ensures ParseBlock("<|" + role + "|>" + "\n" + c + "\n" + END) == Some(Turn(role, c))
  {
    var marker := "<|" + role + "|>";
    MarkerParts(role);
    FirstNewlineAfter(marker, c + "\n" + END);
    AppendAssoc(marker + "\n", c + "\n", END);
    AppendAssoc(marker + "\n", c, "\n");
    BodyParts(c);
  }

  /** A rendered block reads back as its role and its stripped content. */
  lemma {:induction false} BlockRoundTrip(role: string, content: string)
    requires role in ValidRoles
    ensures ParseBlock(Block(role, content).value) == Some(Turn(role, Strip(content)))
  {
    ParseFramed(role, Strip(content));
  }

  /** A text that reads back as a block is framed like one. */
  lemma {:induction false} ParseBlockShape(b: string)
    requires ParseBlock(b).Some?
    ensures var t := ParseBlock(b).value;
      t.role in ValidRoles && b == "<|" + t.role + "|>" + "\n" + t.text + "\n" + END
  {
    var i := FirstNewline(b).value;
    var t := ParseBlock(b).value;
    UnframeMarker(b[..i], t.role);
    UnframeBody(b[i + 1..], t.text);
    assert b == b[..i] + "\n" + b[i + 1..];
    AppendAssoc(b[..i] + "\n", t.text + "\n", END);
    AppendAssoc(b[..i] + "\n", t.text, "\n");
  }

  /** A block that reads back, with text that stripping leaves alone, is
      exactly the rendering of what it reads back as. */
  lemma {:induction false} ParseBlockSound(b: string)
    requires ParseBlock(b).Some? && Strip(ParseBlock(b).value.text) == ParseBlock(b).value.text
    ensures Block(ParseBlock(b).value.role, ParseBlock(b).value.text) == Ok(b)
  {
    ParseBlockShape(b);
  }

  /** A marker `<|role|>` is put back together from its name. */
  lemma {:induction false} UnframeMarker(m: string, role: string)
    requires |m| >= 4 && StartsWith(m, "<|") && EndsWith(m, "|>") && m[2..|m| - 2] == role
    ensures m == "<|" + role + "|>"
  {
    assert m == m[..2] + m[2..|m| - 2] + m[|m| - 2..];
  }

  /** A body ending in the end-of-text line is put back together. */
  lemma {:induction false} UnframeBody(body: string, c: string)
    requires EndsWith(body, "\n" + END) && c == body[..|body| - |END| - 1]
    ensures body == c + "\n" + END
  {
    assert body == c + body[|body| - |END| - 1..];
    AppendAssoc(c, "\n", END);
  }

  /** The last character of a framed block is the `>` of the end marker. */
  lemma {:induction false} FramedLast(m: string, c: string)
    ensures var b := m + "\n" + c + "\n" + END; b != [] && b[|b| - 1] == '>'
  {
  }

  /** Every block ends with `>`. */
  lemma {:induction false} BlockLast(role: string, content: string)
    requires role in ValidRoles
    ensures var b := Block(role, content).value; b != [] && b[|b| - 1] == '>'
  {
    FramedLast("<|" + role + "|>", Strip(content));
  }

  // ---------------------------------------------------------------------
  // The prompt
  // ---------------------------------------------------------------------

  /** Every history entry names a valid role. */
  predicate ValidHistory(history: seq<Turn>) {
    forall k :: 0 <= k < |history| ==> history[k].role in ValidRoles
  }

  /** `f` applied to the first `n` elements of `xs`, in order, stopping at
      the first error: a loop that appends results and lets the first
      exception escape. */
  function MapUntilError<T, U>(f: T -> Result<U, Error>, xs: seq<T>, n: nat): Result<seq<U>, Error>
    requires n <= |xs|
  {
    if n == 0 then Ok([])
    else match MapUntilError(f, xs, n - 1)
      case Err(e) => Err(e)
      case Ok(init) =>
        match f(xs[n - 1])
        case Err(e) => Err(e)
        case Ok(y) => Ok(init + [y])
  }

  /** Without errors, element `k` is mapped to result `k`. */
  lemma {:induction false} MapUntilErrorOk<T, U>(f: T -> Result<U, Error>, xs: seq<T>, n: nat)
    requires n <= |xs| && forall k :: 0 <= k < n ==> f(xs[k]).Ok?
    ensures MapUntilError(f, xs, n).Ok? && |MapUntilError(f, xs, n).value| == n
    ensures forall k :: 0 <= k < n ==> MapUntilError(f, xs, n).value[k] == f(xs[k]).value
  {
    if n > 0 {
      MapUntilErrorOk(f, xs, n - 1);
    }
  }

  /** Mapping succeeds exactly when every element maps without error. */
  lemma {:induction false} MapUntilErrorOkIff<T, U>(f: T -> Result<U, Error>, xs: seq<T>, n: nat)
    requires n <= |xs|
    ensures MapUntilError(f, xs, n).Ok? <==> forall k :: 0 <= k < n ==> f(xs[k]).Ok?
  {
    if n > 0 {
      MapUntilErrorOkIff(f, xs, n - 1);
    }
  }

  /** The first element that fails decides the error. */
  lemma {:induction false} MapUntilErrorFirst<T, U>(f: T -> Result<U, Error>, xs: seq<T>, n: nat, i: nat)
    requires i < n <= |xs| && f(xs[i]).Err?
    requires forall k :: 0 <= k < i ==> f(xs[k]).Ok?
    ensures MapUntilError(f, xs, n) == Err(f(xs[i]).error)
  {
    if i < n - 1 {
      MapUntilErrorFirst(f, xs, n - 1, i);
    } else {
      MapUntilErrorOk(f, xs, i);
    }
  }

  /** The block of one history entry. */
  function TurnBlock(t: Turn): Result<string, Error> {
    Block(t.role, t.text)
  }

  /** The blocks of the first `n` history entries, in order, or the error of
      the first of them whose role is invalid. */
  function HistoryBlocks(history: seq<Turn>, n: nat): Result<seq<string>, Error>
    requires n <= |history|
  {
    MapUntilError(TurnBlock, history, n)
  }

  /** With valid roles, entry `k` becomes block `k`. */
  lemma {:induction false} HistoryBlocksValid(history: seq<Turn>)
    requires ValidHistory(history)
    ensures HistoryBlocks(history, |history|).Ok? && |HistoryBlocks(history, |history|).value| == |history|
    ensures forall k :: 0 <= k < |history| ==>
      HistoryBlocks(history, |history|).value[k] == Block(history[k].role, history[k].text).value
  {
    MapUntilErrorOk(TurnBlock, history, |history|);
  }

  /** Rendering the history succeeds exactly when every role is valid, and
      otherwise fails with the error of the first invalid role. */
  lemma {:induction false} HistoryBlocksOk(history: seq<Turn>)
    ensures HistoryBlocks(history, |history|).Ok? <==> ValidHistory(history)
  {
    MapUntilErrorOkIff(TurnBlock, history, |history|);
  }

  /** The first invalid role decides the error. */
  lemma {:induction false} HistoryBlocksFirstError(history: seq<Turn>, i: nat)
    requires i < |history| && history[i].role !in ValidRoles
    requires forall k :: 0 <= k < i ==> history[k].role in ValidRoles
    ensures HistoryBlocks(history, |history|) == Err(Role(history[i].role).error)
  {
    MapUntilErrorFirst(TurnBlock, history, |history|, i);
  }

  /** The system block, when there is a system text. */
  function SystemBlocks(system: string): seq<string> {
    if system != "" then [Block("system", system).value] else []
  }

  /** The sanitized user block and the bare assistant marker, when there is
      a next user prompt. */
  function UserBlocks(next: string): seq<string> {
    if next != "" then [Block("user", Sanitize(next)).value, Role("assistant").value] else []
  }

  /** Appending a valid turn to a valid history appends its block. */
  lemma {:induction false} HistoryBlocksSnoc(history: seq<Turn>, t: Turn)
    requires ValidHistory(history) && t.role in ValidRoles
    ensures ValidHistory(history + [t]) && HistoryBlocks(history, |history|).Ok?
    ensures HistoryBlocks(history + [t], |history| + 1)
      == Ok(HistoryBlocks(history, |history|).value + [Block(t.role, t.text).value])
  {
    var h := history + [t];
    assert forall k :: 0 <= k < |h| ==> h[k].role in ValidRoles by {
      forall k | 0 <= k < |h| ensures h[k].role in ValidRoles {
        if k < |history| {
          assert h[k] == history[k];
        }
      }
    }
    HistoryBlocksValid(history);
    HistoryBlocksValid(h);
    var hb := HistoryBlocks(history, |history|).value;
    var b := HistoryBlocks(h, |h|).value;
    assert b == hb + [Block(t.role, t.text).value] by {
      forall k | 0 <= k < |b| ensures b[k] == (hb + [Block(t.role, t.text).value])[k] {
        if k < |history| {
          assert h[k] == history[k];
        }
      }
    }
  }

  /** The blocks `chatml_prompt` joins. */
  function PromptBlocks(system: string, history: seq<Turn>, next: string): Result<seq<string>, Error> {
    match HistoryBlocks(history, |history|)
    case Err(e) => Err(e)
    case Ok(hb) => Ok([BEGIN] + SystemBlocks(system) + hb + UserBlocks(next))
  }

  /** `chatml_prompt(system, history, next_user_prompt)` */
  function PromptText(system: string, history: seq<Turn>, next: string): Result<string, Error> {
    match PromptBlocks(system, history, next)
    case Err(e) => Err(e)
    case Ok(blocks) => Ok(Strip(JoinLines(blocks)))
  }

  /** `chatml_prompt`, as the source builds it: a list of blocks appended to
      in a loop over the history, then joined and stripped. */
  method ChatPrompt(system: string, history: seq<Turn>, next: string) returns (r: Result<string, Error>)
    ensures r == PromptText(system, history, next)
  {
    var blocks := [BEGIN];
    if system != "" {
      var b := Block("system", system);
      blocks := blocks + [b.value];
    }
    ghost var head := blocks;
    assert head == [BEGIN] + SystemBlocks(system);
    var i := 0;
    while i < |history|
      invariant i <= |history|
      invariant HistoryBlocks(history, i).Ok?
      invariant blocks == head + HistoryBlocks(history, i).value
    {
      var b := Block(history[i].role, history[i].text);
      if b.Err? {
        MapUntilErrorOkIff(TurnBlock, history, i);
        HistoryBlocksFirstError(history, i);
        return Err(b.error);
      }
      AppendAssoc(head, HistoryBlocks(history, i).value, [b.value]);
      blocks := blocks + [b.value];
      i := i + 1;
    }
    if next != "" {
      var u := Block("user", Sanitize(next));
      var a := Role("assistant");
      blocks := blocks + [u.value, a.value];
    }
    assert blocks == [BEGIN] + SystemBlocks(system) + HistoryBlocks(history, |history|).value + UserBlocks(next);
    r := Ok(Strip(JoinLines(blocks)));
  }

  /** Every line is non-empty and ends with `>`. */
  predicate Framed(bs: seq<string>) {
    forall k :: 0 <= k < |bs| ==> bs[k] != [] && bs[k][|bs[k]| - 1] == '>'
  }

  lemma {:induction false} FramedConcat(a: seq<string>, b: seq<string>, c: seq<string>, d: seq<string>)
    requires Framed(a) && Framed(b) && Framed(c) && Framed(d)
    ensures Framed(a + b + c + d)
  {
    var bs := a + b + c + d;
    forall k | 0 <= k < |bs| ensures bs[k] != [] && bs[k][|bs[k]| - 1] == '>' {
      if k < |a| {
        assert bs[k] == a[k];
      } else if k < |a| + |b| {
        assert bs[k] == b[k - |a|];
      } else if k < |a| + |b| + |c| {
        assert bs[k] == c[k - |a| - |b|];
      } else {
        assert bs[k] == d[k - |a| - |b| - |c|];
      }
    }
  }

  /** Lines that start with `<` and each end with `>` join into a text that
      stripping leaves alone. */
  lemma {:induction false} JoinFramed(bs: seq<string>)
    requires |bs| >= 1 && bs[0] != [] && bs[0][0] == '<'
    requires Framed(bs)
    ensures Strip(JoinLines(bs)) == JoinLines(bs)
  {
    assert [bs[0]] + bs[1..] == bs;
    JoinLinesCons(bs[0], bs[1..]);
    NewlinePrefixedLast(bs[1..], '>');
    StripUnchanged(JoinLines(bs));
  }

  lemma {:induction false} HistoryFramed(history: seq<Turn>)
    requires ValidHistory(history)
    ensures HistoryBlocks(history, |history|).Ok?
    ensures Framed(HistoryBlocks(history, |history|).value)
  {
    HistoryBlocksValid(history);
    var hb := HistoryBlocks(history, |history|).value;
    forall k | 0 <= k < |hb| ensures hb[k] != [] && hb[k][|hb[k]| - 1] == '>' {
      BlockLast(history[k].role, history[k].text);
    }
  }

  lemma {:induction false} SystemFramed(system: string)
    ensures Framed(SystemBlocks(system))
  {
    if system != "" {
      BlockLast("system", system);
    }
  }

  lemma {:induction false} UserFramed(next: string)
    ensures Framed(UserBlocks(next))
  {
    if next != "" {
      BlockLast("user", Sanitize(next));
      assert Role("assistant").value == "<|assistant|>";
    }
  }

  /** Every line of a prompt ends with `>`, and the first is the begin marker. */
  lemma {:induction false} PromptBlocksFramed(system: string, history: seq<Turn>, next: string)
    requires ValidHistory(history)
    ensures PromptBlocks(system, history, next).Ok?
    ensures var bs := PromptBlocks(system, history, next).value;
      |bs| >= 1 && bs[0] == BEGIN && Framed(bs)
  {
    HistoryFramed(history);
    SystemFramed(system);
    UserFramed(next);
    assert Framed([BEGIN]);
    FramedConcat([BEGIN], SystemBlocks(system), HistoryBlocks(history, |history|).value, UserBlocks(next));
  }

  /** Stripping the joined blocks of a valid history removes nothing. */
  lemma {:induction false} PromptJoin(system: string, history: seq<Turn>, next: string)
    requires ValidHistory(history)
    ensures PromptBlocks(system, history, next).Ok?
    ensures PromptText(system, history, next) == Ok(JoinLines(PromptBlocks(system, history, next).value))
  {
    PromptBlocksFramed(system, history, next);
    JoinFramed(PromptBlocks(system, history, next).value);
  }

  /** The system line, when there is a system text. */
  function SystemText(system: string): string {
    if system != "" then "\n" + Block("system", system).value else ""
  }

  /** The user line and the bare assistant marker, when there is a next
      user prompt. */
  function UserText(next: string): string {
    if next != "" then "\n" + Block("user", Sanitize(next)).value + "\n" + "<|assistant|>" else ""
  }

  lemma {:induction false} SystemLines(system: string)
    ensures NewlinePrefixed(SystemBlocks(system)) == SystemText(system)
  {
    if system != "" {
      NewlinePrefixedOne(Block("system", system).value);
    }
  }

  lemma {:induction false} UserLines(next: string)
    ensures NewlinePrefixed(UserBlocks(next)) == UserText(next)
  {
    if next != "" {
      assert Role("assistant").value == "<|assistant|>";
      NewlinePrefixedTwo(Block("user", Sanitize(next)).value, Role("assistant").value);
    }
  }

  /** The prompt laid out piece by piece: the begin marker; the system block
      exactly when there is a system text; one block per history entry, in
      order; and exactly when there is a next user prompt, its sanitized
      block and a bare assistant marker. Stripping removes nothing. */
  lemma {:induction false} PromptLayout(system: string, history: seq<Turn>, next: string)
    requires ValidHistory(history)
    ensures HistoryBlocks(history, |history|).Ok?
    ensures PromptText(system, history, next) == Ok(
      BEGIN + SystemText(system) + NewlinePrefixed(HistoryBlocks(history, |history|).value) + UserText(next))
  {
    PromptJoin(system, history, next);
    JoinLinesLayout(BEGIN, SystemBlocks(system), HistoryBlocks(history, |history|).value, UserBlocks(next));
    SystemLines(system);
    UserLines(next);
  }

  /** The prompt starts with the begin marker and ends with the `>` of a
      marker, so it has no leading or trailing whitespace. */
  lemma {:induction false} PromptTrimmed(system: string, history: seq<Turn>, next: string)
    requires ValidHistory(history)
    ensures PromptText(system, history, next).Ok?
    ensures var p := PromptText(system, history, next).value;
      StartsWith(p, BEGIN) && p[|p| - 1] == '>' && !IsSpace(p[0]) && !IsSpace(p[|p| - 1])
  {
    PromptJoin(system, history, next);
    PromptBlocksFramed(system, history, next);
    var bs := PromptBlocks(system, history, next).value;
    assert [bs[0]] + bs[1..] == bs;
    JoinLinesCons(bs[0], bs[1..]);
    NewlinePrefixedLast(bs[1..], '>');
  }

  /** Each history entry appears in the prompt as its own block: stripped,
      never sanitized, so a reserved token in a history text reaches the
      prompt unchanged. */
  lemma {:induction false} PromptContainsHistory(system: string, history: seq<Turn>, next: string, k: nat)
    requires ValidHistory(history) && k < |history|
    ensures PromptText(system, history, next).Ok?
    ensures Contains(PromptText(system, history, next).value, Block(history[k].role, history[k].text).value)
  {
    PromptLayout(system, history, next);
    HistoryBlocksValid(history);
    var hb := HistoryBlocks(history, |history|).value;
    NewlinePrefixedContains(hb, k);
    ContainsMiddle(BEGIN + SystemText(system), NewlinePrefixed(hb), UserText(next), hb[k]);
  }

  /** The next user prompt reaches the prompt only sanitized and stripped:
      its block parses back to a user turn whose text holds no token. */
  lemma {:induction false} UserBlockClean(next: string)
    ensures var c := Strip(Sanitize(next));
      ParseBlock(Block("user", Sanitize(next)).value) == Some(Turn("user", c)) && TokenFree(c)
  {
    BlockRoundTrip("user", Sanitize(next));
    SanitizeTokenFree(next);
    StripTokenFree(Sanitize(next));
  }
}
