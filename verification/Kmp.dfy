/** algorithm/kmp.cpp: the border table of the Knuth-Morris-Pratt search. */
module Kmp {

  /** b is the length of a proper border of the first i characters: they end with their own first b. */
  predicate Border(p: seq<char>, i: nat, b: int) {
    0 <= b < i <= |p| && p[..b] == p[i - b..i]
  }

  /** k is what the table should hold for i: the longest proper border, and -1 where there is none. */
  ghost predicate IsSkip(p: seq<char>, i: nat, k: int) {
    if i == 0 then k == -1 else Border(p, i, k) && forall b :: Border(p, i, b) ==> b <= k
  }

  /** The entries that falling back from i visits. */
  function Visited(skip: seq<int>, i: nat): seq<int>
    requires forall k :: 0 <= k < |skip| ==> -1 <= skip[k] < k
    requires i < |skip|
    decreases i
  {
    if skip[i] < 0 then [] else [skip[i]] + Visited(skip, skip[i])
  }

  lemma EmptyBorder(p: seq<char>, i: nat)
    requires 0 < i <= |p|
    ensures Border(p, i, 0)
  {
    assert p[..0] == p[i..i];
  }

  lemma SkipRange(p: seq<char>, i: nat, k: int)
    requires i <= |p| && IsSkip(p, i, k)
    ensures -1 <= k < i && (0 < i ==> 0 <= k)
  {
  }

  /** A border of a border is a border, and a shorter border is one of the longer. */
  lemma BorderOfBorder(p: seq<char>, i: nat, j: nat, b: int)
    requires Border(p, i, j)
    ensures Border(p, j, b) <==> Border(p, i, b) && b < j
  {
    if 0 <= b < j {
      assert p[j - b..j] == p[..j][j - b..];
      assert p[i - b..i] == p[i - j..i][j - b..];
    }
  }

  /** Borders grow by one character: the borders of i + 1 are 0 and those of i followed by the same character. */
  lemma BorderStep(p: seq<char>, i: nat, b: nat)
    requires i < |p|
    ensures Border(p, i + 1, b + 1) <==> Border(p, i, b) && p[b] == p[i]
  {
    if b < i {
      assert p[..b + 1] == p[..b] + [p[b]];
      assert p[i - b..i + 1] == p[i - b..i] + [p[i]];
      assert p[..b + 1] == p[i - b..i + 1] ==>
               p[..b + 1][..b] == p[i - b..i + 1][..b] && p[..b + 1][b] == p[i - b..i + 1][b];
    }
  }

  /** Falling back through a correct table visits exactly the proper borders. */
  lemma {:induction false} VisitsAllBorders(p: seq<char>, skip: seq<int>, i: nat, b: int)
    requires |skip| <= |p| + 1 && forall k :: 0 <= k < |skip| ==> IsSkip(p, k, skip[k])
    requires i < |skip|
    ensures forall k :: 0 <= k < |skip| ==> -1 <= skip[k] < k
    ensures b in Visited(skip, i) <==> Border(p, i, b)
    decreases i
  {
    forall k | 0 <= k < |skip| ensures -1 <= skip[k] < k {
      SkipRange(p, k, skip[k]);
    }
    if i > 0 {
      BorderOfBorder(p, i, skip[i], b);
      VisitsAllBorders(p, skip, skip[i], b);
    }
  }

  class Pattern {
    const pattern: array<char>
    const skip: array<int>
    var len: int

    constructor (text: seq<char>)
      requires |text| <= 128
      ensures pattern.Length == skip.Length == 128 && len == |text| && pattern[..len] == text
    {
      pattern := new char[128](i => if 0 <= i < |text| then text[i] else '\0');
      skip := new int[128];
      len := |text|;
    }
  }

  /** No border of i longer than j is followed by the character at i. */
  ghost predicate AtMost(p: seq<char>, i: nat, j: int)
    requires i < |p|
  {
    forall b :: Border(p, i, b) && p[b] == p[i] ==> b <= j
  }

  lemma Start(p: seq<char>, i: nat, k: int)
    requires i < |p| && IsSkip(p, i, k)
    ensures -1 <= k < i && (k >= 0 ==> Border(p, i, k)) && AtMost(p, i, k)
  {
  }

  /** Where border j is not extended, the next candidate is the longest border of j. */
  lemma FallBack(p: seq<char>, i: nat, j: nat, k: int)
    requires i < |p| && Border(p, i, j) && p[j] != p[i] && AtMost(p, i, j) && IsSkip(p, j, k)
    ensures -1 <= k < j && (k >= 0 ==> Border(p, i, k)) && AtMost(p, i, k)
  {
    BorderOfBorder(p, i, j, k);
    forall b | Border(p, i, b) && p[b] == p[i] ensures b <= k {
      BorderOfBorder(p, i, j, b);
    }
  }

  ghost predicate TableOk(p: seq<char>, table: seq<int>, n: nat) {
    n <= |table| && forall k :: 0 <= k < n ==> IsSkip(p, k, table[k])
  }

  lemma TableAt(p: seq<char>, table: seq<int>, n: nat, k: nat)
    requires TableOk(p, table, n) && k < n <= |p|
    ensures IsSkip(p, k, table[k]) && -1 <= table[k] < k && (0 < k ==> 0 <= table[k])
  {
  }

  lemma TableExtended(p: seq<char>, table: seq<int>, n: nat, k: int)
    requires TableOk(p, table, n) && n < |table| && IsSkip(p, n, k)
    ensures TableOk(p, table[n := k], n + 1)
  {
  }

  /** The inner loop of make_skip: from the longest border of the first i characters down to the longest one
      that the character at i extends; -1 if there is none. */
  method LongestExtended(p: array<char>, skip: array<int>, i: nat) returns (j: int, ghost steps: nat)
    requires i < p.Length && TableOk(p[..], skip[..], i + 1)
    ensures -1 <= j < i && steps <= skip[i] - j
    ensures j >= 0 ==> Border(p[..], i, j) && p[j] == p[i]
    ensures AtMost(p[..], i, j)
  {
    ghost var text, table := p[..], skip[..];
    TableAt(text, table, i + 1, i);
    Start(text, i, skip[i]);
    hide Border, AtMost, TableOk, IsSkip;
    j, steps := skip[i], 0;
    while j >= 0
      invariant -1 <= j < i
      invariant j >= 0 ==> Border(text, i, j)
      invariant AtMost(text, i, j)
      invariant steps <= skip[i] - j
    {
      if p[j] == p[i] {
        break;
      }
      TableAt(text, table, i + 1, j);
      FallBack(text, i, j, skip[j]);
      j := skip[j];
      steps := steps + 1;
    }
  }

  /** make_skip.  `fallbacks` counts the executions of j = skip[j]. */
  method MakeSkip(pat: Pattern?) returns (r: int, ghost fallbacks: nat)
    requires pat != null ==> pat.len <= pat.pattern.Length == pat.skip.Length && pat.skip.Length != 0
    modifies if pat == null then {} else {pat.skip}
    ensures r == if pat == null then -1 else 0
    ensures pat != null ==> pat.skip[0] == -1
    ensures pat != null ==> forall i :: 0 <= i < pat.len ==> IsSkip(pat.pattern[..], i, pat.skip[i])
    ensures pat != null && pat.len >= 2 ==> fallbacks <= pat.len - 2 - pat.skip[pat.len - 1] < pat.len
    ensures pat == null || pat.len < 2 ==> fallbacks == 0
  {
    fallbacks := 0;
    if pat == null {
      return -1, 0;
    }
    r := 0;
    var skip, p := pat.skip, pat.pattern;
    ghost var text := p[..];
    skip[0] := -1;
    assert TableOk(text, skip[..], 1);
    hide Border, AtMost, TableOk;
    var i := 1;
    while i < pat.len
      invariant 1 <= i && (i <= pat.len || i == 1)
      invariant p[..] == text && skip[0] == -1 && TableOk(text, skip[..], i)
      invariant fallbacks <= i - 2 - skip[i - 1]
    {
      ghost var table := skip[..];
      TableAt(text, table, i, i - 1);
      hide IsSkip;
      var j, steps := LongestExtended(p, skip, i - 1);
      fallbacks := fallbacks + steps;
      Grow(text, i, j);
      TableExtended(text, table, i, j + 1);
      skip[i] := j + 1;
      assert skip[..] == table[i := j + 1];
      i := i + 1;
    }
    if pat.len >= 1 {
      TableIs(text, skip[..], pat.len);
    }
    if pat.len >= 2 {
      TableAt(text, skip[..], pat.len, pat.len - 1);
    }
  }

  lemma TableIs(p: seq<char>, table: seq<int>, n: nat)
    requires TableOk(p, table, n)
    ensures n <= |table| && forall k :: 0 <= k < n ==> IsSkip(p, k, table[k])
  {
  }

  /** One more than the longest border that the next character extends is the longest border. */
  lemma Grow(p: seq<char>, i: nat, j: int)
    requires 0 < i <= |p| && -1 <= j
    requires j >= 0 ==> Border(p, i - 1, j) && p[j] == p[i - 1]
    requires AtMost(p, i - 1, j)
    ensures IsSkip(p, i, j + 1)
  {
    EmptyBorder(p, i);
    if j >= 0 {
      BorderStep(p, i - 1, j);
    }
    forall b | Border(p, i, b) ensures b <= j + 1 {
      if b > 0 {
        BorderStep(p, i - 1, b - 1);
      }
    }
  }
}
