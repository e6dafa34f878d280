/** Left-to-right, non-overlapping replacement of a pattern in a sequence, the
    behaviour of Go's `strings.ReplaceAll` and `bytes.ReplaceAll` for a non-empty
    pattern, and the combinatorics of replacing back and forth. */
module Replacement {

  /** The pattern `p` starts at position `i` of `s`. */
  predicate OccursAt<T(==)>(s: seq<T>, p: seq<T>, i: int) {
    0 <= i <= |s| - |p| && p == s[i..i + |p|]
  }

  ghost predicate Contains<T>(s: seq<T>, p: seq<T>) {
    exists i :: OccursAt(s, p, i)
  }

  /** No occurrence of `y` starts strictly inside an occurrence of `x`: no proper
      suffix of `x` is a prefix of `y`, and `y` does not lie inside `x`. */
  ghost predicate NoOverlap<T>(x: seq<T>, y: seq<T>) {
    forall k :: 0 < k < |x| ==> !(x[k..] <= y) && !(y <= x[k..])
  }

  /** Two different patterns that can never share a position of a text. */
  ghost predicate Separable<T>(p: seq<T>, q: seq<T>) {
    && |p| > 0 && |q| > 0
    && NoOverlap(p, p) && NoOverlap(q, q) && NoOverlap(p, q) && NoOverlap(q, p)
    && !(p <= q) && !(q <= p)
  }

  function ReplaceAll<T(==)>(s: seq<T>, p: seq<T>, q: seq<T>): seq<T>
    requires |p| > 0
  {
    if |s| < |p| then s
    else if p <= s then q + ReplaceAll(s[|p|..], p, q)
    else [s[0]] + ReplaceAll(s[1..], p, q)
  }

  /** The number of positions at which `p` starts in `s`. */
  function Count<T(==)>(s: seq<T>, p: seq<T>): nat
    requires |p| > 0
  {
    if |s| < |p| then 0 else (if p <= s then 1 else 0) + Count(s[1..], p)
  }

  /** The pattern starts at none of the first `n` positions. */
  predicate FreeUpTo<T(==)>(s: seq<T>, p: seq<T>, n: nat)
    decreases n
  {
    n == 0 || (|s| > 0 && !(p <= s) && FreeUpTo(s[1..], p, n - 1))
  }

  // ---- One step at a time ----

  lemma PrefixIsOccurrence<T>(s: seq<T>, p: seq<T>)
    ensures p <= s <==> OccursAt(s, p, 0)
  {}

  lemma OccursInSuffix<T>(s: seq<T>, p: seq<T>, n: nat, i: nat)
    requires n <= |s|
    ensures OccursAt(s[n..], p, i) <==> OccursAt(s, p, n + i)
  {}

  lemma OccursInPrefix<T>(s: seq<T>, p: seq<T>, n: nat, i: int)
    requires n <= |s| && |p| > 0
    ensures OccursAt(s[..n], p, i) ==> OccursAt(s, p, i) && i < n
  {
    if OccursAt(s[..n], p, i) {
      assert s[..n][i..i + |p|] == s[i..i + |p|];
    }
  }

  lemma {:induction false} FreeUpToMeans<T>(s: seq<T>, p: seq<T>, n: nat)
    requires n <= |s|
    ensures FreeUpTo(s, p, n) <==> forall i :: 0 <= i < n ==> !OccursAt(s, p, i)
    decreases n
  {
    if n > 0 {
      PrefixIsOccurrence(s, p);
      FreeUpToMeans(s[1..], p, n - 1);
      forall i | 0 <= i < n - 1 ensures OccursAt(s[1..], p, i) <==> OccursAt(s, p, 1 + i) {
        OccursInSuffix(s, p, 1, i);
      }
      assert forall i :: 0 < i < n ==> (OccursAt(s, p, i) <==> OccursAt(s[1..], p, i - 1));
    }
  }

  lemma ReplaceStep<T>(s: seq<T>, p: seq<T>, q: seq<T>)
    requires |p| > 0 && |s| > 0 && !(p <= s)
    ensures ReplaceAll(s, p, q) == [s[0]] + ReplaceAll(s[1..], p, q)
    ensures Count(s, p) == Count(s[1..], p)
  {}

  /** Positions at which the pattern does not start are copied. */
  lemma {:induction false} ReplaceSkip<T>(s: seq<T>, p: seq<T>, q: seq<T>, n: nat)
    requires |p| > 0 && n <= |s| && FreeUpTo(s, p, n)
    ensures ReplaceAll(s, p, q) == s[..n] + ReplaceAll(s[n..], p, q)
    ensures Count(s, p) == Count(s[n..], p)
    decreases n
  {
    if n == 0 {
      assert s[0..] == s;
    } else {
      ReplaceStep(s, p, q);
      ReplaceSkip(s[1..], p, q, n - 1);
      SlicesOfTail(s, n);
      Associate([s[0]], s[1..][..n - 1], ReplaceAll(s[n..], p, q));
    }
  }

  lemma SlicesOfTail<T>(s: seq<T>, n: nat)
    requires 0 < n <= |s|
    ensures s[1..][n - 1..] == s[n..]
    ensures s[..n] == [s[0]] + s[1..][..n - 1]
  {}

  lemma Associate<T>(a: seq<T>, b: seq<T>, c: seq<T>)
    ensures a + b + c == a + (b + c)
  {}

  lemma ReplaceFirst<T>(s: seq<T>, p: seq<T>, q: seq<T>, j: nat)
    requires |p| > 0 && OccursAt(s, p, j) && FreeUpTo(s, p, j)
    ensures ReplaceAll(s, p, q) == s[..j] + (q + ReplaceAll(s[j + |p|..], p, q))
    ensures Count(s, p) > 0
  {
    ReplaceSkip(s, p, q, j);
    assert p <= s[j..];
    assert s[j..][|p|..] == s[j + |p|..];
  }

  /** Where two occurrences share a position, what is left of the first and the
      second agree as far as both reach. */
  lemma OverlapAgrees<T>(s: seq<T>, x: seq<T>, y: seq<T>, i: nat, j: nat)
    requires OccursAt(s, x, i) && OccursAt(s, y, j) && i <= j < i + |x|
    ensures x[j - i..] <= y || y <= x[j - i..]
  {}

  /** Two occurrences of non-overlapping patterns lie clear of each other. */
  lemma OccurrencesApart<T>(s: seq<T>, x: seq<T>, y: seq<T>, i: nat, j: nat)
    requires NoOverlap(x, y) && OccursAt(s, x, i) && OccursAt(s, y, j) && i < j
    ensures i + |x| <= j
  {
    if j < i + |x| {
      OverlapAgrees(s, x, y, i, j);
    }
  }

  /** A separable pattern cannot start inside an occurrence of `x` at the front. */
  lemma NothingInside<T>(s: seq<T>, x: seq<T>, y: seq<T>)
    requires NoOverlap(x, y) && !(x <= y) && !(y <= x) && x <= s
    ensures FreeUpTo(s, y, |x|)
  {
    PrefixIsOccurrence(s, x);
    forall i | 0 <= i < |x| ensures !OccursAt(s, y, i) {
      if OccursAt(s, y, i) {
        OverlapAgrees(s, x, y, 0, i);
      }
    }
    FreeUpToMeans(s, y, |x|);
  }

  /** The place of the first occurrence, or the end of the text. */
  lemma {:induction false} FirstOccurrence<T>(s: seq<T>, p: seq<T>) returns (j: nat)
    requires |p| > 0
    ensures j <= |s| && FreeUpTo(s, p, j)
    ensures if Contains(s, p) then OccursAt(s, p, j) else j == |s|
  {
    PrefixIsOccurrence(s, p);
    if s == [] || p <= s {
      j := 0;
    } else {
      var i := FirstOccurrence(s[1..], p);
      j := i + 1;
      OccursInSuffix(s, p, 1, i);
      if k :| OccursAt(s, p, k) {
        OccursInSuffix(s, p, 1, k - 1);
        assert Contains(s[1..], p);
      }
    }
  }

  // ---- The search loop ----

  method Index<T(==)>(s: seq<T>, p: seq<T>) returns (j: int)
    requires |p| > 0
    ensures j == -1 ==> !Contains(s, p)
    ensures j != -1 ==> OccursAt(s, p, j) && forall i :: 0 <= i < j ==> !OccursAt(s, p, i)
  {
    j := 0;
    while j <= |s| - |p|
      invariant 0 <= j
      invariant forall i :: 0 <= i < j ==> !OccursAt(s, p, i)
    {
      if s[j..j + |p|] == p {
        return;
      }
      j := j + 1;
    }
    j := -1;
  }

  /** Search, copy the gap, write the new text, continue behind the match. */
  method ReplaceAllLoop<T(==)>(s: seq<T>, p: seq<T>, q: seq<T>) returns (r: seq<T>)
    requires |p| > 0
    ensures r == ReplaceAll(s, p, q)
  {
    r := [];
    var rest := s;
    var j := Index(rest, p);
    while j != -1
      invariant r + ReplaceAll(rest, p, q) == ReplaceAll(s, p, q)
      invariant j == -1 ==> !Contains(rest, p)
      invariant j != -1 ==> OccursAt(rest, p, j) && forall i :: 0 <= i < j ==> !OccursAt(rest, p, i)
      decreases |rest|
    {
      FreeUpToMeans(rest, p, j);
      ReplaceFirst(rest, p, q, j);
      var tail := rest[j + |p|..];
      Associate(r + rest[..j], q, ReplaceAll(tail, p, q));
      Associate(r, rest[..j], q + ReplaceAll(tail, p, q));
      r := r + rest[..j] + q;
      rest := tail;
      j := Index(rest, p);
    }
    AbsentUnchanged(rest, p, q);
    r := r + rest;
  }

  // ---- Main results ----

  /** What starts at the front of the rewritten text, when the old pattern does
      not start at the front of the text. */
  lemma FrontOfReplaced<T>(s: seq<T>, p: seq<T>, q: seq<T>)
    requires Separable(p, q) && !(p <= s)
    ensures q <= ReplaceAll(s, p, q) <==> q <= s
    ensures !(p <= ReplaceAll(s, p, q))
  {
    AbsentUnchanged(s, p, q);
    PrefixIsOccurrence(s, p);
    if Contains(s, p) {
      var j := FirstOccurrence(s, p);
      ReplaceFirst(s, p, q, j);
      FrontBeforeMatch(s, p, q, j, ReplaceAll(s, p, q));
    }
  }

  /** Before the place where one text has `p` and the other has `q`, both texts
      are the same, and so are the patterns that start at their fronts. */
  lemma FrontBeforeMatch<T>(s: seq<T>, p: seq<T>, q: seq<T>, j: nat, f: seq<T>)
    requires Separable(p, q) && OccursAt(s, p, j) && OccursAt(f, q, j) && j > 0
    requires f[..j] == s[..j] && !(p <= s)
    ensures q <= f <==> q <= s
    ensures !(p <= f)
  {
    PrefixIsOccurrence(f, q);
    PrefixIsOccurrence(f, p);
    PrefixIsOccurrence(s, q);
    if q <= f {
      OccurrencesApart(f, q, q, 0, j);
      assert q == f[..j][..|q|] == s[..j][..|q|];
    }
    if q <= s {
      OccurrencesApart(s, q, p, 0, j);
      assert q == s[..j][..|q|] == f[..j][..|q|];
    }
    if p <= f {
      OccurrencesApart(f, p, q, 0, j);
    }
  }

  /** Rewriting forth and back is the same as rewriting back at once. */
  lemma {:induction false} ForthAndBack<T>(s: seq<T>, p: seq<T>, q: seq<T>)
    requires Separable(p, q)
    ensures ReplaceAll(ReplaceAll(s, p, q), q, p) == ReplaceAll(s, q, p)
    decreases |s|
  {
    var f := ReplaceAll(s, p, q);
    if |s| == 0 {
    } else if p <= s {
      ForthAndBack(s[|p|..], p, q);
      assert f[|q|..] == ReplaceAll(s[|p|..], p, q);
      MatchInFront(s, p, q);
    } else if q <= s {
      ForthAndBack(s[|q|..], p, q);
      MatchInFront(s, q, p);
      assert f[|q|..] == ReplaceAll(s[|q|..], p, q);
    } else {
      FrontOfReplaced(s, p, q);
      if |s| >= |p| {
        ForthAndBack(s[1..], p, q);
        assert f[1..] == ReplaceAll(s[1..], p, q);
      }
    }
  }

  lemma AbsentUnchanged<T>(s: seq<T>, p: seq<T>, q: seq<T>)
    requires |p| > 0
    ensures Count(s, p) == 0 <==> !Contains(s, p)
    ensures !Contains(s, p) ==> ReplaceAll(s, p, q) == s
  {
    var j := FirstOccurrence(s, p);
    if j == |s| {
      ReplaceSkip(s, p, q, |s|);
    } else {
      ReplaceFirst(s, p, q, j);
    }
  }

  /** Every match of the old pattern becomes a match of the new one, every match
      of the new one survives, no other match appears, none of the old is left. */
  lemma {:induction false} ReplacedCounts<T>(s: seq<T>, p: seq<T>, q: seq<T>)
    requires Separable(p, q)
    ensures Count(ReplaceAll(s, p, q), p) == 0
    ensures Count(ReplaceAll(s, p, q), q) == Count(s, p) + Count(s, q)
    decreases |s|
  {
    var f := ReplaceAll(s, p, q);
    if p <= s {
      ReplacedCounts(s[|p|..], p, q);
      MatchInFront(s, p, q);
      assert f[|q|..] == ReplaceAll(s[|p|..], p, q);
      MatchInFront(f, q, p);
    } else if q <= s {
      ReplacedCounts(s[|q|..], p, q);
      MatchInFront(s, q, p);
      assert f[|q|..] == ReplaceAll(s[|q|..], p, q);
      MatchInFront(f, q, p);
    } else if |s| > 0 {
      ReplacedCounts(s[1..], p, q);
      FrontOfReplaced(s, p, q);
      ReplaceStep(s, p, q);
      assert f[1..] == ReplaceAll(s[1..], p, q);
      ReplaceStep(s, q, p);
      ReplaceStep(f, p, q);
      ReplaceStep(f, q, p);
    }
  }

  /** Each match changes the length by the difference of the patterns' lengths. */
  lemma {:induction false} ReplacedLength<T>(s: seq<T>, p: seq<T>, q: seq<T>)
    requires |p| > 0 && NoOverlap(p, p)
    ensures |ReplaceAll(s, p, q)| == |s| + Count(s, p) * (|q| - |p|)
    decreases |s|
  {
    if p <= s {
      var d := |q| - |p|;
      var n := Count(s[|p|..], p);
      ReplacedLength(s[|p|..], p, q);
      CountBehind(s, p);
      OneMore(n, d);
    } else if |s| > 0 {
      ReplacedLength(s[1..], p, q);
      ReplaceStep(s, p, q);
    }
  }

  lemma OneMore(n: int, d: int)
    ensures (1 + n) * d == d + n * d
  {}

  lemma MatchInFront<T>(s: seq<T>, x: seq<T>, y: seq<T>)
    requires Separable(x, y) && x <= s
    ensures Count(s, x) == 1 + Count(s[|x|..], x)
    ensures Count(s, y) == Count(s[|x|..], y)
    ensures ReplaceAll(s, y, x) == x + ReplaceAll(s[|x|..], y, x)
  {
    CountBehind(s, x);
    SkipInFront(s, x, y);
  }

  lemma SkipInFront<T>(s: seq<T>, x: seq<T>, y: seq<T>)
    requires |y| > 0 && NoOverlap(x, y) && !(x <= y) && !(y <= x) && x <= s
    ensures Count(s, y) == Count(s[|x|..], y)
    ensures ReplaceAll(s, y, x) == x + ReplaceAll(s[|x|..], y, x)
  {
    assert s[..|x|] == x;
    NothingInside(s, x, y);
    ReplaceSkip(s, y, x, |x|);
  }

  lemma CountBehind<T>(s: seq<T>, x: seq<T>)
    requires |x| > 0 && NoOverlap(x, x) && x <= s
    ensures Count(s, x) == 1 + Count(s[|x|..], x)
  {
    PrefixIsOccurrence(s, x);
    forall i | 0 <= i < |x| - 1 ensures !OccursAt(s[1..], x, i) {
      OccursInSuffix(s, x, 1, i);
      if OccursAt(s, x, 1 + i) {
        OccurrencesApart(s, x, x, 0, 1 + i);
      }
    }
    FreeUpToMeans(s[1..], x, |x| - 1);
    ReplaceSkip(s[1..], x, x, |x| - 1);
    assert s[1..][|x| - 1..] == s[|x|..];
  }

  lemma CountFirst<T>(s: seq<T>, p: seq<T>, j: nat)
    requires |p| > 0 && NoOverlap(p, p) && OccursAt(s, p, j) && FreeUpTo(s, p, j)
    ensures Count(s, p) == 1 + Count(s[j + |p|..], p)
  {
    ReplaceSkip(s, p, p, j);
    CountBehind(s[j..], p);
    assert s[j..][|p|..] == s[j + |p|..];
  }

  lemma AroundMatch<T>(s: seq<T>, p: seq<T>, j: nat)
    requires OccursAt(s, p, j)
    ensures s == s[..j] + (p + s[j + |p|..])
  {}

  /** The text around its first match, and what replacing makes of it. */
  lemma FirstMatchParts<T>(s: seq<T>, p: seq<T>, q: seq<T>) returns (front: seq<T>, rest: seq<T>)
    requires |p| > 0 && NoOverlap(p, p) && Contains(s, p)
    ensures |rest| < |s| && s == front + (p + rest)
    ensures ReplaceAll(s, p, q) == front + (q + ReplaceAll(rest, p, q))
    ensures Count(s, p) == 1 + Count(rest, p)
  {
    var j := FirstOccurrence(s, p);
    ReplaceFirst(s, p, q, j);
    CountFirst(s, p, j);
    AroundMatch(s, p, j);
    front, rest := s[..j], s[j + |p|..];
  }

  /** A text that starts with `x` splits the matches of `y` from those before it. */
  lemma {:induction false} CountBefore<T>(a: seq<T>, x: seq<T>, b: seq<T>, y: seq<T>)
    requires |x| > 0 && |y| > 0 && NoOverlap(y, x)
    ensures Count(a + (x + b), y) == Count(a, y) + Count(x + b, y)
    decreases |a|
  {
    var whole := a + (x + b);
    if a == [] {
      assert whole == x + b;
    } else {
      PrefixStaysInFront(a, x, b, y);
      assert whole[1..] == a[1..] + (x + b);
      CountBefore(a[1..], x, b, y);
      CountStep(a, y);
      CountStep(whole, y);
    }
  }

  lemma CountStep<T>(s: seq<T>, p: seq<T>)
    requires |p| > 0 && |s| > 0
    ensures Count(s, p) == (if p <= s then 1 else 0) + Count(s[1..], p)
  {}

  lemma PrefixStaysInFront<T>(a: seq<T>, x: seq<T>, b: seq<T>, y: seq<T>)
    requires |a| > 0 && |y| > 0 && NoOverlap(y, x)
    ensures y <= a + (x + b) <==> y <= a
  {
    var whole := a + (x + b);
    assert whole[..|a|] == a;
    assert x == whole[|a|..|a| + |x|];
    PrefixIsOccurrence(whole, y);
    if y <= whole {
      OccurrencesApart(whole, y, x, 0, |a|);
    }
  }

  /** The matches before, in and behind a stretch `x` that matches cannot straddle. */
  lemma CountAround<T>(a: seq<T>, x: seq<T>, b: seq<T>, y: seq<T>, z: seq<T>)
    requires Separable(x, z) && Separable(z, x) && (y == x || y == z)
    ensures Count(a + (x + b), y) == Count(a, y) + (if y == x then 1 else 0) + Count(b, y)
  {
    CountBefore(a, x, b, y);
    assert (x + b)[|x|..] == b && x <= x + b;
    MatchInFront(x + b, x, z);
  }

  // ---- Texts as pieces between matches ----

  function Join<T>(pieces: seq<seq<T>>, sep: seq<T>): seq<T>
    requires |pieces| > 0
  {
    if |pieces| == 1 then pieces[0] else pieces[0] + sep + Join(pieces[1..], sep)
  }

  /** Every text is glued from pieces that are free of the pattern. */
  lemma {:induction false} EveryTextHasPieces<T>(s: seq<T>, p: seq<T>) returns (pieces: seq<seq<T>>)
    requires |p| > 0
    ensures |pieces| > 0 && Join(pieces, p) == s
    ensures forall i :: 0 <= i < |pieces| ==> !Contains(pieces[i], p)
    decreases |s|
  {
    var j := FirstOccurrence(s, p);
    if j == |s| {
      pieces := [s];
    } else {
      var later := EveryTextHasPieces(s[j + |p|..], p);
      pieces := [s[..j]] + later;
      assert pieces[1..] == later;
      assert s == s[..j] + p + s[j + |p|..];
      FreeUpToMeans(s, p, j);
      forall i ensures !OccursAt(s[..j], p, i) {
        OccursInPrefix(s, p, j, i);
      }
    }
  }

  lemma OccursInFront<T>(a: seq<T>, b: seq<T>, p: seq<T>, i: nat)
    ensures OccursAt(a + b, p, i) && i + |p| <= |a| ==> OccursAt(a, p, i)
  {
    if i + |p| <= |a| {
      assert (a + b)[i..i + |p|] == a[i..i + |p|];
    }
  }

  lemma FirstGlue<T>(piece: seq<T>, p: seq<T>, rest: seq<T>)
    requires |p| > 0 && NoOverlap(p, p) && !Contains(piece, p)
    ensures OccursAt(piece + p + rest, p, |piece|) && FreeUpTo(piece + p + rest, p, |piece|)
  {
    var s := piece + p + rest;
    var j := |piece|;
    Associate(piece, p, rest);
    assert OccursAt(s, p, j);
    forall i | 0 <= i < j ensures !OccursAt(s, p, i) {
      OccursInFront(piece, p + rest, p, i);
      if OccursAt(s, p, i) {
        OccurrencesApart(s, p, p, i, j);
      }
    }
    FreeUpToMeans(s, p, j);
  }

  /** Replacement keeps the pieces between the matches and exchanges the glue,
      whatever pieces free of the pattern the text is glued from. */
  lemma {:induction false} ReplaceKeepsPieces<T>(pieces: seq<seq<T>>, p: seq<T>, q: seq<T>)
    requires |p| > 0 && NoOverlap(p, p) && |pieces| > 0
    requires forall i :: 0 <= i < |pieces| ==> !Contains(pieces[i], p)
    ensures ReplaceAll(Join(pieces, p), p, q) == Join(pieces, q)
  {
    if |pieces| == 1 {
      AbsentUnchanged(pieces[0], p, q);
    } else {
      var first, later := pieces[0], pieces[1..];
      ReplaceKeepsPieces(later, p, q);
      ReplaceFirstGlue(first, p, q, Join(later, p));
      Associate(first, q, Join(later, q));
    }
  }

  lemma ReplaceFirstGlue<T>(piece: seq<T>, p: seq<T>, q: seq<T>, rest: seq<T>)
    requires |p| > 0 && NoOverlap(p, p) && !Contains(piece, p)
    ensures ReplaceAll(piece + p + rest, p, q) == piece + (q + ReplaceAll(rest, p, q))
  {
    var s := piece + p + rest;
    FirstGlue(piece, p, rest);
    ReplaceFirst(s, p, q, |piece|);
    assert s[|piece| + |p|..] == rest;
    assert s[..|piece|] == piece;
  }

  // ---- Elements outside the patterns ----

  function Around<T>(s: seq<T>, c: T, t: seq<T>): seq<T> {
    s + ([c] + t)
  }

  lemma AroundTail<T>(s: seq<T>, c: T, t: seq<T>, n: nat)
    requires n <= |s|
    ensures Around(s, c, t)[n..] == Around(s[n..], c, t)
    ensures Around(s, c, t)[..n] == s[..n]
    ensures Around(s, c, t)[0] == if s == [] then c else s[0]
  {}

  lemma AroundPrepend<T>(a: seq<T>, s: seq<T>, c: T, t: seq<T>)
    ensures Around(a + s, c, t) == a + Around(s, c, t)
  {}

  /** An element that the pattern does not hold separates the text: no match
      straddles it. */
  lemma {:induction false} ReplaceAround<T>(s: seq<T>, c: T, t: seq<T>, p: seq<T>, q: seq<T>)
    requires |p| > 0 && c !in p
    ensures ReplaceAll(Around(s, c, t), p, q) == Around(ReplaceAll(s, p, q), c, ReplaceAll(t, p, q))
    decreases |s|
  {
    var whole := Around(s, c, t);
    PrefixBefore(s, c, t, p);
    if |s| == 0 {
      assert whole[1..] == t;
      ReplaceStep(whole, p, q);
    } else if p <= s {
      AroundTail(s, c, t, |p|);
      ReplaceAround(s[|p|..], c, t, p, q);
      AroundPrepend(q, ReplaceAll(s[|p|..], p, q), c, ReplaceAll(t, p, q));
    } else {
      AroundTail(s, c, t, 1);
      ReplaceAround(s[1..], c, t, p, q);
      ReplaceStep(s, p, q);
      ReplaceStep(whole, p, q);
      AroundPrepend([s[0]], ReplaceAll(s[1..], p, q), c, ReplaceAll(t, p, q));
    }
  }

  lemma PrefixBefore<T>(s: seq<T>, c: T, t: seq<T>, p: seq<T>)
    requires c !in p
    ensures p <= Around(s, c, t) <==> p <= s
  {
    var whole := Around(s, c, t);
    assert whole[|s|] == c && whole[..|s|] == s;
  }

  /** An element the new text does not hold is in the result, and at its end,
      only where it was in the text. */
  lemma {:induction false} ReplaceForeign<T>(s: seq<T>, c: T, p: seq<T>, q: seq<T>)
    requires |p| > 0 && |q| > 0 && c !in q
    ensures c !in s ==> c !in ReplaceAll(s, p, q)
    ensures |s| > 0 ==> |ReplaceAll(s, p, q)| > 0
    ensures var r := ReplaceAll(s, p, q);
      |r| > 0 && r[|r| - 1] == c ==> |s| > 0 && s[|s| - 1] == c
    decreases |s|
  {
    if |s| < |p| {
    } else if p <= s {
      ReplaceForeign(s[|p|..], c, p, q);
    } else {
      ReplaceForeign(s[1..], c, p, q);
    }
  }
}
