/** The enumeration of benchmark configurations: a mixed-radix counter that skips the
    features without values. */
module Odometer {
  /** A feature without values does not count. */
  function Radix(n: nat): (r: nat)
    ensures r > 0
  {
    if n == 0 then 1 else n
  }

  /** The number of combinations. */
  function Size(max: seq<nat>): (s: nat)
    ensures s > 0
  {
    if max == [] then 1
    else Positive(Size(max[..|max| - 1]), Radix(max[|max| - 1])); Size(max[..|max| - 1]) * Radix(max[|max| - 1])
  }

  lemma {:induction false} Positive(a: nat, b: nat)
    requires a > 0 && b > 0
    ensures a * b > 0
  {
  }

  predicate Fits(pos: seq<nat>, max: seq<nat>) {
    |pos| == |max| && forall i :: 0 <= i < |pos| ==> pos[i] < Radix(max[i])
  }

  /** The place of a combination in the enumeration; the last feature turns fastest. */
  function Rank(pos: seq<nat>, max: seq<nat>): nat
    requires |pos| == |max|
  {
    if pos == [] then 0
    else Rank(pos[..|pos| - 1], max[..|max| - 1]) * Radix(max[|max| - 1]) + pos[|pos| - 1]
  }

  function Quotient(a: nat, b: nat): (q: nat)
    requires b > 0
    ensures q == 0 <==> a < b
  {
    a / b
  }

  function Remainder(a: nat, b: nat): (r: nat)
    requires b > 0
    ensures r < b
  {
    a % b
  }

  /** What `addOne` computes. */
  function Turned(pos: seq<nat>, max: seq<nat>): seq<nat>
    requires |pos| == |max|
  {
    if pos == [] then []
    else
      var n := |pos| - 1;
      if max[n] == 0 then Turned(pos[..n], max[..n]) + [pos[n]]
      else if pos[n] + 1 < max[n] then pos[..n] + [pos[n] + 1]
      else Turned(pos[..n], max[..n]) + [Remainder(pos[n] + 1, max[n])]
  }

  lemma {:induction false} TurnedAt(pos: seq<nat>, max: seq<nat>, i: nat)
    requires |pos| == |max| && i < |pos|
    ensures Turned(pos[..i + 1], max[..i + 1]) ==
      if max[i] == 0 then Turned(pos[..i], max[..i]) + [pos[i]]
      else if pos[i] + 1 < max[i] then pos[..i] + [pos[i] + 1]
      else Turned(pos[..i], max[..i]) + [Remainder(pos[i] + 1, max[i])]
  {
    assert pos[..i + 1][..i] == pos[..i] && max[..i + 1][..i] == max[..i];
  }

  /** `addOne`, in place. */
  method AddOne(features: array<nat>, max: seq<nat>)
    requires features.Length == |max|
    modifies features
    ensures features[..] == Turned(old(features[..]), max)
  {
    hide Turned, Quotient, Remainder;
    ghost var was := features[..];
    var i := features.Length - 1;
    assert max[..|max|] == max && was[..|was|] == was;
    while i >= 0
      invariant -1 <= i < features.Length
      invariant forall k :: 0 <= k <= i ==> features[k] == was[k]
      invariant Turned(was, max) == Turned(was[..i + 1], max[..i + 1]) + features[i + 1..]
    {
      TurnedAt(was, max, i);
      ghost var tail, front := features[i + 1..], Turned(was[..i], max[..i]);
      if max[i] != 0 {
        features[i] := features[i] + 1;
        if Quotient(features[i], max[i]) == 0 {
          assert features[..] == was[..i] + [was[i] + 1] + tail;
          return;
        }
        features[i] := Remainder(features[i], max[i]);
      }
      Regroup(front, features[i], tail);
      assert features[i..] == [features[i]] + tail;
      i := i - 1;
    }
    TurnedNone();
  }

  lemma {:induction false} Regroup<T>(a: seq<T>, v: T, b: seq<T>)
    ensures a + [v] + b == a + ([v] + b)
  {
  }

  lemma {:induction false} TurnedNone()
    ensures Turned([], []) == []
  {
  }

  /* ---- Counting ---- */

  lemma {:induction false} RankBound(pos: seq<nat>, max: seq<nat>)
    requires Fits(pos, max)
    ensures Rank(pos, max) < Size(max)
  {
    if pos != [] {
      var n := |pos| - 1;
      assert forall i :: 0 <= i < n ==> pos[i] < Radix(max[i]);
      RankBound(pos[..n], max[..n]);
      Below(Rank(pos[..n], max[..n]), Size(max[..n]), pos[n], Radix(max[n]));
    }
  }

  lemma {:induction false} Below(v: nat, s: nat, d: nat, r: nat)
    requires v < s && d < r
    ensures v * r + d < s * r
  {
    assert (v + 1) * r <= s * r;
  }

  lemma {:induction false} Carry(v: nat, s: nat, r: nat)
    requires v < s && r > 0
    ensures s * r > 0 && (v * r + r) % (s * r) == ((v + 1) % s) * r
  {
    Positive(s, r);
    assert v * r + r == (v + 1) * r;
    if v + 1 < s {
      Below(v + 1, s, 0, r);
      Small((v + 1) * r, s * r);
      Small(v + 1, s);
    } else {
      Whole(s);
      Whole(s * r);
    }
  }

  lemma {:induction false} Whole(a: nat)
    requires a > 0
    ensures a % a == 0
  {
  }

  lemma {:induction false} Small(a: nat, b: nat)
    requires a < b
    ensures a % b == a
  {
  }

  lemma {:induction false} Unfold(pos: seq<nat>, max: seq<nat>)
    requires |pos| == |max| && pos != []
    ensures var n := |pos| - 1;
      && Rank(pos, max) == Rank(pos[..n], max[..n]) * Radix(max[n]) + pos[n]
      && Size(max) == Size(max[..n]) * Radix(max[n])
  {
  }

  /** A turn leads to a combination again. */
  lemma {:induction false} TurnedFits(pos: seq<nat>, max: seq<nat>)
    requires Fits(pos, max)
    ensures Fits(Turned(pos, max), max)
  {
    if pos != [] {
      hide Turned;
      var n := |pos| - 1;
      TurnedFits(pos[..n], max[..n]);
      TurnedLength(pos, max);
      if max[n] != 0 && pos[n] + 1 < max[n] {
        LastFits(pos, max);
      } else {
        LastTurned(pos, max);
      }
      FitsSnoc(Turned(pos, max), max);
    } else {
      None(max);
    }
  }

  lemma {:induction false} FitsSnoc(pos: seq<nat>, max: seq<nat>)
    requires |pos| == |max| && pos != []
    requires Fits(pos[..|pos| - 1], max[..|pos| - 1]) && pos[|pos| - 1] < Radix(max[|pos| - 1])
    ensures Fits(pos, max)
  {
    forall i | 0 <= i < |pos| ensures pos[i] < Radix(max[i]) {
      assert i < |pos| - 1 ==> pos[i] == pos[..|pos| - 1][i] && max[i] == max[..|pos| - 1][i];
    }
  }

  /** `addOne` is increment modulo the number of combinations. */
  lemma {:induction false} TurnedCounts(pos: seq<nat>, max: seq<nat>)
    requires Fits(pos, max)
    ensures Fits(Turned(pos, max), max)
    ensures Rank(Turned(pos, max), max) == (Rank(pos, max) + 1) % Size(max)
  {
    TurnedFits(pos, max);
    if pos != [] {
      var n := |pos| - 1;
      TurnedCounts(pos[..n], max[..n]);
      RankBound(pos[..n], max[..n]);
      hide Rank, Size, Turned, Fits;
      TurnedLength(pos, max);
      if max[n] != 0 && pos[n] + 1 < max[n] {
        StepNoCarry(pos, max);
      } else {
        StepCarry(pos, max);
      }
    } else {
      None(max);
    }
  }

  /** The last feature turns. */
  lemma {:induction false} StepNoCarry(pos: seq<nat>, max: seq<nat>)
    requires Fits(pos, max) && pos != [] && |Turned(pos, max)| == |pos| == |max|
    requires var n := |pos| - 1; max[n] != 0 && pos[n] + 1 < max[n] && Rank(pos[..n], max[..n]) < Size(max[..n])
    ensures Rank(Turned(pos, max), max) == (Rank(pos, max) + 1) % Size(max)
  {
    hide Rank, Size, Turned, Fits;
    var n := |pos| - 1;
    LastFits(pos, max);
    Unfold(pos, max);
    Unfold(Turned(pos, max), max);
    NoCarry(Rank(pos[..n], max[..n]), Size(max[..n]), pos[n], Radix(max[n]));
  }

  /** It turns over, and the one before it turns. */
  lemma {:induction false} StepCarry(pos: seq<nat>, max: seq<nat>)
    requires Fits(pos, max) && pos != [] && |Turned(pos, max)| == |pos| == |max|
    requires var n := |pos| - 1;
      && (max[n] == 0 || pos[n] + 1 >= max[n]) && Rank(pos[..n], max[..n]) < Size(max[..n])
      && |Turned(pos[..n], max[..n])| == n
      && Rank(Turned(pos[..n], max[..n]), max[..n]) == (Rank(pos[..n], max[..n]) + 1) % Size(max[..n])
    ensures Rank(Turned(pos, max), max) == (Rank(pos, max) + 1) % Size(max)
  {
    hide Rank, Size, Turned, Fits;
    var n := |pos| - 1;
    LastTurned(pos, max);
    Unfold(pos, max);
    Unfold(Turned(pos, max), max);
    Carried(Rank(pos[..n], max[..n]), Size(max[..n]), pos[n], Radix(max[n]));
  }

  lemma {:induction false} None(max: seq<nat>)
    requires max == []
    ensures Turned([], max) == [] && Rank([], max) == 0 && Size(max) == 1
  {
  }

  lemma {:induction false} NoCarry(v: nat, s: nat, d: nat, r: nat)
    requires v < s && d + 1 < r
    ensures s * r > 0 && (v * r + d + 1) % (s * r) == v * r + (d + 1)
  {
    Below(v, s, d + 1, r);
    Small(v * r + d + 1, s * r);
  }

  lemma {:induction false} LastFits(pos: seq<nat>, max: seq<nat>)
    requires Fits(pos, max) && pos != []
    requires var n := |pos| - 1; max[n] != 0 && pos[n] + 1 < max[n]
    ensures var n, out := |pos| - 1, Turned(pos, max);
      && |out| == n + 1 && out[..n] == pos[..n] && out[n] == pos[n] + 1 && pos[n] + 1 < Radix(max[n])
  {
  }

  lemma {:induction false} Carried(v: nat, s: nat, d: nat, r: nat)
    requires v < s && d + 1 == r
    ensures s * r > 0 && (v * r + d + 1) % (s * r) == ((v + 1) % s) * r
  {
    Carry(v, s, r);
  }

  lemma {:induction false} LastTurned(pos: seq<nat>, max: seq<nat>)
    requires Fits(pos, max) && pos != []
    requires var n := |pos| - 1; max[n] == 0 || pos[n] + 1 >= max[n]
    ensures var n, out := |pos| - 1, Turned(pos, max);
      && |out| == n + 1 && out[..n] == Turned(pos[..n], max[..n]) && out[n] == 0
      && pos[n] + 1 == Radix(max[n])
  {
    TurnedLength(pos[..|pos| - 1], max[..|pos| - 1]);
    if max[|pos| - 1] != 0 {
      Whole(max[|pos| - 1]);
    }
  }

  lemma {:induction false} TurnedLength(pos: seq<nat>, max: seq<nat>)
    requires |pos| == |max|
    ensures |Turned(pos, max)| == |pos|
  {
    if pos != [] {
      TurnedLength(pos[..|pos| - 1], max[..|pos| - 1]);
    }
  }

  /** A combination is determined by its place. */
  lemma {:induction false} RankInjective(a: seq<nat>, b: seq<nat>, max: seq<nat>)
    requires Fits(a, max) && Fits(b, max) && Rank(a, max) == Rank(b, max)
    ensures a == b
  {
    if a != [] {
      var n := |a| - 1;
      assert forall i :: 0 <= i < n ==> a[i] < Radix(max[i]) && b[i] < Radix(max[i]);
      Digits(Rank(a[..n], max[..n]), a[n], Rank(b[..n], max[..n]), b[n], Radix(max[n]));
      RankInjective(a[..n], b[..n], max[..n]);
      assert a == a[..n] + [a[n]] && b == b[..n] + [b[n]];
    }
  }

  lemma {:induction false} Digits(v: nat, d: nat, w: nat, e: nat, r: nat)
    requires d < r && e < r && v * r + d == w * r + e
    ensures v == w && d == e
  {
    if v < w {
      Below(v, w, d, r);
    } else if w < v {
      Below(w, v, e, r);
    }
  }

  lemma {:induction false} ZeroRank(max: seq<nat>, zeros: seq<nat>)
    requires |zeros| == |max| && forall i :: 0 <= i < |zeros| ==> zeros[i] == 0
    ensures Fits(zeros, max) && Rank(zeros, max) == 0
  {
    if zeros != [] {
      ZeroRank(max[..|max| - 1], zeros[..|zeros| - 1]);
    }
  }

  /** `pos` is the combination after `k` turns. */
  ghost predicate Turns(pos: seq<nat>, max: seq<nat>, k: nat) {
    Fits(pos, max) && Rank(pos, max) == k % Size(max)
  }

  lemma {:induction false} NoTurn(max: seq<nat>, zeros: seq<nat>)
    requires |zeros| == |max| && forall i :: 0 <= i < |zeros| ==> zeros[i] == 0
    ensures Turns(zeros, max, 0)
  {
    ZeroRank(max, zeros);
    Small(0, Size(max));
  }

  /** Until the first combination comes back, each turn leads to the next place. */
  lemma {:induction false} NextTurn(pos: seq<nat>, initial: seq<nat>, max: seq<nat>, k: nat)
    requires Turns(pos, max, k) && Turns(initial, max, 0) && k <= Size(max) && (pos != initial || k == 0)
    ensures Fits(pos, max) && Rank(pos, max) == k < Size(max)
    ensures Turns(Turned(pos, max), max, k + 1)
  {
    Small(0, Size(max));
    if k < Size(max) {
      Small(k, Size(max));
    } else {
      Whole(k);
      RankInjective(pos, initial, max);
    }
    TurnedCounts(pos, max);
  }

  /** The first combination comes back only after all of them. */
  lemma {:induction false} AllTurned(initial: seq<nat>, max: seq<nat>, k: nat)
    requires Turns(initial, max, 0) && Turns(initial, max, k) && 0 < k <= Size(max)
    ensures k == Size(max)
  {
    Small(0, Size(max));
    if k < Size(max) {
      Small(k, Size(max));
    }
  }

  /** `generateFeatures`: the positions are visited in the order of their places, each one
      once, and then the loop ends. */
  method GenerateFeatures(max: seq<nat>) returns (visited: seq<seq<nat>>)
    ensures |visited| == Size(max)
    ensures forall k :: 0 <= k < |visited| ==> Fits(visited[k], max) && Rank(visited[k], max) == k
  {
    hide Rank, Size, Turned, Turns;
    visited := [];
    var initial := seq(|max|, i => 0);
    var cur: array?<nat> := null;
    NoTurn(max, initial);
    while cur == null || cur[..] != initial
      invariant cur == null ==> visited == []
      invariant cur != null ==> fresh(cur) && visited != [] && cur.Length == |max| && Turns(cur[..], max, |visited|)
      invariant |visited| <= Size(max)
      invariant forall k :: 0 <= k < |visited| ==> Fits(visited[k], max) && Rank(visited[k], max) == k
      decreases Size(max) - |visited|, cur == null
    {
      if cur == null {
        cur := new nat[|max|](i => 0);
        assert cur[..] == initial;
      }
      NextTurn(cur[..], initial, max, |visited|);
      visited := visited + [cur[..]];
      AddOne(cur, max);
    }
    AllTurned(initial, max, |visited|);
  }

  /** Every combination is visited exactly once. */
  lemma {:induction false} VisitedOnce(max: seq<nat>, visited: seq<seq<nat>>, pos: seq<nat>)
    requires |visited| == Size(max) && Fits(pos, max)
    requires forall k :: 0 <= k < |visited| ==> Fits(visited[k], max) && Rank(visited[k], max) == k
    ensures Rank(pos, max) < |visited|
    ensures forall k :: 0 <= k < |visited| ==> (visited[k] == pos <==> k == Rank(pos, max))
  {
    RankBound(pos, max);
    RankInjective(visited[Rank(pos, max)], pos, max);
  }

  /* ---- The order of the visits ---- */

  /** The first position that differs is i, and `a` has the smaller value there. */
  predicate LessAt(a: seq<nat>, b: seq<nat>, i: nat) {
    i < |a| == |b| && a[..i] == b[..i] && a[i] < b[i]
  }

  /** Combinations come in lexicographic order: the last feature changes fastest. */
  lemma {:induction false} RankOrder(a: seq<nat>, b: seq<nat>, max: seq<nat>)
    requires Fits(a, max) && Fits(b, max)
    ensures Rank(a, max) < Rank(b, max) <==> exists i: nat :: LessAt(a, b, i)
  {
    hide Rank;
    if a != b {
      var i := FirstDifference(a, b);
      if a[i] < b[i] {
        assert LessAt(a, b, i);
        LessFirst(a, b, max, i);
      } else {
        assert LessAt(b, a, i);
        LessFirst(b, a, max, i);
      }
    }
    if exists i: nat :: LessAt(a, b, i) {
      var i: nat :| LessAt(a, b, i);
      LessFirst(a, b, max, i);
    }
  }

  lemma {:induction false} FirstDifference(a: seq<nat>, b: seq<nat>) returns (i: nat)
    requires |a| == |b| && a != b
    ensures i < |a| && a[..i] == b[..i] && a[i] != b[i]
  {
    i := 0;
    assert a[..|a|] == a && b[..|b|] == b;
    while i < |a| && a[i] == b[i]
      invariant i <= |a| && a[..i] == b[..i]
    {
      i := i + 1;
    }
  }

  lemma {:induction false} LessFirst(a: seq<nat>, b: seq<nat>, max: seq<nat>, i: nat)
    requires Fits(a, max) && Fits(b, max) && LessAt(a, b, i)
    ensures Rank(a, max) < Rank(b, max)
  {
    var n := |a| - 1;
    if i < n {
      assert a[..n][..i] == a[..i] && b[..n][..i] == b[..i];
      LessFirst(a[..n], b[..n], max[..n], i);
      Spread(Rank(a[..n], max[..n]), Rank(b[..n], max[..n]), Radix(max[n]), a[n], b[n]);
    }
  }

  lemma {:induction false} Spread(v: nat, w: nat, r: nat, d: nat, e: nat)
    requires v < w && d < r
    ensures v * r + d < w * r + e
  {
    assert (w - v - 1) * r >= 0;
    assert w * r == v * r + r + (w - v - 1) * r;
  }
}
