/** Load balancers (src/gateway/include/lb.h, WeightedRr::select in src/gateway/ups_group.cpp).
    Weights are 32-bit in the source and current weights 64-bit, so the sums do not overflow. */
module Balancer {
  import opened Rules

  datatype Cand = Cand(index: nat, weight: nat, active: int)

  // ----- smooth weighted round robin on values -----

  function Sum(s: seq<int>): int {
    if s == [] then 0 else Sum(s[..|s| - 1]) + s[|s| - 1]
  }

  function Weights(c: seq<Cand>): (w: seq<int>)
    ensures |w| == |c| && forall i :: 0 <= i < |w| ==> w[i] == c[i].weight
  {
    seq(|c|, i requires 0 <= i < |c| => c[i].weight)
  }

  function Plus(a: seq<int>, b: seq<int>): (s: seq<int>)
    requires |a| == |b|
    ensures |s| == |a| && forall i :: 0 <= i < |s| ==> s[i] == a[i] + b[i]
  {
    seq(|a|, i requires 0 <= i < |a| => a[i] + b[i])
  }

  function Zeros(n: nat): (s: seq<int>)
    ensures |s| == n && forall i :: 0 <= i < n ==> s[i] == 0
  {
    seq(n, _ => 0)
  }

  /** The first place of a largest element. */
  ghost predicate IsBest(s: seq<int>, k: nat) {
    && k < |s|
    && (forall i :: 0 <= i < |s| ==> s[i] <= s[k])
    && (forall i :: 0 <= i < k ==> s[i] < s[k])
  }

  lemma {:induction false} BestExists(s: seq<int>) returns (k: nat)
    requires s != []
    ensures IsBest(s, k)
    decreases |s|
  {
    k := 0;
    if |s| > 1 {
      var init := s[..|s| - 1];
      k := BestExists(init);
      assert forall i :: 0 <= i < |init| ==> init[i] == s[i];
      if s[|s| - 1] > s[k] { k := |s| - 1; }
    }
  }

  ghost function Best(s: seq<int>): (k: nat)
    requires s != []
    ensures IsBest(s, k)
  {
    assert exists k :: IsBest(s, k) by { var k := BestExists(s); }
    var k: nat :| IsBest(s, k);
    k
  }

  ghost function Chosen(cur: seq<int>, w: seq<int>): (k: nat)
    requires |cur| == |w| > 0
    ensures IsBest(Plus(cur, w), k)
  {
    Best(Plus(cur, w))
  }

  ghost function Turned(cur: seq<int>, w: seq<int>, total: int): (next: seq<int>)
    requires |cur| == |w| > 0
    ensures |next| == |w|
  {
    Pay(Plus(cur, w), Chosen(cur, w), total)
  }

  function Pay(raised: seq<int>, k: nat, total: int): (next: seq<int>)
    requires k < |raised|
    ensures |next| == |raised|
  {
    raised[k := raised[k] - total]
  }

  /** The current weights after `t` picks from a reset with candidates of weight `total`, and how often `i` was
      picked. */
  ghost function After(w: seq<int>, total: int, t: nat): (cur: seq<int>)
    requires w != []
    ensures |cur| == |w|
  {
    if t == 0 then Zeros(|w|) else Turned(After(w, total, t - 1), w, total)
  }

  ghost function Picks(w: seq<int>, total: int, t: nat, i: nat): nat
    requires w != []
  {
    if t == 0 then 0
    else Picks(w, total, t - 1, i) + if Chosen(After(w, total, t - 1), w) == i then 1 else 0
  }

  lemma {:induction false} SumPlus(a: seq<int>, b: seq<int>)
    requires |a| == |b|
    ensures Sum(Plus(a, b)) == Sum(a) + Sum(b)
    decreases |a|
  {
    if a != [] {
      var n := |a| - 1;
      SumPlus(a[..n], b[..n]);
      assert Plus(a, b)[..n] == Plus(a[..n], b[..n]);
    }
  }

  lemma {:induction false} SumUpdate(s: seq<int>, k: nat, v: int)
    requires k < |s|
    ensures Sum(s[k := v]) == Sum(s) - s[k] + v
    decreases |s|
  {
    var n := |s| - 1;
    if k == n {
      assert s[k := v][..n] == s[..n];
    } else {
      SumUpdate(s[..n], k, v);
      assert s[k := v][..n] == s[..n][k := v];
    }
  }

  lemma {:induction false} SumZeros(n: nat)
    ensures Sum(Zeros(n)) == 0
  {
    if n > 0 {
      SumZeros(n - 1);
      assert Zeros(n)[..n - 1] == Zeros(n - 1);
    }
  }

  lemma {:induction false} SumAtMost(s: seq<int>, high: int)
    requires forall i :: 0 <= i < |s| ==> s[i] <= high
    ensures Sum(s) <= |s| * high
    decreases |s|
  {
    if s != [] {
      SumAtMost(s[..|s| - 1], high);
      assert |s| * high == (|s| - 1) * high + high;
    }
  }

  lemma {:induction false} SumOfNonNegatives(s: seq<int>)
    requires forall i :: 0 <= i < |s| ==> s[i] >= 0
    ensures Sum(s) >= 0
    ensures Sum(s) == 0 ==> s == Zeros(|s|)
    decreases |s|
  {
    if s != [] {
      SumOfNonNegatives(s[..|s| - 1]);
      if Sum(s) == 0 {
        assert s == s[..|s| - 1] + [s[|s| - 1]];
        assert Zeros(|s|) == Zeros(|s| - 1) + [0];
      }
    }
  }

  ghost predicate Positive(w: seq<int>) {
    w != [] && Sum(w) > 0 && forall i :: 0 <= i < |w| ==> w[i] >= 0
  }

  lemma PaySum(raised: seq<int>, k: nat, total: int)
    requires total > 0 && Sum(raised) == total && IsBest(raised, k)
    requires forall i :: 0 <= i < |raised| ==> raised[i] > -total
    ensures Sum(Pay(raised, k, total)) == 0
    ensures forall i :: 0 <= i < |raised| ==> Pay(raised, k, total)[i] > -total
  {
    SumUpdate(raised, k, raised[k] - total);
    if raised[k] <= 0 {
      SumAtMost(raised, 0);
      assert false;
    }
  }

  /** The current weights always cancel out, and none falls to -W. */
  lemma {:induction false} Balanced(w: seq<int>, t: nat)
    requires Positive(w)
    ensures Sum(After(w, Sum(w), t)) == 0
    ensures forall i :: 0 <= i < |w| ==> After(w, Sum(w), t)[i] > -Sum(w)
  {
    if t == 0 {
      SumZeros(|w|);
    } else {
      Balanced(w, t - 1);
      var cur := After(w, Sum(w), t - 1);
      SumPlus(cur, w);
      PaySum(Plus(cur, w), Chosen(cur, w), Sum(w));
    }
  }

  /** A current weight is the candidate's share less what it was paid for. */
  lemma {:induction false} ShareLessPaid(w: seq<int>, total: int, t: nat, i: nat)
    requires i < |w|
    ensures After(w, total, t)[i] == t * w[i] - total * Picks(w, total, t, i)
  {
    if t > 0 {
      ShareLessPaid(w, total, t - 1, i);
      TurnAt(w, total, t, i);
      ShareStep(After(w, total, t - 1)[i], After(w, total, t)[i], w[i], total,
                Picks(w, total, t - 1, i), Picks(w, total, t, i), t, Chosen(After(w, total, t - 1), w) == i);
    }
  }

  lemma TurnAt(w: seq<int>, total: int, t: nat, i: nat)
    requires i < |w| && t > 0
    ensures var hit := Chosen(After(w, total, t - 1), w) == i;
            && After(w, total, t)[i] == After(w, total, t - 1)[i] + w[i] - (if hit then total else 0)
            && Picks(w, total, t, i) == Picks(w, total, t - 1, i) + if hit then 1 else 0
  {
  }

  lemma ShareStep(before: int, after: int, wi: int, total: int, picks: int, picks': int, t: nat, hit: bool)
    requires before == (t - 1) * wi - total * picks
    requires after == before + wi - (if hit then total else 0)
    requires picks' == picks + if hit then 1 else 0
    ensures after == t * wi - total * picks'
  {
  }

  /** Exactly fair: after any number of picks no candidate is ahead of its share by a whole pick,
      and after W picks each was picked exactly its weight, with the state back to all zero. */
  lemma ExactlyFair(w: seq<int>, t: nat, i: nat)
    requires Positive(w) && i < |w|
    ensures Sum(w) * Picks(w, Sum(w), t, i) < t * w[i] + Sum(w)
    ensures Picks(w, Sum(w), Sum(w), i) == w[i]
    ensures After(w, Sum(w), Sum(w)) == Zeros(|w|)
  {
    var total := Sum(w);
    Balanced(w, t);
    ShareLessPaid(w, total, t, i);
    BackToZero(w);
    ShareLessPaid(w, total, total, i);
    Cancel(total, w[i], Picks(w, total, total, i));
  }

  lemma BackToZero(w: seq<int>)
    requires Positive(w)
    ensures After(w, Sum(w), Sum(w)) == Zeros(|w|)
  {
    var total := Sum(w);
    var cur := After(w, total, total);
    Balanced(w, total);
    forall j | 0 <= j < |w| ensures cur[j] >= 0 {
      ShareLessPaid(w, total, total, j);
      Above(total, w[j], Picks(w, total, total, j));
    }
    SumOfNonNegatives(cur);
  }

  lemma Above(total: int, a: int, b: int)
    requires total > 0 && total * a - total * b > -total
    ensures total * a - total * b >= 0
  {
    var d := a - b;
    assert total * d == total * a - total * b;
    if d <= -1 { Scale(total, -d); }
    if d >= 0 { assert total * d >= 0; }
  }

  lemma Scale(total: int, d: int)
    requires total > 0 && d >= 1
    ensures total * d >= total && total * (-d) == -(total * d)
  {
  }

  lemma Cancel(total: int, a: int, b: int)
    requires total > 0 && total * a - total * b == 0
    ensures a == b
  {
    if a > b { Scale(total, a - b); }
    if a < b { Scale(total, b - a); }
    assert total * (a - b) == total * a - total * b;
    assert total * (b - a) == total * b - total * a;
  }

  // ----- the objects -----

  predicate Same(c: seq<Cand>, indexes: seq<nat>, weights: seq<nat>) {
    && |indexes| == |weights| == |c|
    && forall i :: 0 <= i < |c| ==> indexes[i] == c[i].index && weights[i] == c[i].weight
  }

  class WeightedRr {
    var cur: seq<int>
    var indexes: seq<nat>
    var weights: seq<nat>
    var zeroCount: nat

    ghost predicate Valid()
      reads this
    {
      |cur| == |indexes| == |weights|
    }

    constructor ()
      ensures Valid() && cur == [] && zeroCount == 0
    {
      cur, indexes, weights, zeroCount := [], [], [], 0;
    }

    /** One pick. A changed list of candidates starts again from zero; with no weight at all the
        picks go round in order. */
    method Select(c: seq<Cand>) returns (picked: Option<nat>)
      requires Valid()
      modifies this
      ensures Valid()
      ensures c == [] ==> picked == None && cur == old(cur) && indexes == old(indexes) && weights == old(weights)
                          && zeroCount == old(zeroCount)
      ensures c != [] ==>
                var same := Same(c, old(indexes), old(weights));
                var start := if same then old(cur) else Zeros(|c|);
                var turns := if same then old(zeroCount) else 0;
                && Same(c, indexes, weights)
                && (Sum(Weights(c)) > 0 ==>
                      cur == Turned(start, Weights(c), Sum(Weights(c))) && zeroCount == turns
                      && picked == Some(c[Chosen(start, Weights(c))].index))
                && (Sum(Weights(c)) <= 0 ==>
                      cur == Plus(start, Weights(c)) && zeroCount == turns + 1
                      && picked == Some(c[turns % |c|].index))
    {
      if c == [] { return None; }
      Refresh(c);
      var total := Raise(c);
      if total <= 0 {
        zeroCount := zeroCount + 1;
        return Some(c[(zeroCount - 1) % |c|].index);
      }
      var best := BestOf(cur);
      cur := cur[best := cur[best] - total];
      return Some(c[best].index);
    }

    /** A changed list of candidates is remembered and starts from zero. */
    method Refresh(c: seq<Cand>)
      requires Valid()
      modifies this
      ensures Same(c, indexes, weights) && |cur| == |c|
      ensures Same(c, old(indexes), old(weights)) ==> cur == old(cur) && zeroCount == old(zeroCount)
      ensures !Same(c, old(indexes), old(weights)) ==> cur == Zeros(|c|) && zeroCount == 0
    {
      var same := SameList(c, indexes, weights);
      if |cur| != |c| || !same {
        cur := Zeros(|c|);
        indexes := seq(|c|, i requires 0 <= i < |c| => c[i].index);
        weights := seq(|c|, i requires 0 <= i < |c| => c[i].weight);
        zeroCount := 0;
      }
    }

    /** Adds each candidate's weight to its current weight and returns the total. */
    method Raise(c: seq<Cand>) returns (total: int)
      requires |cur| == |c|
      modifies this`cur
      ensures cur == Plus(old(cur), Weights(c)) && total == Sum(Weights(c))
    {
      ghost var w := Weights(c);
      total := 0;
      var i := 0;
      while i < |c|
        invariant 0 <= i <= |c| == |cur|
        invariant forall j :: 0 <= j < i ==> cur[j] == old(cur)[j] + w[j]
        invariant forall j :: i <= j < |c| ==> cur[j] == old(cur)[j]
        invariant total == Sum(w[..i])
      {
        assert w[..i + 1][..i] == w[..i];
        cur := cur[i := cur[i] + c[i].weight];
        total := total + c[i].weight;
        i := i + 1;
      }
      assert w[..i] == w;
    }
  }

  method SameList(c: seq<Cand>, indexes: seq<nat>, weights: seq<nat>) returns (same: bool)
    ensures same == Same(c, indexes, weights)
  {
    if |indexes| != |c| || |weights| != |c| { return false; }
    for i := 0 to |c|
      invariant forall j :: 0 <= j < i ==> indexes[j] == c[j].index && weights[j] == c[j].weight
    {
      if indexes[i] != c[i].index || weights[i] != c[i].weight { return false; }
    }
    return true;
  }

  method BestOf(s: seq<int>) returns (best: nat)
    requires s != []
    ensures best == Best(s)
  {
    best := 0;
    var i := 1;
    while i < |s|
      invariant 1 <= i <= |s| && 0 <= best < i
      invariant forall j :: 0 <= j < i ==> s[j] <= s[best]
      invariant forall j :: 0 <= j < best ==> s[j] < s[best]
    {
      if s[i] > s[best] { best := i; }
      i := i + 1;
    }
    BestIsUnique(s, best, Best(s));
  }

  lemma BestIsUnique(s: seq<int>, a: nat, b: nat)
    requires IsBest(s, a) && IsBest(s, b)
    ensures a == b
  {
    assert s[a] <= s[b] && s[b] <= s[a];
  }

  // ----- least connections -----

  /** Load compared by cross multiplication, with a missing weight counted as one. */
  function Load(c: Cand): nat { if c.active < 0 then 0 else c.active }
  function Share(c: Cand): (w: nat) ensures w > 0 { if c.weight == 0 then 1 else c.weight }

  predicate Lighter(a: Cand, b: Cand) { Load(a) * Share(b) < Load(b) * Share(a) }
  predicate Equal(a: Cand, b: Cand) { Load(a) * Share(b) == Load(b) * Share(a) }

  ghost predicate Lightest(c: seq<Cand>, x: Cand) {
    x in c && forall y :: y in c ==> !Lighter(y, x)
  }

  lemma LighterOrEqual(a: Cand, b: Cand, d: Cand)
    requires !Lighter(a, b) && !Lighter(b, d)
    ensures !Lighter(a, d)
  {
    var x, y, z := Load(a), Load(b), Load(d);
    var p, q, r := Share(a), Share(b), Share(d);
    assert x * q >= y * p && y * r >= z * q;
    Chain(x, y, z, p, q, r);
  }

  /** Lighter means fewer connections for each unit of weight. */
  lemma LighterIsLessPerWeight(a: Cand, b: Cand)
    ensures var x := (if a.active < 0 then 0 else a.active) as real / (if a.weight == 0 then 1 else a.weight) as real;
            var y := (if b.active < 0 then 0 else b.active) as real / (if b.weight == 0 then 1 else b.weight) as real;
            (Lighter(a, b) <==> x < y) && (Equal(a, b) <==> x == y)
  {
    CrossMultiplied(Load(a) as real, Load(b) as real, Share(a) as real, Share(b) as real);
    ProductAsReal(Load(a), Share(b));
    ProductAsReal(Load(b), Share(a));
  }

  lemma {:induction false} ProductAsReal(a: nat, b: nat)
    ensures (a * b) as real == a as real * b as real
  {
    if a > 0 {
      ProductAsReal(a - 1, b);
      assert a * b == (a - 1) * b + b;
      assert a as real * b as real == (a - 1) as real * b as real + b as real;
    }
  }

  lemma CrossMultiplied(x: real, y: real, p: real, q: real)
    requires p > 0.0 && q > 0.0
    ensures (x / p < y / q <==> x * q < y * p) && (x / p == y / q <==> x * q == y * p)
  {
    var a, b := x / p, y / q;
    assert x == a * p && y == b * q;
    assert x * q == a * (p * q) && y * p == b * (p * q);
    assert p * q > 0.0;
    if a < b { assert (b - a) * (p * q) > 0.0; }
    if a > b { assert (a - b) * (p * q) > 0.0; }
  }

  lemma Chain(x: nat, y: nat, z: nat, p: nat, q: nat, r: nat)
    requires x * q >= y * p && y * r >= z * q && q > 0
    ensures x * r >= z * p
  {
    assert (x * q) * r >= (y * p) * r;
    assert (y * r) * p >= (z * q) * p;
    assert (x * q) * r == (x * r) * q && (y * p) * r == (y * r) * p && (z * q) * p == (z * p) * q;
    assert (x * r) * q >= (z * p) * q;
  }

  /** The candidates that tie with `x`, in order. */
  function Ties(c: seq<Cand>, x: Cand): (t: seq<Cand>)
    ensures forall y :: y in t <==> y in c && Equal(y, x)
  {
    if c == [] then []
    else Ties(c[..|c| - 1], x) + if Equal(c[|c| - 1], x) then [c[|c| - 1]] else []
  }

  class WeightLeast {
    var counter: nat

    constructor () ensures counter == 0 { counter := 0; }

    /** Picks a candidate of least load per weight, taking turns among those that tie. */
    method Select(c: seq<Cand>) returns (picked: Option<nat>)
      modifies this
      ensures c == [] ==> picked == None && counter == old(counter)
      ensures c != [] ==> counter == old(counter) + 1 && exists x :: TurnAmong(c, x, old(counter), picked)
    {
      if c == [] { return None; }
      var best := LightestOf(c);
      var same := CountTies(c, c[best]);
      var pick := counter % same;
      counter := counter + 1;
      var index := NthTie(c, c[best], pick);
      assert TurnAmong(c, c[best], old(counter), Some(index));
      return Some(index);
    }
  }

  ghost predicate TurnAmong(c: seq<Cand>, x: Cand, turn: nat, picked: Option<nat>) {
    && Lightest(c, x)
    && Ties(c, x) != []
    && picked == Some(Ties(c, x)[turn % |Ties(c, x)|].index)
  }

  method LightestOf(c: seq<Cand>) returns (best: nat)
    requires c != []
    ensures best < |c| && Lightest(c, c[best])
  {
    best := 0;
    var i := 1;
    while i < |c|
      invariant 1 <= i <= |c| && 0 <= best < i
      invariant forall j :: 0 <= j < i ==> !Lighter(c[j], c[best])
    {
      if Load(c[i]) * Share(c[best]) < Load(c[best]) * Share(c[i]) {
        forall j | 0 <= j < i ensures !Lighter(c[j], c[i]) {
          LighterOrEqual(c[j], c[best], c[i]);
        }
        best := i;
      }
      i := i + 1;
    }
  }

  method CountTies(c: seq<Cand>, x: Cand) returns (same: nat)
    requires x in c
    ensures same == |Ties(c, x)| > 0
  {
    same := 0;
    var i := 0;
    while i < |c|
      invariant 0 <= i <= |c| && same == |Ties(c[..i], x)|
    {
      assert c[..i + 1][..i] == c[..i];
      if Load(c[i]) * Share(x) == Load(x) * Share(c[i]) { same := same + 1; }
      i := i + 1;
    }
    assert c[..i] == c;
    assert x in Ties(c, x);
  }

  method NthTie(c: seq<Cand>, x: Cand, pick: nat) returns (index: nat)
    requires pick < |Ties(c, x)|
    ensures index == Ties(c, x)[pick].index
  {
    var i, left := 0, pick;
    while i < |c|
      invariant 0 <= i <= |c|
      invariant i == |c| ==> c[..i] == c
      invariant left >= 0 && left + |Ties(c[..i], x)| == pick
    {
      assert c[..i + 1][..i] == c[..i];
      if Load(c[i]) * Share(x) == Load(x) * Share(c[i]) {
        if left == 0 {
          TiesPrefix(c, i + 1, x);
          return c[i].index;
        }
        left := left - 1;
      }
      i := i + 1;
    }
    assert false;
  }

  lemma {:induction false} TiesPrefix(c: seq<Cand>, n: nat, x: Cand)
    requires n <= |c|
    ensures Ties(c[..n], x) <= Ties(c, x)
    decreases |c|
  {
    if n == |c| {
      assert c[..n] == c;
    } else {
      TiesPrefix(c[..|c| - 1], n, x);
      assert c[..|c| - 1][..n] == c[..n];
    }
  }
}
