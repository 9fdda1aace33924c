/** The sharded adaptive replacement cache (tools/arc.h). Lists are sequences, newest first; an
    index map is the set of keys it can find, an iterator the node with that key. */
module Arc {
  import opened Rules

  datatype Node<K, V> = Node(key: K, val: V)

  // ----- lists of nodes -----

  ghost function KeySet<K, V>(t: seq<Node<K, V>>): set<K> {
    set i | 0 <= i < |t| :: t[i].key
  }

  ghost predicate NoDup<K, V>(t: seq<Node<K, V>>) {
    forall i, j :: 0 <= i < j < |t| ==> t[i].key != t[j].key
  }

  /** The place of the node with key `k`, or the length. */
  function Place<K(==), V>(t: seq<Node<K, V>>, k: K): (i: nat)
    ensures i <= |t| && (i < |t| ==> t[i].key == k)
    ensures forall j :: 0 <= j < i ==> t[j].key != k
  {
    if t == [] || t[0].key == k then 0 else 1 + Place(t[1..], k)
  }

  function Drop<K, V>(t: seq<Node<K, V>>, i: nat): seq<Node<K, V>>
    requires i < |t|
  {
    t[..i] + t[i + 1..]
  }

  function DropLast<K, V>(t: seq<Node<K, V>>): seq<Node<K, V>>
    requires t != []
  {
    Drop(t, |t| - 1)
  }

  lemma PlaceOfKey<K, V>(t: seq<Node<K, V>>, k: K)
    ensures k in KeySet(t) <==> Place(t, k) < |t|
  {
  }

  lemma Dropped<K, V>(t: seq<Node<K, V>>, i: nat)
    requires i < |t| && NoDup(t)
    ensures NoDup(Drop(t, i)) && |Drop(t, i)| == |t| - 1
    ensures KeySet(Drop(t, i)) == KeySet(t) - {t[i].key}
    ensures forall n :: n in Drop(t, i) ==> n in t
  {
    var d := Drop(t, i);
    forall j | 0 <= j < |t| && j != i ensures t[j] in d {
      assert t[j] == d[if j < i then j else j - 1];
    }
    forall k | k in KeySet(t) - {t[i].key} ensures k in KeySet(d) {
      var j :| 0 <= j < |t| && t[j].key == k;
      assert t[j] in d;
    }
  }

  lemma Fronted<K, V>(t: seq<Node<K, V>>, n: Node<K, V>)
    requires NoDup(t) && n.key !in KeySet(t)
    ensures NoDup([n] + t) && KeySet([n] + t) == KeySet(t) + {n.key}
  {
    var f := [n] + t;
    forall j | 0 <= j < |t| ensures f[j + 1] == t[j] && t[j].key in KeySet(t) {}
    forall k | k in KeySet(t) ensures k in KeySet(f) {
      var j :| 0 <= j < |t| && t[j].key == k;
      assert f[j + 1].key == k;
    }
    assert f[0].key in KeySet(f);
  }

  // ----- one shard as a value -----

  datatype Shard<K, V> = Shard(
    cap: nat,
    p: nat,
    t1: seq<Node<K, V>>,
    t2: seq<Node<K, V>>,
    b1: seq<Node<K, ()>>,
    b2: seq<Node<K, ()>>)

  function Ghost<K, V>(n: Node<K, V>): Node<K, ()> { Node(n.key, ()) }

  predicate TakesT1<K, V>(s: Shard<K, V>, fromB2: bool) {
    s.t1 != [] && (|s.t1| > s.p || (fromB2 && |s.t1| == s.p))
  }

  /** Moves the oldest node of one cache list to the front of its ghost list. */
  function Replace<K, V>(s: Shard<K, V>, fromB2: bool): (r: Shard<K, V>)
    ensures |r.b1| >= |s.b1| && |r.b2| >= |s.b2|
  {
    if s.t1 != [] && (TakesT1(s, fromB2) || s.t2 == []) then
      s.(b1 := [Ghost(s.t1[|s.t1| - 1])] + s.b1, t1 := DropLast(s.t1))
    else if s.t2 != [] then
      s.(b2 := [Ghost(s.t2[|s.t2| - 1])] + s.b2, t2 := DropLast(s.t2))
    else s
  }

  function EvictGhost<K, V>(s: Shard<K, V>): Shard<K, V> {
    if s.b1 != [] then s.(b1 := DropLast(s.b1))
    else if s.b2 != [] then s.(b2 := DropLast(s.b2))
    else s
  }

  function Promote<K, V>(s: Shard<K, V>, i: nat, v: V): Shard<K, V>
    requires i < |s.t1|
  {
    s.(t1 := Drop(s.t1, i), t2 := [Node(s.t1[i].key, v)] + s.t2)
  }

  function Refresh<K, V>(s: Shard<K, V>, i: nat, v: V): Shard<K, V>
    requires i < |s.t2|
  {
    s.(t2 := [Node(s.t2[i].key, v)] + Drop(s.t2, i))
  }

  function Lookup<K(==), V>(s: Shard<K, V>, k: K): (Shard<K, V>, Option<V>) {
    var i, j := Place(s.t1, k), Place(s.t2, k);
    if i < |s.t1| then (Promote(s, i, s.t1[i].val), Some(s.t1[i].val))
    else if j < |s.t2| then (Refresh(s, j, s.t2[j].val), Some(s.t2[j].val))
    else (s, None)
  }

  /** How far a ghost hit moves the target: the ratio of the other ghost list to this one. */
  function Delta(mine: nat, other: nat): nat {
    if mine >= other || mine == 0 then 1 else other / mine
  }

  function GrowP(p: nat, delta: nat, cap: nat): nat { if p + delta < cap then p + delta else cap }
  function ShrinkP(p: nat, delta: nat): nat { if p > delta then p - delta else 0 }

  function PutB1<K, V>(s: Shard<K, V>, k: K, v: V, i: nat): Shard<K, V>
    requires i < |s.b1|
  {
    var r := Replace(s.(p := GrowP(s.p, Delta(|s.b1|, |s.b2|), s.cap)), false);
    r.(b1 := Drop(r.b1, i + |r.b1| - |s.b1|), t2 := [Node(k, v)] + r.t2)
  }

  function PutB2<K, V>(s: Shard<K, V>, k: K, v: V, i: nat): Shard<K, V>
    requires i < |s.b2|
  {
    var r := Replace(s.(p := ShrinkP(s.p, Delta(|s.b2|, |s.b1|))), true);
    r.(b2 := Drop(r.b2, i + |r.b2| - |s.b2|), t2 := [Node(k, v)] + r.t2)
  }

  /** Room for a key seen for the first time. */
  function Room<K, V>(s: Shard<K, V>): Shard<K, V> {
    if |s.t1| + |s.b1| >= s.cap then
      if |s.t1| < s.cap then
        Replace(if s.b1 != [] then s.(b1 := DropLast(s.b1)) else s, false)
      else if s.t1 != [] then s.(t1 := DropLast(s.t1))
      else s
    else if |s.t1| + |s.t2| >= s.cap then
      var r := Replace(s, false);
      if |r.b1| + |r.b2| >= s.cap then EvictGhost(r) else r
    else s
  }

  function Insert<K(==), V>(s: Shard<K, V>, k: K, v: V): Shard<K, V> {
    var i1, i2, g1, g2 := Place(s.t1, k), Place(s.t2, k), Place(s.b1, k), Place(s.b2, k);
    if i1 < |s.t1| then Promote(s, i1, v)
    else if i2 < |s.t2| then Refresh(s, i2, v)
    else if g1 < |s.b1| then PutB1(s, k, v, g1)
    else if g2 < |s.b2| then PutB2(s, k, v, g2)
    else var r := Room(s); r.(t1 := [Node(k, v)] + r.t1)
  }

  // ----- what every operation keeps -----

  ghost predicate Apart<K, V>(s: Shard<K, V>) {
    && NoDup(s.t1) && NoDup(s.t2) && NoDup(s.b1) && NoDup(s.b2)
    && KeySet(s.t1) !! KeySet(s.t2) && KeySet(s.t1) !! KeySet(s.b1) && KeySet(s.t1) !! KeySet(s.b2)
    && KeySet(s.t2) !! KeySet(s.b1) && KeySet(s.t2) !! KeySet(s.b2) && KeySet(s.b1) !! KeySet(s.b2)
  }

  predicate Sized<K, V>(s: Shard<K, V>) {
    && s.p <= s.cap
    && |s.t1| + |s.t2| <= s.cap
    && |s.t1| + |s.b1| <= s.cap
    && |s.b1| + |s.b2| < s.cap
  }

  ghost predicate Sane<K, V>(s: Shard<K, V>) {
    Apart(s) && Sized(s)
  }

  /** Every cached value is the last one put. */
  ghost predicate Shows<K(!new), V>(t: seq<Node<K, V>>, truth: map<K, V>) {
    forall n :: n in t ==> n.key in truth && truth[n.key] == n.val
  }

  lemma ReplaceApart<K(!new), V>(s: Shard<K, V>, fromB2: bool)
    requires Apart(s)
    ensures Apart(Replace(s, fromB2))
    ensures var r := Replace(s, fromB2);
            && (forall n :: n in r.t1 ==> n in s.t1) && (forall n :: n in r.t2 ==> n in s.t2)
            && KeySet(s.b1) <= KeySet(r.b1) && KeySet(s.b2) <= KeySet(r.b2)
            && KeySet(r.t1) <= KeySet(s.t1) && KeySet(r.t2) <= KeySet(s.t2)
            && KeySet(r.t1) + KeySet(r.t2) + KeySet(r.b1) + KeySet(r.b2)
            == KeySet(s.t1) + KeySet(s.t2) + KeySet(s.b1) + KeySet(s.b2)
  {
    if s.t1 != [] && (TakesT1(s, fromB2) || s.t2 == []) {
      var n := s.t1[|s.t1| - 1];
      assert n.key in KeySet(s.t1);
      Dropped(s.t1, |s.t1| - 1);
      Fronted(s.b1, Ghost(n));
    } else if s.t2 != [] {
      var n := s.t2[|s.t2| - 1];
      assert n.key in KeySet(s.t2);
      Dropped(s.t2, |s.t2| - 1);
      Fronted(s.b2, Ghost(n));
    }
  }

  lemma ShowsFewer<K(!new), V>(t: seq<Node<K, V>>, t': seq<Node<K, V>>, truth: map<K, V>)
    requires Shows(t, truth) && forall n :: n in t' ==> n in t
    ensures Shows(t', truth)
  {
  }

  /** A list without key `k` still shows the truth after `k` is put. */
  lemma ShowsElse<K(!new), V>(t: seq<Node<K, V>>, truth: map<K, V>, k: K, v: V)
    requires Shows(t, truth) && k !in KeySet(t)
    ensures Shows(t, truth[k := v]) && Shows([Node(k, v)] + t, truth[k := v])
  {
    forall n | n in t ensures n.key != k {
      var i :| 0 <= i < |t| && t[i] == n;
      assert t[i].key in KeySet(t);
    }
  }

  ghost predicate Faithful<K(!new), V>(s: Shard<K, V>, truth: map<K, V>) {
    Shows(s.t1, truth) && Shows(s.t2, truth)
  }

  /** Key `k`, absent from every list, comes in at the front of T1 or T2. */
  lemma EnterT1<K(!new), V>(s: Shard<K, V>, k: K, v: V, truth: map<K, V>)
    requires Apart(s) && Faithful(s, truth)
    requires k !in KeySet(s.t1) + KeySet(s.t2) + KeySet(s.b1) + KeySet(s.b2)
    ensures Apart(s.(t1 := [Node(k, v)] + s.t1)) && Faithful(s.(t1 := [Node(k, v)] + s.t1), truth[k := v])
  {
    Fronted(s.t1, Node(k, v));
    ShowsElse(s.t1, truth, k, v);
    ShowsElse(s.t2, truth, k, v);
  }

  lemma EnterT2<K(!new), V>(s: Shard<K, V>, k: K, v: V, truth: map<K, V>)
    requires Apart(s) && Faithful(s, truth)
    requires k !in KeySet(s.t1) + KeySet(s.t2) + KeySet(s.b1) + KeySet(s.b2)
    ensures Apart(s.(t2 := [Node(k, v)] + s.t2)) && Faithful(s.(t2 := [Node(k, v)] + s.t2), truth[k := v])
  {
    Fronted(s.t2, Node(k, v));
    ShowsElse(s.t1, truth, k, v);
    ShowsElse(s.t2, truth, k, v);
  }

  lemma PromoteKept<K(!new), V>(s: Shard<K, V>, i: nat, v: V, truth: map<K, V>)
    requires Sane(s) && Faithful(s, truth) && i < |s.t1|
    ensures Sane(Promote(s, i, v)) && Faithful(Promote(s, i, v), truth[s.t1[i].key := v])
  {
    var k := s.t1[i].key;
    assert k in KeySet(s.t1);
    Dropped(s.t1, i);
    ShowsFewer(s.t1, Drop(s.t1, i), truth);
    EnterT2(s.(t1 := Drop(s.t1, i)), k, v, truth);
  }

  lemma RefreshKept<K(!new), V>(s: Shard<K, V>, i: nat, v: V, truth: map<K, V>)
    requires Sane(s) && Faithful(s, truth) && i < |s.t2|
    ensures Sane(Refresh(s, i, v)) && Faithful(Refresh(s, i, v), truth[s.t2[i].key := v])
  {
    var k := s.t2[i].key;
    assert k in KeySet(s.t2);
    Dropped(s.t2, i);
    ShowsFewer(s.t2, Drop(s.t2, i), truth);
    EnterT2(s.(t2 := Drop(s.t2, i)), k, v, truth);
  }

  lemma GhostHitB1<K(!new), V>(s: Shard<K, V>, k: K, v: V, i: nat, truth: map<K, V>)
    requires Sane(s) && Faithful(s, truth) && i < |s.b1| && s.b1[i].key == k
    ensures Sane(PutB1(s, k, v, i)) && Faithful(PutB1(s, k, v, i), truth[k := v])
  {
    var q := s.(p := GrowP(s.p, Delta(|s.b1|, |s.b2|), s.cap));
    assert Apart(q) && Faithful(q, truth);
    GhostMovesB1(q, k, v, i, truth);
    GhostSizesB1(s, k, v, i);
  }

  lemma GhostMovesB1<K(!new), V>(q: Shard<K, V>, k: K, v: V, i: nat, truth: map<K, V>)
    requires Apart(q) && Faithful(q, truth) && i < |q.b1| && q.b1[i].key == k
    ensures var r := Replace(q, false);
            var t := r.(b1 := Drop(r.b1, i + |r.b1| - |q.b1|), t2 := [Node(k, v)] + r.t2);
            Apart(t) && Faithful(t, truth[k := v])
  {
    assert k in KeySet(q.b1);
    var r := Replace(q, false);
    ReplaceApart(q, false);
    var at := i + |r.b1| - |q.b1|;
    assert r.b1[at] == q.b1[i];
    ShowsFewer(q.t1, r.t1, truth);
    ShowsFewer(q.t2, r.t2, truth);
    Dropped(r.b1, at);
    EnterT2(r.(b1 := Drop(r.b1, at)), k, v, truth);
  }

  lemma GhostSizesB1<K(!new), V>(s: Shard<K, V>, k: K, v: V, i: nat)
    requires Sized(s) && i < |s.b1|
    ensures Sized(PutB1(s, k, v, i))
  {
  }

  lemma GhostHitB2<K(!new), V>(s: Shard<K, V>, k: K, v: V, i: nat, truth: map<K, V>)
    requires Sane(s) && Faithful(s, truth) && i < |s.b2| && s.b2[i].key == k
    ensures Sane(PutB2(s, k, v, i)) && Faithful(PutB2(s, k, v, i), truth[k := v])
  {
    var q := s.(p := ShrinkP(s.p, Delta(|s.b2|, |s.b1|)));
    assert Apart(q) && Faithful(q, truth);
    GhostMovesB2(q, k, v, i, truth);
    GhostSizesB2(s, k, v, i);
  }

  lemma GhostMovesB2<K(!new), V>(q: Shard<K, V>, k: K, v: V, i: nat, truth: map<K, V>)
    requires Apart(q) && Faithful(q, truth) && i < |q.b2| && q.b2[i].key == k
    ensures var r := Replace(q, true);
            var t := r.(b2 := Drop(r.b2, i + |r.b2| - |q.b2|), t2 := [Node(k, v)] + r.t2);
            Apart(t) && Faithful(t, truth[k := v])
  {
    assert k in KeySet(q.b2);
    var r := Replace(q, true);
    ReplaceApart(q, true);
    var at := i + |r.b2| - |q.b2|;
    assert r.b2[at] == q.b2[i];
    ShowsFewer(q.t1, r.t1, truth);
    ShowsFewer(q.t2, r.t2, truth);
    Dropped(r.b2, at);
    EnterT2(r.(b2 := Drop(r.b2, at)), k, v, truth);
  }

  lemma GhostSizesB2<K(!new), V>(s: Shard<K, V>, k: K, v: V, i: nat)
    requires Sized(s) && i < |s.b2|
    ensures Sized(PutB2(s, k, v, i))
  {
  }

  ghost function AllKeys<K, V>(s: Shard<K, V>): set<K> {
    KeySet(s.t1) + KeySet(s.t2) + KeySet(s.b1) + KeySet(s.b2)
  }

  lemma EvictGhostApart<K(!new), V>(s: Shard<K, V>)
    requires Apart(s)
    ensures Apart(EvictGhost(s)) && AllKeys(EvictGhost(s)) <= AllKeys(s)
  {
    if s.b1 != [] { Dropped(s.b1, |s.b1| - 1); }
    else if s.b2 != [] { Dropped(s.b2, |s.b2| - 1); }
  }

  /** Making room leaves a shard that can take one more node in T1, and adds no key. */
  lemma RoomApart<K(!new), V>(s: Shard<K, V>)
    requires Apart(s)
    ensures Apart(Room(s)) && AllKeys(Room(s)) <= AllKeys(s)
    ensures forall n :: n in Room(s).t1 ==> n in s.t1
    ensures forall n :: n in Room(s).t2 ==> n in s.t2
  {
    if |s.t1| + |s.b1| >= s.cap {
      if s.b1 != [] { Dropped(s.b1, |s.b1| - 1); }
      if s.t1 != [] { Dropped(s.t1, |s.t1| - 1); }
      ReplaceApart(if s.b1 != [] then s.(b1 := DropLast(s.b1)) else s, false);
    } else if |s.t1| + |s.t2| >= s.cap {
      ReplaceApart(s, false);
      EvictGhostApart(Replace(s, false));
    }
  }

  lemma RoomSized<K(!new), V>(s: Shard<K, V>)
    requires Sized(s)
    ensures var r := Room(s);
            r.cap == s.cap && r.p == s.p && |r.t1| + |r.t2| < s.cap && |r.t1| + |r.b1| < s.cap
                && |r.b1| + |r.b2| < s.cap
  {
  }

  lemma FrontIsHit<K(!new), V>(s: Shard<K, V>, k: K, v: V)
    requires Apart(s)
    requires (s.t1 != [] && s.t1[0] == Node(k, v)) || (s.t2 != [] && s.t2[0] == Node(k, v))
    ensures Lookup(s, k).1 == Some(v)
  {
    PlaceOfKey(s.t1, k);
    if s.t2 != [] && s.t2[0] == Node(k, v) { assert k in KeySet(s.t2); }
  }

  /** A get keeps the shard's shape, a hit is the last value put, and a miss changes nothing. */
  lemma GetKept<K(!new), V>(s: Shard<K, V>, k: K, truth: map<K, V>)
    requires Sane(s) && Faithful(s, truth)
    ensures var (s', r) := Lookup(s, k);
            && Sane(s') && s'.cap == s.cap && Faithful(s', truth)
            && (r.Some? <==> k in KeySet(s.t1) + KeySet(s.t2))
            && (r.Some? ==> k in truth && r.value == truth[k])
            && (r.None? ==> s' == s)
  {
    PlaceOfKey(s.t1, k);
    PlaceOfKey(s.t2, k);
    var i, j := Place(s.t1, k), Place(s.t2, k);
    if i < |s.t1| {
      assert s.t1[i] in s.t1;
      PromoteKept(s, i, s.t1[i].val, truth);
      assert truth[k := s.t1[i].val] == truth;
    } else if j < |s.t2| {
      assert s.t2[j] in s.t2;
      RefreshKept(s, j, s.t2[j].val, truth);
      assert truth[k := s.t2[j].val] == truth;
    }
  }

  /** Every put keeps the shard's shape and its answers true, and the key it put is a hit next. */
  lemma PutKept<K(!new), V>(s: Shard<K, V>, k: K, v: V, truth: map<K, V>)
    requires Sane(s) && Faithful(s, truth)
    ensures Sane(Insert(s, k, v)) && Insert(s, k, v).cap == s.cap && Faithful(Insert(s, k, v), truth[k := v])
    ensures Lookup(Insert(s, k, v), k).1 == Some(v)
  {
    PlaceOfKey(s.t1, k);
    PlaceOfKey(s.t2, k);
    PlaceOfKey(s.b1, k);
    PlaceOfKey(s.b2, k);
    if Place(s.t1, k) < |s.t1| {
      PromoteKept(s, Place(s.t1, k), v, truth);
    } else if Place(s.t2, k) < |s.t2| {
      RefreshKept(s, Place(s.t2, k), v, truth);
    } else if Place(s.b1, k) < |s.b1| {
      GhostHitB1(s, k, v, Place(s.b1, k), truth);
    } else if Place(s.b2, k) < |s.b2| {
      GhostHitB2(s, k, v, Place(s.b2, k), truth);
    } else {
      RoomApart(s);
      RoomSized(s);
      ShowsFewer(s.t1, Room(s).t1, truth);
      ShowsFewer(s.t2, Room(s).t2, truth);
      EnterT1(Room(s), k, v, truth);
    }
    FrontIsHit(Insert(s, k, v), k, v);
  }

  lemma PutKeys<K(!new), V>(s: Shard<K, V>, k: K, v: V)
    requires Sane(s)
    ensures AllKeys(Insert(s, k, v)) <= AllKeys(s) + {k}
  {
    var i, j := Place(s.t1, k), Place(s.t2, k);
    if i < |s.t1| {
      PromoteKeys(s, i, v);
    } else if j < |s.t2| {
      RefreshKeys(s, j, v);
    } else {
      PutMissKeys(s, k, v);
    }
  }

  lemma GetKeys<K(!new), V>(s: Shard<K, V>, k: K)
    requires Sane(s)
    ensures AllKeys(Lookup(s, k).0) == AllKeys(s)
  {
    var i, j := Place(s.t1, k), Place(s.t2, k);
    if i < |s.t1| {
      PromoteKeys(s, i, s.t1[i].val);
    } else if j < |s.t2| {
      RefreshKeys(s, j, s.t2[j].val);
    }
  }

  lemma PromoteKeys<K(!new), V>(s: Shard<K, V>, i: nat, v: V)
    requires Apart(s) && i < |s.t1|
    ensures AllKeys(Promote(s, i, v)) == AllKeys(s)
  {
    assert s.t1[i].key in KeySet(s.t1);
    Dropped(s.t1, i);
    Fronted(s.t2, Node(s.t1[i].key, v));
  }

  lemma RefreshKeys<K(!new), V>(s: Shard<K, V>, i: nat, v: V)
    requires Apart(s) && i < |s.t2|
    ensures AllKeys(Refresh(s, i, v)) == AllKeys(s)
  {
    assert s.t2[i].key in KeySet(s.t2);
    Dropped(s.t2, i);
    Fronted(Drop(s.t2, i), Node(s.t2[i].key, v));
  }

  lemma PutMissKeys<K(!new), V>(s: Shard<K, V>, k: K, v: V)
    requires Apart(s) && Place(s.t1, k) == |s.t1| && Place(s.t2, k) == |s.t2|
    ensures AllKeys(Insert(s, k, v)) <= AllKeys(s) + {k}
  {
    PlaceOfKey(s.t1, k);
    PlaceOfKey(s.t2, k);
    PlaceOfKey(s.b1, k);
    PlaceOfKey(s.b2, k);
    if Place(s.b1, k) < |s.b1| {
      KeysB1(s, k, v, Place(s.b1, k));
    } else if Place(s.b2, k) < |s.b2| {
      KeysB2(s, k, v, Place(s.b2, k));
    } else {
      RoomApart(s);
      Fronted(Room(s).t1, Node(k, v));
    }
  }

  lemma KeysB1<K(!new), V>(s: Shard<K, V>, k: K, v: V, i: nat)
    requires Apart(s) && i < |s.b1| && s.b1[i].key == k
    ensures AllKeys(PutB1(s, k, v, i)) <= AllKeys(s) + {k}
  {
    assert k in KeySet(s.b1);
    var q := s.(p := GrowP(s.p, Delta(|s.b1|, |s.b2|), s.cap));
    ReplaceApart(q, false);
    var r := Replace(q, false);
    Dropped(r.b1, i + |r.b1| - |s.b1|);
    Fronted(r.t2, Node(k, v));
  }

  lemma KeysB2<K(!new), V>(s: Shard<K, V>, k: K, v: V, i: nat)
    requires Apart(s) && i < |s.b2| && s.b2[i].key == k
    ensures AllKeys(PutB2(s, k, v, i)) <= AllKeys(s) + {k}
  {
    assert k in KeySet(s.b2);
    var q := s.(p := ShrinkP(s.p, Delta(|s.b2|, |s.b1|)));
    ReplaceApart(q, true);
    var r := Replace(q, true);
    Dropped(r.b2, i + |r.b2| - |s.b2|);
    Fronted(r.t2, Node(k, v));
  }

  // ----- which key leaves, and which comes first -----

  /** `u` is `t` without the node of key `k`, in the same order. */
  ghost predicate Without<K(!new), V>(t: seq<Node<K, V>>, u: seq<Node<K, V>>, k: K) {
    exists i {:trigger t[i]} :: 0 <= i < |t| && t[i].key == k && u == t[..i] + t[i + 1..]
  }

  /** The oldest of T1 is in B1 now, as its newest. */
  ghost predicate OldestOfT1Left<K(!new), V>(s: Shard<K, V>, r: Shard<K, V>) {
    && |s.t1| == |r.t1| + 1 && r.t1 == s.t1[..|r.t1|]
    && r.b1 == [Node(s.t1[|r.t1|].key, ())] + s.b1
    && r.t2 == s.t2 && r.b2 == s.b2
  }

  ghost predicate OldestOfT2Left<K(!new), V>(s: Shard<K, V>, r: Shard<K, V>) {
    && |s.t2| == |r.t2| + 1 && r.t2 == s.t2[..|r.t2|]
    && r.b2 == [Node(s.t2[|r.t2|].key, ())] + s.b2
    && r.t1 == s.t1 && r.b1 == s.b1
  }

  /** One value leaves, if there is any: the oldest of T1 when T1 is above its target, or at it for a
      key that was known to T2, or when T2 is empty; otherwise the oldest of T2. */
  ghost predicate OneLeft<K(!new), V>(s: Shard<K, V>, r: Shard<K, V>, fromB2: bool) {
    && r.cap == s.cap && r.p == s.p
    && (s.t1 == [] && s.t2 == [] ==> r == s)
    && (s.t1 != [] && (s.t2 == [] || |s.t1| > s.p || (fromB2 && |s.t1| == s.p)) ==> OldestOfT1Left(s, r))
    && (s.t2 != [] && (s.t1 == [] || |s.t1| < s.p || (!fromB2 && |s.t1| == s.p)) ==> OldestOfT2Left(s, r))
  }

  lemma ReplaceTakesOne<K(!new), V>(s: Shard<K, V>, fromB2: bool)
    ensures OneLeft(s, Replace(s, fromB2), fromB2)
  {
  }

  /** A lookup moves the value it finds to the front of T2, and touches nothing else. */
  lemma HitComesFirst<K(!new), V>(s: Shard<K, V>, k: K)
    requires Apart(s)
    ensures var (r, found) := Lookup(s, k);
            && (k in KeySet(s.t1) ==> found.Some? && Without(s.t1, r.t1, k) && r.t2 == [Node(k, found.value)] + s.t2)
            && (k in KeySet(s.t2) ==> found.Some? && r.t1 == s.t1 && r.t2 != [] && r.t2[0] == Node(k, found.value)
                                      && Without(s.t2, r.t2[1..], k))
            && (found.Some? ==> r.b1 == s.b1 && r.b2 == s.b2 && r.p == s.p && r.cap == s.cap)
            && (k !in KeySet(s.t1) && k !in KeySet(s.t2) ==> found == None && r == s)
  {
    PlaceOfKey(s.t1, k);
    PlaceOfKey(s.t2, k);
  }

  /** Putting a key that is cached replaces its value and moves it to the front of T2. */
  lemma CachedPut<K(!new), V>(s: Shard<K, V>, k: K, v: V)
    requires Apart(s) && (k in KeySet(s.t1) || k in KeySet(s.t2))
    ensures var r := Insert(s, k, v);
            && (k in KeySet(s.t1) ==> Without(s.t1, r.t1, k) && r.t2 == [Node(k, v)] + s.t2)
            && (k in KeySet(s.t2) ==>
                 r.t1 == s.t1 && r.t2 != [] && r.t2[0] == Node(k, v) && Without(s.t2, r.t2[1..], k))
            && r.b1 == s.b1 && r.b2 == s.b2 && r.p == s.p && r.cap == s.cap
  {
    PlaceOfKey(s.t1, k);
    PlaceOfKey(s.t2, k);
  }

  /** The target moves by the ratio of the other ghost list to this one, by one at least. */
  function Moved(mine: nat, other: nat): nat
    requires mine > 0
  {
    if other / mine > 1 then other / mine else 1
  }

  lemma DeltaIsMoved(mine: nat, other: nat)
    requires mine > 0
    ensures Delta(mine, other) == Moved(mine, other)
  {
    var q := other / mine;
    assert other == q * mine + other % mine;
    assert q == 0 ==> other < mine;
    if q >= 2 { Multiples(mine, q); }
  }

  lemma Multiples(a: nat, q: nat)
    requires q >= 2
    ensures q * a >= 2 * a
  {
  }

  /** Putting a key lately dropped from T1 raises the target of T1, up to the capacity, makes room by
      the rule, and brings the key in at the front of T2. */
  lemma GhostOfT1Put<K(!new), V>(s: Shard<K, V>, k: K, v: V) returns (mid: Shard<K, V>)
    requires Apart(s) && k in KeySet(s.b1)
    ensures var step := Moved(|s.b1|, |s.b2|);
            OneLeft(s.(p := if s.p + step > s.cap then s.cap else s.p + step), mid, false)
    ensures var r := Insert(s, k, v);
            Without(mid.b1, r.b1, k) && r == mid.(t2 := [Node(k, v)] + mid.t2, b1 := r.b1)
  {
    var i := GhostFound(s, k, v);
    DeltaIsMoved(|s.b1|, |s.b2|);
    mid := HitInB1(s, k, v, i);
  }

  /** A key in T1's ghosts is in no other list. */
  lemma GhostFound<K(!new), V>(s: Shard<K, V>, k: K, v: V) returns (i: nat)
    requires Apart(s) && k in KeySet(s.b1)
    ensures i < |s.b1| && s.b1[i].key == k && Insert(s, k, v) == PutB1(s, k, v, i)
  {
    PlaceOfKey(s.t1, k);
    PlaceOfKey(s.t2, k);
    PlaceOfKey(s.b1, k);
    i := Place(s.b1, k);
  }

  lemma HitInB1<K(!new), V>(s: Shard<K, V>, k: K, v: V, i: nat) returns (mid: Shard<K, V>)
    requires i < |s.b1| && s.b1[i].key == k
    ensures OneLeft(s.(p := GrowP(s.p, Delta(|s.b1|, |s.b2|), s.cap)), mid, false)
    ensures var r := PutB1(s, k, v, i);
            Without(mid.b1, r.b1, k) && r == mid.(t2 := [Node(k, v)] + mid.t2, b1 := r.b1)
  {
    var q := s.(p := GrowP(s.p, Delta(|s.b1|, |s.b2|), s.cap));
    mid := Replace(q, false);
    ReplaceTakesOne(q, false);
    assert mid.b1[i + |mid.b1| - |s.b1|].key == k;
  }

  /** Putting a key lately dropped from T2 lowers that target, down to zero. */
  lemma GhostOfT2Put<K(!new), V>(s: Shard<K, V>, k: K, v: V) returns (mid: Shard<K, V>)
    requires Apart(s) && k in KeySet(s.b2)
    ensures var step := Moved(|s.b2|, |s.b1|);
            OneLeft(s.(p := if step > s.p then 0 else s.p - step), mid, true)
    ensures var r := Insert(s, k, v);
            Without(mid.b2, r.b2, k) && r == mid.(t2 := [Node(k, v)] + mid.t2, b2 := r.b2)
  {
    PlaceOfKey(s.t1, k);
    PlaceOfKey(s.t2, k);
    PlaceOfKey(s.b1, k);
    PlaceOfKey(s.b2, k);
    DeltaIsMoved(|s.b2|, |s.b1|);
    mid := HitInB2(s, k, v, Place(s.b2, k));
  }

  lemma HitInB2<K(!new), V>(s: Shard<K, V>, k: K, v: V, i: nat) returns (mid: Shard<K, V>)
    requires i < |s.b2| && s.b2[i].key == k
    ensures OneLeft(s.(p := ShrinkP(s.p, Delta(|s.b2|, |s.b1|))), mid, true)
    ensures var r := PutB2(s, k, v, i);
            Without(mid.b2, r.b2, k) && r == mid.(t2 := [Node(k, v)] + mid.t2, b2 := r.b2)
  {
    var q := s.(p := ShrinkP(s.p, Delta(|s.b2|, |s.b1|)));
    mid := Replace(q, true);
    ReplaceTakesOne(q, true);
    assert mid.b2[i + |mid.b2| - |s.b2|].key == k;
  }

  /** A key that is nowhere comes in at the front of T1. Nothing leaves while neither T1 with its
      ghosts nor the cache is full; a full T1 drops its oldest for good; otherwise one value leaves by
      the rule, the ghosts losing one where they would be too many. */
  lemma NewPut<K(!new), V>(s: Shard<K, V>, k: K, v: V) returns (left: Shard<K, V>, mid: Shard<K, V>)
    requires Sane(s) && k !in AllKeys(s)
    ensures Insert(s, k, v) == mid.(t1 := [Node(k, v)] + mid.t1) && MakesRoom(s, left, mid)
  {
    PlaceOfKey(s.t1, k);
    PlaceOfKey(s.t2, k);
    PlaceOfKey(s.b1, k);
    PlaceOfKey(s.b2, k);
    mid := Room(s);
    left := RoomMade(s);
  }

  /** Where a value left by the rule, `left` is what was there after that. */
  ghost predicate MakesRoom<K(!new), V>(s: Shard<K, V>, left: Shard<K, V>, mid: Shard<K, V>) {
    if |s.t1| > 0 && |s.t1| == s.cap then mid == s.(t1 := s.t1[..|s.t1| - 1])
    else if |s.b1| > 0 && |s.t1| + |s.b1| == s.cap then OneLeft(s.(b1 := s.b1[..|s.b1| - 1]), mid, false)
    else if |s.t1| + |s.t2| < s.cap then mid == s
    else OneLeft(s, left, false) && mid == if |s.b1| + |s.b2| + 1 < s.cap then left else WithoutOldestGhost(left)
  }

  lemma RoomMade<K(!new), V>(s: Shard<K, V>) returns (left: Shard<K, V>)
    requires Sized(s)
    ensures MakesRoom(s, left, Room(s))
  {
    left := Replace(s, false);
    if |s.t1| < s.cap {
      if |s.t1| + |s.b1| == s.cap {
        ReplaceTakesOne(s.(b1 := DropLast(s.b1)), false);
        assert DropLast(s.b1) == s.b1[..|s.b1| - 1];
      } else if |s.t1| + |s.t2| == s.cap {
        ReplaceTakesOne(s, false);
        GhostsLost(s, left);
      }
    }
  }

  lemma GhostsLost<K(!new), V>(s: Shard<K, V>, r: Shard<K, V>)
    requires OneLeft(s, r, false) && |s.t1| + |s.t2| > 0
    ensures |r.b1| + |r.b2| == |s.b1| + |s.b2| + 1
    ensures EvictGhost(r) == WithoutOldestGhost(r)
  {
  }

  /** The oldest ghost of T1 goes, or when there is none the oldest of T2. */
  function WithoutOldestGhost<K, V>(s: Shard<K, V>): Shard<K, V> {
    if |s.b1| > 0 then s.(b1 := s.b1[..|s.b1| - 1])
    else if |s.b2| > 0 then s.(b2 := s.b2[..|s.b2| - 1])
    else s
  }

  // ----- one shard as an object -----

  class ArcShard<K(!new, ==), V> {
    var p: nat
    var cap: nat
    var t1: seq<Node<K, V>>
    var t2: seq<Node<K, V>>
    var b1: seq<Node<K, ()>>
    var b2: seq<Node<K, ()>>
    var t1map: set<K>
    var t2map: set<K>
    var b1map: set<K>
    var b2map: set<K>

    constructor (cap: nat)
      ensures Indexed() && View() == Shard(cap, 0, [], [], [], [])
    {
      p, this.cap := 0, cap;
      t1, t2, b1, b2 := [], [], [], [];
      t1map, t2map, b1map, b2map := {}, {}, {}, {};
    }

    ghost function View(): Shard<K, V>
      reads this
    {
      Shard(cap, p, t1, t2, b1, b2)
    }

    /** Each index finds exactly the keys of its list. */
    ghost predicate Indexed()
      reads this
    {
      t1map == KeySet(t1) && t2map == KeySet(t2) && b1map == KeySet(b1) && b2map == KeySet(b2)
    }

    ghost predicate Valid()
      reads this
    {
      Indexed() && Sane(View())
    }

    method DemoteT1()
      requires Indexed() && Apart(View()) && t1 != []
      modifies this`t1, this`t1map, this`b1, this`b1map
      ensures Indexed()
      ensures t1 == DropLast(old(t1)) && b1 == [Ghost(old(t1)[|old(t1)| - 1])] + old(b1)
    {
      var node := t1[|t1| - 1];
      assert node.key in KeySet(t1);
      Fronted(b1, Ghost(node));
      Dropped(t1, |t1| - 1);
      b1 := [Ghost(node)] + b1;
      b1map := b1map + {node.key};
      t1map := t1map - {node.key};
      t1 := Drop(t1, |t1| - 1);
    }

    method DemoteT2()
      requires Indexed() && Apart(View()) && t2 != []
      modifies this`t2, this`t2map, this`b2, this`b2map
      ensures Indexed()
      ensures t2 == DropLast(old(t2)) && b2 == [Ghost(old(t2)[|old(t2)| - 1])] + old(b2)
    {
      var node := t2[|t2| - 1];
      assert node.key in KeySet(t2);
      Fronted(b2, Ghost(node));
      Dropped(t2, |t2| - 1);
      b2 := [Ghost(node)] + b2;
      b2map := b2map + {node.key};
      t2map := t2map - {node.key};
      t2 := Drop(t2, |t2| - 1);
    }

    method DoReplace(fromB2: bool)
      requires Indexed() && Apart(View())
      modifies this
      ensures Indexed() && View() == Replace(old(View()), fromB2)
    {
      var takeT1 := t1 != [] && (|t1| > p || (fromB2 && |t1| == p));
      if takeT1 {
        DemoteT1();
      } else if t2 != [] {
        DemoteT2();
      } else if t1 != [] {
        DemoteT1();
      }
    }

    method PopB1()
      requires Indexed() && Apart(View()) && b1 != []
      modifies this`b1, this`b1map
      ensures Indexed() && b1 == DropLast(old(b1))
    {
      Dropped(b1, |b1| - 1);
      b1map := b1map - {b1[|b1| - 1].key};
      b1 := Drop(b1, |b1| - 1);
    }

    method DoEvictGhost()
      requires Indexed() && Apart(View())
      modifies this
      ensures Indexed() && View() == EvictGhost(old(View()))
    {
      if b1 != [] {
        PopB1();
      } else if b2 != [] {
        Dropped(b2, |b2| - 1);
        b2map := b2map - {b2[|b2| - 1].key};
        b2 := Drop(b2, |b2| - 1);
      }
    }

    /** A hit in T1 moves to the front of T2. */
    method DoPromote(i: nat, v: V)
      requires Indexed() && Apart(View()) && i < |t1|
      modifies this`t1, this`t1map, this`t2, this`t2map
      ensures Indexed() && View() == Promote(old(View()), i, v)
    {
      var node := Node(t1[i].key, v);
      assert node.key in KeySet(t1);
      Dropped(t1, i);
      Fronted(t2, node);
      t1 := Drop(t1, i);
      t1map := t1map - {node.key};
      t2 := [node] + t2;
      t2map := t2map + {node.key};
    }

    method DoRefresh(i: nat, v: V)
      requires Indexed() && Apart(View()) && i < |t2|
      modifies this`t2
      ensures Indexed() && View() == Refresh(old(View()), i, v)
    {
      assert t2[i].key in KeySet(t2);
      Dropped(t2, i);
      Fronted(Drop(t2, i), Node(t2[i].key, v));
      t2 := [Node(t2[i].key, v)] + Drop(t2, i);
    }

    method GetKey(k: K) returns (out: Option<V>)
      requires Valid()
      modifies this
      ensures Indexed() && View() == Lookup(old(View()), k).0 && out == Lookup(old(View()), k).1
    {
      PlaceOfKey(t1, k);
      PlaceOfKey(t2, k);
      if k in t1map {
        var i := Place(t1, k);
        out := Some(t1[i].val);
        DoPromote(i, t1[i].val);
      } else if k in t2map {
        var i := Place(t2, k);
        out := Some(t2[i].val);
        DoRefresh(i, t2[i].val);
      } else {
        out := None;
      }
    }

    method EnterT2AtFront(k: K, v: V)
      requires Indexed() && NoDup(t2) && k !in KeySet(t2)
      modifies this`t2, this`t2map
      ensures Indexed() && t2 == [Node(k, v)] + old(t2)
    {
      Fronted(t2, Node(k, v));
      t2 := [Node(k, v)] + t2;
      t2map := t2map + {k};
    }

    method HitB1(k: K, v: V)
      requires Valid() && Place(b1, k) < |b1|
      modifies this
      ensures Indexed() && View() == PutB1(old(View()), k, v, old(Place(b1, k)))
    {
      var i, before := Place(b1, k), |b1|;
      assert b1[i].key in KeySet(b1);
      p := GrowP(p, Delta(|b1|, |b2|), cap);
      ReplaceApart(View(), false);
      DoReplace(false);
      var at := i + |b1| - before;
      assert b1[at].key == k;
      Dropped(b1, at);
      b1 := Drop(b1, at);
      b1map := b1map - {k};
      EnterT2AtFront(k, v);
    }

    method HitB2(k: K, v: V)
      requires Valid() && Place(b2, k) < |b2|
      modifies this
      ensures Indexed() && View() == PutB2(old(View()), k, v, old(Place(b2, k)))
    {
      var i, before := Place(b2, k), |b2|;
      assert b2[i].key in KeySet(b2);
      p := ShrinkP(p, Delta(|b2|, |b1|));
      ReplaceApart(View(), true);
      DoReplace(true);
      var at := i + |b2| - before;
      assert b2[at].key == k;
      Dropped(b2, at);
      b2 := Drop(b2, at);
      b2map := b2map - {k};
      EnterT2AtFront(k, v);
    }

    method MakeRoom()
      requires Valid()
      modifies this
      ensures Indexed() && View() == Room(old(View()))
    {
      var t1sz, t2sz, b1sz := |t1|, |t2|, |b1|;
      if t1sz + b1sz >= cap {
        if t1sz < cap {
          if b1 != [] {
            Dropped(b1, |b1| - 1);
            PopB1();
          }
          DoReplace(false);
        } else if t1 != [] {
          Dropped(t1, |t1| - 1);
          t1map := t1map - {t1[|t1| - 1].key};
          t1 := Drop(t1, |t1| - 1);
        }
      } else if t1sz + t2sz >= cap {
        ReplaceApart(View(), false);
        DoReplace(false);
        if |b1| + |b2| >= cap { DoEvictGhost(); }
      }
    }

    method PutKey(k: K, v: V)
      requires Valid()
      modifies this
      ensures Valid() && View() == Insert(old(View()), k, v)
    {
      PlaceOfKey(t1, k);
      PlaceOfKey(t2, k);
      PlaceOfKey(b1, k);
      PlaceOfKey(b2, k);
      PutStaysSane(View(), k, v);
      if k in t1map {
        DoPromote(Place(t1, k), v);
      } else if k in t2map {
        DoRefresh(Place(t2, k), v);
      } else if k in b1map {
        HitB1(k, v);
      } else if k in b2map {
        HitB2(k, v);
      } else {
        RoomApart(View());
        MakeRoom();
        Fronted(t1, Node(k, v));
        t1 := [Node(k, v)] + t1;
        t1map := t1map + {k};
      }
    }

    method Clear()
      modifies this
      ensures Indexed() && View() == Shard(old(cap), 0, [], [], [], [])
    {
      t1, t2, b1, b2 := [], [], [], [];
      t1map, t2map, b1map, b2map := {}, {}, {}, {};
      p := 0;
    }
  }

  lemma PutStaysSane<K(!new), V>(s: Shard<K, V>, k: K, v: V)
    requires Sane(s)
    ensures Sane(Insert(s, k, v))
  {
    var truth := Contents(s);
    PutKept(s, k, v, truth);
  }

  /** What the cache lists hold, as a map. */
  ghost function Contents<K(!new), V>(s: Shard<K, V>): (m: map<K, V>)
    requires Apart(s)
    ensures Faithful(s, m)
  {
    var one, two := Listed(s.t1), Listed(s.t2);
    ShowsJoined(s, one, two);
    one + two
  }

  ghost function Listed<K(!new), V>(t: seq<Node<K, V>>): (m: map<K, V>)
    requires NoDup(t)
    ensures m.Keys == KeySet(t) && Shows(t, m)
  {
    if t == [] then map[]
    else
      ListedSnoc(t);
      Listed(t[..|t| - 1])[t[|t| - 1].key := t[|t| - 1].val]
  }

  lemma ListedSnoc<K(!new), V>(t: seq<Node<K, V>>)
    requires t != [] && NoDup(t)
    ensures var init, last := t[..|t| - 1], t[|t| - 1];
            NoDup(init) && KeySet(t) == KeySet(init) + {last.key} && last.key !in KeySet(init) && t == init + [last]
  {
    var init, last := t[..|t| - 1], t[|t| - 1];
    assert t == init + [last];
    forall k | k in KeySet(init) ensures k in KeySet(t) {
      var i :| 0 <= i < |init| && init[i].key == k;
      assert t[i].key == k;
    }
    assert t[|t| - 1].key in KeySet(t);
  }

  lemma ShowsJoined<K(!new), V>(s: Shard<K, V>, one: map<K, V>, two: map<K, V>)
    requires Apart(s) && one.Keys == KeySet(s.t1) && two.Keys == KeySet(s.t2)
    requires Shows(s.t1, one) && Shows(s.t2, two)
    ensures Faithful(s, one + two)
  {
    forall n | n in s.t1 ensures n.key in one && n.key !in two {
      assert n.key in KeySet(s.t1);
    }
  }

  // ----- the sharded cache -----

  const SHARDS := 16

  function ShardCap(cap: nat, n: nat, i: nat): nat
    requires n > 0
  {
    cap / n + if i < cap % n then 1 else 0
  }

  function SumCaps(cap: nat, n: nat, i: nat): nat
    requires n > 0
  {
    if i == 0 then 0 else SumCaps(cap, n, i - 1) + ShardCap(cap, n, i - 1)
  }

  /** The shards' capacities add up to the configured one, and none is empty. */
  lemma CapsAddUp(cap: nat, n: nat)
    requires 0 < n <= cap
    ensures SumCaps(cap, n, n) == cap
    ensures forall i :: 0 <= i < n ==> ShardCap(cap, n, i) >= 1
  {
    CapsUpTo(cap, n, n);
    assert cap == n * (cap / n) + cap % n;
  }

  lemma {:induction false} CapsUpTo(cap: nat, n: nat, i: nat)
    requires 0 < n && i <= n
    ensures SumCaps(cap, n, i) == i * (cap / n) + if i < cap % n then i else cap % n
  {
    if i > 0 {
      CapsUpTo(cap, n, i - 1);
      assert i * (cap / n) == (i - 1) * (cap / n) + cap / n;
    }
  }

  lemma OtherShard<K(!new), V>(s: Shard<K, V>, truth: map<K, V>, k: K, v: V)
    requires Faithful(s, truth) && k !in AllKeys(s)
    ensures Faithful(s, truth[k := v])
  {
    ShowsElse(s.t1, truth, k, v);
    ShowsElse(s.t2, truth, k, v);
  }

  lemma EmptyShard<K(!new), V>(s: Shard<K, V>)
    requires s == Shard(s.cap, 0, [], [], [], []) && s.cap > 0
    ensures Sane(s) && Faithful(s, map[]) && AllKeys(s) == {}
  {
  }

  method MakeShards<K(!new, ==), V>(cap: nat, n: nat) returns (made: seq<ArcShard<K, V>>)
    requires n > 0
    ensures |made| == n && fresh(made)
    ensures forall i, j :: 0 <= i < j < n ==> made[i] != made[j]
    ensures forall i :: 0 <= i < n ==>
              made[i].Indexed() && made[i].View() == Shard(ShardCap(cap, n, i), 0, [], [], [], [])
  {
    made := [];
    while |made| < n
      invariant |made| <= n && fresh(made)
      invariant forall i, j :: 0 <= i < j < |made| ==> made[i] != made[j]
      invariant forall i :: 0 <= i < |made| ==>
                  made[i].Indexed() && made[i].View() == Shard(ShardCap(cap, n, i), 0, [], [], [], [])
    {
      var s := new ArcShard<K, V>(ShardCap(cap, n, |made|));
      made := made + [s];
    }
  }

  class Arc<K(!new, ==), V> {
    const hash: K -> nat
    const shards: seq<ArcShard<K, V>>
    var hits: nat
    var misses: nat
    ghost var truth: map<K, V>   // the last value put under each key since invalidate

    ghost predicate Valid()
      reads this, shards
    {
      && |shards| <= SHARDS
      && (forall i, j :: 0 <= i < j < |shards| ==> shards[i] != shards[j])
      && forall i :: 0 <= i < |shards| ==>
           shards[i].Valid() && Faithful(shards[i].View(), truth) && Home(shards[i].View(), i)
    }

    /** A shard holds only keys that hash to it. */
    ghost predicate Home(s: Shard<K, V>, i: nat)
    {
      |shards| > 0 && forall k :: k in AllKeys(s) ==> hash(k) % |shards| == i
    }

    /** What a get on the key would find now. */
    ghost function Peek(k: K): Option<V>
      reads this, shards
    {
      if |shards| == 0 then None else Lookup(shards[hash(k) % |shards|].View(), k).1
    }

    constructor (cap: nat, hash: K -> nat)
      ensures Valid() && fresh(shards) && this.hash == hash && truth == map[] && hits == 0 && misses == 0
      ensures |shards| == if cap < 16 then cap else 16
      ensures forall i :: 0 <= i < |shards| ==> shards[i].cap == ShardCap(cap, |shards|, i)
      ensures |shards| > 0 ==> SumCaps(cap, |shards|, |shards|) == cap
    {
      this.hash := hash;
      hits, misses, truth := 0, 0, map[];
      var n := if cap < SHARDS then cap else SHARDS;
      var made := [];
      if n > 0 {
        CapsAddUp(cap, n);
        made := MakeShards(cap, n);
      }
      shards := made;
    }

    method Get(k: K) returns (out: Option<V>)
      requires Valid()
      modifies this`hits, this`misses, shards
      ensures Valid()
      ensures out == old(Peek(k)) && (out.Some? ==> k in truth && out.value == truth[k])
      ensures forall i :: 0 <= i < |shards| ==>
                shards[i].View() == if i == hash(k) % |shards| then old(Lookup(shards[i].View(), k).0)
                                    else old(shards[i].View())
      ensures hits + misses == old(hits + misses) + 1 && (out.Some? <==> hits > old(hits))
    {
      if |shards| == 0 {
        misses := misses + 1;
        return None;
      }
      var i := hash(k) % |shards|;
      var s := shards[i];
      GetKept(s.View(), k, truth);
      GetKeys(s.View(), k);
      out := s.GetKey(k);
      if out.Some? { hits := hits + 1; } else { misses := misses + 1; }
    }

    /** A put leaves its shard with keys of its own, and its answers true. */
    lemma PutHere(s: Shard<K, V>, k: K, v: V, before: map<K, V>)
      requires |shards| > 0 && Sane(s) && Faithful(s, before) && Home(s, hash(k) % |shards|)
      ensures Sane(Insert(s, k, v)) && Faithful(Insert(s, k, v), before[k := v])
      ensures Home(Insert(s, k, v), hash(k) % |shards|) && Lookup(Insert(s, k, v), k).1 == Some(v)
    {
      PutKept(s, k, v, before);
      PutKeys(s, k, v);
    }

    /** And every other shard's too. */
    lemma PutElsewhere(s: Shard<K, V>, i: nat, k: K, v: V, before: map<K, V>)
      requires |shards| > 0 && Faithful(s, before) && Home(s, i) && i != hash(k) % |shards|
      ensures Faithful(s, before[k := v])
    {
      assert k !in AllKeys(s);
      OtherShard(s, before, k, v);
    }

    /** The value put is what the next get on its key returns, unless the cache has no room at all. */
    method Put(k: K, v: V)
      requires Valid()
      modifies this`truth, shards
      ensures Valid() && truth == old(truth)[k := v]
      ensures |shards| > 0 ==> Peek(k) == Some(v)
      ensures forall i :: 0 <= i < |shards| ==>
                shards[i].View() == if i == hash(k) % |shards| then old(Insert(shards[i].View(), k, v))
                                    else old(shards[i].View())
    {
      truth := truth[k := v];
      if |shards| == 0 { return; }
      var i := hash(k) % |shards|;
      var s := shards[i];
      PutHere(s.View(), k, v, old(truth));
      forall j | 0 <= j < |shards| && j != i ensures Faithful(shards[j].View(), truth) {
        PutElsewhere(shards[j].View(), j, k, v, old(truth));
      }
      s.PutKey(k, v);
    }

    method Invalidate()
      requires Valid()
      modifies this`truth, shards
      ensures Valid() && truth == map[]
      ensures forall i :: 0 <= i < |shards| ==> AllKeys(shards[i].View()) == {}
    {
      var i := 0;
      while i < |shards|
        invariant 0 <= i <= |shards|
        invariant forall j :: 0 <= j < |shards| ==> shards[j].cap == old(shards[j].cap)
        invariant forall j :: 0 <= j < i ==>
                    shards[j].Indexed() && shards[j].View() == Shard(shards[j].cap, 0, [], [], [], [])
        modifies shards
      {
        shards[i].Clear();
        i := i + 1;
      }
      truth := map[];
      forall j | 0 <= j < |shards|
        ensures Sane(shards[j].View()) && Faithful(shards[j].View(), map[]) && AllKeys(shards[j].View()) == {}
      {
        EmptyShard(shards[j].View());
      }
    }
  }
}
