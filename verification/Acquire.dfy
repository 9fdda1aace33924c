/** Acquiring a connection (src/gateway/ups_group.cpp): the holds and permits of one endpoint under
    any interleaving of fibers, and the search over a group's endpoints. */
module Acquire {
  import opened Rules
  import B = Breaker

  const INT32_MAX: int := 0x7FFF_FFFF

  // ----- one endpoint, many fibers -----

  /** Where a fiber stands between asking for the endpoint and giving it back. */
  datatype Fiber =
    | Holding(cur: int)                    // in tryHold's compare-exchange loop
    | Held
    | Permitted(turn: nat)
    | Live(turn: nat, marked: bool)        // an AcqConn in use
    | Leaving
    | Dropping(cur: int)                   // in dropHold's compare-exchange loop
  {
    predicate Holds() { !Holding? }
    predicate Owes(t: nat) { (Permitted? && turn == t) || (Live? && !marked && turn == t) }
  }

  datatype Endpoint = Endpoint(maxInflight: int, active: int, breaker: B.Breaker, fibers: map<nat, Fiber>)

  datatype Step =
    | Enter(f: nat)
    | TryHold(f: nat, spurious: bool)
    | Allow(f: nat, now: nat)
    | GiveUp(f: nat, ret: B.UpRet, now: nat)
    | Connect(f: nat)
    | Mark(f: nat, ret: B.UpRet, now: nat)
    | Release(f: nat, ret: B.UpRet, now: nat)
    | ReadDrop(f: nat)
    | TryDrop(f: nat, spurious: bool)

  predicate Enabled(e: Endpoint, s: Step) {
    match s
    case Enter(f) => f !in e.fibers
    case TryHold(f, _) => f in e.fibers && e.fibers[f].Holding?
    case Allow(f, _) => f in e.fibers && e.fibers[f].Held?
    case GiveUp(f, _, _) => f in e.fibers && e.fibers[f].Permitted?
    case Connect(f) => f in e.fibers && e.fibers[f].Permitted?
    case Mark(f, _, _) => f in e.fibers && e.fibers[f].Live?
    case Release(f, _, _) => f in e.fibers && e.fibers[f].Live?
    case ReadDrop(f) => f in e.fibers && e.fibers[f].Leaving?
    case TryDrop(f, _) => f in e.fibers && e.fibers[f].Dropping?
  }

  predicate HasRoom(e: Endpoint, cur: int) {
    0 <= cur < INT32_MAX && (e.maxInflight == 0 || cur < e.maxInflight)
  }

  function Go(e: Endpoint, f: nat, x: Fiber): Endpoint {
    e.(fibers := e.fibers[f := x])
  }

  function Leave(e: Endpoint, f: nat): Endpoint {
    e.(fibers := e.fibers - {f})
  }

  /** The breaker hears about a permit. */
  function Report(b: B.Breaker, turn: nat, ret: B.UpRet, now: nat): B.Breaker {
    if B.Enabled(b, B.Report(turn, ret, now)) then B.Next(b, B.Report(turn, ret, now)) else b
  }

  function Next(e: Endpoint, s: Step): Endpoint
    requires Enabled(e, s)
  {
    match s
    case Enter(f) => Go(e, f, Holding(e.active))
    case TryHold(f, spurious) =>
      var cur := e.fibers[f].cur;
      if !HasRoom(e, cur) then Leave(e, f)                          // busy
      else if e.active == cur && !spurious then Go(e, f, Held).(active := e.active + 1)
      else Go(e, f, Holding(e.active))
    case Allow(f, now) =>
      var permit := B.IsAllowed(e.breaker.cb, now).1;
      Go(e, f, if permit.Some? then Permitted(permit.value) else Leaving)
        .(breaker := B.Next(e.breaker, B.Ask(now)))
    case GiveUp(f, ret, now) => Go(e, f, Leaving).(breaker := Report(e.breaker, e.fibers[f].turn, ret, now))
    case Connect(f) => Go(e, f, Live(e.fibers[f].turn, false))
    case Mark(f, ret, now) =>
      if e.fibers[f].marked then e
      else Go(e, f, Live(e.fibers[f].turn, true)).(breaker := Report(e.breaker, e.fibers[f].turn, ret, now))
    case Release(f, ret, now) =>
      if e.fibers[f].marked then Go(e, f, Leaving)
      else Go(e, f, Leaving).(breaker := Report(e.breaker, e.fibers[f].turn, ret, now))
    case ReadDrop(f) => Go(e, f, Dropping(e.active))
    case TryDrop(f, spurious) =>
      var cur := e.fibers[f].cur;
      if cur <= 0 then Leave(e, f)
      else if e.active == cur && !spurious then Leave(e, f).(active := e.active - 1)
      else Go(e, f, Dropping(e.active))
  }

  ghost predicate Run(cfg: B.Config, max: int, steps: seq<Step>, es: seq<Endpoint>) {
    && |es| == |steps| + 1
    && es[0] == Endpoint(max, 0, B.Breaker(B.Start(cfg), multiset{}, 0, []), map[])
    && forall i {:trigger steps[i]} :: 0 <= i < |steps| ==>
         Enabled(es[i], steps[i]) && es[i + 1] == Next(es[i], steps[i])
  }

  function Holders(fibers: map<nat, Fiber>): set<nat> {
    set f | f in fibers && fibers[f].Holds()
  }

  function Owing(fibers: map<nat, Fiber>, t: nat): set<nat> {
    set f | f in fibers && fibers[f].Owes(t)
  }

  /** Active holds are the fibers holding, and the breaker's open permits are the fibers owing. */
  ghost predicate HoldsFit(active: int, max: int, fibers: map<nat, Fiber>) {
    && active == |Holders(fibers)|
    && active <= INT32_MAX && (max != 0 ==> active <= max)
    && forall f :: f in fibers && fibers[f].Dropping? ==> fibers[f].cur >= 1
  }

  ghost predicate PermitsFit(permits: multiset<nat>, fibers: map<nat, Fiber>) {
    forall t :: permits[t] == |Owing(fibers, t)|
  }

  ghost predicate Inv(e: Endpoint) {
    && 0 <= e.maxInflight <= INT32_MAX
    && HoldsFit(e.active, e.maxInflight, e.fibers)
    && PermitsFit(e.breaker.permits, e.fibers)
    && B.Inv(e.breaker)
  }

  // ----- counting -----

  lemma HoldersAfter(fibers: map<nat, Fiber>, f: nat, x: Fiber)
    ensures Holders(fibers[f := x]) == if x.Holds() then Holders(fibers) + {f} else Holders(fibers) - {f}
  {
  }

  lemma HoldersLeft(fibers: map<nat, Fiber>, f: nat)
    ensures Holders(fibers - {f}) == Holders(fibers) - {f}
  {
  }

  lemma OwingAfter(fibers: map<nat, Fiber>, f: nat, x: Fiber, t: nat)
    ensures Owing(fibers[f := x], t) == if x.Owes(t) then Owing(fibers, t) + {f} else Owing(fibers, t) - {f}
  {
  }

  lemma OwingLeft(fibers: map<nat, Fiber>, f: nat, t: nat)
    ensures Owing(fibers - {f}, t) == Owing(fibers, t) - {f}
  {
  }

  /** A fiber that owes the same before and after, or nothing, leaves the permits alone. */
  lemma PermitsStay(permits: multiset<nat>, fibers: map<nat, Fiber>, f: nat, x: Fiber)
    requires PermitsFit(permits, fibers)
    requires forall t :: x.Owes(t) <==> f in fibers && fibers[f].Owes(t)
    ensures PermitsFit(permits, fibers[f := x])
  {
    forall t ensures permits[t] == |Owing(fibers[f := x], t)| {
      OwingAfter(fibers, f, x, t);
      assert Owing(fibers[f := x], t) == Owing(fibers, t);
    }
  }

  lemma PermitsLeft(permits: multiset<nat>, fibers: map<nat, Fiber>, f: nat)
    requires PermitsFit(permits, fibers)
    requires forall t :: f in fibers ==> !fibers[f].Owes(t)
    ensures PermitsFit(permits, fibers - {f})
  {
    forall t ensures permits[t] == |Owing(fibers - {f}, t)| {
      OwingLeft(fibers, f, t);
      assert Owing(fibers - {f}, t) == Owing(fibers, t);
    }
  }

  lemma PermitGained(permits: multiset<nat>, fibers: map<nat, Fiber>, f: nat, turn: nat)
    requires PermitsFit(permits, fibers) && f in fibers && fibers[f].Held?
    ensures PermitsFit(permits + multiset{turn}, fibers[f := Permitted(turn)])
  {
    forall t ensures (permits + multiset{turn})[t] == |Owing(fibers[f := Permitted(turn)], t)| {
      OwingAfter(fibers, f, Permitted(turn), t);
      assert f !in Owing(fibers, t);
    }
  }

  lemma PermitPaid(permits: multiset<nat>, fibers: map<nat, Fiber>, f: nat, x: Fiber)
    requires PermitsFit(permits, fibers) && f in fibers
               && (fibers[f].Permitted? || (fibers[f].Live? && !fibers[f].marked))
    requires x == Leaving || x == Live(fibers[f].turn, true)
    ensures fibers[f].turn in permits
    ensures PermitsFit(permits - multiset{fibers[f].turn}, fibers[f := x])
  {
    var turn := fibers[f].turn;
    assert f in Owing(fibers, turn);
    forall t ensures (permits - multiset{turn})[t] == |Owing(fibers[f := x], t)| {
      OwingAfter(fibers, f, x, t);
      if t != turn { assert f !in Owing(fibers, t); }
    }
  }

  /** Reporting an owed permit: paid once, and the breaker stays in order. */
  lemma Paid(e: Endpoint, f: nat, x: Fiber, ret: B.UpRet, now: nat)
    requires Inv(e) && f in e.fibers && (e.fibers[f].Permitted? || (e.fibers[f].Live? && !e.fibers[f].marked))
    requires x == Leaving || x == Live(e.fibers[f].turn, true)
    ensures Inv(Go(e, f, x).(breaker := Report(e.breaker, e.fibers[f].turn, ret, now)))
  {
    var turn := e.fibers[f].turn;
    PermitPaid(e.breaker.permits, e.fibers, f, x);
    B.ReportKept(e.breaker, turn, ret, now);
    HoldersAfter(e.fibers, f, x);
    assert Holders(e.fibers[f := x]) == Holders(e.fibers);
    assert B.Next(e.breaker, B.Report(turn, ret, now)).permits == e.breaker.permits - multiset{turn};
  }

  lemma HoldKept(e: Endpoint, f: nat, spurious: bool)
    requires Inv(e) && Enabled(e, TryHold(f, spurious))
    ensures Inv(Next(e, TryHold(f, spurious)))
  {
    assert f !in Holders(e.fibers);
    assert Holders(e.fibers) - {f} == Holders(e.fibers);
    if !HasRoom(e, e.fibers[f].cur) {
      HoldersLeft(e.fibers, f);
      PermitsLeft(e.breaker.permits, e.fibers, f);
    } else {
      var x := if e.active == e.fibers[f].cur && !spurious then Held else Holding(e.active);
      HoldersAfter(e.fibers, f, x);
      PermitsStay(e.breaker.permits, e.fibers, f, x);
    }
  }

  /** A fiber that holds has been counted, so the drop loop never finds the counter at zero. */
  lemma DropKept(e: Endpoint, f: nat, spurious: bool)
    requires Inv(e) && Enabled(e, TryDrop(f, spurious))
    ensures Inv(Next(e, TryDrop(f, spurious)))
    ensures e.active >= 1
  {
    assert f in Holders(e.fibers);
    HoldersLeft(e.fibers, f);
    PermitsLeft(e.breaker.permits, e.fibers, f);
    HoldersAfter(e.fibers, f, Dropping(e.active));
    assert Holders(e.fibers) + {f} == Holders(e.fibers);
    PermitsStay(e.breaker.permits, e.fibers, f, Dropping(e.active));
  }

  lemma AllowKept(e: Endpoint, f: nat, now: nat)
    requires Inv(e) && Enabled(e, Allow(f, now))
    ensures Inv(Next(e, Allow(f, now)))
  {
    B.AskKept(e.breaker, now);
    var permit := B.IsAllowed(e.breaker.cb, now).1;
    assert f in Holders(e.fibers);
    assert Holders(e.fibers) + {f} == Holders(e.fibers);
    if permit.Some? {
      PermitGained(e.breaker.permits, e.fibers, f, permit.value);
      HoldersAfter(e.fibers, f, Permitted(permit.value));
    } else {
      PermitsStay(e.breaker.permits, e.fibers, f, Leaving);
      HoldersAfter(e.fibers, f, Leaving);
    }
  }

  lemma QuietKept(e: Endpoint, f: nat, x: Fiber)
    requires Inv(e) && f in e.fibers && e.fibers[f].Holds() && x.Holds()
    requires forall t :: x.Owes(t) <==> e.fibers[f].Owes(t)
    requires x.Dropping? ==> x.cur == e.active
    ensures Inv(Go(e, f, x))
  {
    assert f in Holders(e.fibers);
    HoldersAfter(e.fibers, f, x);
    assert Holders(e.fibers) + {f} == Holders(e.fibers);
    PermitsStay(e.breaker.permits, e.fibers, f, x);
  }

  lemma EnterKept(e: Endpoint, f: nat)
    requires Inv(e) && Enabled(e, Enter(f))
    ensures Inv(Next(e, Enter(f)))
  {
    HoldersAfter(e.fibers, f, Holding(e.active));
    assert f !in Holders(e.fibers);
    assert Holders(e.fibers) - {f} == Holders(e.fibers);
    PermitsStay(e.breaker.permits, e.fibers, f, Holding(e.active));
  }

  lemma StepKept(e: Endpoint, s: Step)
    requires Inv(e) && Enabled(e, s)
    ensures Inv(Next(e, s))
  {
    match s
    case Enter(f) => EnterKept(e, f);
    case TryHold(f, spurious) => HoldKept(e, f, spurious);
    case Allow(f, now) => AllowKept(e, f, now);
    case GiveUp(f, ret, now) => Paid(e, f, Leaving, ret, now);
    case Connect(f) => QuietKept(e, f, Live(e.fibers[f].turn, false));
    case Mark(f, ret, now) => if !e.fibers[f].marked { Paid(e, f, Live(e.fibers[f].turn, true), ret, now); }
    case Release(f, ret, now) =>
      if e.fibers[f].marked { QuietKept(e, f, Leaving); } else { Paid(e, f, Leaving, ret, now); }
    case ReadDrop(f) => QuietKept(e, f, Dropping(e.active));
    case TryDrop(f, spurious) => DropKept(e, f, spurious);
  }

  /** Acquisition conservation: in every run, whatever the fibers do, the active count is the number
      of fibers between taking and dropping a hold and respects the limit, the breaker's pending
      permits are exactly those of fibers that still owe a result, and the breaker is in order. */
  lemma {:induction false} AcquisitionConservation(cfg: B.Config, max: int, steps: seq<Step>, es: seq<Endpoint>, n: nat)
    requires Run(cfg, max, steps, es) && 0 <= max <= INT32_MAX && n < |es|
    ensures Inv(es[n]) && es[n].maxInflight == max
    ensures es[n].breaker.cb.state == B.HALF_OPEN ==>
              es[n].breaker.cb.pending ==
                  |Owing(es[n].fibers, es[n].breaker.cb.turn)| <= es[n].breaker.cb.cfg.halfOpenMax
  {
    if n == 0 {
      B.StartFits(cfg);
      assert Holders(map[]) == {};
      forall t ensures Owing(map[], t) == {} {}
    } else {
      AcquisitionConservation(cfg, max, steps, es, n - 1);
      assert es[n] == Next(es[n - 1], steps[n - 1]);
      StepKept(es[n - 1], steps[n - 1]);
    }
  }

  // ----- when a hold succeeds -----

  /** `cur` is how many fibers held the endpoint at point `m`. */
  ghost predicate SeenAt(es: seq<Endpoint>, m: nat, cur: int) {
    m < |es| && cur == |Holders(es[m].fibers)|
  }

  /** What a fiber about to take a hold has read was true at some point of the run. */
  lemma {:induction false} WhatWasRead(cfg: B.Config, max: int, steps: seq<Step>, es: seq<Endpoint>, n: nat, f: nat)
    returns (m: nat)
    requires Run(cfg, max, steps, es) && 0 <= max <= INT32_MAX && n < |es|
    requires f in es[n].fibers && es[n].fibers[f].Holding?
    ensures m < n && SeenAt(es, m, es[n].fibers[f].cur)
    ensures f in es[m].fibers ==> es[m].fibers[f].Holding?
    decreases n
  {
    assert es[0].fibers == map[];
    AcquisitionConservation(cfg, max, steps, es, n - 1);
    assert es[n] == Next(es[n - 1], steps[n - 1]);
    if f in es[n - 1].fibers && es[n].fibers[f] == es[n - 1].fibers[f] {
      m := WhatWasRead(cfg, max, steps, es, n - 1, f);
    } else {
      m := n - 1;
    }
  }

  /** A try is turned away exactly when the count it read has reached the limit, a count the endpoint
      had at some point; below the limit it takes the hold unless the count has changed since or the
      exchange fails spuriously, and then it reads again. */
  lemma HoldsExactly(cfg: B.Config, max: int, steps: seq<Step>, es: seq<Endpoint>, n: nat)
    requires Run(cfg, max, steps, es) && 0 <= max <= INT32_MAX && n < |steps| && steps[n].TryHold?
    ensures var f, cur, limit := steps[n].f, es[n].fibers[steps[n].f].cur, if max == 0 then INT32_MAX else max;
            && (exists m: nat :: m < n && SeenAt(es, m, cur))
            && (f !in es[n + 1].fibers <==> cur >= limit)
            && (f in es[n + 1].fibers && es[n + 1].fibers[f].Held? <==>
                  cur < limit && |Holders(es[n].fibers)| == cur && !steps[n].spurious)
            && (cur < limit && !(|Holders(es[n].fibers)| == cur && !steps[n].spurious) ==>
                  es[n + 1].fibers[f] == Holding(|Holders(es[n].fibers)|))
  {
    assert Enabled(es[n], steps[n]) && es[n + 1] == Next(es[n], steps[n]);
    var m := WhatWasRead(cfg, max, steps, es, n, steps[n].f);
    AcquisitionConservation(cfg, max, steps, es, n);
  }

  // ----- the search over a group -----

  /** What trying an endpoint comes to; the world outside decides. */
  datatype Probe = Down | Busy | Refused | NoTime | NoConnection(timeout: bool) | Connected

  datatype Why = WhyNone | WhyBusy | WhyOpen | WhyDown | WhyConnect | WhyTimeout | WhyDeadline

  function WhyOf(p: Probe): Why {
    match p
    case Down => WhyDown
    case Busy => WhyBusy
    case Refused => WhyOpen
    case NoTime => WhyDeadline
    case NoConnection(timeout) => if timeout then WhyTimeout else WhyConnect
    case Connected => WhyNone
  }

  /** The reason each probe gives when it is the last. */
  predicate Blames(why: Why, p: Probe) {
    && (p.Down? <==> why == WhyDown) && (p.Busy? <==> why == WhyBusy) && (p.Refused? <==> why == WhyOpen)
    && (p.NoTime? <==> why == WhyDeadline) && (p.Connected? <==> why == WhyNone)
    && (p == NoConnection(true) <==> why == WhyTimeout) && (p == NoConnection(false) <==> why == WhyConnect)
  }

  ghost predicate NoDup(s: seq<nat>) {
    forall i, j :: 0 <= i < j < |s| ==> s[i] != s[j]
  }

  /** `tried` and `left` together are the eligible endpoints, each once. */
  ghost predicate Splits(n: nat, eligible: nat -> bool, tried: seq<nat>, left: seq<nat>) {
    && NoDup(tried) && NoDup(left)
    && (forall i :: i in tried ==> i < n && eligible(i) && i !in left)
    && (forall i :: i in left ==> i < n && eligible(i))
    && (forall i :: 0 <= i < n && eligible(i) ==> i in tried || i in left)
  }

  lemma Removed(left: seq<nat>, k: nat)
    requires NoDup(left) && k < |left|
    ensures NoDup(left[..k] + left[k + 1..])
    ensures forall i :: i in left[..k] + left[k + 1..] <==> i in left && i != left[k]
  {
    var rest := left[..k] + left[k + 1..];
    forall j | 0 <= j < |rest| ensures rest[j] == left[if j < k then j else j + 1] {}
    forall i | i in left && i != left[k] ensures i in rest {
      var j :| 0 <= j < |left| && left[j] == i;
      assert i == rest[if j < k then j else j - 1];
    }
  }

  lemma Appended(tried: seq<nat>, x: nat)
    requires NoDup(tried) && x !in tried
    ensures NoDup(tried + [x]) && forall i :: i in tried + [x] <==> i in tried || i == x
  {
  }

  lemma TryOne(n: nat, eligible: nat -> bool, tried: seq<nat>, left: seq<nat>, k: nat)
    requires Splits(n, eligible, tried, left) && k < |left|
    ensures Splits(n, eligible, tried + [left[k]], left[..k] + left[k + 1..])
  {
    assert left[k] in left;
    Removed(left, k);
    Appended(tried, left[k]);
  }

  /** Whether a breaker lets an endpoint into the search is whether, asked then and there, it would
      give a permit; what happens until the endpoint is probed is the world's. */
  lemma CanTryIsAllowed(c: B.Cb, now: int)
    ensures B.CanTry(c, now) <==> B.IsAllowed(c, now).1.Some?
  {
    match c.state
    case CLOSED =>
    case HALF_OPEN =>
    case OPEN => assert B.ToHalfOpen(c).pending == 0;
  }

  /** The endpoints worth trying: healthy, and `now(i)` is when its breaker is asked. */
  predicate Eligible(n: nat, healthy: nat -> bool, breakers: nat -> B.Cb, now: nat -> int, i: nat) {
    i < n && healthy(i) && B.CanTry(breakers(i), now(i))
  }

  /** Why a search that was not cut short by a deadline ends with nothing. */
  ghost predicate Explains(why: Why, n: nat, healthy: nat -> bool, tried: seq<nat>, probe: nat -> Probe) {
    if tried != [] then Blames(why, probe(tried[|tried| - 1]))
    else why == if exists i :: 0 <= i < n && healthy(i) then WhyOpen else WhyDown
  }

  /** Tries the endpoints the balancer picks, each at most once, until one connects, the deadline
      passes or none is left. `picks` is the balancer: any place in the list, round by round. */
  method TryAcquire(n: nat, healthy: nat -> bool, breakers: nat -> B.Cb, now: nat -> int, picks: nat -> nat,
                    late: nat -> bool, probe: nat -> Probe)
    returns (got: Option<nat>, why: Why, tried: seq<nat>)
    ensures NoDup(tried) && forall i :: i in tried ==> Eligible(n, healthy, breakers, now, i)
    ensures got.Some? ==>
              tried != [] && tried[|tried| - 1] == got.value && probe(got.value) == Connected && why == WhyNone
    ensures forall j :: 0 <= j < |tried| - 1 ==> probe(tried[j]) != Connected && probe(tried[j]) != NoTime
    ensures got.None? && tried != [] ==> probe(tried[|tried| - 1]) != Connected
    ensures got.None? ==> || late(|tried|)
                          || (tried != [] && probe(tried[|tried| - 1]) == NoTime)
                          || forall i: nat :: Eligible(n, healthy, breakers, now, i) ==> i in tried
    ensures got.None? ==> || Explains(why, n, healthy, tried, probe)
                          || (late(|tried|) && why == WhyDeadline)
  {
    tried, why := [], WhyDown;
    if n == 0 { return None, WhyDown, []; }
    ghost var eligible := (i: nat) => Eligible(n, healthy, breakers, now, i);
    var left: seq<nat> := [];
    for i := 0 to n
      invariant NoDup(left) && forall x: nat :: x in left <==> x < i && eligible(x)
      invariant why == WhyOpen || why == WhyDown
      invariant left == [] ==> why == if exists x :: 0 <= x < i && healthy(x) then WhyOpen else WhyDown
    {
      if !healthy(i) { continue; }
      if !B.CanTry(breakers(i), now(i)) {
        why := WhyOpen;
        continue;
      }
      assert i !in left;
      left := left + [i];
    }
    var round := 0;
    while left != []
      invariant Splits(n, eligible, tried, left)
      invariant round == |tried|
      invariant forall j :: 0 <= j < |tried| ==> probe(tried[j]) != Connected && probe(tried[j]) != NoTime
      invariant tried == [] ==> why != WhyTimeout
      invariant tried != [] || left == [] ==> Explains(why, n, healthy, tried, probe)
      decreases |left|
    {
      if late(round) {
        return None, if why == WhyTimeout then WhyTimeout else WhyDeadline, tried;
      }
      var k := picks(round) % |left|;
      var idx := left[k];
      round := round + 1;
      TryOne(n, eligible, tried, left, k);
      tried := tried + [idx];
      left := left[..k] + left[k + 1..];
      var p := probe(idx);
      if p == Connected { return Some(idx), WhyNone, tried; }
      if p == NoTime { return None, WhyDeadline, tried; }
      why := WhyOf(p);
    }
    return None, why, tried;
  }
}
