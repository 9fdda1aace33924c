/** The compiled decision index (src/ipban/snap.cpp) and the linear scan it stands for. */
module Snap {
  import opened Rules
  import opened IpNet

  // ----- which rule should win -----

  predicate Beats(a: Rule, b: Rule) {
    if a.priority != b.priority then a.priority > b.priority
    else if Deadline(a) != Deadline(b) then Deadline(a) > Deadline(b)
    else a.action == DENY && b.action != DENY
  }

  lemma BeatsIsAPreorder(a: Rule, b: Rule, c: Rule)
    ensures Beats(a, b) ==> !Beats(b, a)
    ensures !Beats(a, b) && !Beats(b, c) ==> !Beats(a, c)
    ensures !Beats(a, b) && !Beats(b, a) ==>
              a.action == b.action && a.priority == b.priority && Deadline(a) == Deadline(b)
  {
  }

  /** Time zero stands for "do not look at the clock". */
  predicate Expired(r: Rule, now: nat) {
    r.expireAtMs != 0 && now != 0 && now >= r.expireAtMs
  }

  datatype Decision =
    | Default(action: Act)
    | Matched(action: Act, ruleId: string, src: Src, expireAtMs: nat, reason: string)

  function Of(r: Rule): Decision {
    Matched(r.action, r.id, r.src, r.expireAtMs, r.reason)
  }

  /** The linear specification: does the rule hold at `now` and cover `ip`? */
  ghost predicate Speaks(r: Rule, ip: Ip, now: nat) {
    && |r.ip.bytes| == 16 && |ip.bytes| == 16
    && (r.expireAtMs == 0 || now == 0 || now < r.expireAtMs)
    && InNet(ip, r.ip)
  }

  /** `r` has the higher priority; or the same and ends later, a permanent rule last of all; or ends
      together with `q` and denies where `q` may allow. */
  predicate AtLeastAsStrong(r: Rule, q: Rule) {
    var rEnd := if r.expireAtMs == 0 then UINT64_MAX else r.expireAtMs;
    var qEnd := if q.expireAtMs == 0 then UINT64_MAX else q.expireAtMs;
    || r.priority > q.priority
    || (r.priority == q.priority && rEnd > qEnd)
    || (r.priority == q.priority && rEnd == qEnd && (r.action == DENY || q.action == ALLOW))
  }

  lemma NotBeaten(r: Rule, q: Rule)
    ensures AtLeastAsStrong(r, q) <==> !Beats(q, r)
  {
  }

  ghost predicate Strongest(r: Rule, rules: seq<Rule>, ip: Ip, now: nat) {
    && r in rules && Speaks(r, ip, now)
    && forall q :: q in rules && Speaks(q, ip, now) ==> AtLeastAsStrong(r, q)
  }

  /** What a scan of the whole list would answer. */
  ghost predicate Answers(d: Decision, rules: seq<Rule>, def: Act, ip: Ip, now: nat) {
    if exists r :: r in rules && Speaks(r, ip, now)
    then exists r :: Strongest(r, rules, ip, now) && d == Matched(r.action, r.id, r.src, r.expireAtMs, r.reason)
    else d == Default(def)
  }

  /** The rules not expired at `compiled`: what a compilation at that time keeps. */
  function Live(rules: seq<Rule>, compiled: nat): (live: seq<Rule>)
    ensures forall r :: r in live <==> r in rules && !Expired(r, compiled)
  {
    if rules == [] then []
    else
      assert rules == rules[..|rules| - 1] + [rules[|rules| - 1]];
      var last := rules[|rules| - 1];
      Live(rules[..|rules| - 1], compiled) + if Expired(last, compiled) then [] else [last]
  }

  // ----- the compiled form -----

  type Index = map<Ip, seq<Rule>>

  datatype Snap = Snap(version: nat, def: Act, v4Exact: Index, v6Exact: Index, v4Cidr: seq<Rule>, v6Cidr: seq<Rule>)
  {
    function Exact(f: Fam): Index { if f.V4? then v4Exact else v6Exact }
    function Cidr(f: Fam): seq<Rule> { if f.V4? then v4Cidr else v6Cidr }
  }

  predicate Sorted(s: seq<Rule>) {
    forall i, j :: 0 <= i < j < |s| ==> !Beats(s[j], s[i])
  }

  ghost predicate CanonicalRules(rules: seq<Rule>) {
    forall r :: r in rules ==> Canonical(r.ip)
  }

  /** Any order of equals will do: the library's sort is not stable. */
  method Sort(rules: seq<Rule>) returns (s: seq<Rule>)
    ensures Sorted(s) && multiset(s) == multiset(rules)
  {
    s := [];
    for i := 0 to |rules|
      invariant Sorted(s) && multiset(s) == multiset(rules[..i])
    {
      assert rules[..i + 1] == rules[..i] + [rules[i]];
      InsertSorted(s, rules[i]);
      s := Insert(s, rules[i]);
    }
    assert rules[..|rules|] == rules;
  }

  function Insert(s: seq<Rule>, r: Rule): seq<Rule> {
    if s == [] then [r]
    else if Beats(r, s[0]) then [r] + s
    else [s[0]] + Insert(s[1..], r)
  }

  lemma {:induction false} InsertSorted(s: seq<Rule>, r: Rule)
    requires Sorted(s)
    ensures Sorted(Insert(s, r)) && multiset(Insert(s, r)) == multiset(s) + multiset{r}
  {
    if s != [] {
      assert s == [s[0]] + s[1..];
      if Beats(r, s[0]) {
        InsertFront(s, r);
      } else {
        InsertSorted(s[1..], r);
        var t := Insert(s[1..], r);
        forall q | q in t ensures !Beats(q, s[0]) {
          assert q in multiset(t);
          if q != r { HeadStays(s, q); }
        }
        Headed(s[0], t);
      }
    }
  }

  lemma HeadStays(s: seq<Rule>, q: Rule)
    requires Sorted(s) && s != [] && q in multiset(s[1..])
    ensures !Beats(q, s[0])
  {
    var i :| 0 <= i < |s[1..]| && s[1..][i] == q;
    assert s[i + 1] == q;
  }

  lemma Headed(h: Rule, t: seq<Rule>)
    requires Sorted(t) && forall q :: q in t ==> !Beats(q, h)
    ensures Sorted([h] + t)
  {
  }

  lemma InsertFront(s: seq<Rule>, r: Rule)
    requires Sorted(s) && s != [] && Beats(r, s[0])
    ensures forall q :: q in s ==> !Beats(q, r)
  {
    forall q | q in s ensures !Beats(q, r) {
      BeatsIsAPreorder(q, s[0], r);
    }
  }

  /** Rules of one family still live when filed. */
  predicate Belongs(r: Rule, f: Fam, now: nat) { !Expired(r, now) && r.ip.fam == f }

  /** The buckets hold exactly the live rules for single addresses, each under its address. */
  ghost predicate BucketsFit(x: Index, rules: seq<Rule>, f: Fam, now: nat) {
    && (forall k :: k in x ==> x[k] != [])
    && (forall k, r :: k in x && r in x[k] ==> r in rules && Belongs(r, f, now) && r.ip == k && Full(k))
    && (forall r :: r in rules && Belongs(r, f, now) && Full(r.ip) ==> r.ip in x && r in x[r.ip])
  }

  /** The list holds exactly the live rules for larger networks. */
  ghost predicate NetsFit(c: seq<Rule>, rules: seq<Rule>, f: Fam, now: nat) {
    forall r :: r in c <==> r in rules && Belongs(r, f, now) && !Full(r.ip)
  }

  /** The index holds exactly the rules of `rules` not expired at `now`, each where a lookup of its
      address or a scan of its family will see it, strongest first. */
  ghost predicate ExactFits(x: Index, rules: seq<Rule>, f: Fam, now: nat) {
    BucketsFit(x, rules, f, now) && forall k :: k in x ==> Sorted(x[k])
  }

  ghost predicate CidrFits(s: seq<Rule>, rules: seq<Rule>, f: Fam, now: nat) {
    NetsFit(s, rules, f, now) && Sorted(s)
  }

  ghost predicate Compiled(s: Snap, rules: seq<Rule>, now: nat) {
    && ExactFits(s.v4Exact, rules, V4, now) && ExactFits(s.v6Exact, rules, V6, now)
    && CidrFits(s.v4Cidr, rules, V4, now) && CidrFits(s.v6Cidr, rules, V6, now)
  }

  /** Filing before sorting: the same, without the order. */
  ghost predicate Filed(x: Index, c: seq<Rule>, rules: seq<Rule>, f: Fam, now: nat) {
    BucketsFit(x, rules, f, now) && NetsFit(c, rules, f, now)
  }

  function File(x: Index, r: Rule): Index {
    x[r.ip := (if r.ip in x then x[r.ip] else []) + [r]]
  }

  lemma FiledOne(x: Index, c: seq<Rule>, rules: seq<Rule>, f: Fam, now: nat, r: Rule)
    requires Filed(x, c, rules, f, now)
    ensures Filed(if Belongs(r, f, now) && Full(r.ip) then File(x, r) else x,
                  if Belongs(r, f, now) && !Full(r.ip) then c + [r] else c,
                  rules + [r], f, now)
  {
    NetFiled(c, rules, f, now, r);
    if Belongs(r, f, now) && Full(r.ip) {
      FiledExact(x, rules, f, now, r);
    } else {
      FiledElsewhere(x, rules, f, now, r);
    }
  }

  lemma NetFiled(c: seq<Rule>, rules: seq<Rule>, f: Fam, now: nat, r: Rule)
    requires NetsFit(c, rules, f, now)
    ensures NetsFit(if Belongs(r, f, now) && !Full(r.ip) then c + [r] else c, rules + [r], f, now)
  {
    var d := if Belongs(r, f, now) && !Full(r.ip) then c + [r] else c;
    forall q ensures q in d <==> q in rules + [r] && Belongs(q, f, now) && !Full(q.ip) {
      assert q in rules + [r] <==> q in rules || q == r;
      assert q in c + [r] <==> q in c || q == r;
    }
  }

  lemma FiledElsewhere(x: Index, rules: seq<Rule>, f: Fam, now: nat, r: Rule)
    requires BucketsFit(x, rules, f, now) && !(Belongs(r, f, now) && Full(r.ip))
    ensures BucketsFit(x, rules + [r], f, now)
  {
    forall k, q | k in x && q in x[k] ensures q in rules + [r] && Belongs(q, f, now) && q.ip == k && Full(k) {
      assert q in rules;
    }
    forall q | q in rules + [r] && Belongs(q, f, now) && Full(q.ip) ensures q.ip in x && q in x[q.ip] {
      assert q in rules;
    }
  }

  lemma FiledExact(x: Index, rules: seq<Rule>, f: Fam, now: nat, r: Rule)
    requires BucketsFit(x, rules, f, now) && Belongs(r, f, now) && Full(r.ip)
    ensures BucketsFit(File(x, r), rules + [r], f, now)
  {
    var y := File(x, r);
    var was := if r.ip in x then x[r.ip] else [];
    assert forall q :: q in rules + [r] <==> q in rules || q == r;
    assert forall q :: q in was + [r] <==> q in was || q == r;
    forall k, q | k in y && q in y[k] ensures q in rules + [r] && Belongs(q, f, now) && q.ip == k && Full(k) {
      if k != r.ip || q != r { assert k in x && q in x[k]; }
    }
    forall q | q in rules + [r] && Belongs(q, f, now) && Full(q.ip) ensures q.ip in y && q in y[q.ip] {
      if q != r { assert q.ip in x && q in x[q.ip]; }
    }
  }

  method SortExact(x: Index, ghost rules: seq<Rule>, ghost c: seq<Rule>, ghost f: Fam, ghost now: nat)
    returns (y: Index)
    requires Filed(x, c, rules, f, now)
    ensures ExactFits(y, rules, f, now)
  {
    y := x;
    var rest := x.Keys;
    while rest != {}
      invariant y.Keys == x.Keys && rest <= x.Keys
      invariant forall k :: k in y ==> multiset(y[k]) == multiset(x[k])
      invariant forall k :: k in y && k !in rest ==> Sorted(y[k])
      decreases |rest|
    {
      var k :| k in rest;
      var s := Sort(y[k]);
      y := y[k := s];
      rest := rest - {k};
    }
    SortedBuckets(x, y, rules, f, now);
  }

  lemma SameMembers(a: seq<Rule>, b: seq<Rule>, r: Rule)
    requires multiset(a) == multiset(b)
    ensures r in a <==> r in b
  {
    assert r in a <==> r in multiset(a);
    assert r in b <==> r in multiset(b);
  }

  /** Reordering buckets keeps what they hold. */
  lemma SortedBuckets(x: Index, y: Index, rules: seq<Rule>, f: Fam, now: nat)
    requires BucketsFit(x, rules, f, now) && y.Keys == x.Keys
    requires forall k :: k in y ==> multiset(y[k]) == multiset(x[k]) && Sorted(y[k])
    ensures ExactFits(y, rules, f, now)
  {
    forall k | k in y ensures y[k] != [] {
      SameMembers(y[k], x[k], x[k][0]);
    }
    forall k, r | k in y && r in y[k] ensures r in rules && Belongs(r, f, now) && r.ip == k && Full(k) {
      SameMembers(y[k], x[k], r);
      assert k in x && r in x[k];
    }
    forall r | r in rules && Belongs(r, f, now) && Full(r.ip) ensures r.ip in y && r in y[r.ip] {
      assert r.ip in x && r in x[r.ip];
      SameMembers(y[r.ip], x[r.ip], r);
    }
  }

  method CompileSnap(version: nat, def: Act, rules: seq<Rule>, now: nat) returns (s: Snap)
    ensures s.version == version && s.def == def && Compiled(s, rules, now)
  {
    var e4: Index, e6: Index, c4: seq<Rule>, c6: seq<Rule> := map[], map[], [], [];
    for i := 0 to |rules|
      invariant Filed(e4, c4, rules[..i], V4, now) && Filed(e6, c6, rules[..i], V6, now)
    {
      var r := rules[i];
      FiledOne(e4, c4, rules[..i], V4, now, r);
      FiledOne(e6, c6, rules[..i], V6, now, r);
      assert rules[..i + 1] == rules[..i] + [r];
      if Expired(r, now) { continue; }
      var full := (r.ip.fam == V4 && r.ip.prefix == 32) || (r.ip.fam == V6 && r.ip.prefix == 128);
      if full {
        if r.ip.fam == V4 { e4 := File(e4, r); } else { e6 := File(e6, r); }
      } else {
        if r.ip.fam == V4 { c4 := c4 + [r]; } else { c6 := c6 + [r]; }
      }
    }
    assert rules[..|rules|] == rules;
    e4 := SortExact(e4, rules, c4, V4, now);
    e6 := SortExact(e6, rules, c6, V6, now);
    var s4 := Sort(c4);
    var s6 := Sort(c6);
    SortedFits(c4, s4, rules, V4, now);
    SortedFits(c6, s6, rules, V6, now);
    s := Snap(version, def, e4, e6, s4, s6);
  }

  lemma SortedFits(c: seq<Rule>, s: seq<Rule>, rules: seq<Rule>, f: Fam, now: nat)
    requires Sorted(s) && multiset(s) == multiset(c)
    requires NetsFit(c, rules, f, now)
    ensures CidrFits(s, rules, f, now)
  {
    forall r ensures r in s <==> r in c {
      SameMembers(s, c, r);
    }
  }

  // ----- looking an address up -----

  /** A rule still live when asked was live when compiled. */
  predicate InOrder(compiled: nat, now: nat) {
    compiled == 0 || compiled <= now
  }

  /** Whatever was compiled and speaks about `ip` is in its bucket or among its family's networks. */
  lemma SpeakersAreIndexed(s: Snap, rules: seq<Rule>, compiled: nat, ip: Ip, now: nat, r: Rule)
    requires Compiled(s, rules, compiled) && CanonicalRules(rules) && Canonical(ip) && Full(ip)
    requires r in Live(rules, compiled) && Speaks(r, ip, now)
    ensures Full(r.ip) ==> ip in s.Exact(ip.fam) && r in s.Exact(ip.fam)[ip]
    ensures !Full(r.ip) ==> r in s.Cidr(ip.fam)
  {
    assert Canonical(r.ip);
    if Full(r.ip) { FullNetIsAddress(ip, r.ip); }
  }

  lemma IndexedAreRules(s: Snap, rules: seq<Rule>, compiled: nat, ip: Ip, r: Rule)
    requires Compiled(s, rules, compiled) && CanonicalRules(rules) && Canonical(ip) && Full(ip)
    ensures ip in s.Exact(ip.fam) && r in s.Exact(ip.fam)[ip] ==>
              r in Live(rules, compiled) && Canonical(r.ip) && InNet(ip, r.ip)
    ensures r in s.Cidr(ip.fam) ==> r in Live(rules, compiled) && Canonical(r.ip)
    ensures ip in s.Exact(ip.fam) ==> Sorted(s.Exact(ip.fam)[ip])
    ensures Sorted(s.Cidr(ip.fam))
  {
    if ip in s.Exact(ip.fam) && r in s.Exact(ip.fam)[ip] {
      assert r.ip == ip;
      FullNetIsAddress(ip, r.ip);
    }
  }

  /** The first live rule of a sorted list: nothing live in the list beats it. */
  method FirstLive(list: seq<Rule>, now: nat) returns (best: Option<Rule>)
    requires Sorted(list)
    ensures best.Some? ==> best.value in list && !Expired(best.value, now)
    ensures best.Some? ==> forall q :: q in list && !Expired(q, now) ==> !Beats(q, best.value)
    ensures best.None? ==> forall q :: q in list ==> Expired(q, now)
  {
    for i := 0 to |list|
      invariant forall j :: 0 <= j < i ==> Expired(list[j], now)
    {
      if Expired(list[i], now) { continue; }
      return Some(list[i]);
    }
    return None;
  }

  /** The stronger of `best` and the networks' rules, stopping where no later one can win. */
  method ScanNets(nets: seq<Rule>, first: Option<Rule>, ip: Ip, now: nat) returns (best: Option<Rule>)
    requires Sorted(nets) && |ip.bytes| == 16 && forall r :: r in nets ==> |r.ip.bytes| == 16
    ensures best.Some? ==> best == first || (best.value in nets && Speaks(best.value, ip, now))
    ensures first.Some? ==> best.Some? && !Beats(first.value, best.value)
    ensures best.Some? ==> forall q :: q in nets && Speaks(q, ip, now) ==> !Beats(q, best.value)
    ensures best.None? ==> forall q :: q in nets ==> !Speaks(q, ip, now)
  {
    best := first;
    var i := 0;
    while i < |nets|
      invariant 0 <= i <= |nets|
      invariant best.Some? ==> best == first || (best.value in nets && Speaks(best.value, ip, now))
      invariant first.Some? ==> best.Some? && !Beats(first.value, best.value)
      invariant best.Some? ==> forall j :: 0 <= j < i && Speaks(nets[j], ip, now) ==> !Beats(nets[j], best.value)
      invariant best.None? ==> forall j :: 0 <= j < i ==> !Speaks(nets[j], ip, now)
    {
      var r := nets[i];
      if best.Some? && r.priority < best.value.priority {
        LaterAreWeaker(nets, i, best.value);
        return;
      }
      if !Expired(r, now) {
        var inside := TestInNet(ip, r.ip);
        if inside && (best.None? || Beats(r, best.value)) {
          if best.Some? { Dethroned(nets, i, first, best.value, r, ip, now); }
          best := Some(r);
        }
      }
      i := i + 1;
    }
  }

  lemma LaterAreWeaker(nets: seq<Rule>, i: nat, best: Rule)
    requires Sorted(nets) && i < |nets| && nets[i].priority < best.priority
    ensures forall j :: i <= j < |nets| ==> !Beats(nets[j], best)
  {
  }

  lemma Dethroned(nets: seq<Rule>, i: nat, first: Option<Rule>, old_: Rule, r: Rule, ip: Ip, now: nat)
    requires i <= |nets| && Beats(r, old_)
    requires first.Some? ==> !Beats(first.value, old_)
    requires forall j :: 0 <= j < i && Speaks(nets[j], ip, now) ==> !Beats(nets[j], old_)
    ensures first.Some? ==> !Beats(first.value, r)
    ensures forall j :: 0 <= j < i && Speaks(nets[j], ip, now) ==> !Beats(nets[j], r)
  {
    BeatsIsAPreorder(r, old_, old_);
    if first.Some? { BeatsIsAPreorder(first.value, old_, r); }
    forall j | 0 <= j < i && Speaks(nets[j], ip, now) ensures !Beats(nets[j], r) {
      BeatsIsAPreorder(nets[j], old_, r);
    }
  }

  /** A lookup answers what a scan of the rules kept by the compilation would: a rule that nothing
      live and matching beats, or the default when nothing live matches. No earlier than the
      compilation, that is what a scan of the whole list would answer. */
  method Eval(s: Snap, ip: Ip, now: nat, ghost rules: seq<Rule>, ghost compiled: nat) returns (d: Decision)
    requires Compiled(s, rules, compiled) && CanonicalRules(rules) && Canonical(ip) && Full(ip)
    ensures Answers(d, Live(rules, compiled), s.def, ip, now)
    ensures InOrder(compiled, now) ==> Answers(d, rules, s.def, ip, now)
  {
    ghost var live := Live(rules, compiled);
    var exact := if ip in s.Exact(ip.fam) then s.Exact(ip.fam)[ip] else [];
    var nets := s.Cidr(ip.fam);
    forall r ensures r in exact ==> r in live && |r.ip.bytes| == 16 && InNet(ip, r.ip)
             ensures r in nets ==> r in live && |r.ip.bytes| == 16
             ensures Sorted(exact) && Sorted(nets)
    {
      IndexedAreRules(s, rules, compiled, ip, r);
    }
    var first := FirstLive(exact, now);
    var best := ScanNets(nets, first, ip, now);
    forall q | q in live && Speaks(q, ip, now) ensures best.Some? && !Beats(q, best.value) {
      SpeakersAreIndexed(s, rules, compiled, ip, now, q);
      if q in exact {
        BeatsIsAPreorder(q, first.value, best.value);
      }
    }
    if best.None? {
      d := Default(s.def);
    } else {
      assert Strongest(best.value, live, ip, now);
      d := Of(best.value);
    }
    if InOrder(compiled, now) { LiveSpeaksForAll(d, rules, compiled, s.def, ip, now); }
  }

  lemma LiveSpeaksForAll(d: Decision, rules: seq<Rule>, compiled: nat, def: Act, ip: Ip, now: nat)
    requires InOrder(compiled, now) && Answers(d, Live(rules, compiled), def, ip, now)
    ensures Answers(d, rules, def, ip, now)
  {
    var live := Live(rules, compiled);
    forall r | Speaks(r, ip, now) ensures r in rules <==> r in live {}
    if r :| r in live && Speaks(r, ip, now) {
      var best :| Strongest(best, live, ip, now) && d == Of(best);
      assert Strongest(best, rules, ip, now);
    }
  }

  /** However the sort ordered equals, every strongest rule gives the same action, so the action of
      the answer is fixed by the rule list alone. */
  lemma ActionIsDetermined(d: Decision, e: Decision, rules: seq<Rule>, def: Act, ip: Ip, now: nat)
    requires Answers(d, rules, def, ip, now) && Answers(e, rules, def, ip, now)
    ensures d.action == e.action && d.Matched? == e.Matched?
  {
    if r :| r in rules && Speaks(r, ip, now) {
      var a :| Strongest(a, rules, ip, now) && d == Of(a);
      var b :| Strongest(b, rules, ip, now) && e == Of(b);
      BeatsIsAPreorder(a, b, a);
    }
  }

  /** Out of order, a rule that expires in between and decides against the default is missed. */
  lemma OutOfOrderMissesARule(compiled: nat, now: nat, addr: Ip, def: Act) returns (rules: seq<Rule>)
    requires Canonical(addr) && Full(addr) && !InOrder(compiled, now)
    ensures CanonicalRules(rules) && Answers(Default(def), Live(rules, compiled), def, addr, now)
    ensures forall d :: Answers(d, rules, def, addr, now) ==> d.action != def
    ensures exists d :: Answers(d, rules, def, addr, now)
  {
    var r := Rule("a", addr, if def == ALLOW then DENY else ALLOW, ADMIN, 900, 0, compiled, 1, "");
    rules := [r];
    FullNetIsAddress(addr, addr);
    assert forall q :: q in rules ==> q == r;
    assert r in rules && Speaks(r, addr, now) && Expired(r, compiled);
    assert Strongest(r, rules, addr, now) by { BeatsIsAPreorder(r, r, r); }
    assert Answers(Of(r), rules, def, addr, now);
    forall d | Answers(d, rules, def, addr, now) ensures d.action != def {
      ActionIsDetermined(d, Of(r), rules, def, addr, now);
    }
  }

  /** The index answers what a scan would, for every rule list, exactly when the lookup is not
      earlier than the compilation. */
  lemma OrderIsNeeded(compiled: nat, now: nat, addr: Ip, def: Act)
    requires Canonical(addr) && Full(addr)
    ensures InOrder(compiled, now) <==>
              forall rules, d {:trigger Answers(d, rules, def, addr, now)} ::
                CanonicalRules(rules) && Answers(d, Live(rules, compiled), def, addr, now) ==>
                  Answers(d, rules, def, addr, now)
  {
    if InOrder(compiled, now) {
      forall rules, d | CanonicalRules(rules) && Answers(d, Live(rules, compiled), def, addr, now)
        ensures Answers(d, rules, def, addr, now)
      {
        LiveSpeaksForAll(d, rules, compiled, def, addr, now);
      }
    } else {
      var rules := OutOfOrderMissesARule(compiled, now, addr, def);
      assert !Answers(Default(def), rules, def, addr, now);
    }
  }
}
