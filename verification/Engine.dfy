/** The hub's policy engine as an object (src/ipban/engine.cpp) with its change log
    (src/ipban/include/changelog.h), its lazy expiry heap (src/ipban/include/expiry.h) and the
    arbiter (src/ipban/judge.cpp). Every m_mtx section is proved against HubSpec and Durability. */
module Engine {
  import opened Rules
  import opened HubSpec
  import opened GuardSpec
  import Db
  import Durability

  // ----- change log -----

  class ChangeLog {
    const cap: nat
    var entries: seq<Entry>

    constructor (cap: nat)
      ensures this.cap == cap && entries == []
    {
      this.cap := cap;
      entries := [];
    }

    method Append(version: nat, op: DeltaOp)
      modifies this
      ensures entries == HubSpec.Append(old(entries), cap, Entry(version, op))
      ensures |old(entries)| < cap ==> entries == old(entries) + [Entry(version, op)]
      ensures |old(entries)| == cap > 0 ==> entries == old(entries)[1..] + [Entry(version, op)]
      ensures cap == 0 ==> entries == []
    {
      ghost var all := entries + [Entry(version, op)];
      entries := entries + [Entry(version, op)];
      while |entries| > cap
        invariant |entries| <= |all| && entries == all[|all| - |entries|..]
        invariant |entries| < |all| ==> |entries| >= cap
      {
        entries := entries[1..];
      }
    }

    method CollectRange(from: nat, to: nat) returns (out: seq<DeltaOp>)
      ensures out == Collect(entries, from, to)
    {
      out := [];
      var i := 0;
      while i < |entries|
        invariant 0 <= i <= |entries|
        invariant Collect(entries, from, to) == out + Collect(entries[i..], from, to)
      {
        assert entries[i..][1..] == entries[i + 1..];
        if entries[i].version > from && entries[i].version <= to {
          out := out + [entries[i].op];
        }
        i := i + 1;
      }
    }
  }

  // ----- expiry heap -----

  datatype Node = Node(expireAtMs: nat, ruleId: string, version: nat)

  class Expiry {
    var heap: multiset<Node>

    constructor ()
      ensures heap == multiset{}
    {
      heap := multiset{};
    }

    method Push(expireAtMs: nat, ruleId: string, version: nat)
      modifies this
      ensures heap == if expireAtMs == 0 then old(heap) else old(heap) + multiset{Node(expireAtMs, ruleId, version)}
    {
      if expireAtMs == 0 { return; }
      heap := heap + multiset{Node(expireAtMs, ruleId, version)};
    }

    /** Takes out every node due at `now`, earliest first, and no other. */
    method PopDue(now: nat) returns (out: seq<Node>)
      modifies this
      ensures multiset(out) + heap == old(heap)
      ensures AllDueFrom(heap, now + 1)
      ensures forall i :: 0 <= i < |out| ==> out[i].expireAtMs <= now
      ensures forall i, j :: 0 <= i < j < |out| ==> out[i].expireAtMs <= out[j].expireAtMs
    {
      out := [];
      ghost var low: nat := 0;
      while heap != multiset{}
        invariant low <= now && Draining(old(heap), out, heap, low)
        decreases |heap|
      {
        ghost var first := EarliestExists(heap);
        var top :| top in heap && Earliest(top, heap);
        if top.expireAtMs > now {
          LaterThan(heap, top, now);
          return;
        }
        PopEarliest(old(heap), out, heap, top, low);
        low := top.expireAtMs;
        heap := heap - multiset{top};
        out := out + [top];
      }
    }
  }

  /** Nodes taken out so far, in order and none later than `low`, and those left, none earlier. */
  ghost predicate Draining(all: multiset<Node>, out: seq<Node>, heap: multiset<Node>, low: nat) {
    && multiset(out) + heap == all
    && (forall i :: 0 <= i < |out| ==> out[i].expireAtMs <= low)
    && (forall i, j :: 0 <= i < j < |out| ==> out[i].expireAtMs <= out[j].expireAtMs)
    && AllDueFrom(heap, low)
  }

  ghost predicate AllDueFrom(heap: multiset<Node>, low: nat) {
    forall n :: n in heap ==> low <= n.expireAtMs
  }

  lemma LaterThan(heap: multiset<Node>, top: Node, now: nat)
    requires Earliest(top, heap) && now < top.expireAtMs
    ensures AllDueFrom(heap, now + 1)
  {
  }

  lemma PopEarliest(all: multiset<Node>, out: seq<Node>, heap: multiset<Node>, top: Node, low: nat)
    requires Draining(all, out, heap, low) && Earliest(top, heap)
    ensures Draining(all, out + [top], heap - multiset{top}, top.expireAtMs)
    ensures |heap - multiset{top}| < |heap|
  {
    assert multiset(out + [top]) == multiset(out) + multiset{top};
  }

  /** The top of the heap: no node is due before it. */
  predicate Earliest(top: Node, heap: multiset<Node>) {
    top in heap && forall n :: n in heap ==> top.expireAtMs <= n.expireAtMs
  }

  lemma {:induction false} EarliestExists(heap: multiset<Node>) returns (top: Node)
    requires heap != multiset{}
    ensures Earliest(top, heap)
    decreases |heap|
  {
    top :| top in heap;
    if y :| y in heap && y.expireAtMs < top.expireAtMs {
      var rest := heap - multiset{top};
      assert y in rest;
      var was := top;
      top := EarliestExists(rest);
      assert top.expireAtMs <= y.expireAtMs;
      forall n | n in heap ensures top.expireAtMs <= n.expireAtMs {
        if n != was { assert n in rest; }
      }
    }
  }

  // ----- arbiter -----

  /** Rule ids name the source, then the address as text. */
  function RuleId(src: Src, addr: string): string {
    SrcName(src) + ":" + addr
  }

  function RuleFromRisk(r: Risk, addr: string, now: nat): Rule {
    Rule(RuleId(r.src, addr), r.ip, DENY, r.src, RulePriority(r.src, DENY), now,
         if r.banMs == 0 then 0
         else if now >= INT64_MAX || r.banMs > INT64_MAX - now then INT64_MAX
         else now + r.banMs,
         0,
         if r.reason == "" then SrcName(r.src) else r.reason)
  }

  function AdminRule(ip: Ip, addr: string, action: Act, ttlMs: nat, reason: string, now: nat): Rule {
    Rule(RuleId(ADMIN, addr), ip, action, ADMIN, RulePriority(ADMIN, action), now,
         if ttlMs == 0 then 0 else now + ttlMs, 0, if reason == "" then "admin" else reason)
  }

  /** Name and priority of each source, for a rule on the address `addr`. */
  predicate Filed(rule: Rule, addr: string) {
    match rule.src
    case EMERG => rule.id == "emerg:" + addr && rule.priority == 1000
    case ADMIN => rule.id == "admin:" + addr && rule.priority == if rule.action == DENY then 900 else 800
    case STATIC => rule.id == "static:" + addr && rule.priority == if rule.action == ALLOW then 750 else 300
    case WAF => rule.id == "waf:" + addr && rule.priority == 600
    case BIZ => rule.id == "biz:" + addr && rule.priority == 500
    case RATE => rule.id == "rate:" + addr && rule.priority == 400
  }

  /** What a report asks for: a ban of its address, for good or until the earlier of the time it
      asks for and the largest time there is. */
  predicate Bans(rule: Rule, r: Risk, addr: string, now: nat) {
    && Filed(rule, addr)
    && rule.action == DENY && rule.ip == r.ip && rule.src == r.src && rule.createdAtMs == now
    && (r.banMs == 0 ==> rule.expireAtMs == 0)
    && (0 < r.banMs <= INT64_MAX - now ==> rule.expireAtMs == now + r.banMs)
    && (0 < r.banMs && r.banMs > INT64_MAX - now ==> rule.expireAtMs == INT64_MAX)
    && (r.reason != "" ==> rule.reason == r.reason)
    && (r.reason == "" ==> rule.id == rule.reason + ":" + addr)
  }

  /** What an administrator asks for. */
  predicate Orders(rule: Rule, ip: Ip, addr: string, action: Act, ttlMs: nat, reason: string, now: nat) {
    && Filed(rule, addr)
    && rule.action == action && rule.ip == ip && rule.src == ADMIN && rule.createdAtMs == now
    && rule.expireAtMs == (if ttlMs == 0 then 0 else now + ttlMs)
    && rule.reason == if reason == "" then "admin" else reason
  }

  /** A rule may take another's place: a higher priority, or the same and a later end. */
  predicate Outranks(cand: Rule, ex: Rule) {
    || cand.priority > ex.priority
    || (cand.priority == ex.priority
        && (if cand.expireAtMs == 0 then UINT64_MAX else cand.expireAtMs)
           > if ex.expireAtMs == 0 then UINT64_MAX else ex.expireAtMs)
  }

  lemma RiskBans(r: Risk, addr: string, now: nat)
    ensures Bans(RuleFromRisk(r, addr, now), r, addr, now)
  {
  }

  lemma AdminOrders(ip: Ip, addr: string, action: Act, ttlMs: nat, reason: string, now: nat)
    ensures Orders(AdminRule(ip, addr, action, ttlMs, reason, now), ip, addr, action, ttlMs, reason, now)
  {
  }

  predicate SameEffect(a: Rule, b: Rule) {
    a.action == b.action && a.expireAtMs == b.expireAtMs && a.reason == b.reason
  }

  predicate ShouldReplace(existing: Rule, cand: Rule) {
    if cand.priority != existing.priority then cand.priority > existing.priority
    else Deadline(cand) > Deadline(existing)
  }

  /** The engine's own rules: the id names the source and the priority is the table's. */
  predicate Lawful(r: Rule, show: Ip -> string) {
    r.id == RuleId(r.src, show(r.ip)) && r.priority == RulePriority(r.src, r.action)
  }

  lemma IdNamesSource(a: Src, b: Src, x: string, y: string)
    requires RuleId(a, x) == RuleId(b, y)
    ensures a == b
  {
    assert RuleId(a, x)[0] == SrcName(a)[0] && RuleId(b, y)[0] == SrcName(b)[0];
  }

  /** The sources a submitted report can name (riskSrcFromNode in src/ipban/wire.cpp). */
  predicate Reportable(src: Src) { src == WAF || src == RATE || src == BIZ }

  /** A report never replaces a rule by one with an earlier deadline: its id names its source, and
      those sources have one priority each, so only the deadline decides. */
  lemma ReportNeverShortens(ex: Rule, r: Risk, show: Ip -> string, now: nat)
    requires Lawful(ex, show) && Reportable(r.src)
    requires var cand := RuleFromRisk(r, show(r.ip), now); ex.id == cand.id && ShouldReplace(ex, cand)
    ensures Deadline(RuleFromRisk(r, show(r.ip), now)) > Deadline(ex)
  {
    IdNamesSource(ex.src, r.src, show(ex.ip), show(r.ip));
  }

  // ----- the engine -----

  const RISK_COOL_MS := 60000
  const RISK_SEEN_MAX := 10000

  /** The hub, the ids believed on disk, and the queue of operations for the database. */
  datatype View = View(hub: Hub, persisted: set<string>, pending: seq<Db.PersistOp>)

  function Edited(v: View, op: DeltaOp, dbOn: bool, minTtl: nat): View {
    var n := v.hub.ver + 1;
    var o := Stamp(op, n);
    if dbOn then
      View(Edit(v.hub, op), Durability.Remember(o, v.persisted, minTtl),
           v.pending + Durability.Persist(o, n, v.persisted, minTtl))
    else v.(hub := Edit(v.hub, op))
  }

  /** Deletions in order, each under a version of its own. */
  function Deleted(v: View, ids: seq<string>, dbOn: bool, minTtl: nat): View
    decreases |ids|
  {
    if ids == [] then v
    else Edited(Deleted(v, ids[..|ids| - 1], dbOn, minTtl), DeltaOp(true, ids[|ids| - 1], BLANK), dbOn, minTtl)
  }

  lemma DeletedSnoc(v: View, ids: seq<string>, id: string, dbOn: bool, minTtl: nat)
    ensures Deleted(v, ids + [id], dbOn, minTtl)
         == Edited(Deleted(v, ids, dbOn, minTtl), DeltaOp(true, id, BLANK), dbOn, minTtl)
  {
    assert (ids + [id])[..|ids|] == ids;
  }

  /** Every stored rule that can expire has a heap node of its current version. */
  ghost predicate Covered(store: Store, heap: multiset<Node>) {
    forall k :: k in store && store[k].expireAtMs != 0 ==>
      Node(store[k].expireAtMs, k, store[k].version) in heap
  }

  ghost predicate Sound(store: Store, ver: nat) {
    WfStore(store) && forall k :: k in store ==> store[k].version <= ver
  }

  ghost predicate LawfulStore(store: Store, show: Ip -> string) {
    forall k :: k in store ==> Lawful(store[k], show)
  }

  lemma PutKeepsValid(store: Store, ver: nat, ver': nat, heap: multiset<Node>, r: Rule, heap': multiset<Node>)
    requires Sound(store, ver) && Covered(store, heap)
    requires r.id != "" && ver <= ver' && r.version <= ver'
    requires forall n :: n in heap ==> n in heap'
    requires r.expireAtMs != 0 ==> Node(r.expireAtMs, r.id, r.version) in heap'
    ensures Sound(store[r.id := r], ver') && Covered(store[r.id := r], heap')
  {
  }

  lemma IdIsNotEmpty(src: Src, addr: string)
    ensures RuleId(src, addr) != ""
  {
    assert RuleId(src, addr)[0] == SrcName(src)[0];
  }

  /** The store after rows are put into it one by one. */
  function PutAll(s: Store, rows: seq<Rule>): Store {
    if rows == [] then s
    else var last := rows[|rows| - 1]; PutAll(s, rows[..|rows| - 1])[last.id := last]
  }

  function Ids(rows: seq<Rule>): set<string> {
    if rows == [] then {} else Ids(rows[..|rows| - 1]) + {rows[|rows| - 1].id}
  }

  /** What a successful database load hands over. */
  ghost predicate Loaded(rows: seq<Rule>, lastVer: nat) {
    forall i :: 0 <= i < |rows| ==> rows[i].id != "" && rows[i].version <= lastVer
  }

  /** Into an empty store, rows that enumerate a store restore it. */
  lemma {:induction false} PutAllIsFromList(rows: seq<Rule>, lastVer: nat)
    requires Loaded(rows, lastVer)
    ensures PutAll(map[], rows) == FromList(rows)
  {
    if rows != [] { PutAllIsFromList(rows[..|rows| - 1], lastVer); }
  }

  lemma PutAllSnoc(s: Store, rows: seq<Rule>, i: nat)
    requires i < |rows|
    ensures PutAll(s, rows[..i + 1]) == PutAll(s, rows[..i])[rows[i].id := rows[i]]
    ensures Ids(rows[..i + 1]) == Ids(rows[..i]) + {rows[i].id}
  {
    assert rows[..i + 1][..i] == rows[..i];
  }

  /** No rule went or lost any of its lifetime. */
  ghost predicate NoneShortened(before: Store, after: Store) {
    forall k :: k in before ==> k in after && Deadline(after[k]) >= Deadline(before[k])
  }

  lemma ReportShortensNone(store: Store, r: Risk, show: Ip -> string, now: nat, v: nat)
    requires WfStore(store)
    requires var cand := RuleFromRisk(r, show(r.ip), now); cand.id in store ==> ShouldReplace(store[cand.id], cand)
    ensures var cand := RuleFromRisk(r, show(r.ip), now);
            var after := store[cand.id := cand.(version := v)];
            && (LawfulStore(store, show) ==> LawfulStore(after, show))
            && (LawfulStore(store, show) && Reportable(r.src) ==> NoneShortened(store, after))
  {
    var cand := RuleFromRisk(r, show(r.ip), now);
    if cand.id in store && LawfulStore(store, show) && Reportable(r.src) {
      ReportNeverShortens(store[cand.id], r, show, now);
    }
  }

  ghost predicate InOrder(seen: map<string, nat>, order: seq<(string, nat)>) {
    forall id :: id in seen ==> (id, seen[id]) in order
  }

  /** While old report ids are dropped: a live one goes only when there are too many. */
  ghost predicate Trimming(all: map<string, nat>, seen: map<string, nat>, order: seq<(string, nat)>, now: nat) {
    && InOrder(seen, order)
    && (forall k :: k in seen ==> k in all && seen[k] == all[k])
    && |seen| <= |all|
    && (|all| <= RISK_SEEN_MAX ==> forall k :: k in all && all[k] + RISK_COOL_MS > now ==> k in seen)
  }

  lemma TrimStep(all: map<string, nat>, seen: map<string, nat>, order: seq<(string, nat)>, now: nat)
    requires order != [] && Trimming(all, seen, order, now)
    requires order[0].1 + RISK_COOL_MS <= now || |seen| > RISK_SEEN_MAX
    ensures var seen' := if order[0].0 in seen && seen[order[0].0] == order[0].1 then seen - {order[0].0} else seen;
            Trimming(all, seen', order[1..], now)
  {
    var front := order[0];
    var drop := front.0 in seen && seen[front.0] == front.1;
    var seen' := if drop then seen - {front.0} else seen;
    if drop { assert seen.Keys == seen'.Keys + {front.0}; }
    forall k | k in seen' ensures (k, seen'[k]) in order[1..] {
      assert (k, seen[k]) in order;
      assert (k, seen[k]) != front;
    }
  }

  /** Midway through a tick: `gone` were removed, each expired, and every expired rule still
      stored has its node among those left to visit. */
  ghost predicate Ticking(before: Store, store: Store, gone: seq<string>, left: seq<Node>, now: nat) {
    && (forall a, b :: 0 <= a < b < |gone| ==> gone[a] != gone[b])
    && (forall k :: k in gone ==> k in before && k !in store && Gone(before[k], now))
    && (forall k :: k in store ==> k in before && store[k] == before[k])
    && (forall k :: k in before ==> k in store || k in gone)
    && (forall k :: k in store && Gone(store[k], now) ==> Node(store[k].expireAtMs, k, store[k].version) in left)
  }

  lemma TickStarts(store: Store, heap: multiset<Node>, due: seq<Node>, rest: multiset<Node>, now: nat)
    requires Covered(store, heap) && multiset(due) + rest == heap && AllDueFrom(rest, now + 1)
    ensures Ticking(store, store, [], due, now)
  {
    forall k | k in store && Gone(store[k], now)
      ensures Node(store[k].expireAtMs, k, store[k].version) in due
    {
      assert Node(store[k].expireAtMs, k, store[k].version) in multiset(due) + rest;
    }
  }

  lemma TickSkips(before: Store, store: Store, gone: seq<string>, node: Node, left: seq<Node>, now: nat)
    requires Ticking(before, store, gone, [node] + left, now)
    requires node.ruleId in store && store[node.ruleId].version == node.version ==> !Gone(store[node.ruleId], now)
    ensures Ticking(before, store, gone, left, now)
  {
    forall k | k in store && Gone(store[k], now)
      ensures Node(store[k].expireAtMs, k, store[k].version) in left
    {
      assert Node(store[k].expireAtMs, k, store[k].version) in [node] + left;
    }
  }

  lemma TickRemoves(before: Store, store: Store, gone: seq<string>, node: Node, left: seq<Node>, now: nat)
    requires Ticking(before, store, gone, [node] + left, now)
    requires node.ruleId in store && Gone(store[node.ruleId], now)
    ensures Ticking(before, store - {node.ruleId}, gone + [node.ruleId], left, now)
  {
    var id := node.ruleId;
    forall k | k in gone + [id] ensures k in before && k !in store - {id} && Gone(before[k], now) {
      assert k in gone || k == id;
    }
    forall k | k in before ensures k in store - {id} || k in gone + [id] {
      if k != id && k !in store { assert k in gone; }
      assert id in gone + [id];
    }
    forall k | k in store - {id} && Gone(store[k], now)
      ensures Node(store[k].expireAtMs, k, store[k].version) in left
    {
      assert Node(store[k].expireAtMs, k, store[k].version) in [node] + left;
    }
  }

  /** What is left of a covered store stays covered when only due nodes left the heap. */
  lemma TickEnds(before: Store, store: Store, gone: seq<string>, heap: multiset<Node>, due: seq<Node>,
                 rest: multiset<Node>, now: nat, ver: nat, ver': nat)
    requires Ticking(before, store, gone, [], now)
    requires Sound(before, ver) && Covered(before, heap) && ver <= ver'
    requires multiset(due) + rest == heap && forall i :: 0 <= i < |due| ==> due[i].expireAtMs <= now
    ensures Sound(store, ver') && Covered(store, rest)
    ensures store == map k | k in before && !Gone(before[k], now) :: before[k]
    ensures forall k :: k in gone <==> k in before && Gone(before[k], now)
  {
    forall k | k in store && store[k].expireAtMs != 0
      ensures Node(store[k].expireAtMs, k, store[k].version) in rest
    {
      var n := Node(store[k].expireAtMs, k, store[k].version);
      assert n in heap;
      assert n !in due;
      assert n in multiset(due) + rest;
    }
  }

  /** Two answers that differ at most in the order of a full list. */
  predicate SameAnswer(a: Option<Push>, b: Option<Push>) {
    match (a, b)
    case (Some(FullPush(e, v, _)), Some(FullPush(f, w, _))) => e == f && v == w
    case (_, _) => a == b
  }

  datatype EditErr = NoEditErr | TtlTooLarge | PersistFailed

  datatype EditRes = EditRes(changed: bool, durable: bool, version: nat, id: string, error: EditErr)

  const BLANK := Rule("", Ip(V4, 0, []), DENY, RATE, 0, 0, 0, 0, "")

  class PolicyEngine {
    const epoch: nat
    const show: Ip -> string
    const log: ChangeLog
    const expiry: Expiry
    const dbOn: bool
    const minTtl: nat
    var ver: nat
    var store: Store
    var persisted: set<string>
    var pending: seq<Db.PersistOp>
    var seen: map<string, nat>
    var seenOrder: seq<(string, nat)>

    ghost function Now(): View
      reads this, log
    {
      View(Hub(epoch, ver, store, log.entries, log.cap), persisted, pending)
    }

    ghost predicate Valid()
      reads this, expiry
    {
      && Sound(store, ver)
      && Covered(store, expiry.heap)
      && InOrder(seen, seenOrder)
      && |seen| <= RISK_SEEN_MAX
    }

    constructor (epoch: nat, show: Ip -> string, cap: nat, dbOn: bool, minTtl: nat)
      ensures Valid() && fresh(log) && fresh(expiry)
      ensures Now() == View(Hub(epoch, 0, map[], [], cap), {}, [])
      ensures this.dbOn == dbOn && this.minTtl == minTtl && this.show == show
    {
      this.epoch, this.show, this.dbOn, this.minTtl := epoch, show, dbOn, minTtl;
      log := new ChangeLog(cap);
      expiry := new Expiry();
      ver, store, persisted, pending := 0, map[], {}, [];
      seen, seenOrder := map[], [];
    }

    /** Queues a recorded change for the database (queueRuleLocked, queueDelLocked). */
    method Queue(o: DeltaOp)
      modifies this`persisted, this`pending
      ensures persisted == if dbOn then Durability.Remember(o, old(persisted), minTtl) else old(persisted)
      ensures pending == if dbOn then old(pending) + Durability.Persist(o, ver, old(persisted), minTtl)
                else old(pending)
      ensures var r := o.rule;
              var keep := !o.del && (|| r.expireAtMs == 0 || r.src == ADMIN || r.src == EMERG
                                     || (r.createdAtMs < r.expireAtMs && r.createdAtMs + minTtl <= r.expireAtMs));
              && (dbOn && keep ==> pending == old(pending) + [Db.Save(r)] && persisted == old(persisted) + {o.ruleId})
              && (dbOn && !keep && o.ruleId in old(persisted) ==>
                    pending == old(pending) + [Db.Del(o.ruleId, ver)] && persisted == old(persisted) - {o.ruleId})
              && (!dbOn || (!keep && o.ruleId !in old(persisted)) ==>
                    pending == old(pending) && persisted == old(persisted))
    {
      if !dbOn { return; }
      if !o.del && Durability.ShouldPersist(o.rule, minTtl) {
        persisted := persisted + {o.ruleId};
        pending := pending + [Db.Save(o.rule)];
      } else if o.ruleId in persisted {
        persisted := persisted - {o.ruleId};
        pending := pending + [Db.Del(o.ruleId, ver)];
      }
    }

    /** Records a change under the next version, in the log and in the persist queue. */
    method Record(op: DeltaOp)
      modifies this`ver, this`store, this`persisted, this`pending, log
      ensures Now() == Edited(old(Now()), op, dbOn, minTtl)
      ensures ver == old(ver) + 1 && store == ApplyOp(old(store), Stamp(op, ver))
      ensures op.del ==> store == old(store) - {op.ruleId}
      ensures !op.del ==> store == old(store)[op.ruleId := op.rule.(version := ver)]
      ensures log.cap > 0 && |old(log.entries)| <= log.cap ==>
                && log.entries != [] && log.entries[|log.entries| - 1].version == ver
                && var o := log.entries[|log.entries| - 1].op;
                   o.del == op.del && o.ruleId == op.ruleId && (!o.del ==> o.rule == store[o.ruleId])
    {
      ver := ver + 1;
      var o := Stamp(op, ver);
      log.Append(ver, o);
      store := ApplyOp(store, o);
      Queue(o);
    }

    /** Was this report id taken within the last minute? If not, it is remembered. */
    method SeenBefore(id: string, now: nat) returns (yes: bool)
      requires Valid()
      modifies this`seen, this`seenOrder
      ensures Valid()
      ensures yes <==> id != "" && id in old(seen) && old(seen[id]) <= now < old(seen[id]) + RISK_COOL_MS
      ensures yes || id == "" ==> seen == old(seen)
      ensures !yes && id != "" ==>
                forall k :: k in seen ==> k in old(seen)[id := now] && seen[k] == old(seen)[id := now][k]
      ensures !yes && id != "" && |old(seen)[id := now]| <= RISK_SEEN_MAX ==>
                forall k :: k in old(seen)[id := now] && old(seen)[id := now][k] + RISK_COOL_MS > now ==> k in seen
    {
      if id == "" { return false; }
      if id in seen && now >= seen[id] && now - seen[id] < RISK_COOL_MS { return true; }
      seen := seen[id := now];
      seenOrder := seenOrder + [(id, now)];
      ghost var all := seen;
      while seenOrder != []
        invariant Trimming(all, seen, seenOrder, now)
        decreases |seenOrder|
      {
        var front := seenOrder[0];
        var expired := now >= front.1 && now - front.1 >= RISK_COOL_MS;
        if !expired && |seen| <= RISK_SEEN_MAX { break; }
        TrimStep(all, seen, seenOrder, now);
        if front.0 in seen && seen[front.0] == front.1 {
          seen := seen - {front.0};
        }
        seenOrder := seenOrder[1..];
      }
      if seenOrder == [] { assert seen == map[]; }
      return false;
    }

    /** A report: refused when it repeats or would not improve the rule it meets, otherwise one
        edit. No report a client can submit takes lifetime from any rule. */
    method OnRisk(r: Risk, now: nat) returns (accepted: bool)
      requires Valid()
      modifies this, log, expiry
      ensures Valid()
      ensures var cand := RuleFromRisk(r, show(r.ip), now);
              && Bans(cand, r, show(r.ip), now)
              && (accepted <==>
                   && !(r.id != "" && r.id in old(seen) && old(seen)[r.id] <= now < old(seen)[r.id] + 60000)
                   && (cand.id in old(store) ==> Outranks(cand, old(store)[cand.id])))
              && Now() == if accepted then Edited(old(Now()), DeltaOp(false, cand.id, cand), dbOn, minTtl)
                   else old(Now())
      ensures var cand := RuleFromRisk(r, show(r.ip), now);
              accepted ==> ver == old(ver) + 1 && store == old(store)[cand.id := cand.(version := ver)]
      ensures !accepted ==> store == old(store) && ver == old(ver)
      ensures LawfulStore(old(store), show) ==> LawfulStore(store, show)
      ensures LawfulStore(old(store), show) && Reportable(r.src) ==> NoneShortened(old(store), store)
    {
      var cand := RuleFromRisk(r, show(r.ip), now);
      var seenIt := SeenBefore(r.id, now);
      RiskBans(r, show(r.ip), now);
      if seenIt { return false; }
      if cand.id in store && !ShouldReplace(store[cand.id], cand) { return false; }
      ReportShortensNone(store, r, show, now, ver + 1);
      IdIsNotEmpty(r.src, show(r.ip));
      PutRule(cand);
      RiskBans(r, show(r.ip), now);
      return true;
    }

    /** One edit that stores a rule, with its node in the expiry heap. */
    method PutRule(rule: Rule)
      requires Valid() && rule.id != ""
      modifies this`ver, this`store, this`persisted, this`pending, log, expiry
      ensures Valid() && ver == old(ver) + 1
      ensures store == old(store)[rule.id := rule.(version := ver)]
      ensures Now() == Edited(old(Now()), DeltaOp(false, rule.id, rule), dbOn, minTtl)
    {
      ghost var was, heap := store, expiry.heap;
      Record(DeltaOp(false, rule.id, rule));
      expiry.Push(rule.expireAtMs, rule.id, ver);
      PutKeepsValid(was, ver - 1, ver, heap, rule.(version := ver), expiry.heap);
    }

    /** An administrator's rule: refused when its lifetime does not fit the database, a no-op
        when it changes nothing, otherwise one edit. `flushed` is what the flush behind it says. */
    method SetAdmin(ip: Ip, action: Act, ttlMs: nat, reason: string, now: nat, flushed: bool) returns (out: EditRes)
      requires Valid()
      modifies this, log, expiry
      ensures Valid() && (LawfulStore(old(store), show) ==> LawfulStore(store, show))
      ensures out.version == ver && out.id == RuleId(ADMIN, show(ip))
      ensures out.error == TtlTooLarge <==> ttlMs != 0 && now + ttlMs > INT64_MAX
      ensures out.error != TtlTooLarge ==> out.durable == flushed && (out.error == PersistFailed <==> !flushed)
      ensures out.error == TtlTooLarge ==> out.durable && !out.changed
      ensures var rule := AdminRule(ip, show(ip), action, ttlMs, reason, now);
              && Orders(rule, ip, show(ip), action, ttlMs, reason, now)
              && (out.changed <==> out.error != TtlTooLarge
                                   && !(rule.id in old(store)
                                        && var ex := old(store)[rule.id];
                                           ex.action == action && ex.expireAtMs == rule.expireAtMs
                                           && ex.reason == rule.reason))
              && Now() == if out.changed then Edited(old(Now()), DeltaOp(false, rule.id, rule), dbOn, minTtl)
                   else old(Now())
      ensures out.changed ==>
                && ver == old(ver) + 1
                && store == old(store)[out.id := AdminRule(ip, show(ip), action, ttlMs, reason, now).(version := ver)]
      ensures !out.changed ==> store == old(store) && ver == old(ver)
    {
      var id := RuleId(ADMIN, show(ip));
      if ttlMs != 0 && (now > INT64_MAX || ttlMs > INT64_MAX - now) {
        return EditRes(false, true, ver, id, TtlTooLarge);
      }
      var rule := AdminRule(ip, show(ip), action, ttlMs, reason, now);
      AdminOrders(ip, show(ip), action, ttlMs, reason, now);
      var changed := !(rule.id in store && SameEffect(store[rule.id], rule));
      if changed {
        IdIsNotEmpty(ADMIN, show(ip));
        PutRule(rule);
      }
      return EditRes(changed, flushed, ver, id, if flushed then NoEditErr else PersistFailed);
    }

    method Remove(id: string, flushed: bool) returns (out: EditRes)
      requires Valid()
      modifies this`ver, this`store, this`persisted, this`pending, log
      ensures Valid() && (LawfulStore(old(store), show) ==> LawfulStore(store, show))
      ensures out.changed <==> id in old(store)
      ensures store == old(store) - {id} && ver == old(ver) + if id in old(store) then 1 else 0
      ensures out.version == ver && out.id == id
      ensures out.durable == flushed && out.error == if flushed then NoEditErr else PersistFailed
      ensures Now() == if out.changed then Edited(old(Now()), DeltaOp(true, id, BLANK), dbOn, minTtl) else old(Now())
    {
      var changed := id in store;
      if changed { Record(DeltaOp(true, id, BLANK)); }
      return EditRes(changed, flushed, ver, id, if flushed then NoEditErr else PersistFailed);
    }

    /** Visits due nodes: a node whose rule is gone, was renewed or lives on is skipped. */
    method DropDue(due: seq<Node>, now: nat) returns (gone: seq<string>)
      requires Ticking(store, store, [], due, now)
      modifies this`ver, this`store, this`persisted, this`pending, log
      ensures Ticking(old(store), store, gone, [], now)
      ensures Now() == Deleted(old(Now()), gone, dbOn, minTtl)
      ensures ver == old(ver) + |gone|
    {
      gone := [];
      var i := 0;
      assert due[0..] == due;
      while i < |due|
        invariant 0 <= i <= |due|
        invariant Ticking(old(store), store, gone, due[i..], now)
        invariant Now() == Deleted(old(Now()), gone, dbOn, minTtl)
        invariant ver == old(ver) + |gone|
      {
        var node := due[i];
        assert due[i..] == [node] + due[i + 1..];
        i := i + 1;
        if node.ruleId !in store || store[node.ruleId].version != node.version
           || store[node.ruleId].expireAtMs == 0 || now < store[node.ruleId].expireAtMs {
          TickSkips(old(store), store, gone, node, due[i..], now);
        } else {
          TickRemoves(old(store), store, gone, node, due[i..], now);
          DeletedSnoc(old(Now()), gone, node.ruleId, dbOn, minTtl);
          Record(DeltaOp(true, node.ruleId, BLANK));
          gone := gone + [node.ruleId];
        }
      }
      assert due[i..] == [];
    }

    /** Lazy expiry is sound and complete: exactly the rules whose deadline passed are removed,
        each once and under its own version; a renewed rule outlives its old heap node. */
    method TickExpiry(now: nat) returns (gone: seq<string>)
      requires Valid()
      modifies this`ver, this`store, this`persisted, this`pending, log, expiry
      ensures Valid()
      ensures forall i, j :: 0 <= i < j < |gone| ==> gone[i] != gone[j]
      ensures forall k :: k in gone <==> k in old(store) && 0 < old(store)[k].expireAtMs <= now
      ensures Now() == Deleted(old(Now()), gone, dbOn, minTtl)
      ensures ver == old(ver) + |gone|
      ensures store == map k | k in old(store) && !(0 < old(store)[k].expireAtMs <= now) :: old(store)[k]
      ensures LawfulStore(old(store), show) ==> LawfulStore(store, show)
    {
      var due := expiry.PopDue(now);
      TickStarts(store, old(expiry.heap), due, expiry.heap, now);
      gone := DropDue(due, now);
      TickEnds(old(store), store, gone, old(expiry.heap), due, expiry.heap, now, old(ver), ver);
    }

    /** One restored row. */
    method TakeOver(r: Rule, ghost high: nat)
      requires Sound(store, high) && Covered(store, expiry.heap)
      requires r.id != "" && r.version <= high
      modifies this`store, this`persisted, expiry
      ensures Sound(store, high) && Covered(store, expiry.heap)
      ensures store == old(store)[r.id := r] && persisted == old(persisted) + {r.id}
    {
      ghost var was, heap := store, expiry.heap;
      store := store[r.id := r];
      expiry.Push(r.expireAtMs, r.id, r.version);
      persisted := persisted + {r.id};
      PutKeepsValid(was, high, high, heap, r, expiry.heap);
    }

    /** Start-up: takes over the rows a database load returned and continues its versions. */
    method Restore(rows: seq<Rule>, lastVer: nat)
      requires Valid() && Loaded(rows, lastVer)
      modifies this`ver, this`store, this`persisted, expiry
      ensures Valid()
      ensures store == PutAll(old(store), rows) && ver == Db.Max(old(ver), lastVer)
      ensures persisted == old(persisted) + Ids(rows)
      ensures forall r :: r in rows ==> r.version <= ver
    {
      var i := 0;
      ghost var high := Db.Max(ver, lastVer);
      while i < |rows|
        invariant 0 <= i <= |rows|
        invariant store == PutAll(old(store), rows[..i])
        invariant Sound(store, high) && Covered(store, expiry.heap)
        invariant persisted == old(persisted) + Ids(rows[..i])
        modifies this`store, this`persisted, expiry
      {
        PutAllSnoc(old(store), rows, i);
        TakeOver(rows[i], high);
        i := i + 1;
      }
      assert rows[..i] == rows;
      if lastVer > ver { ver := lastVer; }
    }

    /** Nothing, a full list, or the log's suffix: the three answers of HubSpec.NextPush. */
    method NextPush(sentVer: nat, sentOnce: bool) returns (push: Option<Push>)
      requires Valid()
      ensures push == None <==> sentOnce && sentVer == ver
      ensures push != None && (!sentOnce || sentVer > ver || log.entries == []
                || sentVer + 1 < log.entries[0].version) ==>
                push.value.FullPush? && push.value.epoch == epoch && push.value.ver == ver
                    && Enumerates(push.value.rules, store)
      ensures push != None && sentOnce && sentVer <= ver && log.entries != []
              && log.entries[0].version <= sentVer + 1 ==>
                push == Some(DeltaPush(epoch, sentVer, ver, Collect(log.entries, sentVer, ver)))
      ensures SameAnswer(push, HubSpec.NextPush(Now().hub, sentVer, sentOnce))
    {
      if sentOnce && sentVer == ver { return None; }
      if !sentOnce || sentVer > ver || log.entries == [] || sentVer + 1 < log.entries[0].version {
        var rules := List(store);
        return Some(FullPush(epoch, ver, rules));
      }
      var ops := log.CollectRange(sentVer, ver);
      return Some(DeltaPush(epoch, sentVer, ver, ops));
    }
  }
}
