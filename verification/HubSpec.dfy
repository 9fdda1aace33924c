/** The hub's rule store as a value: every change is one version and one change-log
    entry (src/ipban/engine.cpp, src/ipban/include/changelog.h). The classes in
    Engine.dfy are proved against these functions; Replication.dfy runs them. */
module HubSpec {
  import opened Rules

  type Store = map<string, Rule>

  datatype DeltaOp = DeltaOp(del: bool, ruleId: string, rule: Rule)

  datatype Entry = Entry(version: nat, op: DeltaOp)

  datatype Hub = Hub(epoch: nat, ver: nat, store: Store, log: seq<Entry>, cap: nat)

  datatype Push =
    | FullPush(epoch: nat, ver: nat, rules: seq<Rule>)
    | DeltaPush(epoch: nat, prev: nat, ver: nat, ops: seq<DeltaOp>)

  ghost predicate WfStore(s: Store) {
    forall k :: k in s ==> k != "" && s[k].id == k
  }

  predicate WfOp(op: DeltaOp) {
    op.ruleId != "" && (!op.del ==> op.rule.id == op.ruleId)
  }

  function ApplyOp(s: Store, op: DeltaOp): Store {
    if op.del then s - {op.ruleId} else s[op.ruleId := op.rule]
  }

  function ApplyOps(s: Store, ops: seq<DeltaOp>): Store
    decreases |ops|
  {
    if ops == [] then s else ApplyOps(ApplyOp(s, ops[0]), ops[1..])
  }

  /** `op` carrying the version it is recorded under (recordLocked). */
  function Stamp(op: DeltaOp, v: nat): DeltaOp {
    if op.del then op else op.(rule := op.rule.(version := v))
  }

  /** Append, then drop the oldest entries beyond the capacity. */
  function Append(log: seq<Entry>, cap: nat, e: Entry): seq<Entry> {
    var l := log + [e];
    if |l| > cap then l[|l| - cap..] else l
  }

  function Edit(h: Hub, op: DeltaOp): Hub {
    var v := h.ver + 1;
    var o := Stamp(op, v);
    h.(ver := v, store := ApplyOp(h.store, o), log := Append(h.log, h.cap, Entry(v, o)))
  }

  predicate CanCover(log: seq<Entry>, from: nat) {
    log != [] && from + 1 >= log[0].version
  }

  function Collect(log: seq<Entry>, from: nat, to: nat): seq<DeltaOp> {
    if log == [] then []
    else if from < log[0].version <= to then [log[0].op] + Collect(log[1..], from, to)
    else Collect(log[1..], from, to)
  }

  /** A list holding each stored rule once, in some order (MemStore::all). */
  ghost predicate Enumerates(rules: seq<Rule>, s: Store) {
    && (forall i, j :: 0 <= i < j < |rules| ==> rules[i].id != rules[j].id)
    && (forall i :: 0 <= i < |rules| ==> rules[i].id in s && s[rules[i].id] == rules[i])
    && (forall k :: k in s ==> s[k] in rules)
  }

  lemma {:induction false} EnumerationExists(s: Store) returns (rules: seq<Rule>)
    requires WfStore(s)
    ensures Enumerates(rules, s)
    decreases |s|
  {
    if s == map[] {
      rules := [];
    } else {
      var k :| k in s;
      assert (s - {k}).Keys == s.Keys - {k};
      var rest := EnumerationExists(s - {k});
      rules := [s[k]] + rest;
      OneMoreListed(s, k, rest);
    }
  }

  lemma OneMoreListed(s: Store, k: string, rest: seq<Rule>)
    requires WfStore(s) && k in s && Enumerates(rest, s - {k})
    ensures Enumerates([s[k]] + rest, s)
  {
    forall i | 0 <= i < |rest| ensures rest[i].id in s && s[rest[i].id] == rest[i] && rest[i].id != k {}
    forall q | q in s ensures s[q] in [s[k]] + rest {
      if q != k { assert (s - {k})[q] in rest; }
    }
  }

  /** Lists a store (MemStore::all). */
  method List(s: Store) returns (rules: seq<Rule>)
    requires WfStore(s)
    ensures Enumerates(rules, s)
  {
    rules := [];
    var rest := s.Keys;
    while rest != {}
      invariant rest <= s.Keys
      invariant forall k :: k in s && k !in rest ==> s[k] in rules
      invariant forall i :: 0 <= i < |rules| ==> rules[i].id in s && rules[i].id !in rest && s[rules[i].id] == rules[i]
      invariant forall i, j :: 0 <= i < j < |rules| ==> rules[i].id != rules[j].id
      decreases |rest|
    {
      var k :| k in rest;
      rules := rules + [s[k]];
      rest := rest - {k};
    }
  }

  ghost function All(s: Store): (rules: seq<Rule>)
    requires WfStore(s)
    ensures Enumerates(rules, s)
  {
    assert exists r :: Enumerates(r, s) by {
      var r := EnumerationExists(s);
    }
    var rules :| Enumerates(rules, s);
    rules
  }

  /** What a session is to send next, given the version it last sent. */
  ghost function NextPush(h: Hub, sentVer: nat, sentOnce: bool): Option<Push>
    requires WfStore(h.store)
  {
    if sentOnce && sentVer == h.ver then None
    else if !sentOnce || sentVer > h.ver || !CanCover(h.log, sentVer) then
      Some(FullPush(h.epoch, h.ver, All(h.store)))
    else
      Some(DeltaPush(h.epoch, sentVer, h.ver, Collect(h.log, sentVer, h.ver)))
  }

  // ----- what a life of the hub leaves behind -----

  /** For each version of one life, the rule set at that version. */
  type Life = map<nat, Store>

  ghost predicate LogFits(h: Hub, life: Life) {
    && |h.log| <= h.ver
    && forall i :: 0 <= i < |h.log| ==>
         && h.log[i].version == h.ver - |h.log| + 1 + i
         && h.log[i].version - 1 in life && h.log[i].version in life
         && life[h.log[i].version] == ApplyOp(life[h.log[i].version - 1], h.log[i].op)
         && WfOp(h.log[i].op)
  }

  ghost predicate LifeFits(h: Hub, life: Life) {
    && h.ver in life && life[h.ver] == h.store
    && (forall v :: v in life ==> v <= h.ver)
    && (forall v :: v in life ==> WfStore(life[v]))
    && LogFits(h, life)
  }

  predicate EditEnabled(h: Hub, op: DeltaOp) {
    WfOp(op) && (op.del ==> op.ruleId in h.store)
  }

  lemma EditFits(h: Hub, life: Life, op: DeltaOp)
    requires LifeFits(h, life) && EditEnabled(h, op)
    ensures var h' := Edit(h, op); LifeFits(h', life[h'.ver := h'.store])
  {
    var h' := Edit(h, op);
    var life' := life[h'.ver := h'.store];
    var e := Entry(h.ver + 1, Stamp(op, h.ver + 1));
    var all := h.log + [e];
    assert h'.ver !in life;
    assert WfStore(h'.store);
    forall i | 0 <= i < |h'.log|
      ensures && h'.log[i].version == h'.ver - |h'.log| + 1 + i
              && h'.log[i].version - 1 in life' && h'.log[i].version in life'
              && life'[h'.log[i].version] == ApplyOp(life'[h'.log[i].version - 1], h'.log[i].op)
              && WfOp(h'.log[i].op)
    {
      var j := i + |all| - |h'.log|;
      assert h'.log[i] == all[j];
    }
  }

  function Ops(log: seq<Entry>): (ops: seq<DeltaOp>)
    ensures |ops| == |log| && forall i :: 0 <= i < |ops| ==> ops[i] == log[i].op
  {
    seq(|log|, i requires 0 <= i < |log| => log[i].op)
  }

  ghost predicate Consecutive(log: seq<Entry>, first: nat) {
    forall i :: 0 <= i < |log| ==> log[i].version == first + i
  }

  lemma {:induction false} CollectAll(log: seq<Entry>, from: nat, to: nat, first: nat)
    requires Consecutive(log, first) && from < first && first + |log| == to + 1
    ensures Collect(log, from, to) == Ops(log)
  {
    if log != [] {
      CollectAll(log[1..], from, to, first + 1);
      assert Ops(log) == [log[0].op] + Ops(log[1..]);
    }
  }

  lemma {:induction false} CollectIsSuffix(log: seq<Entry>, from: nat, to: nat, first: nat)
    requires Consecutive(log, first) && first <= from + 1 <= first + |log| == to + 1
    ensures Collect(log, from, to) == Ops(log[from + 1 - first..])
  {
    if from + 1 == first {
      CollectAll(log, from, to, first);
    } else {
      CollectIsSuffix(log[1..], from, to, first + 1);
      assert log[1..][from - first..] == log[from + 1 - first..];
    }
  }

  lemma {:induction false} ReplaySuffix(h: Hub, life: Life, k: nat)
    requires LifeFits(h, life) && k <= |h.log| && h.ver - |h.log| + k in life
    ensures ApplyOps(life[h.ver - |h.log| + k], Ops(h.log[k..])) == h.store
    decreases |h.log| - k
  {
    if k < |h.log| {
      assert h.log[k].version == h.ver - |h.log| + k + 1;
      ReplaySuffix(h, life, k + 1);
      assert Ops(h.log[k..])[1..] == Ops(h.log[k + 1..]);
    }
  }

  /** A delta cut from the bounded log takes the rule set of version `from` exactly to the
      rule set of the current version. */
  lemma {:induction false} DeltaReplays(h: Hub, life: Life, from: nat)
    requires LifeFits(h, life) && from in life && from < h.ver && CanCover(h.log, from)
    ensures ApplyOps(life[from], Collect(h.log, from, h.ver)) == life[h.ver]
    ensures forall i :: 0 <= i < |Collect(h.log, from, h.ver)| ==> WfOp(Collect(h.log, from, h.ver)[i])
  {
    var first := h.log[0].version;
    var k := from + 1 - first;
    assert Consecutive(h.log, first) && first + |h.log| == h.ver + 1;
    CollectIsSuffix(h.log, from, h.ver, first);
    ReplaySuffix(h, life, k);
    assert h.ver - |h.log| + k == from;
    SuffixIsWf(h, life, k);
  }

  lemma {:induction false} SuffixIsWf(h: Hub, life: Life, k: nat)
    requires LogFits(h, life) && k <= |h.log|
    ensures forall i :: 0 <= i < |Ops(h.log[k..])| ==> WfOp(Ops(h.log[k..])[i])
  {
  }
}
