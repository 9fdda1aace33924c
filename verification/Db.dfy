/** The persistent tables and their last-writer-wins guards (src/ipban/db.cpp). A successful
    `save` or `del` is one committed transaction, so one update of the tables. */
module Db {
  import opened Rules
  import opened HubSpec

  /** Table rules by id, table tombstones by id, and meta.last_ver. */
  datatype Tables = Tables(rules: Store, tombs: map<string, nat>, lastVer: nat)

  const EMPTY := Tables(map[], map[], 0)

  datatype PersistOp = Save(rule: Rule) | Del(ruleId: string, ver: nat)
  {
    function Id(): string { if Save? then rule.id else ruleId }
    function Version(): nat { if Save? then rule.version else ver }
  }

  /** What the database accepts: ids are C strings and integers are 64-bit signed. */
  predicate Storable(op: PersistOp) {
    && op.Id() != "" && '\0' !in op.Id() && op.Version() <= INT64_MAX
    && (op.Save? ==> op.rule.createdAtMs <= INT64_MAX && op.rule.expireAtMs <= INT64_MAX)
  }

  function Max(a: nat, b: nat): nat { if a < b then b else a }

  /** The statements of one `save` transaction, then those of one `del` transaction. */
  function Commit(t: Tables, op: PersistOp): Tables {
    var id, v := op.Id(), op.Version();
    match op
    case Save(r) =>
      var tombs := if id in t.tombs && t.tombs[id] < v then t.tombs - {id} else t.tombs;
      var blocked := id in tombs || (id in t.rules && t.rules[id].version >= v);
      Tables(if blocked then t.rules else t.rules[id := r], tombs, Max(t.lastVer, v))
    case Del(_, _) =>
      var newer := id in t.tombs && t.tombs[id] >= v;
      var older := id in t.rules && t.rules[id].version <= v;
      Tables(if older then t.rules - {id} else t.rules,
             if newer then t.tombs else t.tombs[id := v],
             Max(t.lastVer, v))
  }

  function CommitAll(t: Tables, ops: seq<PersistOp>): Tables
    decreases |ops|
  {
    if ops == [] then t else Commit(CommitAll(t, ops[..|ops| - 1]), ops[|ops| - 1])
  }

  // ----- last writer wins -----

  /** No version stands for two different operations. */
  ghost predicate UniqueVersions(s: set<PersistOp>) {
    forall a, b :: a in s && b in s && a.Version() == b.Version() ==> a == b
  }

  /** `op` is the operation with the highest version on its id. */
  ghost predicate Wins(op: PersistOp, s: set<PersistOp>) {
    op in s && forall o :: o in s && o.Id() == op.Id() ==> o.Version() <= op.Version()
  }

  ghost predicate Touches(s: set<PersistOp>, id: string) {
    exists o :: o in s && o.Id() == id
  }

  /** Tables whose versions and ids are in order; every table content between lives. */
  ghost predicate WfTables(t: Tables) {
    && (forall id :: id in t.rules ==> t.rules[id].id == id && t.rules[id].version <= t.lastVer)
    && (forall id :: id in t.tombs ==> t.tombs[id] <= t.lastVer)
    && (forall id :: id in t.rules && id in t.tombs ==> t.tombs[id] < t.rules[id].version)
  }

  /** On `id`, `t` holds what the highest-versioned operation of `s` on it left, or what `base`
      held when there is none. */
  ghost predicate RowFits(t: Tables, base: Tables, s: set<PersistOp>, id: string) {
    && (!Touches(s, id) ==> SameRow(t, base, id))
    && (forall o :: Wins(o, s) && o.Id() == id ==> Left(t, o))
  }

  predicate SameRow(t: Tables, base: Tables, id: string) {
    && (id in t.rules <==> id in base.rules) && (id in t.rules ==> t.rules[id] == base.rules[id])
    && (id in t.tombs <==> id in base.tombs) && (id in t.tombs ==> t.tombs[id] == base.tombs[id])
  }

  predicate Left(t: Tables, o: PersistOp) {
    match o
    case Save(r) => r.id in t.rules && t.rules[r.id] == r
    case Del(id, v) => id !in t.rules && id in t.tombs && t.tombs[id] == v
  }

  ghost predicate LastVerFits(last: nat, base: nat, s: set<PersistOp>) {
    && last >= base
    && (forall o :: o in s ==> o.Version() <= last)
    && (last == base || exists o :: o in s && o.Version() == last)
  }

  ghost predicate Reflects(t: Tables, base: Tables, s: set<PersistOp>) {
    && WfTables(t)
    && (forall id :: RowFits(t, base, s, id))
    && LastVerFits(t.lastVer, base.lastVer, s)
  }

  ghost predicate NewerThan(s: set<PersistOp>, v: nat) {
    forall o :: o in s ==> o.Version() > v
  }

  lemma {:induction false} WinnerExists(s: set<PersistOp>, id: string) returns (w: PersistOp)
    requires Touches(s, id)
    ensures Wins(w, s) && w.Id() == id
    decreases |s|
  {
    w :| w in s && w.Id() == id;
    if o :| o in s && o.Id() == id && o.Version() > w.Version() {
      var rest := s - {w};
      assert o in rest;
      w := WinnerExists(rest, id);
      assert w.Version() >= o.Version();
    }
  }

  /** The heart of the guards: whatever arrives, in whatever order, new or repeated, the tables
      go on reflecting the set of operations that arrived. */
  lemma CommitReflects(t: Tables, base: Tables, s: set<PersistOp>, op: PersistOp)
    requires WfTables(base) && Reflects(t, base, s)
    requires UniqueVersions(s + {op}) && NewerThan(s + {op}, base.lastVer)
    ensures Reflects(Commit(t, op), base, s + {op})
  {
    assert RowFits(t, base, s, op.Id());
    assert op in s + {op};
    CommitKeepsWf(t, op);
    forall id ensures RowFits(Commit(t, op), base, s + {op}, id) {
      assert RowFits(t, base, s, id);
      if id == op.Id() {
        if Touches(s, id) {
          var w := WinnerExists(s, id);
          RowAfter(t, s, op, w);
        } else {
          RowAfterFirst(t, base, s, op);
        }
        assert Touches(s + {op}, id);
      } else {
        OtherRow(t, base, s, op, id);
      }
    }
    LastVerAfter(t.lastVer, base.lastVer, s, op);
  }

  lemma CommitKeepsWf(t: Tables, op: PersistOp)
    requires WfTables(t)
    ensures WfTables(Commit(t, op))
  {
  }

  lemma LastVerAfter(last: nat, base: nat, s: set<PersistOp>, op: PersistOp)
    requires LastVerFits(last, base, s) && op.Version() > base
    ensures LastVerFits(Max(last, op.Version()), base, s + {op})
  {
    assert op in s + {op};
    if op.Version() < last {
      var o :| o in s && o.Version() == last;
      assert o in s + {op};
    }
  }

  lemma OtherRow(t: Tables, base: Tables, s: set<PersistOp>, op: PersistOp, id: string)
    requires RowFits(t, base, s, id) && id != op.Id()
    ensures RowFits(Commit(t, op), base, s + {op}, id)
  {
    var s' := s + {op};
    if Touches(s, id) {
      var o :| o in s && o.Id() == id;
      assert o in s';
    }
    forall o | Wins(o, s') && o.Id() == id ensures Left(Commit(t, op), o) {
      assert Wins(o, s);
    }
  }

  lemma RowAfter(t: Tables, s: set<PersistOp>, op: PersistOp, w: PersistOp)
    requires WfTables(t) && Left(t, w)
    requires UniqueVersions(s + {op}) && Wins(w, s) && w.Id() == op.Id()
    ensures forall o :: Wins(o, s + {op}) && o.Id() == op.Id() ==> Left(Commit(t, op), o)
  {
    assert w in s + {op} && op in s + {op};
    forall o | Wins(o, s + {op}) && o.Id() == op.Id() ensures Left(Commit(t, op), o) {
      assert o == (if w.Version() < op.Version() then op else w);
    }
  }

  lemma RowAfterFirst(t: Tables, base: Tables, s: set<PersistOp>, op: PersistOp)
    requires WfTables(base) && SameRow(t, base, op.Id())
    requires !Touches(s, op.Id()) && op.Version() > base.lastVer
    ensures forall o :: Wins(o, s + {op}) && o.Id() == op.Id() ==> Left(Commit(t, op), o)
  {
    forall o | Wins(o, s + {op}) && o.Id() == op.Id() ensures o == op {}
  }

  // ----- convergence -----

  ghost function OpSet(ops: seq<PersistOp>): set<PersistOp> {
    set o | o in ops
  }

  lemma {:induction false} CommitAllReflects(base: Tables, ops: seq<PersistOp>)
    requires WfTables(base) && UniqueVersions(OpSet(ops)) && NewerThan(OpSet(ops), base.lastVer)
    ensures Reflects(CommitAll(base, ops), base, OpSet(ops))
    decreases |ops|
  {
    if ops == [] {
      assert OpSet(ops) == {};
    } else {
      var init, last := ops[..|ops| - 1], ops[|ops| - 1];
      assert OpSet(ops) == OpSet(init) + {last};
      CommitAllReflects(base, init);
      CommitReflects(CommitAll(base, init), base, OpSet(init), last);
    }
  }

  lemma ReflectsRules(t: Tables, base: Tables, s: set<PersistOp>, id: string)
    requires Reflects(t, base, s)
    ensures id in t.rules <==>
              ((!Touches(s, id) && id in base.rules) || exists w :: Wins(w, s) && w.Id() == id && w.Save?)
    ensures forall r :: Wins(Save(r), s) && r.id == id ==> id in t.rules && t.rules[id] == r
    ensures id in t.rules && !Touches(s, id) ==> id in base.rules && t.rules[id] == base.rules[id]
  {
    assert RowFits(t, base, s, id);
    if Touches(s, id) {
      var w := WinnerExists(s, id);
    }
    forall r | Wins(Save(r), s) && r.id == id ensures id in t.rules && t.rules[id] == r {
      assert Left(t, Save(r));
    }
    if w :| Wins(w, s) && w.Id() == id && w.Save? { assert Left(t, w); }
  }

  /** Two tables that reflect the same operations hold the same rules and the same last version. */
  lemma ReflectionIsUnique(t: Tables, u: Tables, base: Tables, s: set<PersistOp>)
    requires Reflects(t, base, s) && Reflects(u, base, s)
    ensures t.rules == u.rules && t.lastVer == u.lastVer
  {
    forall id ensures id in t.rules <==> id in u.rules
              ensures id in t.rules ==> t.rules[id] == u.rules[id]
    {
      ReflectsRules(t, base, s, id);
      ReflectsRules(u, base, s, id);
      if id in t.rules && Touches(s, id) {
        var w :| Wins(w, s) && w.Id() == id && w.Save?;
        assert Wins(Save(w.rule), s) && w == Save(w.rule);
      }
    }
  }

  /** Applying the same operations in any order, any number of times, gives one rules table and
      one last version: last_ver is the highest version applied, and a rule is present exactly
      when saving it is the highest-versioned operation on its id. */
  lemma PersistenceConverges(xs: seq<PersistOp>, ys: seq<PersistOp>)
    requires OpSet(xs) == OpSet(ys) && UniqueVersions(OpSet(xs)) && NewerThan(OpSet(xs), 0)
    ensures CommitAll(EMPTY, xs).rules == CommitAll(EMPTY, ys).rules
    ensures CommitAll(EMPTY, xs).lastVer == CommitAll(EMPTY, ys).lastVer
    ensures forall r: Rule :: (r.id in CommitAll(EMPTY, xs).rules && CommitAll(EMPTY, xs).rules[r.id] == r)
                        <==> Wins(Save(r), OpSet(xs))
    ensures forall o :: o in xs ==> o.Version() <= CommitAll(EMPTY, xs).lastVer
    ensures xs != [] ==> exists o :: o in xs && o.Version() == CommitAll(EMPTY, xs).lastVer
  {
    CommitAllReflects(EMPTY, xs);
    CommitAllReflects(EMPTY, ys);
    ReflectionIsUnique(CommitAll(EMPTY, xs), CommitAll(EMPTY, ys), EMPTY, OpSet(xs));
    var t := CommitAll(EMPTY, xs);
    forall r: Rule ensures (r.id in t.rules && t.rules[r.id] == r) <==> Wins(Save(r), OpSet(xs)) {
      ReflectsRules(t, EMPTY, OpSet(xs), r.id);
      if r.id in t.rules && t.rules[r.id] == r {
        var w :| Wins(w, OpSet(xs)) && w.Id() == r.id && w.Save?;
        assert Left(t, w) by { assert RowFits(t, EMPTY, OpSet(xs), r.id); }
        assert w == Save(r);
      }
    }
    forall o | o in xs ensures o.Version() <= t.lastVer { assert o in OpSet(xs); }
    if xs != [] {
      assert xs[0] in OpSet(xs);
      var o :| o in OpSet(xs) && o.Version() == t.lastVer;
    }
  }

  // ----- when tombstones converge -----

  /** Every tombstone comes from a deletion that was applied. */
  lemma {:induction false} TombstonesAreDeletions(ops: seq<PersistOp>, id: string)
    requires id in CommitAll(EMPTY, ops).tombs
    ensures Del(id, CommitAll(EMPTY, ops).tombs[id]) in ops
    decreases |ops|
  {
    var init, last := ops[..|ops| - 1], ops[|ops| - 1];
    if last != Del(id, CommitAll(EMPTY, ops).tombs[id]) {
      TombstonesAreDeletions(init, id);
    }
  }

  lemma {:induction false} Listing(s: set<PersistOp>) returns (ops: seq<PersistOp>)
    ensures OpSet(ops) == s
    decreases |s|
  {
    if s == {} {
      ops := [];
      assert OpSet(ops) == {};
    } else {
      var o :| o in s;
      var rest := Listing(s - {o});
      ops := [o] + rest;
      assert OpSet(ops) == {o} + OpSet(rest);
    }
  }

  /** Some id has a deletion, but saving it is its newest operation. */
  ghost predicate Overtaken(s: set<PersistOp>) {
    exists d, w :: d in s && d.Del? && Wins(w, s) && w.Save? && w.Id() == d.Id()
  }

  lemma DeletionsDecide(ops: seq<PersistOp>, id: string)
    requires UniqueVersions(OpSet(ops)) && NewerThan(OpSet(ops), 0) && !Overtaken(OpSet(ops))
    ensures forall v :: (id in CommitAll(EMPTY, ops).tombs && CommitAll(EMPTY, ops).tombs[id] == v)
                        <==> Wins(Del(id, v), OpSet(ops))
  {
    var s, t := OpSet(ops), CommitAll(EMPTY, ops);
    CommitAllReflects(EMPTY, ops);
    assert RowFits(t, EMPTY, s, id);
    if id in t.tombs {
      TombstonesAreDeletions(ops, id);
      var d := Del(id, t.tombs[id]);
      assert d in s;
      var w := WinnerExists(s, id);
      assert Left(t, w);
    }
    forall v | Wins(Del(id, v), s) ensures id in t.tombs && t.tombs[id] == v {
      assert Left(t, Del(id, v));
    }
  }

  /** A deletion that arrives behind a newer save leaves its tombstone; the save arriving behind
      it takes the tombstone away. */
  lemma OvertakenDiffers(s: set<PersistOp>) returns (xs: seq<PersistOp>, ys: seq<PersistOp>, id: string)
    requires UniqueVersions(s) && NewerThan(s, 0) && Overtaken(s)
    ensures OpSet(xs) == s && OpSet(ys) == s
    ensures id in CommitAll(EMPTY, xs).tombs && id !in CommitAll(EMPTY, ys).tombs
  {
    var d, w :| d in s && d.Del? && Wins(w, s) && w.Save? && w.Id() == d.Id();
    var all := Listing(s);
    id := d.Id();
    xs, ys := all + [d], all + [w];
    assert xs[..|all|] == all && ys[..|all|] == all;
    CommitAllReflects(EMPTY, all);
    var t := CommitAll(EMPTY, all);
    assert RowFits(t, EMPTY, s, id) && Left(t, w);
  }

  /** The tombstones table depends on the operations alone, like rules and last version, exactly
      when no id has a deletion although its newest operation is a save. */
  lemma TombstonesConvergeIff(s: set<PersistOp>)
    requires UniqueVersions(s) && NewerThan(s, 0)
    ensures !Overtaken(s) <==>
              forall xs, ys {:trigger OpSet(xs), OpSet(ys)} :: OpSet(xs) == s && OpSet(ys) == s ==>
                CommitAll(EMPTY, xs).tombs == CommitAll(EMPTY, ys).tombs
  {
    if Overtaken(s) {
      var xs, ys, id := OvertakenDiffers(s);
      assert CommitAll(EMPTY, xs).tombs != CommitAll(EMPTY, ys).tombs;
    } else {
      forall xs, ys | OpSet(xs) == s && OpSet(ys) == s
        ensures CommitAll(EMPTY, xs).tombs == CommitAll(EMPTY, ys).tombs
      {
        SameDeletions(xs, ys);
      }
    }
  }

  lemma SameDeletions(xs: seq<PersistOp>, ys: seq<PersistOp>)
    requires OpSet(xs) == OpSet(ys) && UniqueVersions(OpSet(xs)) && NewerThan(OpSet(xs), 0) && !Overtaken(OpSet(xs))
    ensures CommitAll(EMPTY, xs).tombs == CommitAll(EMPTY, ys).tombs
  {
    var a, b := CommitAll(EMPTY, xs).tombs, CommitAll(EMPTY, ys).tombs;
    forall id ensures (id in a <==> id in b) && (id in a ==> a[id] == b[id]) {
      DeletionsDecide(xs, id);
      DeletionsDecide(ys, id);
      if id in a { assert Wins(Del(id, a[id]), OpSet(xs)); }
      if id in b { assert Wins(Del(id, b[id]), OpSet(ys)); }
    }
  }

  // ----- the database object -----

  /** Rows left by the clean-up at the start of `load`. */
  function Purge(rules: Store, now: nat): Store {
    map id | id in rules && !(rules[id].expireAtMs != 0 && (now > INT64_MAX || rules[id].expireAtMs <= now)) ::
        rules[id]
  }

  class SqliteDb {
    var rules: Store
    var tombs: map<string, nat>
    var lastVer: nat

    ghost function View(): Tables
      reads this
    {
      Tables(rules, tombs, lastVer)
    }

    constructor ()
      ensures View() == EMPTY
    {
      rules, tombs, lastVer := map[], map[], 0;
    }

    /** `fault`: a statement or the commit failed, and the transaction was rolled back. */
    method SaveRule(r: Rule, fault: bool) returns (ok: bool)
      modifies this
      ensures ok <==> && r.id != "" && '\0' !in r.id && !fault
                      && r.version <= INT64_MAX && r.createdAtMs <= INT64_MAX && r.expireAtMs <= INT64_MAX
      ensures ok <==> Storable(Save(r)) && !fault
      ensures View() == if ok then Commit(old(View()), Save(r)) else old(View())
    {
      if r.id == "" || '\0' in r.id || r.version > INT64_MAX
         || r.createdAtMs > INT64_MAX || r.expireAtMs > INT64_MAX {
        return false;
      }
      if fault { return false; }
      if r.id in tombs && tombs[r.id] < r.version {
        tombs := tombs - {r.id};
      }
      if !(r.id in tombs && tombs[r.id] >= r.version) {
        if r.id !in rules || r.version > rules[r.id].version {
          rules := rules[r.id := r];
        }
      }
      if lastVer < r.version { lastVer := r.version; }
      return true;
    }

    method DelRule(id: string, ver: nat, fault: bool) returns (ok: bool)
      modifies this
      ensures ok <==> id != "" && '\0' !in id && ver <= INT64_MAX && !fault
      ensures ok <==> Storable(Del(id, ver)) && !fault
      ensures View() == if ok then Commit(old(View()), Del(id, ver)) else old(View())
    {
      if id == "" || '\0' in id || ver > INT64_MAX || fault { return false; }
      if id !in tombs || ver > tombs[id] {
        tombs := tombs[id := ver];
      }
      if id in rules && rules[id].version <= ver {
        rules := rules - {id};
      }
      if lastVer < ver { lastVer := ver; }
      return true;
    }

    /** Drops what expired before `now`, then reads every row. */
    method Load(now: nat) returns (ok: bool, out: seq<Rule>, last: nat)
      modifies this
      ensures View() == old(View()).(rules := Purge(old(rules), now))
      ensures forall id :: id in rules <==> && id in old(rules)
                                            && var end := old(rules)[id].expireAtMs;
                                               end == 0 || (now <= INT64_MAX && now < end)
      ensures forall id :: id in rules ==> rules[id] == old(rules)[id]
      ensures ok <==> WfStore(rules)
      ensures ok ==> Enumerates(out, rules)
      ensures ok ==> last >= lastVer && forall id :: id in rules ==> rules[id].version <= last
      ensures ok ==> last == lastVer || exists id :: id in rules && rules[id].version == last
      ensures !ok ==> out == []
    {
      last := lastVer;
      rules := Purge(rules, now);
      out := [];
      var rest := rules.Keys;
      while rest != {}
        invariant rest <= rules.Keys
        invariant forall id :: id in rules.Keys - rest ==>
                    id != "" && rules[id].id == id && rules[id] in out && rules[id].version <= last
        invariant forall i :: 0 <= i < |out| ==> out[i].id in rules.Keys - rest && rules[out[i].id] == out[i]
        invariant forall i, j :: 0 <= i < j < |out| ==> out[i].id != out[j].id
        invariant last >= lastVer
        invariant last == lastVer || exists id :: id in rules.Keys - rest && rules[id].version == last
        decreases |rest|
      {
        var id :| id in rest;
        var r := rules[id];
        if id == "" || r.id != id {
          return false, [], last;
        }
        if r.version > last { last := r.version; }
        out := out + [r];
        rest := rest - {id};
      }
      ok := true;
    }
  }
}
