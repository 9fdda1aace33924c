/** The gateway's copy of the remote rules as a value (src/ipban/guard.cpp). */
module GuardSpec {
  import opened Rules
  import opened HubSpec

  /** `clock` is the latest local time at which expired rules were swept. */
  datatype Guard = Guard(epoch: nat, ver: nat, remote: Store, clock: nat)

  const FRESH := Guard(0, 0, map[], 0)

  /** The map built by inserting a received list in order; empty ids are skipped. */
  function FromList(rules: seq<Rule>): Store
    decreases |rules|
  {
    if rules == [] then map[]
    else
      var last := rules[|rules| - 1];
      var before := FromList(rules[..|rules| - 1]);
      if last.id == "" then before else before[last.id := last]
  }

  function ApplyRemote(g: Guard, epoch: nat, ver: nat, rules: seq<Rule>): Option<Guard> {
    if g.epoch == epoch && ver <= g.ver then None
    else Some(Guard(epoch, ver, FromList(rules), g.clock))
  }

  function ApplyDelta(g: Guard, epoch: nat, prev: nat, ver: nat, ops: seq<DeltaOp>): Option<Guard> {
    if g.epoch != epoch || g.ver != prev || ver <= prev then None
    else if exists i :: 0 <= i < |ops| && !WfOp(ops[i]) then None
    else Some(g.(ver := ver, remote := ApplyOps(g.remote, ops)))
  }

  function Sweep(s: Store, now: nat): Store {
    map k | k in s && !Gone(s[k], now) :: s[k]
  }

  function Tick(g: Guard, now: nat): Guard {
    g.(remote := Sweep(g.remote, now), clock := if g.clock < now then now else g.clock)
  }

  /** `part` is `full` except for rules whose lifetime had passed by local time `clock`. */
  ghost predicate Agrees(part: Store, full: Store, clock: nat) {
    && (forall k :: k in part ==> k in full && part[k] == full[k])
    && (forall k :: k in full && k !in part ==> Gone(full[k], clock))
  }

  /** A full list rebuilds the store it enumerates. */
  lemma FromListRebuilds(rules: seq<Rule>, s: Store)
    requires WfStore(s) && Enumerates(rules, s)
    ensures FromList(rules) == s
  {
    forall k ensures k in FromList(rules) <==> k in s
             ensures k in s ==> FromList(rules)[k] == s[k]
    {
      if k in s {
        var i :| 0 <= i < |rules| && rules[i] == s[k];
        EntryStays(rules, i);
      }
      if k in FromList(rules) { var i := EntryFrom(rules, k); }
    }
  }

  /** Every entry comes from the list. */
  lemma {:induction false} EntryFrom(rules: seq<Rule>, k: string) returns (i: nat)
    requires k in FromList(rules)
    ensures i < |rules| && rules[i].id == k
    decreases |rules|
  {
    i := |rules| - 1;
    if rules[i].id != k { i := EntryFrom(rules[..i], k); }
  }

  /** An entry whose id comes once stays. */
  lemma {:induction false} EntryStays(rules: seq<Rule>, i: nat)
    requires i < |rules| && rules[i].id != ""
    requires forall j :: i < j < |rules| ==> rules[j].id != rules[i].id
    ensures rules[i].id in FromList(rules) && FromList(rules)[rules[i].id] == rules[i]
    decreases |rules|
  {
    if i < |rules| - 1 {
      EntryStays(rules[..|rules| - 1], i);
    }
  }

  /** Replaying the same changes keeps the two sides in agreement, even after local expiry. */
  lemma {:induction false} OpsKeepAgreement(part: Store, full: Store, clock: nat, ops: seq<DeltaOp>)
    requires Agrees(part, full, clock)
    ensures Agrees(ApplyOps(part, ops), ApplyOps(full, ops), clock)
    decreases |ops|
  {
    if ops != [] {
      OpsKeepAgreement(ApplyOp(part, ops[0]), ApplyOp(full, ops[0]), clock, ops[1..]);
    }
  }
}
