/** The gateway's guard as an object (src/ipban/guard.cpp): static and remote rules, the snapshot
    compiled from both, and the next expiry. Its remote part is proved against GuardSpec. */
module Guard {
  import opened Rules
  import opened HubSpec
  import opened IpNet
  import opened Snap
  import Index = Snap
  import GuardSpec

  /** The earliest expiry among the rules, 0 when none expires. */
  ghost predicate IsNextExpiry(next: nat, statics: seq<Rule>, remote: Store) {
    && (next == 0 ==> forall r :: r in statics ==> r.expireAtMs == 0)
    && (next == 0 ==> forall k :: k in remote ==> remote[k].expireAtMs == 0)
    && (next != 0 ==>
          && (forall r :: r in statics && r.expireAtMs != 0 ==> next <= r.expireAtMs)
          && (forall k :: k in remote && remote[k].expireAtMs != 0 ==> next <= remote[k].expireAtMs)
          && ((exists r :: r in statics && r.expireAtMs == next)
               || (exists k :: k in remote && remote[k].expireAtMs == next)))
  }

  ghost predicate Both(all: seq<Rule>, statics: seq<Rule>, remote: Store) {
    forall r :: r in all <==> r in statics || r in remote.Values
  }

  function Kept(rules: seq<Rule>, now: nat): (k: seq<Rule>)
    ensures forall r :: r in k <==> r in rules && !Gone(r, now)
  {
    if rules == [] then []
    else
      assert rules == rules[..|rules| - 1] + [rules[|rules| - 1]];
      var last := rules[|rules| - 1];
      Kept(rules[..|rules| - 1], now) + if Gone(last, now) then [] else [last]
  }

  ghost predicate CanonicalStore(s: Store) {
    forall k :: k in s ==> Canonical(s[k].ip)
  }

  ghost predicate CanonicalOps(ops: seq<DeltaOp>) {
    forall i :: 0 <= i < |ops| && !ops[i].del ==> Canonical(ops[i].rule.ip)
  }

  class Guard {
    var snap: Snap
    var staticEnabled: bool
    var remoteEnabled: bool
    var def: Act
    var statics: seq<Rule>
    var remote: Store
    var remoteVer: nat
    var remoteEpoch: nat
    var snapVer: nat
    var nextExpiry: nat
    ghost var compiledAt: nat
    ghost var all: seq<Rule>

    ghost predicate Fresh()
      reads this
    {
      CanonicalRules(statics) && CanonicalStore(remote)
    }

    /** The snapshot is that of the rules now held, and the next expiry is theirs. */
    ghost predicate Valid()
      reads this
    {
      && Fresh()
      && Both(all, statics, remote) && Compiled(snap, all, compiledAt) && snap.def == def
      && IsNextExpiry(nextExpiry, statics, remote)
    }

    /** The remote part as GuardSpec sees it, without the time of the last sweep. */
    ghost function Copy(): GuardSpec.Guard
      reads this
    {
      GuardSpec.Guard(remoteEpoch, remoteVer, remote, 0)
    }

    constructor ()
      ensures Valid() && statics == [] && remote == map[] && remoteEpoch == 0 && remoteVer == 0
      ensures def == ALLOW && !staticEnabled && !remoteEnabled
    {
      staticEnabled, remoteEnabled, def := false, false, ALLOW;
      statics, remote, remoteVer, remoteEpoch, snapVer, nextExpiry := [], map[], 0, 0, 0, 0;
      snap := Snap(0, ALLOW, map[], map[], [], []);
      compiledAt, all := 0, [];
    }

    method Rebuild(now: nat)
      requires Fresh()
      modifies this`snap, this`snapVer, this`nextExpiry, this`compiledAt, this`all
      ensures Valid() && compiledAt == now
    {
      var listed := ListBoth(statics, remote);
      snapVer := snapVer + 1;
      all := listed;
      compiledAt := now;
      snap := CompileSnap(snapVer, def, listed, now);
      nextExpiry := NextExpiry();
    }

    method Refill(rules: seq<Rule>)
      requires CanonicalRules(rules)
      modifies this`remote
      ensures remote == GuardSpec.FromList(rules) && CanonicalStore(remote)
    {
      remote := map[];
      for i := 0 to |rules|
        invariant remote == GuardSpec.FromList(rules[..i]) && CanonicalStore(remote)
      {
        assert rules[..i + 1][..i] == rules[..i];
        assert Canonical(rules[i].ip);
        if rules[i].id != "" { remote := remote[rules[i].id := rules[i]]; }
      }
      assert rules[..|rules|] == rules;
    }

    method Replay(ops: seq<DeltaOp>)
      requires CanonicalStore(remote) && CanonicalOps(ops)
      modifies this`remote
      ensures remote == ApplyOps(old(remote), ops) && CanonicalStore(remote)
    {
      for i := 0 to |ops|
        invariant ApplyOps(remote, ops[i..]) == ApplyOps(old(remote), ops) && CanonicalStore(remote)
      {
        assert ops[i..][1..] == ops[i + 1..];
        if ops[i].del { remote := remote - {ops[i].ruleId}; } else { remote := remote[ops[i].ruleId := ops[i].rule]; }
      }
    }

    method NextExpiry() returns (best: nat)
      ensures IsNextExpiry(best, statics, remote)
    {
      best := 0;
      for i := 0 to |statics|
        invariant IsNextExpiry(best, statics[..i], map[])
      {
        assert statics[..i + 1] == statics[..i] + [statics[i]];
        ghost var was := best;
        var e := statics[i].expireAtMs;
        if e != 0 && (best == 0 || e < best) { best := e; }
        NextOfStatic(was, statics[..i], statics[i], best);
      }
      assert statics[..|statics|] == statics;
      var rest := remote.Keys;
      while rest != {}
        invariant rest <= remote.Keys
        invariant IsNextExpiry(best, statics, map k | k in remote && k !in rest :: remote[k])
        decreases |rest|
      {
        var k :| k in rest;
        ghost var was, part := best, map q | q in remote && q !in rest :: remote[q];
        var e := remote[k].expireAtMs;
        if e != 0 && (best == 0 || e < best) { best := e; }
        NextOfRemote(was, statics, part, k, remote[k], best);
        rest := rest - {k};
        assert part[k := remote[k]] == map q | q in remote && q !in rest :: remote[q];
      }
      assert (map k | k in remote && k !in rest :: remote[k]) == remote;
    }

    /** A full list replaces the remote rules unless it is not newer from the same hub. */
    method ApplyRemote(epoch: nat, version: nat, rules: seq<Rule>, now: nat) returns (ok: bool)
      requires Valid() && CanonicalRules(rules)
      modifies this
      ensures Valid() && statics == old(statics) && def == old(def)
      ensures GuardSpec.ApplyRemote(old(Copy()), epoch, version, rules) == if ok then Some(Copy()) else None
      ensures ok <==> epoch != old(remoteEpoch) || version > old(remoteVer)
      ensures ok ==> remoteEpoch == epoch && remoteVer == version && remote == GuardSpec.FromList(rules)
      ensures !ok ==> Copy() == old(Copy()) && snap == old(snap)
      ensures ok ==> compiledAt == now
    {
      if remoteEpoch == epoch && version <= remoteVer { return false; }
      Adopt(epoch, version, rules, now);
      return true;
    }

    method Adopt(epoch: nat, version: nat, rules: seq<Rule>, now: nat)
      requires Valid() && CanonicalRules(rules)
      modifies this
      ensures Valid() && statics == old(statics) && def == old(def) && compiledAt == now
      ensures remote == GuardSpec.FromList(rules) && remoteVer == version && remoteEpoch == epoch
    {
      Refill(rules);
      remoteVer := version;
      remoteEpoch := epoch;
      Rebuild(now);
    }

    /** A delta applies only on the version it was cut from, and only when it is well formed. */
    method ApplyDelta(epoch: nat, prev: nat, version: nat, ops: seq<DeltaOp>, now: nat) returns (ok: bool)
      requires Valid() && CanonicalOps(ops)
      modifies this
      ensures Valid() && statics == old(statics) && def == old(def)
      ensures GuardSpec.ApplyDelta(old(Copy()), epoch, prev, version, ops) == if ok then Some(Copy()) else None
      ensures ok <==> && epoch == old(remoteEpoch) && prev == old(remoteVer) && version > prev
                      && forall i :: 0 <= i < |ops| ==>
                           ops[i].ruleId != "" && (ops[i].del || ops[i].rule.id == ops[i].ruleId)
      ensures ok ==> remoteEpoch == epoch && remoteVer == version && remote == ApplyOps(old(remote), ops)
      ensures !ok ==> Copy() == old(Copy()) && snap == old(snap)
      ensures ok ==> compiledAt == now
    {
      if remoteEpoch != epoch || remoteVer != prev || version <= prev { return false; }
      for i := 0 to |ops|
        invariant forall j :: 0 <= j < i ==> WfOp(ops[j])
      {
        if ops[i].ruleId == "" || (!ops[i].del && ops[i].rule.id != ops[i].ruleId) {
          assert !WfOp(ops[i]);
          return false;
        }
      }
      Replay(ops);
      remoteVer := version;
      Rebuild(now);
      return true;
    }

    /** Drops what expired: after a tick no rule's lifetime has passed, and nothing else is gone. */
    method TickExpiry(now: nat, built: nat) returns (rebuilt: bool)
      requires Valid()
      modifies this
      ensures Valid() && def == old(def)
      ensures Copy() == GuardSpec.Tick(old(Copy()), now).(clock := 0)
      ensures remote == map k | k in old(remote) && !(0 < old(remote)[k].expireAtMs <= now) :: old(remote)[k]
      ensures remoteEpoch == old(remoteEpoch) && remoteVer == old(remoteVer)
      ensures forall r :: r in statics <==> r in old(statics) && !(0 < r.expireAtMs <= now)
      ensures rebuilt ==> compiledAt == built
      ensures !rebuilt ==> compiledAt == old(compiledAt) && all == old(all)
    {
      if nextExpiry == 0 || now < nextExpiry {
        NothingDue(nextExpiry, statics, remote, now);
        return false;
      }
      statics := Kept(statics, now);
      remote := GuardSpec.Sweep(remote, now);
      Rebuild(built);
      return true;
    }

    /** Default action and static rules replaced together, with one rebuild. */
    method ApplyStatic(def: Act, rules: seq<Rule>, now: nat)
      requires Valid() && CanonicalRules(rules)
      modifies this
      ensures Valid() && statics == rules && this.def == def && remote == old(remote)
      ensures remoteVer == old(remoteVer) && remoteEpoch == old(remoteEpoch) && compiledAt == now
    {
      this.def := def;
      statics := rules;
      Rebuild(now);
    }

    /** The hot path: what a scan over all static and remote rules would decide, unless the clock
        went back behind the last rebuild. */
    method Eval(ip: Ip, now: nat) returns (d: Decision)
      requires Valid() && Canonical(ip) && Full(ip)
      ensures !staticEnabled && !remoteEnabled ==> d == Default(ALLOW)
      ensures staticEnabled || remoteEnabled ==>
                Both(all, statics, remote) && Answers(d, Live(all, compiledAt), def, ip, now)
      ensures (staticEnabled || remoteEnabled) && InOrder(compiledAt, now) ==> Answers(d, all, def, ip, now)
    {
      if !(staticEnabled || remoteEnabled) { return Default(ALLOW); }
      d := Index.Eval(snap, ip, now, all, compiledAt);
    }
  }

  /** Before the next expiry nothing is past its lifetime. */
  lemma NothingDue(next: nat, statics: seq<Rule>, remote: Store, now: nat)
    requires IsNextExpiry(next, statics, remote) && (next == 0 || now < next)
    ensures forall r :: r in statics ==> !(0 < r.expireAtMs <= now)
    ensures GuardSpec.Sweep(remote, now) == remote
  {
    forall k | k in remote ensures !Gone(remote[k], now) {}
  }

  method ListBoth(statics: seq<Rule>, remote: Store) returns (listed: seq<Rule>)
    ensures Both(listed, statics, remote)
  {
    listed := statics;
    var rest := remote.Keys;
    while rest != {}
      invariant rest <= remote.Keys
      invariant forall r :: r in listed ==> r in statics || r in remote.Values
      invariant forall r :: r in statics ==> r in listed
      invariant forall k :: k in remote && k !in rest ==> remote[k] in listed
      decreases |rest|
    {
      var k :| k in rest;
      listed := listed + [remote[k]];
      rest := rest - {k};
    }
  }

  lemma NextOfStatic(was: nat, statics: seq<Rule>, r: Rule, best: nat)
    requires IsNextExpiry(was, statics, map[])
    requires best == if r.expireAtMs != 0 && (was == 0 || r.expireAtMs < was) then r.expireAtMs else was
    ensures IsNextExpiry(best, statics + [r], map[])
  {
    assert r in statics + [r];
    forall q | q in statics ensures q in statics + [r] {}
  }

  lemma NextOfRemote(was: nat, statics: seq<Rule>, part: Store, k: string, r: Rule, best: nat)
    requires IsNextExpiry(was, statics, part) && k !in part
    requires best == if r.expireAtMs != 0 && (was == 0 || r.expireAtMs < was) then r.expireAtMs else was
    ensures IsNextExpiry(best, statics, part[k := r])
  {
    var s := part[k := r];
    assert k in s && s[k] == r;
    if best == was && was != 0 && !exists q :: q in statics && q.expireAtMs == was {
      var q :| q in part && part[q].expireAtMs == was;
      assert q in s && s[q] == part[q];
    }
  }
}
