/** What the replication protocol guarantees in every reachable state of every run. */
module ReplicationResults {
  import opened HubSpec
  import opened GuardSpec
  import opened SessionSpec
  import opened Replication
  import opened ReplicationInv
  import opened ReplicationProof
  import opened ReplicationTheorems

  // ----- replication agreement -----

  predicate WasAt(h: Hub, e: nat, v: nat, store: Store) {
    h.epoch == e && h.ver == v && h.store == store
  }

  ghost predicate Holds(hist: Hist, h: Hub) {
    h.epoch in hist && h.ver in hist[h.epoch] && hist[h.epoch][h.ver] == h.store
  }

  /** `hist` records what the hub was in the states `past`, and nothing else. */
  ghost predicate Records(past: seq<System>, hist: Hist) {
    && (forall j :: 0 <= j < |past| ==> Holds(hist, past[j].hub))
    && (forall e, v :: Visited(past, hist, e, v))
  }

  ghost predicate Visited(past: seq<System>, hist: Hist, e: nat, v: nat) {
    e in hist && v in hist[e] ==> exists j :: 0 <= j < |past| && WasAt(past[j].hub, e, v, hist[e][v])
  }

  ghost predicate Grows(hist: Hist, hist': Hist, h: Hub) {
    && Extends(hist, hist') && Holds(hist', h)
    && forall e, v :: e in hist' && v in hist'[e] ==>
         (e in hist && v in hist[e] && hist'[e][v] == hist[e][v]) || (e == h.epoch && v == h.ver)
  }

  lemma HistStep(s: System, step: Step)
    requires Inv(s) && Enabled(s, step)
    ensures Grows(s.hist, Next(s, step).hist, Next(s, step).hub)
  {
    StepKept(s, step);
  }

  lemma RecordsGrow(past: seq<System>, hist: Hist, s: System)
    requires Records(past, hist) && Grows(hist, s.hist, s.hub)
    ensures Records(past + [s], s.hist)
  {
    var all := past + [s];
    forall j | 0 <= j < |all| ensures Holds(s.hist, all[j].hub) {
      if j < |past| { assert Holds(hist, past[j].hub); }
    }
    forall e: nat, v: nat | e in s.hist && v in s.hist[e]
      ensures exists j :: 0 <= j < |all| && WasAt(all[j].hub, e, v, s.hist[e][v])
    {
      assert Visited(past, hist, e, v);
      if e in hist && v in hist[e] && s.hist[e][v] == hist[e][v] {
        var j :| 0 <= j < |past| && WasAt(past[j].hub, e, v, hist[e][v]);
        assert WasAt(all[j].hub, e, v, s.hist[e][v]);
      } else {
        assert WasAt(all[|past|].hub, e, v, s.hist[e][v]);
      }
    }
  }

  lemma InitRecords(s: System)
    requires Init(s)
    ensures Records([s], s.hist)
  {
    assert WasAt([s][0].hub, s.hub.epoch, s.hub.ver, s.hub.store);
  }

  lemma RunGrows(states: seq<System>, steps: seq<Step>, i: nat)
    requires Run(states, steps) && i < |steps|
    ensures Grows(states[i].hist, states[i + 1].hist, states[i + 1].hub)
  {
    RunKept(states, steps, i);
    HistStep(states[i], steps[i]);
  }

  lemma OneMoreState(states: seq<System>, i: nat)
    requires 0 < i < |states| && Records(states[..i], states[i - 1].hist)
    requires Grows(states[i - 1].hist, states[i].hist, states[i].hub)
    ensures Records(states[..i + 1], states[i].hist)
  {
    RecordsGrow(states[..i], states[i - 1].hist, states[i]);
    assert states[..i + 1] == states[..i] + [states[i]];
  }

  lemma {:induction false} HistIsThePast(states: seq<System>, steps: seq<Step>, i: nat)
    requires Run(states, steps) && i < |states|
    ensures Records(states[..i + 1], states[i].hist)
  {
    if i == 0 {
      InitRecords(states[0]);
      assert states[..1] == [states[0]];
    } else {
      HistIsThePast(states, steps, i - 1);
      RunGrows(states, steps, i - 1);
      OneMoreState(states, i);
    }
  }

  /** A guard that claims version `ver` of life `epoch` holds exactly the rules the hub held
      when it was at that version, minus rules the guard has itself expired. The hub has been
      there, and all visits agree. */
  lemma ReplicationAgreement(states: seq<System>, steps: seq<Step>, i: nat, l: nat)
    requires Run(states, steps) && i < |states| && l < |states[i].links|
    ensures var g := states[i].links[l].guard;
            if g.epoch == 0 then g.remote == map[]
            else
              && (exists j :: 0 <= j <= i && states[j].hub.epoch == g.epoch && states[j].hub.ver == g.ver)
              && (forall j :: 0 <= j <= i && states[j].hub.epoch == g.epoch && states[j].hub.ver == g.ver ==>
                    Agrees(g.remote, states[j].hub.store, g.clock))
  {
    RunKept(states, steps, i);
    HistIsThePast(states, steps, i);
    var g := states[i].links[l].guard;
    assert LinkInv(states[i].hub, states[i].unfired, states[i].hist, states[i].links[l]);
    if g.epoch != 0 {
      var past := states[..i + 1];
      assert Visited(past, states[i].hist, g.epoch, g.ver);
      var j :| 0 <= j < |past| && WasAt(past[j].hub, g.epoch, g.ver, states[i].hist[g.epoch][g.ver]);
      assert states[j] == past[j];
      forall k | 0 <= k <= i && states[k].hub.epoch == g.epoch && states[k].hub.ver == g.ver
        ensures Agrees(g.remote, states[k].hub.store, g.clock)
      {
        assert Holds(states[i].hist, past[k].hub);
      }
    }
  }

  // ----- no refusal -----

  /** Reading the message leaves the session running; any other message ends it with an error. */
  predicate Takes(s: Session, m: Up) {
    var t := OnMsg(s, m);
    t.sendErr == s.sendErr && (t.st.CLOSING? ==> s.st.CLOSING?)
  }

  /** The client applies the next sync frame and answers the next PING; it leaves at ERR and BYE only. */
  predicate Reads(g: Guard, inst: string, c: Conn)
    requires c.cli.Streaming? && c.down != []
  {
    && (c.down[0].Sync? ==> c.down[0].num != 0 && Apply(g, c.cli.epoch, c.down[0].push).Some?)
    && (ClientNext(inst, g, c).1.cli.Left? <==> c.down[0].Err? || c.down[0].Bye?)
  }

  /** On a connection whose client accepted READY, the client applies every sync frame and goes on
      until the session says ERR or BYE, and no message it sends ends a session whose send fiber runs. */
  lemma NothingIsRefused(states: seq<System>, steps: seq<Step>, i: nat, l: nat)
    requires Run(states, steps) && i < |states| && l < |states[i].links|
    ensures var link := states[i].links[l];
            forall k :: 0 <= k < |link.conns| && link.conns[k].cli.Streaming? ==>
              var c := link.conns[k];
              && !c.cli.badSync
              && (c.down != [] ==> Reads(link.guard, link.inst, c))
              && (c.up != [] && !c.sess.sp.Ended? ==> Takes(c.sess, c.up[0]))
  {
    RunKept(states, steps, i);
    var s, link := states[i], states[i].links[l];
    assert LinkInv(s.hub, s.unfired, s.hist, link);
    forall k | 0 <= k < |link.conns| && link.conns[k].cli.Streaming?
      ensures var c := link.conns[k];
              && !c.cli.badSync
              && (c.down != [] ==> Reads(link.guard, link.inst, c))
              && (c.up != [] && !c.sess.sp.Ended? ==> Takes(c.sess, c.up[0]))
    {
      StreamFacts(s.hist, link.inst, link.guard, s.hub, s.unfired, link.conns[k]);
    }
  }

  lemma StreamFacts(hist: Hist, inst: string, g: Guard, hub: Hub, unfired: nat, c: Conn)
    requires 0 !in hist && Faithful(hist, g) && ConnInv(hub, unfired, hist, PosOf(g), inst, c) && c.cli.Streaming?
    ensures c.cli == Streaming(c.sess.epoch, false)
    ensures c.down != [] ==> Reads(g, inst, c)
    ensures c.up != [] && !c.sess.sp.Ended? ==> Takes(c.sess, c.up[0])
    ensures |Syncs(c.down)| <= 1
  {
    var s := c.sess;
    StreamingIsAccepted(hist, PosOf(g), inst, c);
    if Syncs(c.down) != [] {
      FlightApplied(hist, PosOf(g), inst, s.epoch, Syncs(c.down), Acks(c.up), s.sync, s.sentVer, s.sentOnce, s.sp);
    }
    if c.down != [] && c.down[0].Sync? {
      assert Syncs(c.down)[0] == c.down[0];
      SyncApplies(hist, g, s.epoch, c.down[0].push);
    }
    if c.down != [] {
      PingHasANumber(c);
      assert !c.down[0].Ready?;
    }
    if c.up != [] && !s.sp.Ended? {
      if c.up[0].Pong? { PongIsAwaited(c); }
      MsgIsExpected(hist, PosOf(g), inst, c);
    }
  }

  lemma PingHasANumber(c: Conn)
    requires PingInv(c) && !c.early && !c.cli.Left? && c.down != []
    ensures c.down[0].Ping? ==> c.down[0].num != 0
  {
    if c.down[0].Ping? { assert Pings(c.down)[0] == c.down[0]; }
  }

  // ----- no lost update -----

  /** The session does not believe its client at the hub's version. */
  predicate Behind(hub: Hub, s: Session) {
    !s.sentOnce || s.sentVer != hub.ver
  }

  /** After READY and before any stop, when no notification is pending and no send is under way: a
      session behind the hub has neither its push nor its dirty flag set exactly when marking HELLO
      took its push back (TakesBack) and it has not been woken since. Otherwise one flag is set, and
      if its send fiber is asleep, the wake-up that will make it push is already posted. */
  lemma NoLostUpdate(states: seq<System>, steps: seq<Step>, i: nat, l: nat, k: nat)
    requires Run(states, steps) && i < |states| && l < |states[i].links| && k < |states[i].links[l].conns|
    ensures var c, hub := states[i].links[l].conns[k], states[i].hub;
            var s := c.sess;
            s.epoch == hub.epoch && c.marked && !c.stopped
            && states[i].unfired == 0 && c.wakes == 0 && !MidSend(s.sp) ==>
              && (Behind(hub, s) && !s.pushDue && !s.dirty <==> c.forgot)
              && (s.pushDue && s.sp.Waiting? ==> s.token)
    ensures var c := states[i].links[l].conns[k];
            && (c.cli.Streaming? ==> !c.early && !c.forgot)
            && (c.forgot ==> c.early && (c.cli.Left? || Doomed(c.cli, c.down)))
  {
    RunKept(states, steps, i);
    var s := states[i];
    assert LinkInv(s.hub, s.unfired, s.hist, s.links[l]);
    var c := s.links[l].conns[k];
    assert ConnInv(s.hub, s.unfired, s.hist, PosOf(s.links[l].guard), s.links[l].inst, c);
    assert Shape(c) && NoLost(s.hub, s.unfired, c);
    if c.cli.Streaming? {
      StreamingIsAccepted(s.hist, PosOf(s.links[l].guard), s.links[l].inst, c);
    }
  }

  /** Nothing is on its way: no notification, no wake-up, no outstanding sync. */
  predicate Settled(unfired: nat, c: Conn) {
    unfired == 0 && c.wakes == 0 && c.sess.sp.Waiting? && !c.sess.token && c.sess.sync.num == 0
  }

  /** When a running, accepted connection settles, the gateway holds the hub's current rules,
      minus rules it has itself expired. */
  lemma SettledIsCurrent(states: seq<System>, steps: seq<Step>, i: nat, l: nat, k: nat)
    requires Run(states, steps) && i < |states| && l < |states[i].links| && k < |states[i].links[l].conns|
    requires states[i].links[l].conns[k].cli.Streaming? && !states[i].links[l].conns[k].stopped
    requires states[i].links[l].conns[k].sess.epoch == states[i].hub.epoch
    requires Settled(states[i].unfired, states[i].links[l].conns[k])
    ensures var g, hub := states[i].links[l].guard, states[i].hub;
            g.epoch == hub.epoch && g.ver == hub.ver && Agrees(g.remote, hub.store, g.clock)
  {
    RunKept(states, steps, i);
    var s := states[i];
    var link := s.links[l];
    assert LinkInv(s.hub, s.unfired, s.hist, link);
    var c := link.conns[k];
    assert ConnInv(s.hub, s.unfired, s.hist, PosOf(link.guard), link.inst, c);
    StreamingIsAccepted(s.hist, PosOf(link.guard), link.inst, c);
    assert Shape(c) && NoLost(s.hub, s.unfired, c);
    assert c.marked && !c.sess.pushDue && !c.sess.dirty;
    assert At(PosOf(link.guard), s.hub.epoch, c.sess.sentVer, c.sess.sentOnce);
  }

  /** Acknowledged, applied and current versions are ordered, and at most one sync frame is
      on the wire of an accepted connection. */
  lemma VersionsAreOrdered(states: seq<System>, steps: seq<Step>, i: nat, l: nat, k: nat)
    requires Run(states, steps) && i < |states| && l < |states[i].links| && k < |states[i].links[l].conns|
    ensures var c, g, hub := states[i].links[l].conns[k], states[i].links[l].guard, states[i].hub;
            && (c.sess.epoch == hub.epoch && c.sess.acked != 0 ==>
                  g.epoch == hub.epoch && c.sess.acked <= g.ver <= hub.ver)
            && (g.epoch == hub.epoch ==> g.ver <= hub.ver)
            && (c.cli.Streaming? ==> |Syncs(c.down)| <= 1)
  {
    RunKept(states, steps, i);
    var s := states[i];
    assert LinkInv(s.hub, s.unfired, s.hist, s.links[l]);
    var c := s.links[l].conns[k];
    assert ConnInv(s.hub, s.unfired, s.hist, PosOf(s.links[l].guard), s.links[l].inst, c);
    if c.cli.Streaming? {
      StreamFacts(s.hist, s.links[l].inst, s.links[l].guard, s.hub, s.unfired, c);
    }
  }
}
