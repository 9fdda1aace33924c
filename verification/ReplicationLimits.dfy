/** Where the no-lost-update guarantee stops: a push that marking HELLO takes back, and a stop that
    arrives while a push is being prepared. */
module ReplicationLimits {
  import opened HubSpec
  import opened SessionSpec
  import opened Replication
  import opened ReplicationInv
  import opened ReplicationResults

  // ----- reachable states -----

  /** Some run leads from `from` to `to`. */
  ghost predicate Leads(from: System, to: System) {
    exists states, steps :: Run(states, steps) && states[0] == from && states[|steps|] == to
  }

  lemma StartsHere(s: System)
    requires Init(s)
    ensures Leads(s, s)
  {
    var states, steps: seq<Step> := [s], [];
    assert Run(states, steps) && states[|steps|] == s;
  }

  lemma OneMore(from: System, s: System, step: Step)
    requires Leads(from, s) && Enabled(s, step)
    ensures Leads(from, Next(s, step))
  {
    var states, steps :| Run(states, steps) && states[0] == from && states[|steps|] == s;
    var states', steps' := states + [Next(s, step)], steps + [step];
    forall i | 0 <= i < |steps'|
      ensures Enabled(states'[i], steps'[i]) && states'[i + 1] == Next(states'[i], steps'[i]) {
      if i < |steps| { assert steps[i] == steps'[i]; }
    }
    assert Run(states', steps');
    assert states'[|steps'|] == Next(s, step);
  }

  /** `cs` is what a connection goes through taking `steps` while the hub stands still. */
  ghost predicate ConnRun(hub: Hub, cs: seq<Conn>, steps: seq<SessStep>) {
    && |cs| == |steps| + 1
    && forall i {:trigger steps[i]} :: 0 <= i < |steps| ==>
         SessEnabled(hub, cs[i], steps[i]) && cs[i + 1] == ConnNext(hub, cs[i], steps[i])
  }

  function WithConn(s: System, l: nat, k: nat, c: Conn): System
    requires l < |s.links| && k < |s.links[l].conns|
  {
    s.(links := s.links[l := s.links[l].(conns := s.links[l].conns[k := c])])
  }

  lemma SessLeads(from: System, s: System, l: nat, k: nat, step: SessStep)
    requires Leads(from, s) && l < |s.links| && k < |s.links[l].conns| && SessEnabled(s.hub, s.links[l].conns[k], step)
    ensures Leads(from, WithConn(s, l, k, ConnNext(s.hub, s.links[l].conns[k], step)))
  {
    OneMore(from, s, OnLink(l, Sess(k, step)));
  }

  lemma Rewritten(s: System, l: nat, k: nat, c: Conn, c': Conn)
    requires l < |s.links| && k < |s.links[l].conns|
    ensures WithConn(WithConn(s, l, k, c), l, k, c') == WithConn(s, l, k, c')
    ensures WithConn(s, l, k, s.links[l].conns[k]) == s
  {
    var conns := s.links[l].conns;
    assert conns[k := c][k := c'] == conns[k := c'] && conns[k := conns[k]] == conns;
    assert WithConn(WithConn(s, l, k, c), l, k, c').links == WithConn(s, l, k, c').links;
    assert s.links[l := s.links[l]] == s.links;
  }

  lemma FirstStep(hub: Hub, cs: seq<Conn>, steps: seq<SessStep>)
    requires ConnRun(hub, cs, steps) && steps != []
    ensures SessEnabled(hub, cs[0], steps[0]) && cs[1] == ConnNext(hub, cs[0], steps[0])
    ensures ConnRun(hub, cs[1..], steps[1..])
  {
    var rest := steps[1..];
    forall i | 0 <= i < |rest| ensures rest[i] == steps[i + 1] {}
  }

  /** What one connection goes through is part of a run. */
  lemma {:induction false} ConnLeads(from: System, s: System, l: nat, k: nat, cs: seq<Conn>, steps: seq<SessStep>)
    requires ConnRun(s.hub, cs, steps)
    requires Leads(from, s) && l < |s.links| && k < |s.links[l].conns| && s.links[l].conns[k] == cs[0]
    ensures Leads(from, WithConn(s, l, k, cs[|steps|]))
    decreases |steps|
  {
    if steps == [] {
      Rewritten(s, l, k, cs[0], cs[0]);
    } else {
      FirstStep(s.hub, cs, steps);
      SessLeads(from, s, l, k, steps[0]);
      ConnLeads(from, WithConn(s, l, k, cs[1]), l, k, cs[1..], steps[1..]);
      Rewritten(s, l, k, cs[1], cs[|steps|]);
    }
  }

  // ----- a push that is taken back -----

  /** Step `step` marks HELLO on connection `k` of link `l` and takes its push back. */
  predicate TakesBackNow(s: System, step: Step, l: nat, k: nat) {
    && l < |s.links| && k < |s.links[l].conns|
    && step == OnLink(l, Sess(k, In(HelloMarked))) && TakesBack(s.links[l].conns[k].sess)
  }

  ghost predicate TakesBackAt(states: seq<System>, steps: seq<Step>, j: nat, l: nat, k: nat) {
    j < |steps| && j < |states| && TakesBackNow(states[j], steps[j], l, k)
  }

  ghost predicate NotWoken(steps: seq<Step>, j: nat, i: nat, l: nat, k: nat) {
    forall m :: j < m < i && m < |steps| ==> steps[m] != OnLink(l, Sess(k, Out(WakeCall)))
  }

  lemma ForgotStep(s: System, step: Step, l: nat, k: nat)
    requires Enabled(s, step) && l < |s.links|
    ensures var t := Next(s, step);
            && |t.links| == |s.links| && |s.links[l].conns| <= |t.links[l].conns|
            && (k < |s.links[l].conns| ==>
                  (t.links[l].conns[k].forgot <==>
                     || (s.links[l].conns[k].forgot && step != OnLink(l, Sess(k, Out(WakeCall))))
                     || TakesBackNow(s, step, l, k)))
            && (|s.links[l].conns| <= k < |t.links[l].conns| ==> !t.links[l].conns[k].forgot)
  {
    match step
    case OnLink(l', st) => if l' == l { ForgotLinkStep(s.hub, s.links[l], st, k); }
    case _ =>
  }

  lemma ForgotLinkStep(hub: Hub, link: Link, step: LinkStep, k: nat)
    requires LinkEnabled(hub, link, step)
    ensures var t := LinkNext(hub, link, step);
            && |link.conns| <= |t.conns|
            && (k < |link.conns| ==>
                  (t.conns[k].forgot <==>
                     || (link.conns[k].forgot && step != Sess(k, Out(WakeCall)))
                     || (step == Sess(k, In(HelloMarked)) && TakesBack(link.conns[k].sess))))
            && (|link.conns| <= k < |t.conns| ==> !t.conns[k].forgot)
  {
    match step
    case Sess(c, st) =>
      if c == k {
        match st { case Emit(_) => case Local(_) => case In(_) => case Out(_) => }
      }
    case _ =>
  }

  lemma {:induction false} ConnsGrow(states: seq<System>, steps: seq<Step>, j: nat, i: nat, l: nat)
    requires Run(states, steps) && j <= i < |states| && l < |states[i].links|
    ensures l < |states[j].links| && |states[j].links[l].conns| <= |states[i].links[l].conns|
    decreases i
  {
    if j < i {
      assert |states[i].links| == |states[i - 1].links| by { assert states[i] == Next(states[i - 1], steps[i - 1]); }
      ForgotStep(states[i - 1], steps[i - 1], l, 0);
      ConnsGrow(states, steps, j, i - 1, l);
    }
  }

  /** What `forgot` records: at some step so far marking HELLO took the push back, and the session has
      not been woken since. */
  lemma {:induction false} ForgotIff(states: seq<System>, steps: seq<Step>, i: nat, l: nat, k: nat)
    requires Run(states, steps) && i < |states| && l < |states[i].links| && k < |states[i].links[l].conns|
    ensures states[i].links[l].conns[k].forgot <==>
              exists j :: 0 <= j < i && TakesBackAt(states, steps, j, l, k) && NotWoken(steps, j, i, l, k)
    decreases i
  {
    if i > 0 {
      var s, step := states[i - 1], steps[i - 1];
      assert states[i] == Next(s, step);
      ForgotStep(s, step, l, k);
      if k < |s.links[l].conns| {
        ForgotIff(states, steps, i - 1, l, k);
        if TakesBackNow(s, step, l, k) { assert TakesBackAt(states, steps, i - 1, l, k); }
      } else {
        forall j | 0 <= j < i ensures !TakesBackAt(states, steps, j, l, k) {
          ConnsGrow(states, steps, j, i - 1, l);
        }
      }
    }
  }

  const GREET: seq<SessStep> := [In(RecvHello), In(ReadTarget)]

  const ASK: seq<SessStep> :=
    [Out(WakeCall), Local(WaitEnd), Local(TopOfLoop), Local(PushTaken), Local(PushAsked)]

  const PUSH: seq<SessStep> :=
    [Local(PushSynced), Emit(PushSend), Local(PushMarked), Local(PingTaken), Local(ByeTaken)]

  const READY: seq<SessStep> :=
    [In(HelloMarked), Local(WaitEnd), Local(TopOfLoop), Local(ReadyTaken), Emit(ReadySend), Local(ReadyMarked)]

  /** A new session that has read the HELLO and the target version. */
  function Greeted(hub: Hub, hello: Up, target: nat): Session {
    NewSession(hub.epoch).(rp := HaveTarget(hello, target))
  }

  lemma Greets(hub: Hub, link: Link, num: nat) returns (cs: seq<Conn>)
    requires num != 0
    ensures ConnRun(hub, cs, GREET) && cs[0] == NewConn(hub, link, num)
    ensures cs[|GREET|] == NewConn(hub, link, num).(
      sess := Greeted(hub, Hello(num, link.inst, link.guard.epoch, link.guard.ver), hub.ver), up := [])
  {
    var c := NewConn(hub, link, num);
    var c1 := ConnNext(hub, c, In(RecvHello));
    var c2 := ConnNext(hub, c1, In(ReadTarget));
    cs := [c, c1, c2];
  }

  /** Nothing has been sent, and one wake-up is due. */
  predicate Racing(hub: Hub, c: Conn) {
    && c.sess.rp.HaveTarget? && c.sess == Greeted(hub, c.sess.rp.hello, c.sess.rp.target)
    && c.wakes == 1 && !c.early && !c.readySent && !c.marked && !c.stopped && !c.forgot
  }

  lemma Asks(hub: Hub, c: Conn) returns (cs: seq<Conn>)
    requires Racing(hub, c) && WfStore(hub.store)
    ensures ConnRun(hub, cs, ASK) && cs[0] == c
    ensures cs[|ASK|] == c.(sess := c.sess.(sp := PushGot(FullPush(hub.epoch, hub.ver, All(hub.store)))), wakes := 0)
  {
    var c1 := ConnNext(hub, c, Out(WakeCall));
    var c2 := ConnNext(hub, c1, Local(WaitEnd));
    var c3 := ConnNext(hub, c2, Local(TopOfLoop));
    var c4 := ConnNext(hub, c3, Local(PushTaken));
    var c5 := ConnNext(hub, c4, Local(PushAsked));
    cs := [c, c1, c2, c3, c4, c5];
  }

  function Pushed(hub: Hub, c: Conn, p: Push): Conn {
    c.(sess := c.sess.(sync := Wait(1, p.ver), nextSeq := 2, st := SYNC, sentVer := p.ver, sentOnce := true,
                               sp := Waiting),
       down := c.down + [Sync(1, p)], early := true)
  }

  lemma Pushes(hub: Hub, c: Conn, p: Push) returns (cs: seq<Conn>)
    requires c.sess == NewSession(hub.epoch).(sp := PushGot(p), rp := c.sess.rp)
    requires WfStore(hub.store) && !c.readySent && !c.stopped
    ensures ConnRun(hub, cs, PUSH) && cs[0] == c && cs[|PUSH|] == Pushed(hub, c, p)
  {
    var c1 := ConnNext(hub, c, Local(PushSynced));
    var c2 := ConnNext(hub, c1, Emit(PushSend));
    var c3 := ConnNext(hub, c2, Local(PushMarked));
    var c4 := ConnNext(hub, c3, Local(PingTaken));
    var c5 := ConnNext(hub, c4, Local(ByeTaken));
    cs := [c, c1, c2, c3, c4, c5];
  }

  /** READY has been sent, no stop was asked for and nothing is on its way, yet the session behind
      the hub has nothing due. */
  predicate Lost(hub: Hub, unfired: nat, c: Conn) {
    && c.sess.epoch == hub.epoch && c.marked && !c.stopped && unfired == 0 && c.wakes == 0 && !MidSend(c.sess.sp)
    && Behind(hub, c.sess) && !c.sess.pushDue && !c.sess.dirty
  }

  lemma Forgets(hub: Hub, c: Conn) returns (cs: seq<Conn>)
    requires WfStore(hub.store) && !c.readySent && !c.stopped && c.wakes == 0 && c.sess.epoch == hub.epoch
    requires c.sess.sp.Waiting? && !c.sess.sendErr && c.sess.st.SYNC? && TakesBack(c.sess)
    requires c.sess.rp.target < hub.ver
    ensures ConnRun(hub, cs, READY) && cs[0] == c
    ensures Lost(hub, 0, cs[|READY|]) && cs[|READY|].forgot
  {
    var c1 := ConnNext(hub, c, In(HelloMarked));
    var c2 := ConnNext(hub, c1, Local(WaitEnd));
    var c3 := ConnNext(hub, c2, Local(TopOfLoop));
    var c4 := ConnNext(hub, c3, Local(ReadyTaken));
    var c5 := ConnNext(hub, c4, Emit(ReadySend));
    var c6 := ConnNext(hub, c5, Local(ReadyMarked));
    cs := [c, c1, c2, c3, c4, c5, c6];
  }

  /** From every reachable state with a current gateway that can redial, a change between reading the
      target version and marking HELLO leads on to a session that has forgotten it. */
  lemma PushBeforeReadyLosesTheUpdate(from: System, s: System, l: nat, num: nat, op: DeltaOp) returns (t: System)
    requires Leads(from, s) && l < |s.links| && LinkEnabled(s.hub, s.links[l], Dial(num)) && EditEnabled(s.hub, op)
    requires s.links[l].guard.epoch == s.hub.epoch && s.links[l].guard.ver == s.hub.ver
    requires WfStore(s.hub.store)
    ensures Leads(from, t) && t.hub == Edit(s.hub, op) && l < |t.links| && |t.links[l].conns| == |s.links[l].conns| + 1
    ensures var c := t.links[l].conns[|s.links[l].conns|];
            Lost(t.hub, t.unfired, c) && c.forgot
  {
    var k := |s.links[l].conns|;
    var s1 := Next(s, OnLink(l, Dial(num)));
    OneMore(from, s, OnLink(l, Dial(num)));
    var gs := Greets(s.hub, s.links[l], num);
    ConnLeads(from, s1, l, k, gs, GREET);
    var s2 := WithConn(s1, l, k, gs[|GREET|]);
    t := ChangeIsForgotten(from, s2, l, k, op);
  }

  lemma ChangeIsForgotten(from: System, s: System, l: nat, k: nat, op: DeltaOp) returns (t: System)
    requires Leads(from, s) && l < |s.links| && k < |s.links[l].conns| && EditEnabled(s.hub, op) && WfStore(s.hub.store)
    requires var c := s.links[l].conns[k];
             && Racing(s.hub, c.(wakes := 1)) && c.wakes == 0 && c.sess.rp.target == s.hub.ver
             && c.sess.rp.hello.Hello? && c.sess.rp.hello.epoch == s.hub.epoch && c.sess.rp.hello.ver == s.hub.ver
    ensures Leads(from, t) && t.hub == Edit(s.hub, op) && l < |t.links| && |t.links[l].conns| == |s.links[l].conns|
    ensures var c := t.links[l].conns[k];
            Lost(t.hub, t.unfired, c) && c.forgot
  {
    var s1 := Next(s, HubEdit(op));
    OneMore(from, s, HubEdit(op));
    var s2 := Next(s1, HubFire(s1.unfired));
    OneMore(from, s1, HubFire(s1.unfired));
    var cs := Asks(s2.hub, s2.links[l].conns[k]);
    ConnLeads(from, s2, l, k, cs, ASK);
    var s3 := WithConn(s2, l, k, cs[|ASK|]);
    var ds := Pushes(s2.hub, cs[|ASK|], cs[|ASK|].sess.sp.push);
    ConnLeads(from, s3, l, k, ds, PUSH);
    var s4 := WithConn(s3, l, k, ds[|PUSH|]);
    var es := Forgets(s2.hub, ds[|PUSH|]);
    ConnLeads(from, s4, l, k, es, READY);
    t := WithConn(s4, l, k, es[|READY|]);
  }

  const FULL: seq<SessStep> := [Local(PushTaken), Local(PushAsked), Local(PushSynced), Emit(PushSend)]

  lemma Joins(hub: Hub, c: Conn) returns (cs: seq<Conn>)
    requires WfStore(hub.store) && c.sess.rp.HaveTarget? && c.sess == Greeted(hub, c.sess.rp.hello, c.sess.rp.target)
    requires c.sess.rp.hello.Hello? && c.sess.rp.hello.epoch != hub.epoch
    ensures ConnRun(hub, cs, READY) && cs[0] == c
    ensures var s := cs[|READY|].sess;
            && s == NewSession(hub.epoch).(inst := s.inst, helloSeq := s.helloSeq, targetVer := s.targetVer, rp := Loop,
                                           st := SYNC, pushDue := true, sp := PushCheck)
            && cs[|READY|] == c.(sess := s, down := c.down + [Ready(c.sess.rp.hello.num, hub.epoch, c.sess.rp.target)],
                                 readySent := true, marked := true)
  {
    var c1 := ConnNext(hub, c, In(HelloMarked));
    var c2 := ConnNext(hub, c1, Local(WaitEnd));
    var c3 := ConnNext(hub, c2, Local(TopOfLoop));
    var c4 := ConnNext(hub, c3, Local(ReadyTaken));
    var c5 := ConnNext(hub, c4, Emit(ReadySend));
    var c6 := ConnNext(hub, c5, Local(ReadyMarked));
    cs := [c, c1, c2, c3, c4, c5, c6];
  }

  lemma Sends(hub: Hub, c: Conn) returns (cs: seq<Conn>)
    requires WfStore(hub.store) && c.readySent
    requires var s := c.sess;
             s == NewSession(hub.epoch).(inst := s.inst, helloSeq := s.helloSeq, targetVer := s.targetVer, rp := Loop,
                                         st := SYNC, pushDue := true, sp := PushCheck)
    ensures ConnRun(hub, cs, FULL) && cs[0] == c
    ensures cs[|FULL|] == c.(sess := cs[|FULL|].sess, stopped := c.stopped,
                             down := c.down + [Sync(1, FullPush(hub.epoch, hub.ver, All(hub.store)))])
  {
    var c1 := ConnNext(hub, c, Local(PushTaken));
    var c2 := ConnNext(hub, c1, Local(PushAsked));
    var c3 := ConnNext(hub, c2, Local(PushSynced));
    var c4 := ConnNext(hub, c3, Emit(PushSend));
    cs := [c, c1, c2, c3, c4];
  }

  /** A fresh gateway takes READY and the first full list and is current. */
  lemma TakesFullList(from: System, s: System, l: nat, num: nat, p: Push) returns (t: System)
    requires Leads(from, s) && l < |s.links| && s.links[l].conns != [] && s.links[l].guard.epoch != s.hub.epoch
    requires var c := s.links[l].conns[|s.links[l].conns| - 1];
             c.cli == AwaitReady(num) && c.down == [Ready(num, s.hub.epoch, s.hub.ver), Sync(1, p)]
    requires p.FullPush? && p.epoch == s.hub.epoch && p.ver == s.hub.ver
    ensures Leads(from, t) && t.hub == s.hub && |t.links| == |s.links|
    ensures PosOf(t.links[l].guard) == Pos(s.hub.epoch, s.hub.ver) && LinkEnabled(t.hub, t.links[l], Dial(1))
  {
    var read := OnLink(l, ClientMsg);
    var s1 := Next(s, read);
    OneMore(from, s, read);
    var s2 := Next(s1, read);
    OneMore(from, s1, read);
    t := Next(s2, OnLink(l, ClientLeave));
    OneMore(from, s2, OnLink(l, ClientLeave));
  }

  lemma BecomesCurrent(s: System, l: nat) returns (t: System)
    requires Init(s) && l < |s.links|
    ensures Leads(s, t) && t.hub == s.hub && |t.links| == |s.links|
    ensures PosOf(t.links[l].guard) == Pos(s.hub.epoch, s.hub.ver) && LinkEnabled(t.hub, t.links[l], Dial(1))
  {
    StartsHere(s);
    OneMore(s, s, OnLink(l, Dial(1)));
    var s1 := Next(s, OnLink(l, Dial(1)));
    var gs := Greets(s.hub, s.links[l], 1);
    ConnLeads(s, s1, l, 0, gs, GREET);
    var s2 := WithConn(s1, l, 0, gs[|GREET|]);
    var js := Joins(s.hub, gs[|GREET|]);
    ConnLeads(s, s2, l, 0, js, READY);
    var s3 := WithConn(s2, l, 0, js[|READY|]);
    var fs := Sends(s.hub, js[|READY|]);
    ConnLeads(s, s3, l, 0, fs, FULL);
    var s4 := WithConn(s3, l, 0, fs[|FULL|]);
    t := TakesFullList(s, s4, l, 1, FullPush(s.hub.epoch, s.hub.ver, All(s.hub.store)));
  }

  /** So every system with a gateway has a run in which a change is forgotten, whatever the change. */
  lemma SomeRunForgets(s: System, l: nat, op: DeltaOp) returns (t: System, k: nat)
    requires Init(s) && l < |s.links| && EditEnabled(s.hub, op)
    ensures Leads(s, t) && t.hub == Edit(s.hub, op) && l < |t.links| && k < |t.links[l].conns|
    ensures Lost(t.hub, t.unfired, t.links[l].conns[k]) && t.links[l].conns[k].forgot
  {
    var u := BecomesCurrent(s, l);
    k := |u.links[l].conns|;
    t := PushBeforeReadyLosesTheUpdate(s, u, l, 1, op);
  }

  /** A session that is draining or closing goes back to work exactly when its send fiber
      records a push it had prepared. */
  lemma OnlyPushSyncUndoesAStop(hub: Hub, c: Conn, step: SessStep)
    requires SessEnabled(hub, c, step) && !Active(c.sess.st)
    ensures Active(ConnNext(hub, c, step).sess.st) <==> step.Local? && step.x.PushSynced?
  {
    match step
    case Emit(e) => EmissionKeepsAStop(hub, c, e);
    case Local(x) => SectionsUndoingAStop(hub, c, x);
    case In(i) => InboundKeepsAStop(hub, c, i);
    case Out(o) => OutsideKeepsAStop(hub, c, o);
  }

  lemma EmissionKeepsAStop(hub: Hub, c: Conn, e: Emission)
    requires SessEnabled(hub, c, Emit(e)) && !Active(c.sess.st)
    ensures !Active(ConnNext(hub, c, Emit(e)).sess.st)
  {
  }

  lemma OutsideKeepsAStop(hub: Hub, c: Conn, o: Outside)
    requires SessEnabled(hub, c, Out(o)) && !Active(c.sess.st)
    ensures !Active(ConnNext(hub, c, Out(o)).sess.st)
  {
    match o case WakeCall => case StopCall(_) => case IoFail =>
  }

  lemma InboundKeepsAStop(hub: Hub, c: Conn, i: Inbound)
    requires SessEnabled(hub, c, In(i)) && !Active(c.sess.st)
    ensures !Active(ConnNext(hub, c, In(i)).sess.st)
  {
    match i case RecvHello => case ReadTarget => case HelloMarked => case RecvMsg => case TimedOut(_, _) =>
  }

  lemma SectionsUndoingAStop(hub: Hub, c: Conn, x: Section)
    requires SessEnabled(hub, c, Local(x)) && !Active(c.sess.st)
    ensures Active(ConnNext(hub, c, Local(x)).sess.st) <==> x.PushSynced?
  {
    match x
    case WaitEnd => case TopOfLoop => case ReadyTaken => case ReadyMarked => case PushTaken => case PushAsked =>
    case PushRefused => case PushSynced => case PushMarked => case PingTaken => case ByeTaken =>
  }

  /** A stop that arrives while a push is prepared is forgotten, and so is a change notified
      in between: the session is in SYNC again and does not know of the newer version. */
  lemma StopDuringPushIsForgotten(hub: Hub, c: Conn)
    requires WfStore(hub.store) && c.sess.epoch == hub.epoch
    requires c.sess.sp.PushGot? && (c.sess.st == SYNC || c.sess.st == OPEN) && !c.sess.pushDue && !c.sess.dirty
    requires c.wakes > 0 && c.sess.sp.push.ver < hub.ver
    ensures var stopped := ConnNext(hub, c, Out(StopCall(true)));
            stopped.sess.st == DRAIN
            && var woken := ConnNext(hub, stopped, Out(WakeCall));
               var synced := ConnNext(hub, woken, Local(PushSynced));
               synced.sess.st == SYNC && synced.sess.sync.ver < hub.ver && !synced.sess.pushDue && !synced.sess.dirty
  {
  }

  const PREPARE: seq<SessStep> := [Local(PushTaken), Local(PushAsked)]

  const INTERRUPT: seq<SessStep> := [Out(StopCall(true)), Out(WakeCall)]

  lemma Prepares(hub: Hub, c: Conn) returns (cs: seq<Conn>)
    requires WfStore(hub.store)
    requires var s := c.sess;
             s == NewSession(hub.epoch).(inst := s.inst, helloSeq := s.helloSeq, targetVer := s.targetVer, rp := Loop,
                                         st := SYNC, pushDue := true, sp := PushCheck)
    ensures ConnRun(hub, cs, PREPARE) && cs[0] == c
    ensures cs[|PREPARE|] == c.(sess := c.sess.(pushDue := false,
                                                sp := PushGot(FullPush(hub.epoch, hub.ver, All(hub.store)))))
  {
    var c1 := ConnNext(hub, c, Local(PushTaken));
    var c2 := ConnNext(hub, c1, Local(PushAsked));
    cs := [c, c1, c2];
  }

  /** The drain is noted, and from then on notifications are not. */
  lemma Interrupts(hub: Hub, c: Conn) returns (cs: seq<Conn>)
    requires WfStore(hub.store) && c.wakes == 1 && c.sess.epoch == hub.epoch && c.sess.st == SYNC
    ensures ConnRun(hub, cs, INTERRUPT) && cs[0] == c
    ensures cs[|INTERRUPT|] ==
              c.(sess := c.sess.(st := DRAIN, token := true), wakes := 0, stopped := true, forgot := false)
  {
    var c1 := ConnNext(hub, c, Out(StopCall(true)));
    var c2 := ConnNext(hub, c1, Out(WakeCall));
    cs := [c, c1, c2];
  }

  /** Recording the push that was being prepared takes the session back to SYNC. */
  lemma Resumes(hub: Hub, c: Conn) returns (cs: seq<Conn>)
    requires WfStore(hub.store) && c.readySent && c.stopped && c.wakes == 0 && c.sess.epoch == hub.epoch
    requires c.sess.sp.PushGot? && c.sess.sp.push.ver < hub.ver
    requires !c.sess.pushDue && !c.sess.dirty && c.sess.nextSeq > 0
    ensures ConnRun(hub, cs, PUSH) && cs[0] == c
    ensures StopForgotten(hub, cs[|PUSH|])
  {
    var c1 := ConnNext(hub, c, Local(PushSynced));
    var c2 := ConnNext(hub, c1, Emit(PushSend));
    var c3 := ConnNext(hub, c2, Local(PushMarked));
    var c4 := ConnNext(hub, c3, Local(PingTaken));
    var c5 := ConnNext(hub, c4, Local(ByeTaken));
    cs := [c, c1, c2, c3, c4, c5];
  }

  /** A session that was told to drain works on, asleep and behind the hub with nothing due. */
  predicate StopForgotten(hub: Hub, c: Conn) {
    && c.sess.epoch == hub.epoch && c.stopped && c.wakes == 0 && c.sess.sp.Waiting? && c.sess.st == SYNC
    && Behind(hub, c.sess) && !c.sess.pushDue && !c.sess.dirty
  }

  /** Such a session comes about in some run of every system with a gateway, whatever the change. */
  lemma SomeRunForgetsAStop(s: System, l: nat, op: DeltaOp) returns (t: System)
    requires Init(s) && l < |s.links| && EditEnabled(s.hub, op)
    ensures Leads(s, t) && l < |t.links| && t.links[l].conns != [] && t.unfired == 0
    ensures StopForgotten(t.hub, t.links[l].conns[0])
  {
    StartsHere(s);
    OneMore(s, s, OnLink(l, Dial(1)));
    var s1 := Next(s, OnLink(l, Dial(1)));
    var gs := Greets(s.hub, s.links[l], 1);
    ConnLeads(s, s1, l, 0, gs, GREET);
    var s2 := WithConn(s1, l, 0, gs[|GREET|]);
    var js := Joins(s.hub, gs[|GREET|]);
    ConnLeads(s, s2, l, 0, js, READY);
    var s3 := WithConn(s2, l, 0, js[|READY|]);
    var ps := Prepares(s.hub, js[|READY|]);
    ConnLeads(s, s3, l, 0, ps, PREPARE);
    t := StopIsDropped(s, WithConn(s3, l, 0, ps[|PREPARE|]), l, op);
  }

  lemma StopIsDropped(from: System, s: System, l: nat, op: DeltaOp) returns (t: System)
    requires Leads(from, s) && l < |s.links| && |s.links[l].conns| == 1 && EditEnabled(s.hub, op)
               && WfStore(s.hub.store)
    requires var c := s.links[l].conns[0];
             && c.readySent && c.wakes == 0 && c.sess.epoch == s.hub.epoch && c.sess.nextSeq > 0 && c.sess.st == SYNC
             && c.sess.sp.PushGot? && c.sess.sp.push.ver == s.hub.ver && !c.sess.pushDue && !c.sess.dirty
    ensures Leads(from, t) && l < |t.links| && t.links[l].conns != [] && t.unfired == 0
    ensures StopForgotten(t.hub, t.links[l].conns[0])
  {
    var s1 := Next(s, HubEdit(op));
    OneMore(from, s, HubEdit(op));
    var s2 := Next(s1, HubFire(s1.unfired));
    OneMore(from, s1, HubFire(s1.unfired));
    var ds := Interrupts(s2.hub, s2.links[l].conns[0]);
    ConnLeads(from, s2, l, 0, ds, INTERRUPT);
    var s3 := WithConn(s2, l, 0, ds[|INTERRUPT|]);
    var es := Resumes(s2.hub, ds[|INTERRUPT|]);
    ConnLeads(from, s3, l, 0, es, PUSH);
    t := WithConn(s3, l, 0, es[|PUSH|]);
  }
}
