/** Client, link and hub steps keep the invariant; what follows for every run. */
module ReplicationTheorems {
  import opened HubSpec
  import opened GuardSpec
  import opened SessionSpec
  import opened Replication
  import opened ReplicationInv
  import opened ReplicationProof

  // ----- the client -----

  /** A sync frame in flight is accepted, moves the guard forward, and keeps it faithful. */
  lemma SyncApplies(hist: Hist, g: Guard, epoch: nat, p: Push)
    requires Faithful(hist, g) && ValidPush(hist, PosOf(g), epoch, p) && epoch != 0
    ensures Apply(g, epoch, p).Some?
    ensures var g' := Apply(g, epoch, p).value;
            && PosOf(g') == Pos(epoch, p.ver)
            && Faithful(hist, g')
            && (g.epoch == epoch ==> g.ver < g'.ver)
  {
    match p
    case FullPush(_, ver, rules) =>
    case DeltaPush(_, prev, ver, ops) =>
      OpsKeepAgreement(g.remote, hist[epoch][prev], g.clock, ops);
  }

  /** The first sync frame on the wire is the outstanding one; once applied, its ACK is in flight. */
  lemma FlightApplied(hist: Hist, g: Pos, inst: string, epoch: nat, d: seq<Down>, a: seq<Up>,
                      sync: Wait, sentVer: nat, sentOnce: bool, sp: SendPc)
    requires Flight(hist, g, inst, epoch, d, a, sync, sentVer, sentOnce, sp) && d != []
    ensures |d| == 1 && d[0].Sync? && d[0].num != 0 && ValidPush(hist, g, epoch, d[0].push)
    ensures Flight(hist, Pos(epoch, d[0].push.ver), inst, epoch, [],
                   a + [Ack(d[0].num, inst, epoch, d[0].push.ver)], sync, sentVer, sentOnce, sp)
  {
  }

  /** A sync frame that applies is acknowledged with where the guard then stands. */
  lemma ClientAcknowledges(inst: string, g: Guard, c: Conn)
    requires c.cli.Streaming? && !c.cli.badSync && c.down != [] && c.down[0].Sync? && c.down[0].num != 0
    requires Apply(g, c.cli.epoch, c.down[0].push).Some?
    ensures var g' := Apply(g, c.cli.epoch, c.down[0].push).value;
            ClientNext(inst, g, c)
            == (g', c.(down := c.down[1..], up := c.up + [Ack(c.down[0].num, inst, g'.epoch, g'.ver)]))
  {
  }

  lemma ClientReadsSync(hist: Hist, inst: string, g: Guard, c: Conn)
    requires AfterReady(hist, PosOf(g), inst, c) && Faithful(hist, g) && c.sess.epoch != 0
    requires c.cli.Streaming? && c.down != [] && c.down[0].Sync? && c.down[0].num != 0
    ensures Apply(g, c.cli.epoch, c.down[0].push).Some?
    ensures var (g', c') := ClientNext(inst, g, c);
            && AfterReady(hist, PosOf(g'), inst, c')
            && Faithful(hist, g') && g'.epoch == c.sess.epoch && (g.epoch == g'.epoch ==> g.ver < g'.ver)
            && c'.up == c.up + [Ack(c.down[0].num, inst, g'.epoch, g'.ver)]
            && c' == c.(down := c.down[1..], up := c'.up)
  {
    var s := c.sess;
    var m := c.down[0];
    var d, a := Syncs(c.down), Acks(c.up);
    assert d == [m] + Syncs(c.down[1..]);
    FlightApplied(hist, PosOf(g), inst, s.epoch, d, a, s.sync, s.sentVer, s.sentOnce, s.sp);
    SyncApplies(hist, g, s.epoch, m.push);
    ClientAcknowledges(inst, g, c);
    QueuesNext(s.epoch, c.up, c.down);
    QueuesUp(s.epoch, c.cli, c.up, c.down[1..], Ack(m.num, inst, s.epoch, m.push.ver));
    AcksAppend(c.up, Ack(m.num, inst, s.epoch, m.push.ver));
  }

  /** The first frame is READY, or the client leaves. */
  lemma ClientReadsFirst(hist: Hist, inst: string, g: Guard, c: Conn)
    requires LiveInv(hist, PosOf(g), inst, c) && c.cli.AwaitReady? && c.down != []
    ensures var (g', c') := ClientNext(inst, g, c);
            && g' == g
            && LiveInv(hist, PosOf(g), inst, c')
            && c' == c.(down := c.down[1..], cli := c'.cli)
  {
    var rest := c.down[1..];
    assert Syncs(c.down) == (if c.down[0].Sync? then [c.down[0]] else []) + Syncs(rest);
    if !c.early {
      assert AfterReady(hist, PosOf(g), inst, c);
      assert Queues(c.sess.epoch, Streaming(c.sess.epoch, false), c.up, rest);
    }
  }

  /** Frames other than sync frames leave the guard alone; a PING is answered. */
  lemma ClientReadsOther(hist: Hist, inst: string, g: Guard, c: Conn) returns (more: seq<Up>)
    requires AfterReady(hist, PosOf(g), inst, c) && c.cli.Streaming? && c.down != []
    requires !c.down[0].Sync? || c.down[0].num == 0
    ensures var (g', c') := ClientNext(inst, g, c);
            && g' == g
            && (c'.cli.Left? || AfterReady(hist, PosOf(g), inst, c'))
            && c' == c.(down := c.down[1..], up := c.up + more, cli := c'.cli)
    ensures forall i :: 0 <= i < |more| ==> more[i].Pong?
  {
    QueuesNext(c.sess.epoch, c.up, c.down);
    if c.down[0].Ping? && c.down[0].num != 0 {
      more := [Pong(c.down[0].num)];
      ClientAnswersPing(hist, inst, g, c);
    } else {
      more := [];
      assert c.up + more == c.up;
    }
  }

  lemma ClientAnswersPing(hist: Hist, inst: string, g: Guard, c: Conn)
    requires AfterReady(hist, PosOf(g), inst, c) && c.cli.Streaming? && c.down != []
    requires c.down[0].Ping? && c.down[0].num != 0
    ensures ClientNext(inst, g, c) == (g, c.(down := c.down[1..], up := c.up + [Pong(c.down[0].num)]))
    ensures AfterReady(hist, PosOf(g), inst, c.(down := c.down[1..], up := c.up + [Pong(c.down[0].num)]))
  {
    var pong := Pong(c.down[0].num);
    QueuesNext(c.sess.epoch, c.up, c.down);
    AcksAppend(c.up, pong);
    QueuesUp(c.sess.epoch, c.cli, c.up, c.down[1..], pong);
  }

  /** Reading a frame of a stream that streams leaves a stream that streams. */
  lemma QueuesNext(epoch: nat, up: seq<Up>, down: seq<Down>)
    requires Queues(epoch, Streaming(epoch, false), up, down) && down != []
    ensures Queues(epoch, Streaming(epoch, false), up, down[1..]) && !down[0].Ready?
    ensures !down[0].Sync? ==> Syncs(down) == Syncs(down[1..])
  {
  }

  lemma QueuesUp(epoch: nat, cli: Client, up: seq<Up>, down: seq<Down>, m: Up)
    requires Queues(epoch, cli, up, down) && (m.Ack? || m.Pong?)
    ensures Queues(epoch, cli, up + [m], down)
  {
  }

  /** A PING that has been read is a PONG on its way up. */
  lemma PingTurns(d: seq<Down>, a: seq<Up>, ping: nat, sp: SendPc)
    requires PingFlight(d, a, ping, sp) && d != []
    ensures d[0].Ping? && d[0].num != 0 && PingFlight(d[1..], a + [Pong(d[0].num)], ping, sp)
  {
  }

  /** The client answers a PING with its PONG and no other frame with one. */
  lemma ClientAnswers(inst: string, g: Guard, c: Conn) returns (more: seq<Up>)
    requires !c.cli.Left? && c.down != []
    ensures var c', m := ClientNext(inst, g, c).1, c.down[0];
            && c' == c.(down := c.down[1..], up := c.up + more, cli := c'.cli)
            && (c'.cli.Left? || if m.Ping? then more == [Pong(m.num)]
                                else more == [] || (|more| == 1 && !more[0].Pong?))
  {
    var m := c.down[0];
    assert c.up + [] == c.up;
    more := [];
    if c.cli.Streaming? {
      match m
      case Ping(num) => if num != 0 { more := [Pong(num)]; }
      case Sync(num, p) =>
        var r := Apply(g, c.cli.epoch, p);
        if num != 0 && r.Some? { more := [Ack(num, inst, r.value.epoch, r.value.ver)]; }
        if num != 0 && r.None? && !c.cli.badSync { more := [SnapReq]; }
      case _ =>
    }
  }

  lemma PingRead(inst: string, g: Guard, c: Conn)
    requires PingInv(c) && !c.cli.Left? && c.down != []
    ensures PingInv(ClientNext(inst, g, c).1)
  {
    var c' := ClientNext(inst, g, c).1;
    var more := ClientAnswers(inst, g, c);
    if !c'.cli.Left? && !c.early {
      PingReadAt(c.down, c.up, more, c.sess.ping, c.sess.sp);
    }
  }

  lemma PingReadAt(down: seq<Down>, up: seq<Up>, more: seq<Up>, ping: nat, sp: SendPc)
    requires down != [] && PingFlight(Pings(down), Pongs(up), ping, sp)
    requires if down[0].Ping? then more == [Pong(down[0].num)] else more == [] || (|more| == 1 && !more[0].Pong?)
    ensures PingFlight(Pings(down[1..]), Pongs(up + more), ping, sp)
  {
    var d := Pings(down);
    if down[0].Ping? {
      FirstPing(down);
      PongsAppend(up, Pong(down[0].num));
      PingTurns(d, Pongs(up), ping, sp);
    } else {
      assert Pings(down[1..]) == d;
      NoPongs(up, more);
    }
  }

  lemma FirstPing(down: seq<Down>)
    requires down != [] && down[0].Ping?
    ensures Pings(down) != [] && Pings(down)[0] == down[0] && Pings(down)[1..] == Pings(down[1..])
  {
  }

  lemma NoPongs(up: seq<Up>, more: seq<Up>)
    requires more == [] || (|more| == 1 && !more[0].Pong?)
    ensures Pongs(up + more) == Pongs(up)
  {
    if more == [] {
      assert up + more == up;
    } else {
      assert more == [more[0]];
      PongsAppend(up, more[0]);
    }
  }

  /** An older connection is untouched when the guard moves forward on a newer one. */
  lemma OldConnKept(hub: Hub, unfired: nat, hist: Hist, g: Pos, g': Pos, inst: string, c: Conn)
    requires ConnInv(hub, unfired, hist, g, inst, c) && c.cli.Left?
    requires c.sess.epoch == hub.epoch && g.epoch == hub.epoch ==> g'.epoch == hub.epoch && g.ver <= g'.ver
    ensures ConnInv(hub, unfired, hist, g', inst, c)
  {
    if c.sess.epoch == hub.epoch {
      forall i | 0 <= i < |c.up| ensures UpClaim(hub.epoch, g', c.up[i]) {
        assert UpClaim(hub.epoch, g, c.up[i]);
      }
    }
  }

  /** The client appends true claims, and the guard only moves forward. */
  lemma ConnAdvances(hub: Hub, unfired: nat, hist: Hist, g: Pos, g': Pos, inst: string, c: Conn, c': Conn,
                     more: seq<Up>)
    requires ConnInv(hub, unfired, hist, g, inst, c)
    requires c' == c.(down := c'.down, up := c.up + more, cli := c'.cli)
    requires LiveInv(hist, g', inst, c') && PingInv(c') && (more != [] ==> c.readySent && !c.early)
    requires c.sess.epoch == hub.epoch && g.epoch == hub.epoch ==> g'.epoch == hub.epoch && g.ver <= g'.ver
    requires forall i :: 0 <= i < |more| ==> UpClaim(hub.epoch, g', more[i])
    ensures ConnInv(hub, unfired, hist, g', inst, c')
  {
    if c.sess.epoch == hub.epoch {
      forall i | 0 <= i < |c'.up| ensures UpClaim(hub.epoch, g', c'.up[i]) {
        if i < |c.up| {
          assert UpClaim(hub.epoch, g, c.up[i]);
        }
      }
    }
  }

  predicate ReadsSync(c: Conn) {
    c.cli.Streaming? && c.down != [] && c.down[0].Sync? && c.down[0].num != 0
  }

  /** Only a session that sent READY first is streamed from. */
  lemma StreamingIsAccepted(hist: Hist, g: Pos, inst: string, c: Conn)
    requires LiveInv(hist, g, inst, c) && c.cli.Streaming?
    ensures !c.early && c.readySent && AfterReady(hist, g, inst, c)
  {
  }

  lemma ClientSyncKept(hub: Hub, unfired: nat, hist: Hist, inst: string, g: Guard, c: Conn)
    requires 0 !in hist && Faithful(hist, g) && ConnInv(hub, unfired, hist, PosOf(g), inst, c) && ReadsSync(c)
    ensures var (g', c') := ClientNext(inst, g, c);
            && ConnInv(hub, unfired, hist, PosOf(g'), inst, c') && Faithful(hist, g') && c'.sess == c.sess
            && g'.epoch == c.sess.epoch && (g.epoch == g'.epoch ==> g.ver < g'.ver)
  {
    var (g', c') := ClientNext(inst, g, c);
    StreamingIsAccepted(hist, PosOf(g), inst, c);
    ClientReadsSync(hist, inst, g, c);
    PingRead(inst, g, c);
    ConnAdvances(hub, unfired, hist, PosOf(g), PosOf(g'), inst, c, c', [Ack(c.down[0].num, inst, g'.epoch, g'.ver)]);
  }

  lemma ClientOtherKept(hub: Hub, unfired: nat, hist: Hist, inst: string, g: Guard, c: Conn)
    requires Faithful(hist, g) && ConnInv(hub, unfired, hist, PosOf(g), inst, c)
    requires !c.cli.Left? && c.down != [] && !ReadsSync(c)
    ensures var (g', c') := ClientNext(inst, g, c);
            ConnInv(hub, unfired, hist, PosOf(g'), inst, c') && g' == g && c'.sess == c.sess
  {
    var more := [];
    if c.cli.AwaitReady? {
      ClientReadsFirst(hist, inst, g, c);
    } else {
      StreamingIsAccepted(hist, PosOf(g), inst, c);
      more := ClientReadsOther(hist, inst, g, c);
    }
    assert c.up + [] == c.up;
    PingRead(inst, g, c);
    ConnAdvances(hub, unfired, hist, PosOf(g), PosOf(g), inst, c, ClientNext(inst, g, c).1, more);
  }

  /** Reading one frame keeps the connection's invariant and never moves the guard back. */
  lemma ClientConnKept(hub: Hub, unfired: nat, hist: Hist, inst: string, g: Guard, c: Conn)
    requires 0 !in hist && Faithful(hist, g) && ConnInv(hub, unfired, hist, PosOf(g), inst, c)
    requires !c.cli.Left? && c.down != []
    ensures var (g', c') := ClientNext(inst, g, c);
            && ConnInv(hub, unfired, hist, PosOf(g'), inst, c') && Faithful(hist, g')
            && c'.sess == c.sess
            && (PosOf(g') == PosOf(g) || (g'.epoch == c.sess.epoch && (g.epoch == g'.epoch ==> g.ver < g'.ver)))
  {
    if ReadsSync(c) {
      ClientSyncKept(hub, unfired, hist, inst, g, c);
    } else {
      ClientOtherKept(hub, unfired, hist, inst, g, c);
    }
  }

  lemma ClientKept(hub: Hub, unfired: nat, hist: Hist, l: Link)
    requires HubInv(hub, hist) && LinkInv(hub, unfired, hist, l) && LinkEnabled(hub, l, ClientMsg)
    ensures LinkInv(hub, unfired, hist, LinkNext(hub, l, ClientMsg))
  {
    var last := |l.conns| - 1;
    var (g', c') := ClientNext(l.inst, l.guard, l.conns[last]);
    ClientConnKept(hub, unfired, hist, l.inst, l.guard, l.conns[last]);
    LastReplaced(hub, unfired, hist, l, g', c');
  }

  /** Replacing the last connection and moving the guard forward on it. */
  lemma LastReplaced(hub: Hub, unfired: nat, hist: Hist, l: Link, g': Guard, c': Conn)
    requires LinkInv(hub, unfired, hist, l) && l.conns != []
    requires ConnInv(hub, unfired, hist, PosOf(g'), l.inst, c') && Faithful(hist, g')
    requires var c, g := l.conns[|l.conns| - 1], l.guard;
             && c'.sess.epoch == c.sess.epoch
             && (PosOf(g') == PosOf(g) || (g'.epoch == c.sess.epoch && (g.epoch == g'.epoch ==> g.ver < g'.ver)))
    ensures LinkInv(hub, unfired, hist, l.(guard := g', conns := l.conns[|l.conns| - 1 := c']))
  {
    forall i | 0 <= i < |l.conns| - 1 ensures ConnInv(hub, unfired, hist, PosOf(g'), l.inst, l.conns[i]) {
      OldConnKept(hub, unfired, hist, PosOf(l.guard), PosOf(g'), l.inst, l.conns[i]);
    }
  }

  // ----- a link -----

  lemma SessKept(hub: Hub, unfired: nat, hist: Hist, l: Link, i: nat, step: SessStep)
    requires HubInv(hub, hist) && LinkInv(hub, unfired, hist, l) && LinkEnabled(hub, l, Sess(i, step))
    ensures LinkInv(hub, unfired, hist, LinkNext(hub, l, Sess(i, step)))
  {
    var g := PosOf(l.guard);
    SessConnKept(hub, unfired, hist, g, l.inst, l.conns[i], step);
  }

  lemma SessConnKept(hub: Hub, unfired: nat, hist: Hist, g: Pos, inst: string, c: Conn, step: SessStep)
    requires HubInv(hub, hist) && Known(hist, g)
    requires ConnInv(hub, unfired, hist, g, inst, c) && SessEnabled(hub, c, step)
    ensures ConnInv(hub, unfired, hist, g, inst, ConnNext(hub, c, step))
    ensures ConnNext(hub, c, step).cli == c.cli && ConnNext(hub, c, step).sess.epoch == c.sess.epoch
  {
    ShapeKept(hub, c, step);
    EarlyKept(hub, c, step);
    PingKept(hub, hist, g, inst, c, step);
    NoLostKept(hub, unfired, c, step);
    ClaimsKept(hub, g, c, step);
    LiveKept(hub, hist, g, inst, c, step);
    EpochFixed(hub, c, step);
  }

  lemma EpochFixed(hub: Hub, c: Conn, step: SessStep)
    requires SessEnabled(hub, c, step)
    ensures ConnNext(hub, c, step).cli == c.cli && ConnNext(hub, c, step).sess.epoch == c.sess.epoch
  {
    if step.In? {
      match step.i case RecvHello => case ReadTarget => case HelloMarked => case RecvMsg => case TimedOut(_, _) =>
    } else {
      OnlyReceivingHears(hub, c, step);
    }
  }

  lemma NewConnKept(hub: Hub, unfired: nat, hist: Hist, l: Link, num: nat)
    requires HubInv(hub, hist) && num != 0
    ensures ConnInv(hub, unfired, hist, PosOf(l.guard), l.inst, NewConn(hub, l, num))
  {
  }

  /** A further connection of this life, when the others are no longer in use. */
  lemma OneMoreConn(hub: Hub, unfired: nat, hist: Hist, l: Link, c: Conn)
    requires LinkInv(hub, unfired, hist, l) && (l.conns == [] || l.conns[|l.conns| - 1].cli.Left?)
    requires ConnInv(hub, unfired, hist, PosOf(l.guard), l.inst, c) && c.sess.epoch == hub.epoch
    ensures LinkInv(hub, unfired, hist, l.(conns := l.conns + [c]))
  {
  }

  lemma DialKept(hub: Hub, unfired: nat, hist: Hist, l: Link, num: nat)
    requires HubInv(hub, hist) && LinkInv(hub, unfired, hist, l) && LinkEnabled(hub, l, Dial(num))
    ensures LinkInv(hub, unfired, hist, LinkNext(hub, l, Dial(num)))
  {
    NewConnKept(hub, unfired, hist, l, num);
    OneMoreConn(hub, unfired, hist, l, NewConn(hub, l, num));
  }

  lemma LinkKept(hub: Hub, unfired: nat, hist: Hist, l: Link, step: LinkStep)
    requires HubInv(hub, hist) && LinkInv(hub, unfired, hist, l) && LinkEnabled(hub, l, step)
    ensures LinkInv(hub, unfired, hist, LinkNext(hub, l, step))
  {
    match step
    case Sess(i, st) => SessKept(hub, unfired, hist, l, i, st);
    case ClientMsg => ClientKept(hub, unfired, hist, l);
    case Dial(num) => DialKept(hub, unfired, hist, l, num);
    case ClientLeave => LeaveKept(hub, unfired, hist, l);
    case LocalTick(now) => TickKept(hub, unfired, hist, l, now);
  }

  lemma LeaveKept(hub: Hub, unfired: nat, hist: Hist, l: Link)
    requires HubInv(hub, hist) && LinkInv(hub, unfired, hist, l) && LinkEnabled(hub, l, ClientLeave)
    ensures LinkInv(hub, unfired, hist, LinkNext(hub, l, ClientLeave))
  {
    LastReplaced(hub, unfired, hist, l, l.guard, l.conns[|l.conns| - 1].(cli := Left));
  }

  lemma TickKept(hub: Hub, unfired: nat, hist: Hist, l: Link, now: nat)
    requires HubInv(hub, hist) && LinkInv(hub, unfired, hist, l) && LinkEnabled(hub, l, LocalTick(now))
    ensures LinkInv(hub, unfired, hist, LinkNext(hub, l, LocalTick(now)))
  {
    assert Faithful(hist, Tick(l.guard, now));
    assert PosOf(Tick(l.guard, now)) == PosOf(l.guard);
  }

  // ----- the hub -----

  ghost predicate Extends(hist: Hist, hist': Hist) {
    forall e, v :: e in hist && v in hist[e] ==> e in hist' && v in hist'[e] && hist'[e][v] == hist[e][v]
  }

  lemma FlightExtends(hist: Hist, hist': Hist, g: Pos, inst: string, epoch: nat, d: seq<Down>, a: seq<Up>,
                      sync: Wait, sentVer: nat, sentOnce: bool, sp: SendPc)
    requires Extends(hist, hist') && Flight(hist, g, inst, epoch, d, a, sync, sentVer, sentOnce, sp)
    ensures Flight(hist', g, inst, epoch, d, a, sync, sentVer, sentOnce, sp)
  {
    forall p | ValidPush(hist, g, epoch, p) ensures ValidPush(hist', g, epoch, p) {}
  }

  /** A connection survives an edit, a notification or a restart of the hub. */
  lemma HubMoves(hub: Hub, hub': Hub, unfired: nat, unfired': nat, hist: Hist, hist': Hist, g: Pos, inst: string,
                 c: Conn, c': Conn)
    requires ConnInv(hub, unfired, hist, g, inst, c) && Extends(hist, hist') && c.sess.epoch in hist'
    requires c' == c.(wakes := c'.wakes)
    requires if hub'.epoch == hub.epoch
             then hub.ver <= hub'.ver
                 && ((unfired' == unfired && c' == c && hub' == hub) || unfired' > 0 || c'.wakes > 0)
             else c.sess.epoch != hub'.epoch
    ensures ConnInv(hub', unfired', hist', g, inst, c')
  {
    if !c.cli.Left? && !c.early && c.readySent {
      var s := c.sess;
      FlightExtends(hist, hist', g, inst, s.epoch, Syncs(c.down), Acks(c.up), s.sync, s.sentVer, s.sentOnce, s.sp);
    }
  }

  lemma EditKept(s: System, op: DeltaOp)
    requires Inv(s) && Enabled(s, HubEdit(op))
    ensures Inv(Next(s, HubEdit(op)))
  {
    var s' := Next(s, HubEdit(op));
    EditFits(s.hub, s.hist[s.hub.epoch], op);
    assert Extends(s.hist, s'.hist);
    forall i | 0 <= i < |s.links| ensures LinkInv(s'.hub, s'.unfired, s'.hist, s.links[i]) {
      HubMovesLink(s.hub, s'.hub, s.unfired, s'.unfired, s.hist, s'.hist, s.links[i], s.links[i]);
    }
  }

  lemma FireKept(s: System, k: nat)
    requires Inv(s) && Enabled(s, HubFire(k))
    ensures Inv(Next(s, HubFire(k)))
  {
    var s' := Next(s, HubFire(k));
    forall i | 0 <= i < |s.links| ensures LinkInv(s'.hub, s'.unfired, s'.hist, s'.links[i]) {
      HubMovesLink(s.hub, s'.hub, s.unfired, s'.unfired, s.hist, s'.hist, s.links[i], s'.links[i]);
    }
  }

  lemma RestartKept(s: System, e: nat, v: nat, store: Store)
    requires Inv(s) && Enabled(s, HubRestart(e, v, store))
    ensures Inv(Next(s, HubRestart(e, v, store)))
  {
    var s' := Next(s, HubRestart(e, v, store));
    assert Extends(s.hist, s'.hist);
    forall i | 0 <= i < |s.links| ensures LinkInv(s'.hub, s'.unfired, s'.hist, s.links[i]) {
      HubMovesLink(s.hub, s'.hub, s.unfired, s'.unfired, s.hist, s'.hist, s.links[i], s.links[i]);
    }
  }

  lemma HubMovesLink(hub: Hub, hub': Hub, unfired: nat, unfired': nat, hist: Hist, hist': Hist, l: Link, l': Link)
    requires LinkInv(hub, unfired, hist, l) && Extends(hist, hist') && 0 !in hist
    requires l' == l || l' == Notify(l)
    requires forall e :: e in hist ==> e in hist'
    requires if hub'.epoch == hub.epoch then hub.ver <= hub'.ver && (unfired' > 0 || l' == Notify(l))
             else hub'.epoch !in hist && hub'.epoch != 0
    ensures LinkInv(hub', unfired', hist', l')
  {
    forall i | 0 <= i < |l.conns| ensures ConnInv(hub', unfired', hist', PosOf(l.guard), l.inst, l'.conns[i]) {
      HubMoves(hub, hub', unfired, unfired', hist, hist', PosOf(l.guard), l.inst, l.conns[i], l'.conns[i]);
    }
  }

  // ----- every run -----

  lemma StepKept(s: System, step: Step)
    requires Inv(s) && Enabled(s, step)
    ensures Inv(Next(s, step))
  {
    match step
    case HubEdit(op) => EditKept(s, op);
    case HubFire(k) => FireKept(s, k);
    case HubRestart(e, v, store) => RestartKept(s, e, v, store);
    case OnLink(l, st) => LinkKept(s.hub, s.unfired, s.hist, s.links[l], st);
  }

  lemma {:induction false} RunKept(states: seq<System>, steps: seq<Step>, i: nat)
    requires Run(states, steps) && i < |states|
    ensures Inv(states[i])
  {
    if i == 0 {
      var s := states[0];
      assert LifeFits(s.hub, s.hist[s.hub.epoch]);
      forall k | 0 <= k < |s.links| ensures LinkInv(s.hub, s.unfired, s.hist, s.links[k]) {}
    } else {
      RunKept(states, steps, i - 1);
      StepKept(states[i - 1], steps[i - 1]);
    }
  }
}
