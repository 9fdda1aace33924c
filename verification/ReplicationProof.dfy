/** Every step of the replication protocol keeps the invariant; the theorems about whole
    runs follow. */
module ReplicationProof {
  import opened HubSpec
  import opened GuardSpec
  import opened SessionSpec
  import opened Replication
  import opened ReplicationInv

  // ----- queues -----

  lemma {:induction false} SyncsAppend(d: seq<Down>, m: Down)
    ensures Syncs(d + [m]) == Syncs(d) + (if m.Sync? then [m] else [])
  {
    if d != [] {
      assert (d + [m])[1..] == d[1..] + [m];
      SyncsAppend(d[1..], m);
    } else {
      assert (d + [m])[1..] == [];
    }
  }

  lemma {:induction false} AcksAppend(u: seq<Up>, m: Up)
    ensures Acks(u + [m]) == Acks(u) + (if m.Ack? then [m] else [])
  {
    if u != [] {
      assert (u + [m])[1..] == u[1..] + [m];
      AcksAppend(u[1..], m);
    } else {
      assert (u + [m])[1..] == [];
    }
  }

  // ----- session steps -----

  lemma PushIsValid(hub: Hub, hist: Hist, g: Pos, from: nat, once: bool)
    requires HubInv(hub, hist) && Known(hist, g)
    requires At(g, hub.epoch, from, once)
    ensures var p := NextPush(hub, from, once); p.Some? ==> ValidPush(hist, g, hub.epoch, p.value)
  {
    var p := NextPush(hub, from, once);
    var life := hist[hub.epoch];
    if p.Some? {
      match p.value {
        case FullPush(_, _, rules) =>
          FromListRebuilds(rules, hub.store);
        case DeltaPush(_, prev, ver, ops) =>
          DeltaReplays(hub, life, prev);
      }
    }
  }

  lemma ShapeKept(hub: Hub, c: Conn, step: SessStep)
    requires Shape(c) && EarlyShape(c) && SessEnabled(hub, c, step)
    ensures Shape(ConnNext(hub, c, step))
  {
    match step
    case Emit(e) => ShapeKeptEmit(hub, c, e);
    case Local(x) => ShapeKeptLocal(hub, c, x);
    case In(i) => ShapeKeptIn(hub, c, i);
    case Out(o) => ShapeKeptOut(hub, c, o);
  }

  /** The sections that end a turn of the send loop. */
  predicate Ends(x: Section) { x.PushRefused? || x.PushMarked? || x.PingTaken? || x.ByeTaken? }

  lemma ShapeKeptLocal(hub: Hub, c: Conn, x: Section)
    requires Shape(c) && EarlyShape(c) && SessEnabled(hub, c, Local(x))
    ensures Shape(ConnNext(hub, c, Local(x)))
  {
    if Ends(x) {
      ShapeKeptEnding(hub, c, x);
    } else {
      ShapeKeptDeciding(hub, c, x);
    }
  }

  lemma ShapeKeptEnding(hub: Hub, c: Conn, x: Section)
    requires Shape(c) && EarlyShape(c) && SessEnabled(hub, c, Local(x)) && Ends(x)
    ensures Shape(ConnNext(hub, c, Local(x)))
  {
    match x case PushRefused => case PushMarked => case PingTaken => case ByeTaken =>
  }

  lemma ShapeKeptDeciding(hub: Hub, c: Conn, x: Section)
    requires Shape(c) && EarlyShape(c) && SessEnabled(hub, c, Local(x)) && !Ends(x)
    ensures Shape(ConnNext(hub, c, Local(x)))
  {
    match x
    case WaitEnd => case TopOfLoop => case ReadyTaken => case ReadyMarked => case PushTaken => case PushAsked =>
    case PushSynced =>
  }

  lemma ShapeKeptIn(hub: Hub, c: Conn, i: Inbound)
    requires Shape(c) && EarlyShape(c) && SessEnabled(hub, c, In(i))
    ensures Shape(ConnNext(hub, c, In(i)))
  {
    match i
    case RecvHello => case ReadTarget => case HelloMarked => case RecvMsg => case TimedOut(_, _) =>
  }

  lemma ShapeKeptEmit(hub: Hub, c: Conn, e: Emission)
    requires Shape(c) && EarlyShape(c) && SessEnabled(hub, c, Emit(e))
    ensures Shape(ConnNext(hub, c, Emit(e)))
  {
    match e
    case ReadySend => case PushSend => case PingSend => case ByeSend => case ErrSend =>
  }

  lemma ShapeKeptOut(hub: Hub, c: Conn, o: Outside)
    requires Shape(c) && EarlyShape(c) && SessEnabled(hub, c, Out(o))
    ensures Shape(ConnNext(hub, c, Out(o)))
  {
    match o
    case WakeCall => case StopCall(_) => case IoFail =>
  }

  lemma EarlyKept(hub: Hub, c: Conn, step: SessStep)
    requires Shape(c) && EarlyShape(c) && SessEnabled(hub, c, step)
    ensures EarlyShape(ConnNext(hub, c, step))
  {
    match step
    case Emit(e) => EarlyKeptEmit(hub, c, e);
    case Local(x) => EarlyKeptLocal(hub, c, x);
    case In(i) => EarlyKeptIn(hub, c, i);
    case Out(o) => EarlyKeptOut(hub, c, o);
  }

  lemma EarlyKeptEmit(hub: Hub, c: Conn, e: Emission)
    requires Shape(c) && EarlyShape(c) && SessEnabled(hub, c, Emit(e))
    ensures EarlyShape(ConnNext(hub, c, Emit(e)))
  {
    match e
    case ReadySend => case PushSend => case PingSend => case ByeSend => case ErrSend =>
  }

  lemma EarlyKeptLocal(hub: Hub, c: Conn, x: Section)
    requires Shape(c) && EarlyShape(c) && SessEnabled(hub, c, Local(x))
    ensures EarlyShape(ConnNext(hub, c, Local(x)))
  {
    match x
    case WaitEnd => case TopOfLoop => case ReadyTaken => case ReadyMarked => case PushTaken => case PushAsked =>
    case PushRefused => case PushSynced => case PushMarked => case PingTaken => case ByeTaken =>
  }

  lemma EarlyKeptIn(hub: Hub, c: Conn, i: Inbound)
    requires Shape(c) && EarlyShape(c) && SessEnabled(hub, c, In(i))
    ensures EarlyShape(ConnNext(hub, c, In(i)))
  {
    match i
    case RecvHello => case ReadTarget => case HelloMarked => case RecvMsg => case TimedOut(_, _) =>
  }

  lemma EarlyKeptOut(hub: Hub, c: Conn, o: Outside)
    requires Shape(c) && EarlyShape(c) && SessEnabled(hub, c, Out(o))
    ensures EarlyShape(ConnNext(hub, c, Out(o)))
  {
    match o
    case WakeCall => case StopCall(_) => case IoFail =>
  }

  lemma NoLostKept(hub: Hub, unfired: nat, c: Conn, step: SessStep)
    requires Shape(c) && EarlyShape(c) && NoLost(hub, unfired, c) && TargetOld(hub, c) && SessEnabled(hub, c, step)
    ensures NoLost(hub, unfired, ConnNext(hub, c, step)) && TargetOld(hub, ConnNext(hub, c, step))
  {
    match step
    case Emit(e) => NoLostKeptEmit(hub, unfired, c, e);
    case Local(x) => NoLostKeptLocal(hub, unfired, c, x);
    case In(i) => NoLostKeptIn(hub, unfired, c, i);
    case Out(o) => NoLostKeptOut(hub, unfired, c, o);
  }

  lemma NoLostKeptLocal(hub: Hub, unfired: nat, c: Conn, x: Section)
    requires Shape(c) && EarlyShape(c) && NoLost(hub, unfired, c) && TargetOld(hub, c) && SessEnabled(hub, c, Local(x))
    ensures NoLost(hub, unfired, ConnNext(hub, c, Local(x))) && TargetOld(hub, ConnNext(hub, c, Local(x)))
  {
    match x
    case WaitEnd => case TopOfLoop => case ReadyTaken => case ReadyMarked => case PushTaken => case PushAsked =>
    case PushRefused => case PushSynced => case PushMarked => case PingTaken => case ByeTaken =>
  }

  lemma NoLostKeptIn(hub: Hub, unfired: nat, c: Conn, i: Inbound)
    requires Shape(c) && EarlyShape(c) && NoLost(hub, unfired, c) && TargetOld(hub, c) && SessEnabled(hub, c, In(i))
    ensures NoLost(hub, unfired, ConnNext(hub, c, In(i))) && TargetOld(hub, ConnNext(hub, c, In(i)))
  {
    match i
    case RecvHello => case ReadTarget => case HelloMarked => case RecvMsg => case TimedOut(_, _) =>
  }

  lemma NoLostKeptEmit(hub: Hub, unfired: nat, c: Conn, e: Emission)
    requires Shape(c) && EarlyShape(c) && NoLost(hub, unfired, c) && TargetOld(hub, c) && SessEnabled(hub, c, Emit(e))
    ensures NoLost(hub, unfired, ConnNext(hub, c, Emit(e))) && TargetOld(hub, ConnNext(hub, c, Emit(e)))
  {
    match e
    case ReadySend => case PushSend => case PingSend => case ByeSend => case ErrSend =>
  }

  lemma NoLostKeptOut(hub: Hub, unfired: nat, c: Conn, o: Outside)
    requires Shape(c) && EarlyShape(c) && NoLost(hub, unfired, c) && TargetOld(hub, c) && SessEnabled(hub, c, Out(o))
    ensures NoLost(hub, unfired, ConnNext(hub, c, Out(o))) && TargetOld(hub, ConnNext(hub, c, Out(o)))
  {
    match o
    case WakeCall => case StopCall(_) => case IoFail =>
  }

  lemma ClaimsKept(hub: Hub, g: Pos, c: Conn, step: SessStep)
    requires Shape(c) && Claims(hub.epoch, g, c) && SessEnabled(hub, c, step)
    ensures Claims(hub.epoch, g, ConnNext(hub, c, step))
  {
    if step.In? {
      ClaimsKeptIn(hub, g, c, step.i);
    } else {
      OnlyReceivingHears(hub, c, step);
    }
  }

  lemma OnlyReceivingHears(hub: Hub, c: Conn, step: SessStep)
    requires SessEnabled(hub, c, step) && !step.In?
    ensures var c' := ConnNext(hub, c, step);
            c'.up == c.up && c'.sess.rp == c.sess.rp && c'.sess.acked == c.sess.acked && c'.sess.epoch == c.sess.epoch
  {
    match step
    case Emit(_) =>
    case Local(x) => match x {
      case WaitEnd => case TopOfLoop => case ReadyTaken => case ReadyMarked => case PushTaken => case PushAsked =>
      case PushRefused => case PushSynced => case PushMarked => case PingTaken => case ByeTaken =>
    }
    case Out(o) => match o { case WakeCall => case StopCall(_) => case IoFail => }
  }

  lemma ClaimsKeptIn(hub: Hub, g: Pos, c: Conn, i: Inbound)
    requires Shape(c) && Claims(hub.epoch, g, c) && SessEnabled(hub, c, In(i))
    ensures Claims(hub.epoch, g, ConnNext(hub, c, In(i)))
  {
    if c.up != [] {
      assert UpClaim(hub.epoch, g, c.up[0]);
    }
    match i
    case RecvHello => case ReadTarget => case HelloMarked => case RecvMsg => case TimedOut(_, _) =>
  }

  // ----- pings -----

  lemma {:induction false} PingsAppend(d: seq<Down>, m: Down)
    ensures Pings(d + [m]) == Pings(d) + (if m.Ping? then [m] else [])
  {
    if d != [] {
      assert (d + [m])[1..] == d[1..] + [m];
      PingsAppend(d[1..], m);
    } else {
      assert (d + [m])[1..] == [];
    }
  }

  lemma {:induction false} PongsAppend(u: seq<Up>, m: Up)
    ensures Pongs(u + [m]) == Pongs(u) + (if m.Pong? then [m] else [])
  {
    if u != [] {
      assert (u + [m])[1..] == u[1..] + [m];
      PongsAppend(u[1..], m);
    } else {
      assert (u + [m])[1..] == [];
    }
  }

  lemma PingKept(hub: Hub, hist: Hist, g: Pos, inst: string, c: Conn, step: SessStep)
    requires Shape(c) && PingInv(c) && LiveInv(hist, g, inst, c) && SessEnabled(hub, c, step)
    ensures PingInv(ConnNext(hub, c, step))
  {
    match step
    case Emit(e) => PingKeptEmit(hub, c, e);
    case Local(x) => PingKeptLocal(hub, c, x);
    case In(i) =>
      if i.RecvHello? && !c.cli.Left? && !c.early { assert BeforeReady(g, inst, c) && |c.up| == 1; }
      PingKeptIn(hub, c, i);
    case Out(o) => PingKeptOut(hub, c, o);
  }

  lemma PingKeptEmit(hub: Hub, c: Conn, e: Emission)
    requires PingInv(c) && SessEnabled(hub, c, Emit(e))
    ensures PingInv(ConnNext(hub, c, Emit(e)))
  {
    PingsAppend(c.down, Frame(c.sess, e));
    match e
    case ReadySend => case PushSend => case PingSend => case ByeSend => case ErrSend =>
  }

  lemma PingKeptLocal(hub: Hub, c: Conn, x: Section)
    requires Shape(c) && PingInv(c) && SessEnabled(hub, c, Local(x))
    ensures PingInv(ConnNext(hub, c, Local(x)))
  {
    match x
    case WaitEnd => case TopOfLoop => case ReadyTaken => case ReadyMarked => case PushTaken => case PushAsked =>
    case PushRefused => case PushSynced => case PushMarked => case PingTaken => case ByeTaken =>
  }

  /** A PONG on the wire answers the outstanding ping. */
  lemma PongIsAwaited(c: Conn)
    requires PingInv(c) && !c.early && !c.cli.Left? && c.up != [] && c.up[0].Pong? && !c.sess.sp.Ended?
    ensures c.up[0] == Pong(c.sess.ping) && c.sess.ping != 0 && Pings(c.down) == [] && Pongs(c.up[1..]) == []
  {
    assert Pongs(c.up) == [c.up[0]] + Pongs(c.up[1..]);
    assert Pongs(c.up)[0] == c.up[0];
  }

  lemma PingKeptIn(hub: Hub, c: Conn, i: Inbound)
    requires PingInv(c) && SessEnabled(hub, c, In(i))
    requires i.RecvHello? && !c.cli.Left? && !c.early ==> c.up[0].Hello?
    ensures PingInv(ConnNext(hub, c, In(i)))
  {
    if i.RecvMsg? && !c.early && !c.cli.Left? && c.up[0].Pong? && !c.sess.sp.Ended? {
      PongIsAwaited(c);
    }
    match i
    case RecvHello => case ReadTarget => case HelloMarked => case RecvMsg => case TimedOut(_, _) =>
  }

  lemma PingKeptOut(hub: Hub, c: Conn, o: Outside)
    requires PingInv(c) && SessEnabled(hub, c, Out(o))
    ensures PingInv(ConnNext(hub, c, Out(o)))
  {
    match o
    case WakeCall => case StopCall(_) => case IoFail =>
  }

  // ----- the connection in use -----

  lemma LiveKept(hub: Hub, hist: Hist, g: Pos, inst: string, c: Conn, step: SessStep)
    requires HubInv(hub, hist) && Known(hist, g)
    requires Shape(c) && LiveInv(hist, g, inst, c) && SessEnabled(hub, c, step)
    ensures LiveInv(hist, g, inst, ConnNext(hub, c, step))
  {
    match step
    case Emit(e) => LiveKeptEmitting(hub, hist, g, inst, c, e);
    case Local(x) => LiveKeptLocal(hub, hist, g, inst, c, x);
    case In(i) =>
      if i.RecvMsg? { LiveKeptOnMsg(hub, hist, g, inst, c); } else { LiveKeptHello(hub, hist, g, inst, c, i); }
    case Out(o) => LiveKeptOutside(hub, hist, g, inst, c, o);
  }

  lemma LiveKeptEmitting(hub: Hub, hist: Hist, g: Pos, inst: string, c: Conn, e: Emission)
    requires Shape(c) && LiveInv(hist, g, inst, c) && SessEnabled(hub, c, Emit(e))
    ensures LiveInv(hist, g, inst, ConnNext(hub, c, Emit(e)))
  {
    if c.cli.Left? || c.early {
    } else if c.readySent {
      AfterReadyEmits(hub, hist, g, inst, c, e);
    } else if e.ReadySend? {
      assert Syncs(c.down + [Frame(c.sess, e)]) == [] && Acks(c.up) == [];
    }
  }

  lemma AfterReadyEmits(hub: Hub, hist: Hist, g: Pos, inst: string, c: Conn, e: Emission)
    requires AfterReady(hist, g, inst, c) && SessEnabled(hub, c, Emit(e)) && !e.ReadySend?
    ensures AfterReady(hist, g, inst, ConnNext(hub, c, Emit(e)))
  {
    var m := Frame(c.sess, e);
    FlightEmits(hist, g, inst, c.sess, Syncs(c.down), Acks(c.up), e);
    SyncsAppend(c.down, m);
    QueuesAppend(c.sess.epoch, c.cli, c.up, c.down, m);
  }

  lemma QueuesAppend(epoch: nat, cli: Client, up: seq<Up>, down: seq<Down>, m: Down)
    requires Queues(epoch, cli, up, down) && !m.Ready?
    ensures Queues(epoch, cli, up, down + [m])
  {
  }

  lemma FlightEmits(hist: Hist, g: Pos, inst: string, s: Session, d: seq<Down>, a: seq<Up>, e: Emission)
    requires EmitEnabled(s.sp, e)
    requires Flight(hist, g, inst, s.epoch, d, a, s.sync, s.sentVer, s.sentOnce, s.sp)
    ensures Flight(hist, g, inst, s.epoch, d + (if Frame(s, e).Sync? then [Frame(s, e)] else []), a, s.sync, s.sentVer,
                   s.sentOnce, AfterFrame(s.sp, e))
  {
    match e
    case ReadySend => case PushSend => case PingSend => case ByeSend => case ErrSend =>
  }

  /** An ACK on the wire is for the outstanding sync, and settles it. */
  lemma AckSettles(hist: Hist, g: Pos, inst: string, epoch: nat, d: seq<Down>, a: seq<Up>,
                   sync: Wait, sentVer: nat, sentOnce: bool, sp: SendPc)
    requires Flight(hist, g, inst, epoch, d, a, sync, sentVer, sentOnce, sp) && a != [] && !sp.Ended?
    ensures sync.num != 0 && a == [Ack(sync.num, inst, epoch, sync.ver)]
    ensures Flight(hist, g, inst, epoch, d, [], Wait(0, 0), sentVer, sentOnce, sp)
  {
  }

  lemma LiveKeptOnMsg(hub: Hub, hist: Hist, g: Pos, inst: string, c: Conn)
    requires Shape(c) && LiveInv(hist, g, inst, c) && SessEnabled(hub, c, In(RecvMsg))
    ensures LiveInv(hist, g, inst, ConnNext(hub, c, In(RecvMsg)))
  {
    if !c.cli.Left? && !c.early && c.readySent {
      MsgIsExpected(hist, g, inst, c);
    }
  }

  /** In an accepted session every message is a PONG or the ACK the session waits for. */
  lemma MsgIsExpected(hist: Hist, g: Pos, inst: string, c: Conn)
    requires AfterReady(hist, g, inst, c) && c.up != []
    ensures c.up[0].Pong? || c.sess.sp.Ended? || AckFits(c.sess, c.up[0])
    ensures Queues(c.sess.epoch, c.cli, c.up[1..], c.down) && !c.up[0].SnapReq?
    ensures var s := c.sess;
            Flight(hist, g, inst, s.epoch, Syncs(c.down), Acks(c.up[1..]),
                   if AckFits(s, c.up[0]) then Wait(0, 0) else s.sync, s.sentVer, s.sentOnce, s.sp)
  {
    var s := c.sess;
    var m := c.up[0];
    var rest := c.up[1..];
    assert Acks(c.up) == (if m.Ack? then [m] else []) + Acks(rest);
    if m.Ack? && !s.sp.Ended? {
      AckSettles(hist, g, inst, s.epoch, Syncs(c.down), Acks(c.up), s.sync, s.sentVer, s.sentOnce, s.sp);
      assert Acks(c.up)[0] == m && Acks(rest) == [];
    }
  }

  lemma LiveKeptHello(hub: Hub, hist: Hist, g: Pos, inst: string, c: Conn, i: Inbound)
    requires HubInv(hub, hist) && Known(hist, g)
    requires Shape(c) && LiveInv(hist, g, inst, c) && SessEnabled(hub, c, In(i)) && !i.RecvMsg?
    ensures LiveInv(hist, g, inst, ConnNext(hub, c, In(i)))
  {
  }

  lemma LiveKeptOutside(hub: Hub, hist: Hist, g: Pos, inst: string, c: Conn, o: Outside)
    requires Shape(c) && LiveInv(hist, g, inst, c) && SessEnabled(hub, c, Out(o))
    ensures LiveInv(hist, g, inst, ConnNext(hub, c, Out(o)))
  {
    match o
    case WakeCall => case StopCall(_) => case IoFail =>
  }

  lemma LiveKeptLocal(hub: Hub, hist: Hist, g: Pos, inst: string, c: Conn, x: Section)
    requires HubInv(hub, hist) && Known(hist, g)
    requires Shape(c) && LiveInv(hist, g, inst, c) && SessEnabled(hub, c, Local(x))
    ensures LiveInv(hist, g, inst, ConnNext(hub, c, Local(x)))
  {
    if x.PushAsked? || x.PushSynced? || x.PushMarked? {
      LiveKeptPushing(hub, hist, g, inst, c, x);
    } else if Ends(x) {
      LiveKeptEnding(hub, hist, g, inst, c, x);
    } else {
      LiveKeptDeciding(hub, hist, g, inst, c, x);
    }
  }

  lemma LiveKeptDeciding(hub: Hub, hist: Hist, g: Pos, inst: string, c: Conn, x: Section)
    requires Shape(c) && LiveInv(hist, g, inst, c) && SessEnabled(hub, c, Local(x))
    requires !x.PushAsked? && !x.PushSynced? && !Ends(x)
    ensures LiveInv(hist, g, inst, ConnNext(hub, c, Local(x)))
  {
    if c.early || c.cli.Left? { return; }
    match x
    case WaitEnd => case TopOfLoop => case ReadyTaken => case ReadyMarked =>
    case PushTaken => LiveKeptTaking(hub, hist, g, inst, c);
  }

  lemma LiveKeptTaking(hub: Hub, hist: Hist, g: Pos, inst: string, c: Conn)
    requires Shape(c) && LiveInv(hist, g, inst, c) && SessEnabled(hub, c, Local(PushTaken))
    requires !c.early && !c.cli.Left?
    ensures LiveInv(hist, g, inst, ConnNext(hub, c, Local(PushTaken)))
  {
  }

  lemma LiveKeptEnding(hub: Hub, hist: Hist, g: Pos, inst: string, c: Conn, x: Section)
    requires Shape(c) && LiveInv(hist, g, inst, c) && SessEnabled(hub, c, Local(x))
    requires Ends(x) && !x.PushMarked?
    ensures LiveInv(hist, g, inst, ConnNext(hub, c, Local(x)))
  {
    if c.early || c.cli.Left? { return; }
    match x case PushRefused => case PingTaken => case ByeTaken =>
  }

  lemma LiveKeptPushing(hub: Hub, hist: Hist, g: Pos, inst: string, c: Conn, x: Section)
    requires HubInv(hub, hist) && Known(hist, g)
    requires Shape(c) && LiveInv(hist, g, inst, c) && SessEnabled(hub, c, Local(x))
    requires x.PushAsked? || x.PushSynced? || x.PushMarked?
    ensures LiveInv(hist, g, inst, ConnNext(hub, c, Local(x)))
  {
    if !c.early && !c.cli.Left? && c.readySent {
      FlightPushes(hub, hist, g, inst, c.sess, Syncs(c.down), Acks(c.up), x);
    }
    match x
    case PushAsked => case PushSynced => case _ =>
  }

  lemma FlightPushes(hub: Hub, hist: Hist, g: Pos, inst: string, s: Session, d: seq<Down>, a: seq<Up>, x: Section)
    requires HubInv(hub, hist) && Known(hist, g) && s.epoch == hub.epoch && s.nextSeq != 0
    requires SectionEnabled(s.token, s.sp, x) && (x.PushAsked? || x.PushSynced? || x.PushMarked?)
    requires Flight(hist, g, inst, s.epoch, d, a, s.sync, s.sentVer, s.sentOnce, s.sp)
    requires WfStore(hub.store)
    ensures var t := RunSection(hub, s, x);
            Flight(hist, g, inst, s.epoch, d, a, t.sync, t.sentVer, t.sentOnce, t.sp)
  {
    if x.PushAsked? {
      PushIsValid(hub, hist, g, s.sp.from, s.sp.once);
    }
    match x
    case PushAsked => case PushSynced => case _ =>
  }
}
