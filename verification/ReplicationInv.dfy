/** The inductive invariant of the replication protocol. */
module ReplicationInv {
  import opened HubSpec
  import opened GuardSpec
  import opened SessionSpec
  import opened Replication

  type Hist = map<nat, Life>

  ghost predicate HubInv(hub: Hub, hist: Hist) {
    && hub.epoch != 0 && 0 !in hist
    && hub.epoch in hist
    && LifeFits(hub, hist[hub.epoch])
    && forall e, v :: e in hist && v in hist[e] ==> WfStore(hist[e][v])
  }

  /** The guard holds exactly the rule set of the version it claims, save for rules it has
      itself expired. */
  ghost predicate Faithful(hist: Hist, g: Guard) {
    if g.epoch == 0 then g.ver == 0 && g.remote == map[]
    else
      && g.epoch in hist && g.ver in hist[g.epoch]
      && Agrees(g.remote, hist[g.epoch][g.ver], g.clock)
  }

  /** Where a guard stands. */
  datatype Pos = Pos(epoch: nat, ver: nat)

  function PosOf(g: Guard): Pos { Pos(g.epoch, g.ver) }

  ghost predicate Known(hist: Hist, g: Pos) {
    g.epoch == 0 || (g.epoch in hist && g.ver in hist[g.epoch])
  }

  // ----- what a client may have told the hub about itself -----

  predicate Claim(now: nat, g: Pos, epoch: nat, ver: nat) {
    epoch == now ==> g.epoch == epoch && ver <= g.ver
  }

  predicate UpClaim(now: nat, g: Pos, m: Up) {
    (m.Hello? || m.Ack?) ==> Claim(now, g, m.epoch, m.ver)
  }

  ghost predicate ClaimsHold(now: nat, g: Pos, up: seq<Up>, rp: RecvPc, acked: nat) {
    && (forall i :: 0 <= i < |up| ==> UpClaim(now, g, up[i]))
    && (!rp.AwaitHello? && !rp.Loop? ==> UpClaim(now, g, rp.hello))
    && (acked == 0 || (g.epoch == now && acked <= g.ver))
  }

  /** Everything the hub of epoch `now` has been told, or is about to be told, is true of the guard. */
  ghost predicate Claims(now: nat, g: Pos, c: Conn) {
    c.sess.epoch == now ==> ClaimsHold(now, g, c.up, c.sess.rp, c.sess.acked)
  }

  // ----- frames in flight -----

  function Syncs(d: seq<Down>): seq<Down> {
    if d == [] then [] else (if d[0].Sync? then [d[0]] else []) + Syncs(d[1..])
  }

  function Acks(u: seq<Up>): seq<Up> {
    if u == [] then [] else (if u[0].Ack? then [u[0]] else []) + Acks(u[1..])
  }

  /** The guard stands where the session believes it does. */
  ghost predicate At(g: Pos, epoch: nat, ver: nat, once: bool) {
    if once then g.epoch == epoch && g.ver == ver else g.epoch != epoch
  }

  /** Applying `p` to the guard will succeed and land on a version of life `epoch`. */
  ghost predicate ValidPush(hist: Hist, g: Pos, epoch: nat, p: Push) {
    && p.epoch == epoch && epoch in hist && p.ver in hist[epoch]
    && match p
       case FullPush(_, ver, rules) =>
         FromList(rules) == hist[epoch][ver] && (g.epoch == epoch ==> g.ver < ver)
       case DeltaPush(_, prev, ver, ops) =>
         && g.epoch == epoch && g.ver == prev && prev < ver && prev in hist[epoch]
         && ApplyOps(hist[epoch][prev], ops) == hist[epoch][ver]
         && forall i :: 0 <= i < |ops| ==> WfOp(ops[i])
  }

  /** The one outstanding sync is either still on its way down or acknowledged on its way up. */
  ghost predicate InFlight(hist: Hist, g: Pos, inst: string, epoch: nat, d: seq<Down>, a: seq<Up>, w: Wait) {
    || (|d| == 1 && a == [] && d[0].Sync? && d[0].num == w.num && d[0].push.ver == w.ver
        && ValidPush(hist, g, epoch, d[0].push))
    || (d == [] && a == [Ack(w.num, inst, epoch, w.ver)] && g.epoch == epoch && g.ver == w.ver)
  }

  /** `d` and `a` are the sync frames and the ACKs on the wire. */
  ghost predicate Flight(hist: Hist, g: Pos, inst: string, epoch: nat, d: seq<Down>, a: seq<Up>,
                         sync: Wait, sentVer: nat, sentOnce: bool, sp: SendPc) {
    match sp
    case PushGot(p) => sync.num == 0 && d == [] && a == [] && ValidPush(hist, g, epoch, p)
    case PushOut(num, p) =>
      num != 0 && sync == Wait(num, p.ver) && d == [] && a == [] && ValidPush(hist, g, epoch, p)
    case PushMark(num, ver) =>
      || (num != 0 && sync == Wait(num, ver) && InFlight(hist, g, inst, epoch, d, a, sync))
      || (sync.num == 0 && d == [] && a == [] && g.epoch == epoch && g.ver == ver)
    case Ended =>
      d == [] || (|d| == 1 && d[0].Sync? && d[0].num != 0 && ValidPush(hist, g, epoch, d[0].push))
    case _ =>
      if sync.num == 0 then
        && d == [] && a == [] && At(g, epoch, sentVer, sentOnce)
        && (sp.PushCall? ==> sp.from == sentVer && sp.once == sentOnce)
      else
        && sentOnce && sentVer == sync.ver && !sp.PushCall? && !sp.PushNone?
        && InFlight(hist, g, inst, epoch, d, a, sync)
  }

  // ----- the connection in use -----

  /** A frame other than READY is first: the client will refuse the connection. */
  predicate Doomed(cli: Client, down: seq<Down>) {
    cli.AwaitReady? && down != [] && !down[0].Ready?
  }

  /** How far the HELLO has got. */
  predicate HelloAt(hello: Up, up: seq<Up>, sentOnce: bool, known: bool, rp: RecvPc) {
    match rp
    case AwaitHello => up == [hello] && !sentOnce
    case GotHello(h) => up == [] && h == hello && !sentOnce
    case HaveTarget(h, t) => up == [] && h == hello && !sentOnce && (known ==> hello.Hello? && hello.ver <= t)
    case Loop => up == []
  }

  ghost predicate BeforeReady(g: Pos, inst: string, c: Conn) {
    var s := c.sess;
    && c.cli.AwaitReady? && c.cli.num != 0 && c.down == []
    && !s.forceFull && !s.sp.PushMark? && !s.sp.ReadyMark?
    && (s.sp.ReadyOut? ==> s.sp.num == s.helloSeq)
    && HelloAt(Hello(c.cli.num, inst, g.epoch, g.ver), c.up, s.sentOnce, g.epoch == s.epoch, s.rp)
    && (s.rp.Loop? ==> At(g, s.epoch, s.sentVer, s.sentOnce) && s.helloSeq == c.cli.num && s.inst == inst)
  }

  /** Which frames may be queued once READY has been sent. */
  predicate Queues(epoch: nat, cli: Client, up: seq<Up>, down: seq<Down>) {
    && (forall i :: 0 <= i < |up| ==> up[i].Ack? || up[i].Pong?)
    && if cli.AwaitReady? then
         && down != [] && down[0].Ready? && down[0].num == cli.num && down[0].epoch == epoch
         && (forall i :: 1 <= i < |down| ==> !down[i].Ready?)
       else
         && cli == Streaming(epoch, false)
         && (forall i :: 0 <= i < |down| ==> !down[i].Ready?)
  }

  ghost predicate AfterReady(hist: Hist, g: Pos, inst: string, c: Conn) {
    var s := c.sess;
    && !s.forceFull && s.inst == inst && (s.dirty ==> s.sync.num != 0)
    && Queues(s.epoch, c.cli, c.up, c.down)
    && Flight(hist, g, inst, s.epoch, Syncs(c.down), Acks(c.up), s.sync, s.sentVer, s.sentOnce, s.sp)
  }

  ghost predicate LiveInv(hist: Hist, g: Pos, inst: string, c: Conn) {
    !c.cli.Left? ==>
      if c.early then Doomed(c.cli, c.down)
      else if !c.readySent then BeforeReady(g, inst, c)
      else AfterReady(hist, g, inst, c)
  }

  // ----- pings -----

  function Pings(d: seq<Down>): seq<Down> {
    if d == [] then [] else (if d[0].Ping? then [d[0]] else []) + Pings(d[1..])
  }

  function Pongs(u: seq<Up>): seq<Up> {
    if u == [] then [] else (if u[0].Pong? then [u[0]] else []) + Pongs(u[1..])
  }

  /** `d` and `a` are the PINGs and PONGs on the wire: the one outstanding ping is about to be sent,
      on its way down, or answered on its way up. */
  predicate PingFlight(d: seq<Down>, a: seq<Up>, ping: nat, sp: SendPc) {
    if sp.Ended? then forall i :: 0 <= i < |d| ==> d[i].Ping? && d[i].num != 0
    else if sp.PingOut? then ping == sp.num != 0 && d == [] && a == []
    else if ping == 0 then d == [] && a == []
    else (d == [Ping(ping)] && a == []) || (d == [] && a == [Pong(ping)])
  }

  predicate PingInv(c: Conn) {
    !c.early && !c.cli.Left? ==> PingFlight(Pings(c.down), Pongs(c.up), c.sess.ping, c.sess.sp)
  }

  // ----- no lost update -----

  predicate Settling(sp: SendPc) {
    sp.Awake? || sp.ReadyCheck? || sp.ReadyOut? || sp.ReadyMark? || sp.PushCheck?
  }

  /** With no notification on its way, a session that has not sent the hub's version knows
      that it must, unless marking HELLO has taken its push back. */
  predicate NoLost(hub: Hub, unfired: nat, c: Conn) {
    var s := c.sess;
    s.epoch == hub.epoch && !c.forgot && !c.stopped && unfired == 0 && c.wakes == 0 ==>
      if s.sp.PushGot? || s.sp.PushOut? then s.sp.push.ver != hub.ver ==> s.pushDue || s.dirty
      else if s.sp.PushMark? then s.sp.ver != hub.ver ==> s.pushDue || s.dirty
      else if s.sp.PushCall? then true
      else if c.marked then !s.sentOnce || s.sentVer != hub.ver ==> s.pushDue || s.dirty
      else
        && (s.rp.HaveTarget? && s.rp.target != hub.ver ==>
              s.pushDue || s.dirty || (s.sentOnce && s.sentVer == hub.ver))
        && (s.rp.Loop? && s.sentOnce && s.sentVer == s.targetVer && s.targetVer != hub.ver ==> s.pushDue || s.dirty)
  }

  /** A session whose push was taken back believes its client at the target, and nothing is due. */
  predicate ForgotShape(c: Conn) {
    var s := c.sess;
    c.forgot ==>
      && c.early && s.rp.Loop? && c.up == []
      && s.sentOnce && s.sentVer == s.targetVer && !s.pushDue && !s.dirty && !s.forceFull
      && !MidSend(s.sp) && !s.sp.PushNone?
  }

  predicate MidSend(sp: SendPc) {
    sp.PushCall? || sp.PushGot? || sp.PushOut? || sp.PushMark?
  }

  /** Before READY the client has said HELLO and nothing else. */
  predicate OnlyHello(readySent: bool, up: seq<Up>, rp: RecvPc) {
    !readySent ==> if rp.AwaitHello? then |up| <= 1 else up == []
  }

  /** Before HELLO is marked at most one push can start, and its sync stays outstanding. */
  predicate OnePush(sync: Wait, sentOnce: bool, forceFull: bool, sp: SendPc, rp: RecvPc) {
    !rp.Loop? ==>
      && (sp.PushCall? || sp.PushGot? ==> sync.num == 0)
      && (sp.PushCall? ==> !sp.once) && !sp.PushNone?
      && (sentOnce || sp.PushOut? || sp.PushMark? ==> sync.num != 0)
      && (MidSend(sp) ==> !sentOnce)
      && !forceFull
  }

  // ----- how the program points of a session fit together -----
  // Each part names only the fields it is about.

  predicate ReadyShape(readySent: bool, marked: bool, ready: bool, target: nat, sp: SendPc, rp: RecvPc) {
    && (ready ==> rp.Loop?)
    && (marked ==> readySent)
    && (readySent ==> rp.Loop? && !ready && !sp.ReadyOut?)
    && (readySent && !marked ==> sp.ReadyMark? || sp.Ended?)
    && (sp.ReadyOut? ==> rp.Loop? && !ready && sp.target == target)
    && (sp.ReadyMark? ==> readySent && sp.target == target)
    && (!rp.AwaitHello? && !rp.Loop? ==> rp.hello.Hello?)
  }

  predicate QuietShape(early: bool, readySent: bool, sync: Wait, dirty: bool, sp: SendPc) {
    !readySent && !early ==>
      && !sp.PushMark?
      && (sync.num != 0 || dirty ==> sp.PushOut? || sp.Ended?)
  }

  predicate StopShape(stopped: bool, st: State, sendErr: bool, sp: SendPc) {
    && (!Active(st) ==> stopped)
    && (sendErr || sp.ErrOut? || sp.ByeOut? || sp.Ended? ==> stopped)
  }

  predicate AskShape(early: bool, readySent: bool, sentVer: nat, sentOnce: bool, sp: SendPc, rp: RecvPc) {
    && (sp.PushCall? && (readySent || sp.once) ==> rp.Loop? && sp.from == sentVer && sp.once == sentOnce)
    && (!early && !rp.Loop? ==> !sentOnce)
  }

  predicate TokenShape(stopped: bool, pushDue: bool, token: bool, sp: SendPc) {
    !stopped && pushDue ==> token || Settling(sp)
  }

  predicate Shape(c: Conn) {
    var s := c.sess;
    && s.nextSeq > 0
    && ReadyShape(c.readySent, c.marked, s.ready, s.targetVer, s.sp, s.rp)
    && QuietShape(c.early, c.readySent, s.sync, s.dirty, s.sp)
    && StopShape(c.stopped, s.st, s.sendErr, s.sp)
    && AskShape(c.early, c.readySent, s.sentVer, s.sentOnce, s.sp, s.rp)
    && TokenShape(c.stopped, s.pushDue, s.token, s.sp)
  }

  /** How the time before READY goes. */
  predicate EarlyShape(c: Conn) {
    && OnlyHello(c.readySent, c.up, c.sess.rp)
    && OnePush(c.sess.sync, c.sess.sentOnce, c.sess.forceFull, c.sess.sp, c.sess.rp)
    && ForgotShape(c)
  }

  /** The version promised in READY is one the hub has reached; so is a pushed one, and one that
      was taken back was past the target. */
  predicate TargetOld(hub: Hub, c: Conn) {
    var s := c.sess;
    s.epoch == hub.epoch ==>
      && (s.rp.HaveTarget? ==> s.rp.target <= hub.ver)
      && (s.rp.Loop? ==> s.targetVer <= hub.ver)
      && (s.sp.PushGot? || s.sp.PushOut? ==> s.sp.push.ver <= hub.ver)
      && (s.sp.PushMark? ==> s.sp.ver <= hub.ver)
      && (!s.rp.Loop? && s.sentOnce ==> s.sentVer <= hub.ver)
      && (c.forgot ==> s.targetVer < hub.ver)
  }

  // ----- a link, and the system -----

  ghost predicate ConnInv(hub: Hub, unfired: nat, hist: Hist, g: Pos, inst: string, c: Conn) {
    && c.sess.epoch in hist
    && Claims(hub.epoch, g, c)
    && LiveInv(hist, g, inst, c)
    && Shape(c)
    && EarlyShape(c)
    && PingInv(c)
    && NoLost(hub, unfired, c)
    && TargetOld(hub, c)
  }

  ghost predicate LinkInv(hub: Hub, unfired: nat, hist: Hist, l: Link) {
    && Faithful(hist, l.guard)
    && (forall i :: 0 <= i < |l.conns| ==> ConnInv(hub, unfired, hist, PosOf(l.guard), l.inst, l.conns[i]))
    && (forall i :: 0 <= i < |l.conns| - 1 ==> l.conns[i].cli.Left?)
    && (forall i :: 0 <= i < |l.conns| && l.conns[i].sess.epoch == hub.epoch ==>
          l.conns[|l.conns| - 1].sess.epoch == hub.epoch)
    && (l.guard.epoch == hub.epoch ==>
          l.conns != [] && l.conns[|l.conns| - 1].sess.epoch == hub.epoch)
  }

  ghost predicate Inv(s: System) {
    && HubInv(s.hub, s.hist)
    && forall i :: 0 <= i < |s.links| ==> LinkInv(s.hub, s.unfired, s.hist, s.links[i])
  }
}
