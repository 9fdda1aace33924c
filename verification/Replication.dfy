/** The rule replication protocol as a labelled transition system: hub edits and restarts,
    change notifications, every critical section of every session, FIFO links, the client
    half of the protocol and local expiry (src/ipban/session.cpp, src/ipban/pull.cpp). */
module Replication {
  import opened Rules
  import opened HubSpec
  import opened GuardSpec
  import opened SessionSpec

  /** The client's side of one connection (SyncClient::session). */
  datatype Client =
    | AwaitReady(num: nat)
    | Streaming(epoch: nat, badSync: bool)
    | Left

  /** One connection with its two FIFO queues. `wakes` counts wake() calls still to come;
      `early`, `readySent`, `marked`, `stopped` and `forgot` only record what has happened so far. */
  datatype Conn = Conn(
    sess: Session,
    up: seq<Up>,
    down: seq<Down>,
    cli: Client,
    wakes: nat,
    early: bool,       // the first frame sent was not READY
    readySent: bool,
    marked: bool,      // the section after the READY frame has run
    stopped: bool,     // the session state has been DRAIN or CLOSING
    forgot: bool)      // marking HELLO took back a push, and no wake-up has come since

  /** One gateway with all the connections it ever made; only the last can be in use. */
  datatype Link = Link(inst: string, guard: Guard, conns: seq<Conn>)

  /** `unfired` counts recorded changes whose notification has not listed the sessions yet;
      `hist` holds, per life of the hub, the rule set of each version. */
  datatype System = System(hub: Hub, unfired: nat, hist: map<nat, Life>, links: seq<Link>)

  /** The send fiber puts a frame on the wire. */
  datatype Emission = ReadySend | PushSend | PingSend | ByeSend | ErrSend

  /** The send fiber runs a critical section, or asks the engine what to push. */
  datatype Section =
    | WaitEnd | TopOfLoop
    | ReadyTaken | ReadyMarked
    | PushTaken | PushAsked | PushRefused | PushSynced | PushMarked
    | PingTaken | ByeTaken

  /** The receive fiber reads a frame, times out, or runs part of the HELLO exchange. */
  datatype Inbound = RecvHello | ReadTarget | HelloMarked | RecvMsg | TimedOut(ackDue: bool, pongDue: bool)

  datatype Outside = WakeCall | StopCall(drain: bool) | IoFail

  datatype SessStep = Emit(e: Emission) | Local(x: Section) | In(i: Inbound) | Out(o: Outside)

  datatype LinkStep =
    | Sess(c: nat, step: SessStep)
    | Dial(num: nat)
    | ClientMsg
    | ClientLeave
    | LocalTick(now: nat)

  datatype Step =
    | HubEdit(op: DeltaOp)
    | HubFire(k: nat)
    | HubRestart(epoch: nat, ver: nat, store: Store)
    | OnLink(l: nat, step: LinkStep)

  // ----- one session step -----

  predicate EmitEnabled(sp: SendPc, e: Emission) {
    match e
    case ReadySend => sp.ReadyOut?
    case PushSend => sp.PushOut?
    case PingSend => sp.PingOut?
    case ByeSend => sp.ByeOut?
    case ErrSend => sp.ErrOut?
  }

  predicate SectionEnabled(token: bool, sp: SendPc, x: Section) {
    match x
    case WaitEnd => sp.Waiting? && token
    case TopOfLoop => sp.Awake?
    case ReadyTaken => sp.ReadyCheck?
    case ReadyMarked => sp.ReadyMark?
    case PushTaken => sp.PushCheck?
    case PushAsked => sp.PushCall?
    case PushRefused => sp.PushNone?
    case PushSynced => sp.PushGot?
    case PushMarked => sp.PushMark?
    case PingTaken => sp.PingCheck?
    case ByeTaken => sp.ByeCheck?
  }

  predicate InEnabled(up: seq<Up>, st: State, rp: RecvPc, i: Inbound) {
    match i
    case RecvHello => rp.AwaitHello? && up != []
    case ReadTarget => rp.GotHello?
    case HelloMarked => rp.HaveTarget? && rp.hello.Hello?
    case RecvMsg => rp.Loop? && up != [] && Running(st)
    case TimedOut(_, _) => rp.Loop? && Running(st)
  }

  /** A session takes steps only while the life of the hub it belongs to runs. */
  ghost predicate SessEnabled(hub: Hub, c: Conn, step: SessStep) {
    && c.sess.epoch == hub.epoch
    && match step
       case Emit(e) => EmitEnabled(c.sess.sp, e)
       case Local(x) => SectionEnabled(c.sess.token, c.sess.sp, x) && WfStore(hub.store)
       case In(i) => InEnabled(c.up, c.sess.st, c.sess.rp, i)
       case Out(o) => o.WakeCall? ==> c.wakes > 0
  }

  function Frame(s: Session, e: Emission): Down
    requires EmitEnabled(s.sp, e)
  {
    match e
    case ReadySend => Ready(s.sp.num, s.epoch, s.sp.target)
    case PushSend => Sync(s.sp.num, s.sp.push)
    case PingSend => Ping(s.sp.num)
    case ByeSend => Bye
    case ErrSend => Err
  }

  function AfterFrame(sp: SendPc, e: Emission): SendPc
    requires EmitEnabled(sp, e)
  {
    match e
    case ReadySend => ReadyMark(sp.target)
    case PushSend => PushMark(sp.num, sp.push.ver)
    case PingSend => ByeCheck
    case ByeSend => Ended
    case ErrSend => Ended
  }

  ghost function RunSection(hub: Hub, s: Session, x: Section): Session
    requires SectionEnabled(s.token, s.sp, x) && WfStore(hub.store)
  {
    match x
    case WaitEnd => s.(token := false, sp := Awake)
    case TopOfLoop => Top(s)
    case ReadyTaken => ReadyTake(s)
    case ReadyMarked => ReadyDone(s, s.sp.target)
    case PushTaken => PushTake(s)
    case PushAsked => PushAsk(s, hub)
    case PushRefused => PushNothing(s)
    case PushSynced => PushSync(s, s.sp.push)
    case PushMarked => PushDone(s, s.sp.ver)
    case PingTaken => PingTake(s)
    case ByeTaken => ByeTake(s)
  }

  function RunInbound(hub: Hub, s: Session, up: seq<Up>, i: Inbound): Session
    requires InEnabled(up, s.st, s.rp, i)
  {
    match i
    case RecvHello => OnHello(s, up[0])
    case ReadTarget => s.(rp := HaveTarget(s.rp.hello, hub.ver))
    case HelloMarked => HelloMark(s, s.rp.hello, s.rp.target)
    case RecvMsg => OnMsg(s, up[0])
    case TimedOut(a, p) => OnTimeout(s, a, p)
  }

  function RunOutside(s: Session, o: Outside): Session {
    match o
    case WakeCall => Wake(s)
    case StopCall(d) => BeginStop(s, d)
    case IoFail => Close(s).(sp := Ended)
  }

  /** The guard at which marking HELLO takes a push back: a version past the target has been pushed,
      nothing newer is due, and the client claims exactly the target. */
  predicate TakesBack(s: Session) {
    && s.rp.HaveTarget? && s.sentOnce && s.sentVer > s.rp.target && !s.pushDue && !s.dirty
    && s.rp.hello.Hello? && s.rp.hello.epoch == s.epoch && s.rp.hello.ver == s.rp.target
  }

  function Stopped(c: Conn, s: Session): bool { c.stopped || !Active(s.st) }

  ghost function ConnNext(hub: Hub, c: Conn, step: SessStep): Conn
    requires SessEnabled(hub, c, step)
  {
    match step
    case Emit(e) =>
      c.(sess := c.sess.(sp := AfterFrame(c.sess.sp, e)),
         down := c.down + [Frame(c.sess, e)],
         early := c.early || (!c.readySent && !e.ReadySend?),
         readySent := c.readySent || e.ReadySend?)
    case Local(x) =>
      var s := RunSection(hub, c.sess, x);
      c.(sess := s, marked := c.marked || x.ReadyMarked?, stopped := Stopped(c, s))
    case In(i) =>
      var s := RunInbound(hub, c.sess, c.up, i);
      c.(sess := s, up := if i.RecvHello? || i.RecvMsg? then c.up[1..] else c.up, stopped := Stopped(c, s),
         forgot := c.forgot || (i.HelloMarked? && TakesBack(c.sess)))
    case Out(o) =>
      var s := RunOutside(c.sess, o);
      c.(sess := s, wakes := if o.WakeCall? then c.wakes - 1 else c.wakes, stopped := Stopped(c, s),
         forgot := c.forgot && !o.WakeCall?)
  }

  // ----- the client half -----

  /** Applies a sync frame received under the epoch announced by READY. */
  function Apply(g: Guard, epoch: nat, p: Push): Option<Guard> {
    if p.epoch != epoch then None
    else match p
      case FullPush(e, ver, rules) => ApplyRemote(g, e, ver, rules)
      case DeltaPush(e, prev, ver, ops) => ApplyDelta(g, e, prev, ver, ops)
  }

  /** The client reads one frame. */
  function ClientNext(inst: string, g: Guard, c: Conn): (r: (Guard, Conn))
    requires !c.cli.Left? && c.down != []
  {
    var m := c.down[0];
    var c' := c.(down := c.down[1..]);
    if c.cli.AwaitReady? then
      if m.Ready? && m.num == c.cli.num then (g, c'.(cli := Streaming(m.epoch, false)))
      else (g, c'.(cli := Left))
    else
      match m
      case Ping(num) => if num == 0 then (g, c'.(cli := Left)) else (g, c'.(up := c.up + [Pong(num)]))
      case Sync(num, p) =>
        if num == 0 then (g, c'.(cli := Left))
        else
          (match Apply(g, c.cli.epoch, p)
           case Some(g') =>
             (g', c'.(cli := c.cli.(badSync := false), up := c.up + [Ack(num, inst, g'.epoch, g'.ver)]))
           case None =>
             if c.cli.badSync then (g, c'.(cli := Left))
             else (g, c'.(cli := c.cli.(badSync := true), up := c.up + [SnapReq])))
      case Ready(_, _, _) => (g, c'.(cli := Left))
      case Err => (g, c'.(cli := Left))
      case Bye => (g, c'.(cli := Left))
  }

  function NewConn(hub: Hub, l: Link, num: nat): Conn {
    Conn(NewSession(hub.epoch), [Hello(num, l.inst, l.guard.epoch, l.guard.ver)], [], AwaitReady(num), 0,
         false, false, false, false, false)
  }

  ghost predicate LinkEnabled(hub: Hub, l: Link, step: LinkStep) {
    match step
    case Sess(c, st) => c < |l.conns| && SessEnabled(hub, l.conns[c], st)
    case Dial(num) => num != 0 && (l.conns == [] || l.conns[|l.conns| - 1].cli.Left?)
    case ClientMsg => l.conns != [] && !l.conns[|l.conns| - 1].cli.Left? && l.conns[|l.conns| - 1].down != []
    case ClientLeave => l.conns != []
    case LocalTick(_) => true
  }

  ghost function LinkNext(hub: Hub, l: Link, step: LinkStep): Link
    requires LinkEnabled(hub, l, step)
  {
    var last := |l.conns| - 1;
    match step
    case Sess(c, st) => l.(conns := l.conns[c := ConnNext(hub, l.conns[c], st)])
    case Dial(num) => l.(conns := l.conns + [NewConn(hub, l, num)])
    case ClientMsg =>
      var (g, c) := ClientNext(l.inst, l.guard, l.conns[last]);
      l.(guard := g, conns := l.conns[last := c])
    case ClientLeave => l.(conns := l.conns[last := l.conns[last].(cli := Left)])
    case LocalTick(now) => l.(guard := Tick(l.guard, now))
  }

  // ----- the whole system -----

  function Notify(l: Link): Link {
    l.(conns := seq(|l.conns|, i requires 0 <= i < |l.conns| => l.conns[i].(wakes := l.conns[i].wakes + 1)))
  }

  ghost predicate Enabled(s: System, step: Step) {
    match step
    case HubEdit(op) => EditEnabled(s.hub, op)
    case HubFire(k) => 1 <= k <= s.unfired
    case HubRestart(e, v, store) => e != 0 && e !in s.hist && WfStore(store)
    case OnLink(l, st) => l < |s.links| && LinkEnabled(s.hub, s.links[l], st)
  }

  ghost function Next(s: System, step: Step): System
    requires Enabled(s, step)
  {
    match step
    case HubEdit(op) =>
      var h := Edit(s.hub, op);
      var life := if h.epoch in s.hist then s.hist[h.epoch] else map[];
      s.(hub := h, unfired := s.unfired + 1, hist := s.hist[h.epoch := life[h.ver := h.store]])
    case HubFire(k) =>
      s.(unfired := s.unfired - k, links := seq(|s.links|, i requires 0 <= i < |s.links| => Notify(s.links[i])))
    case HubRestart(e, v, store) =>
      s.(hub := Hub(e, v, store, [], s.hub.cap), unfired := 0, hist := s.hist[e := map[v := store]])
    case OnLink(l, st) => s.(links := s.links[l := LinkNext(s.hub, s.links[l], st)])
  }

  /** A hub that has just started, and gateways that have never heard from one. */
  ghost predicate Init(s: System) {
    && s.hub.epoch != 0 && s.hub.log == [] && WfStore(s.hub.store)
    && s.unfired == 0
    && s.hist == map[s.hub.epoch := map[s.hub.ver := s.hub.store]]
    && forall i :: 0 <= i < |s.links| ==> s.links[i].guard == FRESH && s.links[i].conns == []
  }

  /** `states` is a run of the system taking `steps`. */
  ghost predicate Run(states: seq<System>, steps: seq<Step>) {
    && |states| == |steps| + 1
    && Init(states[0])
    && forall i {:trigger steps[i]} :: 0 <= i < |steps| ==>
         Enabled(states[i], steps[i]) && states[i + 1] == Next(states[i], steps[i])
  }
}
