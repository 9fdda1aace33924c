/** One hub-side session as a value, one function per critical section of its two fibers
    (src/ipban/session.cpp). A notify of the waker is folded into the section it follows. */
module SessionSpec {
  import opened HubSpec

  datatype Up =
    | Hello(num: nat, inst: string, epoch: nat, ver: nat)
    | Ack(num: nat, inst: string, epoch: nat, ver: nat)
    | SnapReq
    | Pong(num: nat)

  datatype Down =
    | Ready(num: nat, epoch: nat, target: nat)
    | Sync(num: nat, push: Push)
    | Ping(num: nat)
    | Err
    | Bye

  datatype State = HELLO | SYNC | OPEN | DRAIN | CLOSING

  /** state() < DRAIN */
  predicate Active(s: State) { s.HELLO? || s.SYNC? || s.OPEN? }

  /** state() < CLOSING */
  predicate Running(s: State) { !s.CLOSING? }

  /** An outstanding sync; num 0 means none. */
  datatype Wait = Wait(num: nat, ver: nat)

  /** Where the send fiber is between its critical sections. */
  datatype SendPc =
    | Waiting
    | Awake
    | ReadyCheck
    | ReadyOut(num: nat, target: nat)
    | ReadyMark(target: nat)
    | PushCheck
    | PushCall(from: nat, once: bool)
    | PushNone
    | PushGot(push: Push)
    | PushOut(num: nat, push: Push)
    | PushMark(num: nat, ver: nat)
    | PingCheck
    | PingOut(num: nat)
    | ByeCheck
    | ByeOut
    | ErrOut
    | Ended

  /** Where the receive fiber is. */
  datatype RecvPc =
    | AwaitHello
    | GotHello(hello: Up)
    | HaveTarget(hello: Up, target: nat)
    | Loop

  datatype Session = Session(
    epoch: nat,
    st: State,
    inst: string,
    sync: Wait,
    ping: nat,
    helloSeq: nat,
    targetVer: nat,
    sentVer: nat,
    nextSeq: nat,
    sendErr: bool,
    ready: bool,
    sentOnce: bool,
    pushDue: bool,
    dirty: bool,
    forceFull: bool,
    pingDue: bool,
    acked: nat,
    token: bool,       // an unread notify of the waker
    sp: SendPc,
    rp: RecvPc)

  function NewSession(epoch: nat): Session {
    Session(epoch, HELLO, "", Wait(0, 0), 0, 0, 0, 0, 1, false, false, false, false, false, false, false, 0,
            false, Waiting, AwaitHello)
  }

  // ----- called from other fibers -----

  function Wake(s: Session): Session {
    var on := Active(s.st);
    s.(pushDue := s.pushDue || on, dirty := s.dirty || (on && s.sync.num != 0), token := s.token || on)
  }

  function StopState(st: State, drain: bool): State {
    if drain && (st == SYNC || st == OPEN) then DRAIN else CLOSING
  }

  function BeginStop(s: Session, drain: bool): Session {
    s.(st := StopState(s.st, drain), token := true)
  }

  function Close(s: Session): Session {
    s.(st := CLOSING, token := true)
  }

  function FailMsg(s: Session): Session {
    s.(st := CLOSING, token := true, sendErr := true)
  }

  // ----- send fiber -----

  /** Reads the state, takes a pending error, and sees whether READY is due. */
  function Top(s: Session): Session {
    s.(sendErr := false,
       sp := if s.sendErr then ErrOut
             else if !Running(s.st) then Ended
             else if s.ready then ReadyCheck
             else PushCheck)
  }

  function ReadyTake(s: Session): Session {
    s.(ready := false, sp := if s.ready then ReadyOut(s.helloSeq, s.targetVer) else PushCheck)
  }

  function ReadyDone(s: Session, target: nat): Session {
    var same := s.sentOnce && s.sentVer == target;
    s.(st := if !Active(s.st) then s.st else if same then OPEN else SYNC,
       pushDue := s.pushDue || (Active(s.st) && !same),
       sp := PushCheck)
  }

  /** Does sendCurrent go on to ask the engine? */
  predicate Pushes(s: Session) {
    Active(s.st) && s.sync.num == 0 && (s.pushDue || s.forceFull)
  }

  function PushTake(s: Session): Session {
    var go := Pushes(s);
    var once := s.sentOnce && !(go && s.forceFull);
    s.(sentOnce := once,
       forceFull := s.forceFull && !go,
       dirty := s.dirty || (Active(s.st) && s.sync.num != 0 && s.pushDue),
       pushDue := s.pushDue && !Active(s.st),
       sp := if go then PushCall(s.sentVer, once) else PingCheck)
  }

  ghost function PushAsk(s: Session, hub: Hub): Session
    requires s.sp.PushCall? && WfStore(hub.store)
  {
    var p := NextPush(hub, s.sp.from, s.sp.once);
    s.(sp := if p.Some? then PushGot(p.value) else PushNone)
  }

  function PushNothing(s: Session): Session {
    s.(st := if Active(s.st) then OPEN else s.st, sp := PingCheck)
  }

  /** Takes the sequence number and records the outstanding sync; the state is set to SYNC
      whatever it was. */
  function PushSync(s: Session, p: Push): Session {
    s.(nextSeq := s.nextSeq + 1, sync := Wait(s.nextSeq, p.ver), dirty := s.dirty || s.pushDue,
       pushDue := false, st := SYNC, sp := PushOut(s.nextSeq, p))
  }

  function PushDone(s: Session, ver: nat): Session {
    s.(sentVer := ver, sentOnce := true, sp := PingCheck)
  }

  function PingTake(s: Session): Session {
    var go := s.pingDue && s.ping == 0 && s.sync.num == 0 && Active(s.st);
    s.(pingDue := s.pingDue && !go,
       nextSeq := if go then s.nextSeq + 1 else s.nextSeq,
       ping := if go then s.nextSeq else s.ping,
       sp := if go then PingOut(s.nextSeq) else ByeCheck)
  }

  function ByeTake(s: Session): Session {
    var bye := s.st == DRAIN && s.sync.num == 0;
    s.(st := if bye then CLOSING else s.st, sp := if bye then ByeOut else Waiting)
  }

  // ----- receive fiber -----

  function OnHello(s: Session, m: Up): Session {
    var ok := m.Hello? && m.num != 0;
    s.(rp := if ok then GotHello(m) else s.rp,
       st := if ok then s.st else CLOSING,
       sendErr := s.sendErr || !ok,
       token := s.token || !ok)
  }

  function HelloMark(s: Session, hello: Up, target: nat): Session
    requires hello.Hello?
  {
    var known := hello.epoch == s.epoch && hello.ver <= target;
    s.(inst := hello.inst, helloSeq := hello.num, targetVer := target, ready := true,
       sentVer := if known then hello.ver else s.sentVer,
       sentOnce := s.sentOnce || known,
       acked := if known then hello.ver else s.acked,
       token := true, rp := Loop)
  }

  predicate AckFits(s: Session, m: Up) {
    m.Ack? && s.sync.num != 0 && m.num == s.sync.num && m.inst == s.inst
    && m.epoch == s.epoch && m.ver == s.sync.ver
  }

  /** An ACK of the outstanding sync, a resync request during SYNC, or the awaited PONG is
      taken; anything else ends the session with an error. */
  function OnMsg(s: Session, m: Up): Session {
    var ack := AckFits(s, m);
    var snap := m.SnapReq? && s.st == SYNC;
    var pong := m.Pong? && s.ping != 0 && m.num == s.ping;
    var bad := !ack && !snap && !pong;
    s.(acked := if ack then m.ver else s.acked,
       sync := if ack || snap then Wait(0, 0) else s.sync,
       st := if bad then CLOSING else if ack && Active(s.st) then OPEN else s.st,
       pushDue := s.pushDue || snap || (ack && s.dirty),
       dirty := s.dirty && !ack,
       forceFull := s.forceFull || snap,
       ping := if pong then 0 else s.ping,
       sendErr := s.sendErr || bad,
       token := s.token || !pong)
  }

  /** `ackDue` and `pongDue` say whether the respective deadline has passed. */
  function OnTimeout(s: Session, ackDue: bool, pongDue: bool): Session {
    var late := (s.sync.num != 0 && ackDue) || (s.ping != 0 && pongDue);
    var idle := s.sync.num == 0 && s.ping == 0;
    s.(sendErr := s.sendErr || late,
       st := if late then CLOSING else s.st,
       pingDue := s.pingDue || (!late && s.st != DRAIN && idle),
       token := s.token || late || s.st == DRAIN || idle)
  }
}
