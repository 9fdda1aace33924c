/** The hub's session and the gateway's sync client as objects (src/ipban/session.cpp,
    src/ipban/pull.cpp): each m_mtx section updates the fields in place and is proved to be the
    step of SessionSpec that Replication.dfy interleaves. `sp` and `rp` are program counters. */
module SessionObject {
  import opened HubSpec
  import opened SessionSpec

  // HELLO is taken in three parts.

  function Named(s: Session, peer: string, num: nat, target: nat): Session {
    s.(inst := peer, helloSeq := num, targetVer := target)
  }

  /** A peer that names this life and a version of it is taken at its word. */
  function Believed(s: Session, epoch: nat, ver: nat, target: nat): Session {
    if epoch == s.epoch && ver <= target then s.(sentVer := ver, sentOnce := true, acked := ver) else s
  }

  function Readied(s: Session): Session {
    s.(ready := true, token := true, rp := Loop)
  }

  lemma HelloInParts(s: Session, hello: Up, target: nat)
    requires hello.Hello?
    ensures Readied(Believed(Named(s, hello.inst, hello.num, target), hello.epoch, hello.ver, target))
         == HelloMark(s, hello, target)
  {
  }

  class HubSession {
    const epoch: nat
    var st: State
    var inst: string
    var sync: Wait
    var ping: nat
    var helloSeq: nat
    var targetVer: nat
    var sentVer: nat
    var nextSeq: nat
    var sendErr: bool
    var ready: bool
    var sentOnce: bool
    var pushDue: bool
    var dirty: bool
    var forceFull: bool
    var pingDue: bool
    var acked: nat
    var token: bool
    var sp: SendPc
    var rp: RecvPc

    function View(): Session
      reads this
    {
      Session(epoch, st, inst, sync, ping, helloSeq, targetVer, sentVer, nextSeq, sendErr, ready, sentOnce,
              pushDue, dirty, forceFull, pingDue, acked, token, sp, rp)
    }

    constructor (epoch: nat)
      ensures View() == NewSession(epoch)
    {
      this.epoch := epoch;
      st, inst, sync, ping, helloSeq, targetVer, sentVer, nextSeq := HELLO, "", Wait(0, 0), 0, 0, 0, 0, 1;
      sendErr, ready, sentOnce, pushDue, dirty, forceFull, pingDue := false, false, false, false, false, false, false;
      acked, token, sp, rp := 0, false, Waiting, AwaitHello;
    }

    // ----- called from other fibers -----

    method DoWake()
      modifies this`pushDue, this`dirty, this`token
      ensures View() == Wake(old(View()))
      ensures st.DRAIN? || st.CLOSING? ==> View() == old(View())
      ensures !(st.DRAIN? || st.CLOSING?) ==> pushDue && token && dirty == (old(dirty) || sync.num != 0)
    {
      if st.DRAIN? || st.CLOSING? { return; }
      pushDue := true;
      if sync.num != 0 { dirty := true; }
      token := true;
    }

    method DoBeginStop(drain: bool)
      modifies this`st, this`token
      ensures View() == BeginStop(old(View()), drain)
      ensures token && (st.DRAIN? <==> drain && (old(st).SYNC? || old(st).OPEN?)) && (st.DRAIN? || st.CLOSING?)
    {
      if drain && (st.SYNC? || st.OPEN?) {
        st := DRAIN;
      } else if !st.CLOSING? {
        st := CLOSING;
      }
      token := true;
    }

    method DoFailMsg()
      modifies this`st, this`token, this`sendErr
      ensures View() == FailMsg(old(View()))
      ensures sendErr && st.CLOSING? && token
    {
      if !sendErr { sendErr := true; }
      if !st.CLOSING? { st := CLOSING; }
      token := true;
    }

    // ----- the send fiber -----

    method DoTop()
      modifies this`sendErr, this`sp
      ensures View() == Top(old(View()))
      ensures !sendErr && (sp.ErrOut? <==> old(sendErr))
      ensures !old(sendErr) ==> sp == if st.CLOSING? then Ended else if ready then ReadyCheck else PushCheck
    {
      var failed, cur, due := sendErr, st, ready;
      sendErr := false;
      if failed {
        sp := ErrOut;
      } else if cur.CLOSING? {
        sp := Ended;
      } else {
        sp := if due then ReadyCheck else PushCheck;
      }
    }

    method DoReadyTake()
      modifies this`ready, this`sp
      ensures View() == ReadyTake(old(View()))
      ensures !ready && sp == if old(ready) then ReadyOut(helloSeq, targetVer) else PushCheck
    {
      if !ready {
        sp := PushCheck;
        return;
      }
      ready := false;
      sp := ReadyOut(helloSeq, targetVer);
    }

    method DoReadyDone(target: nat)
      modifies this`st, this`pushDue, this`sp
      ensures View() == ReadyDone(old(View()), target)
      ensures old(st).DRAIN? || old(st).CLOSING? ==> st == old(st) && pushDue == old(pushDue)
      ensures !(old(st).DRAIN? || old(st).CLOSING?) && sentOnce && sentVer == target ==>
                st.OPEN? && pushDue == old(pushDue)
      ensures !(old(st).DRAIN? || old(st).CLOSING?) && !(sentOnce && sentVer == target) ==> st.SYNC? && pushDue
    {
      sp := PushCheck;
      if st.DRAIN? || st.CLOSING? { return; }
      if sentOnce && sentVer == target {
        st := OPEN;
      } else {
        st := SYNC;
        pushDue := true;
      }
    }

    /** First section of sendCurrent: what to ask the engine for, if anything. */
    method DoPushTake()
      modifies this`sentOnce, this`forceFull, this`dirty, this`pushDue, this`sp
      ensures View() == PushTake(old(View()))
      ensures sp.PushCall? <==>
                !(st.DRAIN? || st.CLOSING?) && sync.num == 0 && (old(pushDue) || old(forceFull))
      ensures sp.PushCall? ==> sp.from == sentVer && sp.once == sentOnce == (old(sentOnce) && !old(forceFull))
      ensures sp.PushCall? ==> !pushDue && !forceFull && dirty == old(dirty)
      ensures !sp.PushCall? ==> sp.PingCheck? && forceFull == old(forceFull) && sentOnce == old(sentOnce)
      ensures !sp.PushCall? ==>
                if st.DRAIN? || st.CLOSING? then pushDue == old(pushDue) && dirty == old(dirty)
                else !pushDue && dirty == (old(dirty) || (old(pushDue) && sync.num != 0))
    {
      sp := PingCheck;
      if st.DRAIN? || st.CLOSING? { return; }
      if sync.num != 0 {
        DuePushWaits();
        return;
      }
      if !pushDue && !forceFull { return; }
      AskForPush();
    }

    /** From the last version sent, or from nothing when a full list is asked for. */
    method AskForPush()
      modifies this`sentOnce, this`forceFull, this`pushDue, this`sp
      ensures View() == old(View()).(sentOnce := old(sentOnce && !forceFull), forceFull := false, pushDue := false,
                                     sp := PushCall(sentVer, sentOnce))
    {
      if forceFull {
        sentOnce := false;
        forceFull := false;
      }
      pushDue := false;
      sp := PushCall(sentVer, sentOnce);
    }

    method DoPushNothing()
      modifies this`st, this`sp
      ensures View() == PushNothing(old(View()))
      ensures sp.PingCheck? && st == if old(st).DRAIN? || old(st).CLOSING? then old(st) else OPEN
    {
      sp := PingCheck;
      if !(st.DRAIN? || st.CLOSING?) { st := OPEN; }
    }

    method TakeSeq() returns (num: nat)
      modifies this`nextSeq
      ensures num == old(nextSeq) && View() == old(View()).(nextSeq := num + 1)
    {
      num := nextSeq;
      nextSeq := nextSeq + 1;
    }

    /** Updates that come while a sync is outstanding wait for its ACK. */
    method DuePushWaits()
      modifies this`dirty, this`pushDue
      ensures View() == old(View()).(dirty := old(dirty || pushDue), pushDue := false)
    {
      dirty := dirty || pushDue;
      pushDue := false;
    }

    method DoPushSync(p: Push)
      modifies this`nextSeq, this`sync, this`dirty, this`pushDue, this`st, this`sp
      ensures View() == PushSync(old(View()), p)
      ensures sync == Wait(old(nextSeq), p.ver) && sp == PushOut(old(nextSeq), p) && nextSeq == old(nextSeq) + 1
      ensures st.SYNC? && !pushDue && dirty == old(pushDue || dirty)
    {
      var num := TakeSeq();
      DuePushWaits();
      Await(num, p);
    }

    method Await(num: nat, p: Push)
      modifies this`sync, this`st, this`sp
      ensures View() == old(View()).(sync := Wait(num, p.ver), st := SYNC, sp := PushOut(num, p))
    {
      sync := Wait(num, p.ver);
      st := SYNC;
      sp := PushOut(num, p);
    }

    method DoPushDone(ver: nat)
      modifies this`sentVer, this`sentOnce, this`sp
      ensures View() == PushDone(old(View()), ver)
      ensures sentOnce && sentVer == ver && sp.PingCheck?
    {
      sentVer := ver;
      sentOnce := true;
      sp := PingCheck;
    }

    method DoPingTake()
      modifies this`pingDue, this`nextSeq, this`ping, this`sp
      ensures View() == PingTake(old(View()))
      ensures sp.PingOut? <==> old(pingDue && ping == 0) && sync.num == 0 && !(st.DRAIN? || st.CLOSING?)
      ensures sp.PingOut? ==> ping == sp.num == old(nextSeq) && nextSeq == ping + 1 && !pingDue
      ensures !sp.PingOut? ==> sp.ByeCheck? && ping == old(ping) && pingDue == old(pingDue)
    {
      if !pingDue || ping != 0 || sync.num != 0 || st.DRAIN? || st.CLOSING? {
        sp := ByeCheck;
        return;
      }
      NumberPing();
    }

    method NumberPing()
      modifies this`pingDue, this`nextSeq, this`ping, this`sp
      ensures !pingDue && nextSeq == old(nextSeq) + 1 && ping == old(nextSeq) && sp == PingOut(old(nextSeq))
    {
      pingDue := false;
      ping := TakeSeq();
      sp := PingOut(ping);
    }

    method DoByeTake()
      modifies this`st, this`sp
      ensures View() == ByeTake(old(View()))
      ensures sp.ByeOut? <==> old(st).DRAIN? && sync.num == 0
      ensures if sp.ByeOut? then st.CLOSING? else st == old(st) && sp.Waiting?
    {
      sp := Waiting;
      if st.DRAIN? && sync.num == 0 {
        st := CLOSING;
        sp := ByeOut;
      }
    }

    // ----- the receive fiber -----

    method DoOnHello(m: Up)
      modifies this`rp, this`st, this`sendErr, this`token
      ensures View() == OnHello(old(View()), m)
      ensures if m.Hello? && m.num != 0 then rp == GotHello(m) && st == old(st) else st.CLOSING? && sendErr && token
    {
      if !m.Hello? || m.num == 0 {
        DoFailMsg();
        return;
      }
      rp := GotHello(m);
    }

    method NotePeer(peer: string, num: nat, target: nat)
      modifies this`inst, this`helloSeq, this`targetVer
      ensures View() == Named(old(View()), peer, num, target)
    {
      inst := peer;
      helloSeq := num;
      targetVer := target;
    }

    method NoteVersion(peerEpoch: nat, ver: nat, target: nat)
      modifies this`sentVer, this`sentOnce, this`acked
      ensures View() == Believed(old(View()), peerEpoch, ver, target)
    {
      if peerEpoch == epoch && ver <= target {
        sentVer := ver;
        sentOnce := true;
        acked := ver;
      }
    }

    method GetReady()
      modifies this`ready, this`token, this`rp
      ensures View() == Readied(old(View()))
    {
      ready := true;
      token := true;
      rp := Loop;
    }

    method DoHelloMark(hello: Up, target: nat)
      requires hello.Hello?
      modifies this`inst, this`helloSeq, this`targetVer, this`ready, this`sentVer, this`sentOnce, this`acked,
                 this`token, this`rp
      ensures View() == HelloMark(old(View()), hello, target)
      ensures ready && token && inst == hello.inst && helloSeq == hello.num && targetVer == target && rp.Loop?
      ensures if hello.epoch == epoch && hello.ver <= target then sentOnce && sentVer == acked == hello.ver
              else sentOnce == old(sentOnce) && sentVer == old(sentVer) && acked == old(acked)
    {
      HelloInParts(View(), hello, target);
      NotePeer(hello.inst, hello.num, target);
      NoteVersion(hello.epoch, hello.ver, target);
      GetReady();
    }

    method DoOnMsg(m: Up)
      modifies this`acked, this`sync, this`st, this`pushDue, this`dirty, this`forceFull, this`ping, this`sendErr,
                 this`token
      ensures View() == OnMsg(old(View()), m)
      ensures old(sync.num) != 0 && m == Ack(old(sync.num), inst, epoch, old(sync.ver)) ==>
                && acked == m.ver && sync.num == 0 && token && !dirty && pushDue == old(pushDue || dirty)
                && (st == if old(st).DRAIN? || old(st).CLOSING? then old(st) else OPEN)
      ensures m.SnapReq? && old(st).SYNC? ==> sync.num == 0 && forceFull && pushDue && token && st.SYNC?
      ensures old(ping) != 0 && m == Pong(old(ping)) ==> ping == 0 && st == old(st) && sync == old(sync)
      ensures !(old(sync.num) != 0 && m == Ack(old(sync.num), inst, epoch, old(sync.ver)))
              && !(m.SnapReq? && old(st).SYNC?) && !(old(ping) != 0 && m == Pong(old(ping))) ==>
                st.CLOSING? && sendErr && token && acked == old(acked) && sync == old(sync) && ping == old(ping)
    {
      if m.Ack? {
        OnAck(m);
      } else if m.SnapReq? {
        OnSnapReq();
      } else if m.Pong? {
        if ping == 0 || m.num != ping {
          DoFailMsg();
        } else {
          ping := 0;
        }
      } else {
        DoFailMsg();
      }
    }

    method OnAck(m: Up)
      requires m.Ack?
      modifies this`acked, this`sync, this`st, this`pushDue, this`dirty, this`sendErr, this`token
      ensures View() == OnMsg(old(View()), m)
      ensures old(sync.num) != 0 && m == Ack(old(sync.num), inst, epoch, old(sync.ver)) ==>
                View() == old(View()).(acked := m.ver, sync := Wait(0, 0), dirty := false, token := true,
                                       pushDue := old(pushDue || dirty),
                                       st := if old(st).DRAIN? || old(st).CLOSING? then old(st) else OPEN)
    {
      if sync.num == 0 || m.num != sync.num || m.inst != inst || m.epoch != epoch || m.ver != sync.ver {
        DoFailMsg();
        return;
      }
      Acked(m.ver);
      if dirty {
        dirty := false;
        pushDue := true;
      }
      token := true;
    }

    method Acked(ver: nat)
      modifies this`acked, this`sync, this`st
      ensures View() == old(View()).(acked := ver, sync := Wait(0, 0), st := if Active(old(st)) then OPEN else old(st))
    {
      acked := ver;
      sync := Wait(0, 0);
      if !(st.DRAIN? || st.CLOSING?) { st := OPEN; }
    }

    method OnSnapReq()
      modifies this`sync, this`forceFull, this`pushDue, this`st, this`sendErr, this`token
      ensures View() == OnMsg(old(View()), SnapReq)
      ensures old(st).SYNC? ==>
                View() == old(View()).(sync := Wait(0, 0), forceFull := true, pushDue := true, token := true)
    {
      if !st.SYNC? {
        DoFailMsg();
        return;
      }
      sync := Wait(0, 0);
      forceFull := true;
      pushDue := true;
      token := true;
    }

    method DoOnTimeout(ackDue: bool, pongDue: bool)
      modifies this`sendErr, this`st, this`pingDue, this`token
      ensures View() == OnTimeout(old(View()), ackDue, pongDue)
      ensures (sync.num != 0 && ackDue) || (ping != 0 && pongDue) ==>
                st.CLOSING? && sendErr && token && pingDue == old(pingDue)
      ensures !((sync.num != 0 && ackDue) || (ping != 0 && pongDue)) ==> st == old(st) && sendErr == old(sendErr)
      ensures !((sync.num != 0 && ackDue) || (ping != 0 && pongDue)) && st.DRAIN? ==>
                token && pingDue == old(pingDue)
      ensures !((sync.num != 0 && ackDue) || (ping != 0 && pongDue)) && !st.DRAIN? ==>
                if sync.num == 0 && ping == 0 then pingDue && token
                else pingDue == old(pingDue) && token == old(token)
    {
      if (sync.num != 0 && ackDue) || (ping != 0 && pongDue) {
        sendErr := true;
        st := CLOSING;
      } else if st.DRAIN? {
      } else if sync.num == 0 && ping == 0 {
        pingDue := true;
      } else {
        return;
      }
      token := true;
    }
  }
}
