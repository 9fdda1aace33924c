/** The gateway's sync client as an object over its guard (src/ipban/pull.cpp): reading one frame is
    the client step of Replication.dfy. */
module SyncClient {
  import opened HubSpec
  import opened SessionSpec
  import R = Replication
  import GuardSpec
  import G = Guard
  import Snap

  ghost predicate CanonicalPush(p: Push) {
    match p
    case FullPush(_, _, rules) => Snap.CanonicalRules(rules)
    case DeltaPush(_, _, _, ops) => G.CanonicalOps(ops)
  }

  /** A push a client takes: of its stream's epoch, and a newer list, or well-formed changes from just
      the version the guard is at. */
  predicate Fresh(p: Push, stream: nat, epoch: nat, ver: nat) {
    && p.epoch == stream
    && match p
       case FullPush(e, v, _) => e != epoch || v > ver
       case DeltaPush(e, prev, v, ops) =>
         && e == epoch && prev == ver && v > prev
         && forall i :: 0 <= i < |ops| ==> ops[i].ruleId != "" && (ops[i].del || ops[i].rule.id == ops[i].ruleId)
  }

  lemma FreshIsApplied(g: GuardSpec.Guard, stream: nat, p: Push)
    ensures Fresh(p, stream, g.epoch, g.ver) <==> R.Apply(g, stream, p).Some?
    ensures Fresh(p, stream, g.epoch, g.ver) ==>
              R.Apply(g, stream, p).value.epoch == p.epoch && R.Apply(g, stream, p).value.ver == p.ver
  {
  }

  /** What the protocol's client does with a sync frame. */
  lemma TakesSync(inst: string, g: GuardSpec.Guard, c: R.Conn, num: nat, p: Push)
    requires c.cli.Streaming? && c.down == [Sync(num, p)] && num != 0
    ensures R.ClientNext(inst, g, c) ==
            match R.Apply(g, c.cli.epoch, p)
            case Some(g') =>
              (g', c.(down := [], cli := c.cli.(badSync := false), up := c.up + [Ack(num, inst, g'.epoch, g'.ver)]))
            case None =>
              (g, if c.cli.badSync then c.(down := [], cli := R.Left)
                  else c.(down := [], cli := c.cli.(badSync := true), up := c.up + [SnapReq]))
  {
    assert c.down[1..] == [];
  }

  class Client {
    const inst: string
    const guard: G.Guard
    var cli: R.Client
    var sent: seq<Up>

    /** A connection that carries one frame to this client. */
    ghost function Conn(c: R.Conn, frames: seq<Down>): R.Conn
      reads this
    {
      c.(cli := cli, up := sent, down := frames)
    }

    constructor (inst: string, guard: G.Guard, num: nat)
      ensures this.inst == inst && this.guard == guard && cli == R.AwaitReady(num) && sent == []
    {
      this.inst, this.guard := inst, guard;
      cli, sent := R.AwaitReady(num), [];
    }

    /** Applies a sync frame and acknowledges it, or asks once for a full list and then leaves. */
    method Apply(num: nat, p: Push, now: nat)
      requires guard.Valid() && cli.Streaming? && CanonicalPush(p)
      modifies this`cli, this`sent, guard
      ensures guard.Valid()
      ensures match R.Apply(old(guard.Copy()), old(cli).epoch, p)
              case Some(g) =>
                guard.Copy() == g && cli == old(cli).(badSync := false)
                && sent == old(sent) + [Ack(num, inst, g.epoch, g.ver)]
              case None =>
                guard.Copy() == old(guard.Copy())
                && (if old(cli).badSync then cli == R.Left && sent == old(sent)
                    else cli == old(cli).(badSync := true) && sent == old(sent) + [SnapReq])
    {
      var applied := false;
      if p.FullPush? {
        if p.epoch == cli.epoch { applied := guard.ApplyRemote(p.epoch, p.ver, p.rules, now); }
      } else {
        if p.epoch == cli.epoch { applied := guard.ApplyDelta(p.epoch, p.prev, p.ver, p.ops, now); }
      }
      if !applied {
        if cli.badSync {
          cli := R.Left;
          return;
        }
        cli := cli.(badSync := true);
        sent := sent + [SnapReq];
        return;
      }
      cli := cli.(badSync := false);
      sent := sent + [Ack(num, inst, guard.remoteEpoch, guard.remoteVer)];
    }

    /** Any other frame: READY opens the stream once, a PING is answered, the rest ends it. */
    method ReadOther(m: Down, ghost c: R.Conn)
      requires !cli.Left? && !(cli.Streaming? && m.Sync? && m.num != 0)
      modifies this`cli, this`sent
      ensures R.ClientNext(inst, guard.Copy(), old(Conn(c, [m]))) == (guard.Copy(), Conn(c, []))
      ensures old(cli).AwaitReady? ==>
                sent == old(sent) && cli == if m.Ready?
                    && m.num == old(cli).num then R.Streaming(m.epoch, false) else R.Left
      ensures old(cli).Streaming? && m.Ping? && m.num != 0 ==> cli == old(cli) && sent == old(sent) + [Pong(m.num)]
      ensures old(cli).Streaming? && !(m.Ping? && m.num != 0) ==> cli == R.Left && sent == old(sent)
    {
      assert [m][1..] == [];
      if cli.AwaitReady? && m.Ready? && m.num == cli.num {
        cli := R.Streaming(m.epoch, false);
      } else if cli.Streaming? && m.Ping? && m.num != 0 {
        sent := sent + [Pong(m.num)];
      } else {
        cli := R.Left;
      }
    }

    /** A sync frame of the stream. */
    method ReadSync(num: nat, p: Push, now: nat, ghost c: R.Conn)
      requires guard.Valid() && cli.Streaming? && num != 0 && CanonicalPush(p)
      modifies this`cli, this`sent, guard
      ensures guard.Valid()
      ensures R.ClientNext(inst, old(guard.Copy()), old(Conn(c, [Sync(num, p)]))) == (guard.Copy(), Conn(c, []))
      ensures if Fresh(p, old(cli).epoch, old(guard.remoteEpoch), old(guard.remoteVer)) then
                && guard.remoteEpoch == p.epoch && guard.remoteVer == p.ver
                && cli == R.Streaming(old(cli).epoch, false)
                && sent == old(sent) + [Ack(num, inst, p.epoch, p.ver)]
              else
                && guard.Copy() == old(guard.Copy())
                && cli == (if old(cli).badSync then R.Left else R.Streaming(old(cli).epoch, true))
                && sent == old(sent) + if old(cli).badSync then [] else [SnapReq]
    {
      TakesSync(inst, guard.Copy(), Conn(c, [Sync(num, p)]), num, p);
      FreshIsApplied(guard.Copy(), cli.epoch, p);
      Apply(num, p, now);
    }

    /** One frame: the protocol's client step, and in each case what the source does. */
    method Read(m: Down, now: nat, ghost c: R.Conn)
      requires guard.Valid() && !cli.Left? && (m.Sync? ==> CanonicalPush(m.push))
      modifies this`cli, this`sent, guard
      ensures guard.Valid()
      ensures R.ClientNext(inst, old(guard.Copy()), old(Conn(c, [m]))) == (guard.Copy(), Conn(c, []))
      ensures old(cli).AwaitReady? ==> old(guard.Copy()) == guard.Copy()
    {
      if cli.Streaming? && m.Sync? && m.num != 0 {
        ReadSync(m.num, m.push, now, c);
      } else {
        ReadOther(m, c);
      }
    }
  }
}
