/** The circuit breaker (src/gateway/ronduan.cpp): its moves as functions of its state, the object
    that makes them in place, and the bucket window against the true history of outcomes. */
module Breaker {
  import opened Rules
  import opened Arith

  datatype Config = Config(
    failureThreshold: nat, windowMs: nat, buckets: nat, minRequests: nat, failureRate: nat,
    slowMs: nat, slowRate: nat, openTimeoutMs: nat, maxOpenTimeoutMs: nat,
    halfOpenMax: nat, halfOpenOk: nat)

  function AtLeast(a: nat, low: nat): nat { if a < low then low else a }
  function AtMost(a: nat, high: nat): nat { if a > high then high else a }

  /** The configuration the constructor settles on. */
  function Normal(c: Config): Config {
    var open := AtLeast(c.openTimeoutMs, 1);
    var most := AtLeast(c.halfOpenMax, 1);
    Config(AtLeast(c.failureThreshold, 1), AtLeast(c.windowMs, 1), AtLeast(c.buckets, 1),
           AtLeast(c.minRequests, 1), AtMost(c.failureRate, 100), AtLeast(c.slowMs, 1), AtMost(c.slowRate, 100),
           open, AtLeast(c.maxOpenTimeoutMs, open), most, AtMost(AtLeast(c.halfOpenOk, 1), most))
  }

  datatype Mark = OK | FAIL | SKIP

  datatype UpRet = UpRet(mark: Mark, slow: bool)

  datatype Bucket = Bucket(tick: nat, requests: nat, failures: nat, slows: nat)

  const EMPTY := Bucket(0, 0, 0, 0)

  datatype State = CLOSED | OPEN | HALF_OPEN

  function Slot(s: State): nat { match s case CLOSED => 0 case OPEN => 1 case HALF_OPEN => 2 }

  datatype Cb = Cb(
    cfg: Config,
    state: State,
    consecFail: nat,
    pending: nat,
    okCount: nat,
    openMs: nat,
    turn: nat,
    buckets: seq<Bucket>,
    openAt: int,
    moves: seq<nat>)

  function Start(c: Config): Cb {
    var n := Normal(c);
    Cb(n, CLOSED, 0, 0, 0, n.openTimeoutMs, 1, seq(n.buckets, _ => EMPTY), 0, seq(9, _ => 0))
  }

  // ----- the window -----

  function WidthOf(c: Config): (w: nat)
    ensures w > 0
  {
    if c.buckets > 0 && c.windowMs / c.buckets > 1 then c.windowMs / c.buckets else 1
  }

  function KeepOf(c: Config): nat { (c.windowMs + WidthOf(c) - 1) / WidthOf(c) }

  function Add(b: Bucket, ret: UpRet, tick: nat): Bucket {
    var base := if b.tick != tick then Bucket(tick, 0, 0, 0) else b;
    Bucket(tick, base.requests + 1, base.failures + (if ret.mark == FAIL then 1 else 0),
           base.slows + if ret.slow then 1 else 0)
  }

  function AddBucket(bs: seq<Bucket>, ret: UpRet, tick: nat): (r: seq<Bucket>)
    ensures |r| == |bs|
  {
    if bs == [] then bs else bs[tick % |bs| := Add(bs[tick % |bs|], ret, tick)]
  }

  predicate Counted(b: Bucket, tick: nat, keep: nat) {
    b.tick != 0 && b.tick <= tick && tick - b.tick < keep
  }

  datatype Sums = Sums(requests: nat, failures: nat, slows: nat)

  function PlusBucket(s: Sums, b: Bucket): Sums {
    Sums(s.requests + b.requests, s.failures + b.failures, s.slows + b.slows)
  }

  function Window(bs: seq<Bucket>, tick: nat, keep: nat): Sums {
    if bs == [] then Sums(0, 0, 0)
    else
      var s := Window(bs[..|bs| - 1], tick, keep);
      var b := bs[|bs| - 1];
      if Counted(b, tick, keep) then PlusBucket(s, b) else s
  }

  function Percent(part: nat, whole: nat): nat { if whole == 0 then 0 else part * 100 / whole }

  // ----- the moves -----

  function Move(c: Cb, to: State): Cb {
    if c.state == to then c
    else
      var i := 3 * Slot(c.state) + Slot(to);
      c.(moves := if i < |c.moves| then c.moves[i := c.moves[i] + 1] else c.moves, state := to, turn := c.turn + 1)
  }

  function ToOpen(c: Cb, again: bool, now: int): Cb {
    Move(c.(openMs := if again then AtMost(c.openMs * 2, c.cfg.maxOpenTimeoutMs) else c.cfg.openTimeoutMs), OPEN)
      .(openAt := now, pending := 0, okCount := 0)
  }

  function ToClosed(c: Cb): Cb {
    Move(c, CLOSED).(consecFail := 0, pending := 0, okCount := 0, openMs := c.cfg.openTimeoutMs,
                     buckets := seq(|c.buckets|, _ => EMPTY))
  }

  function ToHalfOpen(c: Cb): Cb {
    Move(c, HALF_OPEN).(pending := 0, okCount := 0)
  }

  /** An elapsed time below zero turns into a huge unsigned one. */
  predicate Waited(c: Cb, now: int) {
    now - c.openAt < 0 || now - c.openAt >= c.openMs
  }

  /** A permit's turn, or a refusal. */
  function IsAllowed(c: Cb, now: int): (Cb, Option<nat>) {
    if c.state == CLOSED then (c, Some(c.turn))
    else if c.state == OPEN && !Waited(c, now) then (c, None)
    else
      var h := if c.state == OPEN then ToHalfOpen(c) else c;
      if h.pending < h.cfg.halfOpenMax then (h.(pending := h.pending + 1), Some(h.turn)) else (h, None)
  }

  function CanTry(c: Cb, now: int): bool {
    match c.state
    case CLOSED => true
    case HALF_OPEN => c.pending < c.cfg.halfOpenMax
    case OPEN => c.cfg.halfOpenMax > 0 && Waited(c, now)
  }

  function TooBad(cfg: Config, s: Sums): bool {
    && s.requests >= cfg.minRequests
    && ((cfg.failureRate > 0 && Percent(s.failures, s.requests) >= cfg.failureRate)
        || (cfg.slowRate > 0 && Percent(s.slows, s.requests) >= cfg.slowRate))
  }

  function RecordClosed(c: Cb, ret: UpRet, now: nat): Cb {
    var tick := now / WidthOf(c.cfg);
    var d := c.(consecFail := if ret.mark == FAIL then c.consecFail + 1 else 0,
                buckets := AddBucket(c.buckets, ret, tick));
    if d.consecFail >= c.cfg.failureThreshold || TooBad(c.cfg, Window(d.buckets, tick, KeepOf(c.cfg)))
    then ToOpen(d, false, now) else d
  }

  function RecordHalf(c: Cb, ret: UpRet, now: nat): Cb {
    var d := c.(pending := if c.pending > 0 then c.pending - 1 else 0);
    match ret.mark
    case SKIP => d
    case FAIL => ToOpen(d, true, now)
    case OK =>
      var e := d.(okCount := d.okCount + 1);
      if e.okCount >= e.cfg.halfOpenOk then ToClosed(e) else e
  }

  /** Turn 0 is the legacy call that names no permit. */
  function Record(c: Cb, ret: UpRet, turn: nat, now: nat): Cb {
    if (turn != 0 && turn != c.turn) || c.state == OPEN then c
    else if c.state == HALF_OPEN then RecordHalf(c, ret, now)
    else if ret.mark == SKIP then c
    else RecordClosed(c, ret, now)
  }

  // ----- the object -----

  class CircuitBreaker {
    const cfg: Config
    const buckets: array<Bucket>
    var state: State
    var consecFail: nat
    var pending: nat
    var okCount: nat
    var openMs: nat
    var turn: nat
    var openAt: int
    var moves: seq<nat>

    ghost function View(): Cb
      reads this, buckets
    {
      Cb(cfg, state, consecFail, pending, okCount, openMs, turn, buckets[..], openAt, moves)
    }

    ghost predicate Valid() {
      buckets.Length == cfg.buckets > 0
    }

    constructor (c: Config)
      ensures Valid() && fresh(buckets) && View() == Start(c)
    {
      cfg := Normal(c);
      state, consecFail, pending, okCount := CLOSED, 0, 0, 0;
      openMs, turn, openAt := Normal(c).openTimeoutMs, 1, 0;
      moves := seq(9, _ => 0);
      buckets := new Bucket[Normal(c).buckets](_ => EMPTY);
    }

    method DoMove(to: State)
      modifies this`moves, this`state, this`turn
      ensures View() == Move(old(View()), to)
    {
      if state == to { return; }
      var i := 3 * Slot(state) + Slot(to);
      if i < |moves| { moves := moves[i := moves[i] + 1]; }
      state := to;
      turn := turn + 1;
    }

    method DoOpen(again: bool, now: int)
      modifies this
      ensures View() == ToOpen(old(View()), again, now)
    {
      if again {
        openMs := AtMost(openMs * 2, cfg.maxOpenTimeoutMs);
      } else {
        openMs := cfg.openTimeoutMs;
      }
      DoMove(OPEN);
      openAt, pending, okCount := now, 0, 0;
    }

    method DoClose()
      modifies this, buckets
      ensures View() == ToClosed(old(View()))
    {
      DoMove(CLOSED);
      consecFail, pending, okCount, openMs := 0, 0, 0, cfg.openTimeoutMs;
      for i := 0 to buckets.Length
        modifies buckets
        invariant forall j :: 0 <= j < i ==> buckets[j] == EMPTY
      {
        buckets[i] := EMPTY;
      }
    }

    method Allow(now: int) returns (permit: Option<nat>)
      modifies this
      ensures (View(), permit) == IsAllowed(old(View()), now)
      ensures old(state) == CLOSED ==> permit == Some(turn) && View() == old(View())
      ensures old(state) == OPEN && 0 <= now - old(openAt) < old(openMs) ==> permit == None && View() == old(View())
      ensures old(state) == OPEN && !(0 <= now - old(openAt) < old(openMs)) ==>
                && state == HALF_OPEN && turn == old(turn) + 1 && okCount == 0
                && (cfg.halfOpenMax > 0 ==> permit == Some(turn) && pending == 1)
      ensures old(state) == HALF_OPEN ==>
                && state == HALF_OPEN && turn == old(turn)
                && (old(pending) < cfg.halfOpenMax ==> permit == Some(turn) && pending == old(pending) + 1)
                && (old(pending) >= cfg.halfOpenMax ==> permit == None && pending == old(pending))
    {
      if state == CLOSED { return Some(turn); }
      if state == OPEN {
        var elapsed := now - openAt;
        if elapsed < 0 || elapsed >= openMs {
          DoMove(HALF_OPEN);
          pending, okCount := 0, 0;
        } else {
          return None;
        }
      }
      if pending < cfg.halfOpenMax {
        pending := pending + 1;
        return Some(turn);
      }
      return None;
    }

    method AddOutcome(ret: UpRet, tick: nat)
      requires Valid()
      modifies buckets
      ensures buckets[..] == AddBucket(old(buckets[..]), ret, tick)
    {
      var i := tick % buckets.Length;
      var b := buckets[i];
      if b.tick != tick { b := Bucket(tick, 0, 0, 0); }
      b := b.(requests := b.requests + 1);
      if ret.mark == FAIL { b := b.(failures := b.failures + 1); }
      if ret.slow { b := b.(slows := b.slows + 1); }
      buckets[i] := b;
    }

    /** Sums the buckets inside the window. */
    method Snapshot(now: nat) returns (out: Sums)
      requires Valid()
      ensures out == Window(buckets[..], now / WidthOf(cfg), KeepOf(cfg))
    {
      var tick := now / WidthOf(cfg);
      var keep := KeepOf(cfg);
      out := Sums(0, 0, 0);
      for i := 0 to buckets.Length
        invariant out == Window(buckets[..i], tick, keep)
      {
        assert buckets[..i + 1][..i] == buckets[..i];
        var b := buckets[i];
        if b.tick == 0 || tick < b.tick || tick - b.tick >= keep { continue; }
        out := PlusBucket(out, b);
      }
      assert buckets[..buckets.Length] == buckets[..];
    }

    method Report(ret: UpRet, permit: nat, now: nat)
      requires Valid()
      modifies this, buckets
      ensures View() == Record(old(View()), ret, permit, now)
      ensures (permit != 0 && permit != old(turn)) || old(state) == OPEN ==> View() == old(View())
      ensures (permit == 0 || permit == old(turn)) && old(state) == HALF_OPEN ==>
                && (ret.mark == FAIL ==>
                      state == OPEN && openAt == now && openMs == AtMost(old(openMs) * 2, cfg.maxOpenTimeoutMs))
                && (ret.mark == SKIP ==> state == HALF_OPEN && okCount == old(okCount) && openMs == old(openMs))
                && (ret.mark == OK ==> state == if old(okCount) + 1 >= cfg.halfOpenOk then CLOSED else HALF_OPEN)
      ensures (permit == 0 || permit == old(turn)) && old(state) == CLOSED ==>
                && (ret.mark == SKIP ==> View() == old(View()))
                && (state == CLOSED || (state == OPEN && openAt == now && openMs == cfg.openTimeoutMs))
    {
      if permit != 0 && permit != turn { return; }
      if state == OPEN { return; }
      if state == HALF_OPEN {
        if pending > 0 { pending := pending - 1; }
        if ret.mark == SKIP { return; }
        if ret.mark == FAIL {
          DoOpen(true, now);
          return;
        }
        okCount := okCount + 1;
        if okCount >= cfg.halfOpenOk { DoClose(); }
        return;
      }
      if ret.mark == SKIP { return; }
      ReportWhenClosed(ret, now);
    }

    method ReportWhenClosed(ret: UpRet, now: nat)
      requires Valid()
      modifies this, buckets
      ensures View() == RecordClosed(old(View()), ret, now)
    {
      if ret.mark == FAIL { consecFail := consecFail + 1; } else { consecFail := 0; }
      AddOutcome(ret, now / WidthOf(cfg));
      var s := Snapshot(now);
      var rateOpen := TooBad(cfg, s);
      if consecFail >= cfg.failureThreshold || rateOpen { DoOpen(false, now); }
    }
  }

  // ----- permits, moves and backoff over whole runs -----

  /** A breaker with the turns of the permits not yet reported, `fails`, the half-open failures
      in a row since it last opened from closed, and the outcomes counted since it last closed. */
  datatype Breaker = Breaker(cb: Cb, permits: multiset<nat>, fails: nat, hist: seq<Outcome>)

  datatype Outcome = Outcome(tick: nat, ret: UpRet)

  /** Does a closed breaker count this report? */
  predicate Counts(cb: Cb, turn: nat, ret: UpRet) {
    (turn == 0 || turn == cb.turn) && cb.state == CLOSED && ret.mark != SKIP
  }

  datatype Step =
    | Ask(now: nat)
    | Report(turn: nat, ret: UpRet, now: nat)

  /** A permit is reported once, with its own turn. */
  predicate Enabled(b: Breaker, s: Step) {
    s.Report? ==> s.turn in b.permits
  }

  function Next(b: Breaker, s: Step): Breaker
    requires Enabled(b, s)
  {
    match s
    case Ask(now) =>
      var (cb, permit) := IsAllowed(b.cb, now);
      Breaker(cb, if permit.Some? then b.permits + multiset{permit.value} else b.permits, b.fails, b.hist)
    case Report(turn, ret, now) =>
      var cb := Record(b.cb, ret, turn, now);
      Breaker(cb, b.permits - multiset{turn},
              if cb.state == b.cb.state then b.fails
              else if b.cb.state == HALF_OPEN && cb.state == OPEN then b.fails + 1
              else 0,
              if Counts(b.cb, turn, ret) then b.hist + [Outcome(now / WidthOf(b.cb.cfg), ret)]
              else if b.cb.state == HALF_OPEN && cb.state == CLOSED then []
              else b.hist)
  }

  ghost predicate Run(cfg: Config, steps: seq<Step>, bs: seq<Breaker>) {
    && |bs| == |steps| + 1
    && bs[0] == Breaker(Start(cfg), multiset{}, 0, [])
    && forall i {:trigger steps[i]} :: 0 <= i < |steps| ==>
         Enabled(bs[i], steps[i]) && bs[i + 1] == Next(bs[i], steps[i])
  }

  function Pow2(k: nat): nat { if k == 0 then 1 else 2 * Pow2(k - 1) }

  /** The wait after `k` half-open failures in a row: doubled each time, up to the maximum. */
  function Backoff(cfg: Config, k: nat): nat {
    AtMost(cfg.openTimeoutMs * Pow2(k), cfg.maxOpenTimeoutMs)
  }

  predicate PermitsFit(cb: Cb, permits: multiset<nat>) {
    && cb.turn >= 1
    && (forall t :: t in permits ==> 1 <= t <= cb.turn)
    && (cb.state == HALF_OPEN ==>
          cb.pending == permits[cb.turn] && cb.pending <= cb.cfg.halfOpenMax && cb.okCount < cb.cfg.halfOpenOk)
    && (cb.state != HALF_OPEN ==> cb.pending == 0 && cb.okCount == 0)
    && (cb.state == OPEN ==> permits[cb.turn] == 0)
  }

  /** Only four kinds of move happen, each is one turn, and they follow one another. */
  predicate MovesFit(cb: Cb) {
    && |cb.moves| == 9
    && cb.moves[0] == 0 && cb.moves[2] == 0 && cb.moves[3] == 0 && cb.moves[4] == 0 && cb.moves[8] == 0
    && cb.turn == 1 + cb.moves[1] + cb.moves[5] + cb.moves[6] + cb.moves[7]
    && cb.moves[1] + cb.moves[7] == cb.moves[5] + (if cb.state == OPEN then 1 else 0)
    && cb.moves[5] == cb.moves[6] + cb.moves[7] + (if cb.state == HALF_OPEN then 1 else 0)
  }

  predicate BackoffFits(cb: Cb, fails: nat) {
    cb.openMs == Backoff(cb.cfg, fails) && (cb.state == CLOSED ==> fails == 0)
  }

  predicate Inv(b: Breaker) {
    && Normal(b.cb.cfg) == b.cb.cfg
    && PermitsFit(b.cb, b.permits)
    && MovesFit(b.cb)
    && BackoffFits(b.cb, b.fails)
    && b.cb.buckets == Ring(b.cb.cfg.buckets, b.hist)
  }

  lemma AskKept(b: Breaker, now: nat)
    requires Inv(b)
    ensures Inv(Next(b, Ask(now)))
  {
    if b.cb.state == CLOSED {
      assert Next(b, Ask(now)).cb == b.cb;
    } else if b.cb.state == HALF_OPEN {
      if b.cb.pending < b.cb.cfg.halfOpenMax { ProbeKept(b); }
    } else if Waited(b.cb, now) {
      HalfOpenKept(b);
      ProbeKept(b.(cb := ToHalfOpen(b.cb)));
    }
  }

  /** An open breaker holds no permit of its turn, so the new turn starts with none. */
  lemma HalfOpenKept(b: Breaker)
    requires Inv(b) && b.cb.state == OPEN
    ensures Inv(b.(cb := ToHalfOpen(b.cb))) && ToHalfOpen(b.cb).state == HALF_OPEN
  {
  }

  lemma ProbeKept(b: Breaker)
    requires Inv(b) && b.cb.state == HALF_OPEN && b.cb.pending < b.cb.cfg.halfOpenMax
    ensures Inv(b.(cb := b.cb.(pending := b.cb.pending + 1), permits := b.permits + multiset{b.cb.turn}))
  {
  }

  lemma BackoffDoubles(cfg: Config, k: nat)
    ensures AtMost(Backoff(cfg, k) * 2, cfg.maxOpenTimeoutMs) == Backoff(cfg, k + 1)
  {
    assert cfg.openTimeoutMs * Pow2(k + 1) == 2 * (cfg.openTimeoutMs * Pow2(k));
  }

  lemma StartFits(cfg: Config)
    ensures Inv(Breaker(Start(cfg), multiset{}, 0, []))
  {
  }

  predicate TurnsFit(turn: nat, permits: multiset<nat>) {
    turn >= 1 && forall t :: t in permits ==> 1 <= t <= turn
  }

  lemma OpenKept(c: Cb, permits: multiset<nat>, fails: nat, hist: seq<Outcome>, again: bool, now: int)
    requires c.buckets == Ring(c.cfg.buckets, hist)
    requires Normal(c.cfg) == c.cfg && MovesFit(c) && TurnsFit(c.turn, permits)
    requires c.openMs == Backoff(c.cfg, fails) && c.state == (if again then HALF_OPEN else CLOSED)
    ensures Inv(Breaker(ToOpen(c, again, now), permits, if again then fails + 1 else 0, hist))
  {
    BackoffDoubles(c.cfg, fails);
    assert Backoff(c.cfg, 0) == c.cfg.openTimeoutMs by { assert Pow2(0) == 1; }
  }

  lemma ClosedKept(c: Cb, permits: multiset<nat>)
    requires Normal(c.cfg) == c.cfg && MovesFit(c) && TurnsFit(c.turn, permits) && c.state == HALF_OPEN
    requires |c.buckets| == c.cfg.buckets
    ensures Inv(Breaker(ToClosed(c), permits, 0, []))
  {
    assert Backoff(c.cfg, 0) == c.cfg.openTimeoutMs by { assert Pow2(0) == 1; }
  }

  lemma ReportHalfKept(b: Breaker, ret: UpRet, now: nat)
    requires Inv(b) && b.cb.state == HALF_OPEN && b.cb.turn in b.permits
    ensures Inv(Next(b, Report(b.cb.turn, ret, now)))
  {
    match ret.mark
    case SKIP => HalfSkipKept(b, ret, now);
    case FAIL => HalfFailKept(b, ret, now);
    case OK => HalfOkKept(b, ret, now);
  }

  lemma HalfSkipKept(b: Breaker, ret: UpRet, now: nat)
    requires Inv(b) && b.cb.state == HALF_OPEN && b.cb.turn in b.permits && ret.mark == SKIP
    ensures Inv(Next(b, Report(b.cb.turn, ret, now)))
  {
  }

  lemma HalfFailKept(b: Breaker, ret: UpRet, now: nat)
    requires Inv(b) && b.cb.state == HALF_OPEN && b.cb.turn in b.permits && ret.mark == FAIL
    ensures Inv(Next(b, Report(b.cb.turn, ret, now)))
  {
    OpenKept(b.cb.(pending := b.cb.pending - 1), b.permits - multiset{b.cb.turn}, b.fails, b.hist, true, now);
  }

  lemma HalfOkKept(b: Breaker, ret: UpRet, now: nat)
    requires Inv(b) && b.cb.state == HALF_OPEN && b.cb.turn in b.permits && ret.mark == OK
    ensures Inv(Next(b, Report(b.cb.turn, ret, now)))
  {
    var d := b.cb.(pending := b.cb.pending - 1, okCount := b.cb.okCount + 1);
    if d.okCount >= d.cfg.halfOpenOk {
      ClosedKept(d, b.permits - multiset{b.cb.turn});
    }
  }

  /** Counting an outcome touches neither permits nor moves nor the wait. */
  lemma ReportClosedKept(b: Breaker, ret: UpRet, now: nat)
    requires Inv(b) && b.cb.state == CLOSED && b.cb.turn in b.permits && ret.mark != SKIP
    ensures Inv(Next(b, Report(b.cb.turn, ret, now)))
  {
    var tick := now / WidthOf(b.cb.cfg);
    var fails := if ret.mark == FAIL then b.cb.consecFail + 1 else 0;
    var d := CountedKept(b, ret, tick, fails);
    OpenKept(d.cb, d.permits, d.fails, d.hist, false, now);
  }

  lemma CountedKept(b: Breaker, ret: UpRet, tick: nat, consec: nat) returns (d: Breaker)
    requires Inv(b) && b.cb.state == CLOSED && b.cb.turn in b.permits
    ensures d == Breaker(b.cb.(consecFail := consec, buckets := AddBucket(b.cb.buckets, ret, tick)),
                         b.permits - multiset{b.cb.turn}, b.fails, b.hist + [Outcome(tick, ret)])
    ensures Inv(d)
  {
    var hist := b.hist + [Outcome(tick, ret)];
    assert hist[..|hist| - 1] == b.hist;
    d := Breaker(b.cb.(consecFail := consec, buckets := AddBucket(b.cb.buckets, ret, tick)),
                 b.permits - multiset{b.cb.turn}, b.fails, hist);
  }

  lemma ReportKept(b: Breaker, turn: nat, ret: UpRet, now: nat)
    requires Inv(b) && Enabled(b, Report(turn, ret, now))
    ensures Inv(Next(b, Report(turn, ret, now)))
  {
    if turn == b.cb.turn && b.cb.state == HALF_OPEN {
      ReportHalfKept(b, ret, now);
    } else if turn == b.cb.turn && b.cb.state == CLOSED && ret.mark != SKIP {
      ReportClosedKept(b, ret, now);
    }
  }

  /** In every run where each permit is reported once with its turn: half-open pending is the
      number of outstanding permits of the current turn and stays within the maximum, only the
      four moves happen, and after k half-open failures in a row the wait is min(base * 2^k, max). */
  lemma {:induction false} BreakerConservation(cfg: Config, steps: seq<Step>, bs: seq<Breaker>, n: nat)
    requires Run(cfg, steps, bs) && n < |bs|
    ensures Inv(bs[n]) && bs[n].cb.cfg == Normal(cfg)
  {
    if n == 0 {
      StartFits(cfg);
    } else {
      BreakerConservation(cfg, steps, bs, n - 1);
      assert bs[n] == Next(bs[n - 1], steps[n - 1]);
      StepKept(bs[n - 1], steps[n - 1]);
    }
  }

  lemma StepKept(b: Breaker, s: Step)
    requires Inv(b) && Enabled(b, s)
    ensures Inv(Next(b, s)) && Next(b, s).cb.cfg == b.cb.cfg
  {
    match s
    case Ask(now) => AskKept(b, now);
    case Report(turn, ret, now) => ReportKept(b, turn, ret, now);
  }

  /** A report under an old turn changes nothing: a late result of an earlier probe cannot move
      the breaker. */
  lemma StaleReportsAreIgnored(cfg: Config, steps: seq<Step>, bs: seq<Breaker>, n: nat)
    requires Run(cfg, steps, bs) && n < |steps| && steps[n].Report? && steps[n].turn != bs[n].cb.turn
    ensures bs[n + 1].cb == bs[n].cb && steps[n].turn < bs[n].cb.turn
  {
    BreakerConservation(cfg, steps, bs, n);
    assert bs[n + 1] == Next(bs[n], steps[n]);
  }

  // ----- the window against the true history -----

  function PlusOne(s: Sums, r: UpRet): Sums {
    Sums(s.requests + 1, s.failures + (if r.mark == FAIL then 1 else 0), s.slows + if r.slow then 1 else 0)
  }

  /** Totals over the outcomes that satisfy `p`. */
  function SumIf(hist: seq<Outcome>, p: Outcome -> bool): Sums {
    if hist == [] then Sums(0, 0, 0)
    else
      var s := SumIf(hist[..|hist| - 1], p);
      if p(hist[|hist| - 1]) then PlusOne(s, hist[|hist| - 1].ret) else s
  }

  /** What a window of `keep` ticks ending now should count. */
  function TrueSums(hist: seq<Outcome>, tick: nat, keep: nat): Sums {
    SumIf(hist, (h: Outcome) => h.tick <= tick && tick - h.tick < keep)
  }

  /** The ring after a history of outcomes. */
  function Ring(n: nat, hist: seq<Outcome>): (bs: seq<Bucket>)
    ensures |bs| == n
  {
    if hist == [] then seq(n, _ => EMPTY)
    else
      var last := hist[|hist| - 1];
      AddBucket(Ring(n, hist[..|hist| - 1]), last.ret, last.tick)
  }

  /** A clock that does not go back and never reads tick 0, which the ring takes for "unused". */
  ghost predicate Timely(hist: seq<Outcome>, tick: nat) {
    && (forall i :: 0 <= i < |hist| ==> 1 <= hist[i].tick <= tick)
    && (forall i, j :: 0 <= i < j < |hist| ==> hist[i].tick <= hist[j].tick)
  }

  predicate At(h: Outcome, t: nat) { h.tick == t }

  predicate InSlot(h: Outcome, n: nat, s: nat)
    requires n > 0
  {
    h.tick % n == s
  }

  /** A used slot counts exactly the outcomes of its tick, the latest that fell into it. */
  ghost predicate SlotFits(b: Bucket, hist: seq<Outcome>, n: nat, s: nat)
    requires n > 0
  {
    && (b.tick == 0 ==> b == EMPTY && forall i :: 0 <= i < |hist| ==> !InSlot(hist[i], n, s))
    && (b.tick != 0 ==>
          && b.tick % n == s
          && Sums(b.requests, b.failures, b.slows) == SumIf(hist, h => At(h, b.tick))
          && (exists i :: 0 <= i < |hist| && hist[i].tick == b.tick)
          && forall i :: 0 <= i < |hist| && InSlot(hist[i], n, s) ==> hist[i].tick <= b.tick)
  }

  lemma {:induction false} NoneAt(hist: seq<Outcome>, t: nat)
    requires forall i :: 0 <= i < |hist| ==> hist[i].tick != t
    ensures SumIf(hist, h => At(h, t)) == Sums(0, 0, 0)
  {
    if hist != [] { NoneAt(hist[..|hist| - 1], t); }
  }

  lemma {:induction false} RingFits(n: nat, hist: seq<Outcome>, tick: nat, s: nat)
    requires n > 0 && Timely(hist, tick) && s < n
    ensures SlotFits(Ring(n, hist)[s], hist, n, s)
    decreases |hist|
  {
    if hist != [] {
      var init, last := hist[..|hist| - 1], hist[|hist| - 1];
      RingFits(n, init, tick, s);
      var b := Ring(n, init)[s];
      if InSlot(last, n, s) {
        if b.tick != last.tick {
          forall i | 0 <= i < |init| ensures init[i].tick != last.tick {
            assert init[i] == hist[i];
            assert init[i].tick == last.tick ==> InSlot(init[i], n, s);
          }
          NoneAt(init, last.tick);
        }
        assert Ring(n, hist)[s] == Add(b, last.ret, last.tick);
      } else {
        assert Ring(n, hist)[s] == b;
        if b.tick != 0 {
          var i :| 0 <= i < |init| && init[i].tick == b.tick;
          assert hist[i].tick == b.tick;
        }
      }
    }
  }

  lemma {:induction false} SamePick(hist: seq<Outcome>, p: Outcome -> bool, q: Outcome -> bool)
    requires forall i :: 0 <= i < |hist| ==> p(hist[i]) == q(hist[i])
    ensures SumIf(hist, p) == SumIf(hist, q)
  {
    if hist != [] { SamePick(hist[..|hist| - 1], p, q); }
  }

  function Plus(a: Sums, b: Sums): Sums {
    Sums(a.requests + b.requests, a.failures + b.failures, a.slows + b.slows)
  }

  lemma {:induction false} Disjoint(hist: seq<Outcome>, p: Outcome -> bool, q: Outcome -> bool, both: Outcome -> bool)
    requires forall i :: 0 <= i < |hist| ==> !(p(hist[i]) && q(hist[i])) && both(hist[i]) == (p(hist[i]) || q(hist[i]))
    ensures SumIf(hist, both) == Plus(SumIf(hist, p), SumIf(hist, q))
  {
    if hist != [] {
      var last := hist[|hist| - 1];
      Disjoint(hist[..|hist| - 1], p, q, both);
      assert both(last) == (p(last) || q(last)) && !(p(last) && q(last));
    }
  }

  lemma {:induction false} Nothing(hist: seq<Outcome>, p: Outcome -> bool)
    requires forall i :: 0 <= i < |hist| ==> !p(hist[i])
    ensures SumIf(hist, p) == Sums(0, 0, 0)
  {
    if hist != [] { Nothing(hist[..|hist| - 1], p); }
  }

  predicate Inside(h: Outcome, tick: nat, keep: nat) { h.tick <= tick && tick - h.tick < keep }

  function Part(b: Bucket, tick: nat, keep: nat): Sums {
    if Counted(b, tick, keep) then Sums(b.requests, b.failures, b.slows) else Sums(0, 0, 0)
  }

  /** One slot contributes exactly the outcomes of its residue inside the window. */
  lemma SlotExact(n: nat, hist: seq<Outcome>, tick: nat, keep: nat, s: nat)
    requires n > 0 && keep <= n && Timely(hist, tick) && s < n
    ensures SumIf(hist, h => Inside(h, tick, keep) && InSlot(h, n, s)) == Part(Ring(n, hist)[s], tick, keep)
  {
    RingFits(n, hist, tick, s);
    var b := Ring(n, hist)[s];
    var p := h => Inside(h, tick, keep) && InSlot(h, n, s);
    forall i | 0 <= i < |hist|
      ensures p(hist[i]) == (Counted(b, tick, keep) && At(hist[i], b.tick))
    {
      if p(hist[i]) {
        LapFacts(n, hist[i].tick, b.tick);
      }
    }
    if Counted(b, tick, keep) {
      SamePick(hist, p, h => At(h, b.tick));
    } else {
      Nothing(hist, p);
    }
  }

  lemma {:induction false} WindowUpTo(n: nat, hist: seq<Outcome>, tick: nat, keep: nat, s: nat)
    requires n > 0 && keep <= n && Timely(hist, tick) && s <= n
    ensures Window(Ring(n, hist)[..s], tick, keep) == SumIf(hist, h => Inside(h, tick, keep) && h.tick % n < s)
  {
    var bs := Ring(n, hist);
    if s == 0 {
      Nothing(hist, h => Inside(h, tick, keep) && h.tick % n < s);
    } else {
      WindowUpTo(n, hist, tick, keep, s - 1);
      SlotExact(n, hist, tick, keep, s - 1);
      UpToNextSlot(n, hist, tick, keep, s - 1);
      WindowSnoc(bs, tick, keep, s - 1);
    }
  }

  lemma {:induction false} WindowSnoc(bs: seq<Bucket>, tick: nat, keep: nat, s: nat)
    requires s < |bs|
    ensures Window(bs[..s + 1], tick, keep) == Plus(Window(bs[..s], tick, keep), Part(bs[s], tick, keep))
  {
    assert bs[..s + 1][..s] == bs[..s];
  }

  lemma {:induction false} UpToNextSlot(n: nat, hist: seq<Outcome>, tick: nat, keep: nat, s: nat)
    requires s < n
    ensures SumIf(hist, h => Inside(h, tick, keep) && h.tick % n < s + 1)
         == Plus(SumIf(hist, h => Inside(h, tick, keep) && h.tick % n < s),
                 SumIf(hist, h => Inside(h, tick, keep) && InSlot(h, n, s)))
  {
    Disjoint(hist, h => Inside(h, tick, keep) && h.tick % n < s, h => Inside(h, tick, keep) && InSlot(h, n, s),
             h => Inside(h, tick, keep) && h.tick % n < s + 1);
  }

  /** With no more ticks to keep than buckets, the ring sums are the true counts. */
  lemma RingIsExact(n: nat, hist: seq<Outcome>, tick: nat, keep: nat)
    requires n > 0 && keep <= n && Timely(hist, tick)
    ensures Window(Ring(n, hist), tick, keep) == TrueSums(hist, tick, keep)
  {
    WindowUpTo(n, hist, tick, keep, n);
    assert Ring(n, hist)[..n] == Ring(n, hist);
    SamePick(hist, h => Inside(h, tick, keep) && h.tick % n < n,
             (h: Outcome) => h.tick <= tick && tick - h.tick < keep);
  }

  /** The ring is long enough exactly when the buckets divide the window or outnumber it. */
  lemma RingIsLongEnough(c: Config)
    requires c.buckets > 0 && c.windowMs > 0
    ensures KeepOf(c) <= c.buckets <==> c.windowMs % c.buckets == 0 || c.windowMs < c.buckets
    ensures KeepOf(c) > 0
  {
    var w, n := c.windowMs, c.buckets;
    var q, r := w / n, w % n;
    assert w == q * n + r;
    if w < n {
      Remainder(w, n, 0, w);
    } else if q <= 1 {
      assert WidthOf(c) == 1;
    } else if r == 0 {
      assert w + q - 1 == n * q + (q - 1);
      Remainder(w + q - 1, q, n, q - 1);
    } else {
      KeepTooLong(w, n, q, r);
    }
  }

  lemma KeepTooLong(w: nat, n: nat, q: nat, r: nat)
    requires q > 0 && 0 < r && w == q * n + r
    ensures (w + q - 1) / q > n
  {
    var k := (w + q - 1) / q;
    assert w + q - 1 == k * q + (w + q - 1) % q;
    assert k <= n ==> k * q <= n * q;
  }

  /** So the window is exact for every history exactly under that condition: otherwise two
      outcomes a ring's length apart are both inside the window, and the ring remembers one. */
  lemma WindowExactIff(c: Config)
    requires c.buckets > 0 && c.windowMs > 0
    ensures (c.windowMs % c.buckets == 0 || c.windowMs < c.buckets) <==>
              forall hist, tick {:trigger TrueSums(hist, tick, KeepOf(c))} :: Timely(hist, tick) ==>
                Window(Ring(c.buckets, hist), tick, KeepOf(c)) == TrueSums(hist, tick, KeepOf(c))
  {
    RingIsLongEnough(c);
    var n, keep := c.buckets, KeepOf(c);
    if keep <= n {
      forall hist, tick | Timely(hist, tick)
        ensures Window(Ring(n, hist), tick, keep) == TrueSums(hist, tick, keep)
      {
        RingIsExact(n, hist, tick, keep);
      }
    } else {
      TwoInOneSlot(n, keep);
    }
  }

  lemma TwoInOneSlot(n: nat, keep: nat)
    requires 0 < n < keep
    ensures var hist := [Outcome(1, UpRet(OK, false)), Outcome(1 + n, UpRet(OK, false))];
            && Timely(hist, 1 + n)
            && TrueSums(hist, 1 + n, keep).requests == 2
            && Window(Ring(n, hist), 1 + n, keep).requests == 1
  {
    var a, b := Outcome(1, UpRet(OK, false)), Outcome(1 + n, UpRet(OK, false));
    var hist := [a, b];
    var p := (h: Outcome) => h.tick <= 1 + n && 1 + n - h.tick < keep;
    assert hist[..1] == [a] && [a][..0] == [];
    assert SumIf([a], p) == Sums(1, 0, 0);
    assert SumIf(hist, p) == Sums(2, 0, 0);
    var s := 1 % n;
    LapFacts(n, 1, 1);
    var none := seq(n, _ => EMPTY);
    assert Ring(n, []) == none;
    assert Ring(n, [a]) == none[s := Bucket(1, 1, 0, 0)];
    assert Ring(n, hist) == none[s := Bucket(1 + n, 1, 0, 0)];
    OneUsed(none[s := Bucket(1 + n, 1, 0, 0)], 1 + n, keep, s);
  }

  lemma {:induction false} OneUsed(bs: seq<Bucket>, tick: nat, keep: nat, s: nat)
    requires keep > 0 && forall i :: 0 <= i < |bs| && i != s ==> bs[i] == EMPTY
    requires s < |bs| ==> bs[s] == Bucket(tick, 1, 0, 0) && tick > 0
    ensures Window(bs, tick, keep).requests == if s < |bs| then 1 else 0
  {
    if bs != [] { OneUsed(bs[..|bs| - 1], tick, keep, s); }
  }

  lemma TicksAscend(a: nat, b: nat, w: nat)
    requires 0 < w && a <= b
    ensures a / w <= b / w
    ensures w <= a ==> a / w >= 1
  {
    var x, y := a / w, b / w;
    assert a == x * w + a % w && b == y * w + b % w;
    if x > y { Scale(x - y, w); }
    if x == 0 { assert a == a % w; }
  }

  lemma HistGrowsInTime(b: Breaker, s: Step, now: nat)
    requires Enabled(b, s) && Timely(b.hist, s.now / WidthOf(b.cb.cfg))
    requires WidthOf(b.cb.cfg) <= s.now <= now
    ensures Timely(Next(b, s).hist, now / WidthOf(b.cb.cfg))
  {
    var w := WidthOf(b.cb.cfg);
    TicksAscend(s.now, now, w);
    HistNext(b, s);
    var tick := s.now / w;
    if s.Report? { TimelySnoc(b.hist, Outcome(tick, s.ret), tick); }
    TimelyLater(Next(b, s).hist, tick, now / w);
  }

  lemma {:induction false} HistNext(b: Breaker, s: Step)
    requires Enabled(b, s)
    ensures var hist := Next(b, s).hist;
            hist == [] || hist == b.hist
            || (s.Report? && hist == b.hist + [Outcome(s.now / WidthOf(b.cb.cfg), s.ret)])
  {
  }

  lemma {:induction false} TimelySnoc(hist: seq<Outcome>, h: Outcome, tick: nat)
    requires Timely(hist, tick) && h.tick == tick >= 1
    ensures Timely(hist + [h], tick)
  {
  }

  lemma {:induction false} TimelyLater(hist: seq<Outcome>, tick: nat, later: nat)
    requires Timely(hist, tick) && tick <= later
    ensures Timely(hist, later)
  {
  }

  lemma {:induction false} HistIsTimely(cfg: Config, steps: seq<Step>, bs: seq<Breaker>, n: nat, now: nat)
    requires Run(cfg, steps, bs) && n < |bs|
    requires forall i :: 0 <= i < n ==> WidthOf(Normal(cfg)) <= steps[i].now <= now
    requires forall i, j :: 0 <= i < j < n ==> steps[i].now <= steps[j].now
    ensures Timely(bs[n].hist, now / WidthOf(Normal(cfg)))
  {
    if n > 0 {
      HistIsTimely(cfg, steps, bs, n - 1, steps[n - 1].now);
      BreakerConservation(cfg, steps, bs, n - 1);
      HistGrowsInTime(bs[n - 1], steps[n - 1], now);
    }
  }

  /** In every run under a clock that does not go back, with the buckets dividing the window or
      outnumbering it, what the breaker's window counts is the true history since it last closed. */
  lemma WindowIsTrueInRuns(cfg: Config, steps: seq<Step>, bs: seq<Breaker>, n: nat, now: nat)
    requires Run(cfg, steps, bs) && n < |bs|
    requires var c := Normal(cfg); c.windowMs % c.buckets == 0 || c.windowMs < c.buckets
    requires forall i :: 0 <= i < n ==> WidthOf(Normal(cfg)) <= steps[i].now <= now
    requires forall i, j :: 0 <= i < j < n ==> steps[i].now <= steps[j].now
    ensures var c := Normal(cfg);
            var tick := now / WidthOf(c);
            Window(bs[n].cb.buckets, tick, KeepOf(c)) == TrueSums(bs[n].hist, tick, KeepOf(c))
  {
    BreakerConservation(cfg, steps, bs, n);
    HistIsTimely(cfg, steps, bs, n, now);
    RingIsLongEnough(Normal(cfg));
    RingIsExact(Normal(cfg).buckets, bs[n].hist, now / WidthOf(Normal(cfg)), KeepOf(Normal(cfg)));
  }

  // ----- when a closed breaker opens -----

  datatype Seen = Seen(at: nat, ret: UpRet)

  /** The results counted since the breaker last closed, with their times, read off the run. */
  function SinceClosed(steps: seq<Step>, bs: seq<Breaker>, n: nat): seq<Seen>
    requires n <= |steps| && n < |bs|
  {
    if n == 0 then []
    else SeenThen(SinceClosed(steps, bs, n - 1), bs[n - 1].cb.state, bs[n - 1].cb.turn, steps[n - 1], bs[n].cb.state)
  }

  /** From one state to the next: closing forgets, a result under the turn of a closed breaker counts. */
  function SeenThen(seen: seq<Seen>, from: State, turn: nat, s: Step, to: State): seq<Seen> {
    if from == HALF_OPEN && to == CLOSED then []
    else if from == CLOSED && s.Report? && s.turn == turn && s.ret.mark != SKIP then seen + [Seen(s.now, s.ret)]
    else seen
  }

  function HowMany(seen: seq<Seen>, p: Seen -> bool): nat {
    if seen == [] then 0
    else HowMany(seen[..|seen| - 1], p) + if p(seen[|seen| - 1]) then 1 else 0
  }

  /** Inside the window at `now`: both times are taken down to a bucket's width. */
  predicate InWindow(c: Config, at: nat, now: nat)
    requires c.windowMs > 0 && c.buckets > 0
  {
    var w := if c.windowMs < c.buckets then 1 else c.windowMs / c.buckets;
    w > 0 && at / w <= now / w && now / w - at / w < c.windowMs / w
  }

  predicate LastFail(seen: seq<Seen>, k: nat) {
    |seen| >= k && forall i :: |seen| - k <= i < |seen| ==> seen[i].ret.mark == FAIL
  }

  /** The last `k` results are failures and the one before, if any, is not. */
  predicate FailsAtEnd(seen: seq<Seen>, k: nat) {
    LastFail(seen, k) && (k < |seen| ==> seen[|seen| - 1 - k].ret.mark != FAIL)
  }

  function Ticked(seen: seq<Seen>, w: nat): (hist: seq<Outcome>)
    requires w > 0
    ensures |hist| == |seen|
  {
    seq(|seen|, i requires 0 <= i < |seen| => Outcome(seen[i].at / w, seen[i].ret))
  }

  /** What a step does to the failure counter of a breaker that is closed afterwards. */
  lemma CounterAfter(cb: Cb, ret: UpRet, turn: nat, now: nat)
    requires Record(cb, ret, turn, now).state == CLOSED
    ensures cb.state != OPEN
    ensures Record(cb, ret, turn, now).consecFail
         == if cb.state == HALF_OPEN then 0
            else if !Counts(cb, turn, ret) then cb.consecFail
            else if ret.mark == FAIL then cb.consecFail + 1 else 0
  {
  }

  /** The history kept is what was seen, and the failure counter counts the failures at its end. */
  predicate Mirrors(b: Breaker, seen: seq<Seen>) {
    b.hist == Ticked(seen, WidthOf(b.cb.cfg)) && (b.cb.state == CLOSED ==> FailsAtEnd(seen, b.cb.consecFail))
  }

  lemma {:induction false} SeenStep(b: Breaker, s: Step, seen: seq<Seen>)
    requires Enabled(b, s) && PermitsFit(b.cb, b.permits) && Mirrors(b, seen)
    ensures Mirrors(Next(b, s), SeenThen(seen, b.cb.state, b.cb.turn, s, Next(b, s).cb.state))
  {
    if s.Report? {
      assert s.turn >= 1;
      if Next(b, s).cb.state == CLOSED { CounterAfter(b.cb, s.ret, s.turn, s.now); }
      if Counts(b.cb, s.turn, s.ret) {
        assert Ticked(seen + [Seen(s.now, s.ret)], WidthOf(b.cb.cfg))
            == Ticked(seen, WidthOf(b.cb.cfg)) + [Outcome(s.now / WidthOf(b.cb.cfg), s.ret)];
      }
    }
  }

  lemma {:induction false} NothingSeen(cfg: Config)
    ensures Mirrors(Breaker(Start(cfg), multiset{}, 0, []), [])
  {
    assert Ticked([], WidthOf(Start(cfg).cfg)) == [];
  }

  lemma {:induction false} HistIsSeen(cfg: Config, steps: seq<Step>, bs: seq<Breaker>, n: nat)
    requires Run(cfg, steps, bs) && n < |bs|
    ensures Mirrors(bs[n], SinceClosed(steps, bs, n))
  {
    if n == 0 {
      NothingSeen(cfg);
    } else {
      HistIsSeen(cfg, steps, bs, n - 1);
      BreakerConservation(cfg, steps, bs, n - 1);
      SeenAtStep(cfg, steps, bs, n);
    }
  }

  lemma {:induction false} SeenAtStep(cfg: Config, steps: seq<Step>, bs: seq<Breaker>, n: nat)
    requires Run(cfg, steps, bs) && 0 < n < |bs| && Inv(bs[n - 1])
    requires Mirrors(bs[n - 1], SinceClosed(steps, bs, n - 1))
    ensures Mirrors(bs[n], SinceClosed(steps, bs, n))
  {
    SeenStep(bs[n - 1], steps[n - 1], SinceClosed(steps, bs, n - 1));
  }

  /** Under the condition on the buckets, width and number of ticks are these. */
  lemma WindowShape(c: Config)
    requires c.buckets > 0 && c.windowMs > 0 && (c.windowMs % c.buckets == 0 || c.windowMs < c.buckets)
    ensures WidthOf(c) == if c.windowMs < c.buckets then 1 else c.windowMs / c.buckets
    ensures KeepOf(c) == c.windowMs / WidthOf(c)
  {
    var w, n := c.windowMs, c.buckets;
    if w < n {
      Remainder(w, n, 0, w);
    } else {
      var q := w / n;
      assert w == q * n;
      Remainder(w, q, n, 0);
      Remainder(w + q - 1, q, n, q - 1);
    }
  }

  lemma {:induction false} RateReached(part: nat, whole: nat, rate: nat)
    requires whole > 0
    ensures Percent(part, whole) >= rate <==> part * 100 >= rate * whole
  {
    var q := part * 100 / whole;
    assert part * 100 == q * whole + part * 100 % whole;
    if q >= rate {
      assert q * whole >= rate * whole;
    } else {
      assert (q + 1) * whole <= rate * whole;
    }
  }

  /** The configuration in force: zeros are raised to one, rates cut to a hundred, the longest wait is
      no shorter than the first, and the probes that must succeed are no more than may run. */
  lemma ConfigInForce(c: Config)
    ensures var n := Normal(c);
            && (c.failureThreshold > 0 ==> n.failureThreshold == c.failureThreshold)
            && (c.windowMs > 0 ==> n.windowMs == c.windowMs) && (c.buckets > 0 ==> n.buckets == c.buckets)
            && (c.minRequests > 0 ==> n.minRequests == c.minRequests) && (c.slowMs > 0 ==> n.slowMs == c.slowMs)
            && (c.failureRate <= 100 ==> n.failureRate == c.failureRate)
            && (c.slowRate <= 100 ==> n.slowRate == c.slowRate)
            && (c.openTimeoutMs > 0 ==> n.openTimeoutMs == c.openTimeoutMs)
            && (c.maxOpenTimeoutMs >= c.openTimeoutMs > 0 ==> n.maxOpenTimeoutMs == c.maxOpenTimeoutMs)
            && (c.halfOpenMax > 0 ==> n.halfOpenMax == c.halfOpenMax)
            && (0 < c.halfOpenOk <= c.halfOpenMax ==> n.halfOpenOk == c.halfOpenOk)
    ensures var n := Normal(c);
            && (c.failureThreshold == 0 ==> n.failureThreshold == 1) && (c.windowMs == 0 ==> n.windowMs == 1)
            && (c.buckets == 0 ==> n.buckets == 1) && (c.minRequests == 0 ==> n.minRequests == 1)
            && (c.slowMs == 0 ==> n.slowMs == 1) && (c.openTimeoutMs == 0 ==> n.openTimeoutMs == 1)
            && (c.failureRate > 100 ==> n.failureRate == 100) && (c.slowRate > 100 ==> n.slowRate == 100)
            && (c.maxOpenTimeoutMs < n.openTimeoutMs ==> n.maxOpenTimeoutMs == n.openTimeoutMs)
            && (c.halfOpenMax == 0 ==> n.halfOpenMax == 1) && (c.halfOpenOk == 0 ==> n.halfOpenOk == 1)
            && (c.halfOpenOk > n.halfOpenMax ==> n.halfOpenOk == n.halfOpenMax)
  {
  }

  /** The counts of what was seen inside the window. */
  function SeenSums(c: Config, seen: seq<Seen>, now: nat): Sums
    requires c.windowMs > 0 && c.buckets > 0
  {
    Sums(HowMany(seen, (s: Seen) => InWindow(c, s.at, now)),
         HowMany(seen, (s: Seen) => InWindow(c, s.at, now) && s.ret.mark == FAIL),
         HowMany(seen, (s: Seen) => InWindow(c, s.at, now) && s.ret.slow))
  }

  /** What opens a closed breaker: the last `failureThreshold` results are failures, or of at least
      `minRequests` inside the window the share of failures, or of slow ones, reaches its rate. */
  predicate MustOpen(c: Config, seen: seq<Seen>, now: nat)
    requires c.windowMs > 0 && c.buckets > 0
  {
    var s := SeenSums(c, seen, now);
    || LastFail(seen, c.failureThreshold)
    || (s.requests >= c.minRequests && c.failureRate > 0 && s.failures * 100 >= c.failureRate * s.requests)
    || (s.requests >= c.minRequests && c.slowRate > 0 && s.slows * 100 >= c.slowRate * s.requests)
  }

  /** In every run under a clock that does not go back, with the buckets dividing the window or
      outnumbering it, a result under the current turn opens a closed breaker exactly when the
      results counted since it last closed, this one included, are such. */
  lemma {:induction false} OpensExactly(cfg: Config, steps: seq<Step>, bs: seq<Breaker>, n: nat)
    requires Run(cfg, steps, bs) && n < |steps| && steps[n].Report?
    requires bs[n].cb.state == CLOSED && steps[n].turn == bs[n].cb.turn && steps[n].ret.mark != SKIP
    requires var c := Normal(cfg); c.windowMs % c.buckets == 0 || c.windowMs < c.buckets
    requires forall i :: 0 <= i <= n ==> WidthOf(Normal(cfg)) <= steps[i].now
    requires forall i, j :: 0 <= i < j <= n ==> steps[i].now <= steps[j].now
    ensures bs[n + 1].cb.state ==
            if MustOpen(Normal(cfg), SinceClosed(steps, bs, n) + [Seen(steps[n].now, steps[n].ret)], steps[n].now)
            then OPEN else CLOSED
  {
    BreakerConservation(cfg, steps, bs, n);
    HistIsSeen(cfg, steps, bs, n);
    HistIsTimely(cfg, steps, bs, n, steps[n].now);
    TicksAscend(steps[n].now, steps[n].now, WidthOf(Normal(cfg)));
    Trips(bs[n], steps[n], SinceClosed(steps, bs, n));
    assert bs[n + 1] == Next(bs[n], steps[n]);
  }

  lemma {:induction false} Trips(b: Breaker, s: Step, seen: seq<Seen>)
    requires Inv(b) && Enabled(b, s) && Mirrors(b, seen) && s.Report?
    requires b.cb.state == CLOSED && s.turn == b.cb.turn && s.ret.mark != SKIP
    requires var c := b.cb.cfg; c.windowMs % c.buckets == 0 || c.windowMs < c.buckets
    requires Timely(b.hist, s.now / WidthOf(b.cb.cfg)) && s.now / WidthOf(b.cb.cfg) >= 1
    ensures Next(b, s).cb.state == if MustOpen(b.cb.cfg, seen + [Seen(s.now, s.ret)], s.now) then OPEN else CLOSED
  {
    var c, last := b.cb.cfg, Seen(s.now, s.ret);
    var all := seen + [last];
    assert all[..|all| - 1] == seen;
    WindowSeen(c, b.hist, seen, last);
    LastIsInside(c, s.now);
    FailuresCounted(all, b.cb.consecFail, c.failureThreshold);
    TooBadIs(c, all, s.now);
    OpensWhen(b.cb, s.ret, s.turn, s.now);
  }

  lemma {:induction false} LastIsInside(c: Config, now: nat)
    requires c.buckets > 0 && c.windowMs > 0 && (c.windowMs % c.buckets == 0 || c.windowMs < c.buckets)
    ensures InWindow(c, now, now)
  {
    WindowShape(c);
    RingIsLongEnough(c);
  }

  lemma {:induction false} OpensWhen(cb: Cb, ret: UpRet, turn: nat, now: nat)
    requires Counts(cb, turn, ret)
    ensures var tick := now / WidthOf(cb.cfg);
            Record(cb, ret, turn, now).state ==
              if (if ret.mark == FAIL then cb.consecFail + 1 else 0) >= cb.cfg.failureThreshold
                 || TooBad(cb.cfg, Window(AddBucket(cb.buckets, ret, tick), tick, KeepOf(cb.cfg)))
              then OPEN else CLOSED
  {
  }

  lemma {:induction false} SumsAreCounts(c: Config, seen: seq<Seen>, now: nat, p: Outcome -> bool)
    requires c.windowMs > 0 && c.buckets > 0
    requires forall s: Seen {:trigger InWindow(c, s.at, now)} ::
               InWindow(c, s.at, now) == p(Outcome(s.at / WidthOf(c), s.ret))
    ensures SumIf(Ticked(seen, WidthOf(c)), p) == SeenSums(c, seen, now)
  {
    if seen != [] {
      var init, last, w := seen[..|seen| - 1], seen[|seen| - 1], WidthOf(c);
      SumsAreCounts(c, init, now, p);
      assert Ticked(seen, w)[..|seen| - 1] == Ticked(init, w);
      assert InWindow(c, last.at, now) == p(Ticked(seen, w)[|seen| - 1]);
    }
  }

  lemma {:induction false} WindowSeen(c: Config, hist: seq<Outcome>, seen: seq<Seen>, last: Seen)
    requires c.buckets > 0 && c.windowMs > 0 && (c.windowMs % c.buckets == 0 || c.windowMs < c.buckets)
    requires hist == Ticked(seen, WidthOf(c))
    requires Timely(hist, last.at / WidthOf(c)) && last.at / WidthOf(c) >= 1
    ensures var tick := last.at / WidthOf(c);
            Window(AddBucket(Ring(c.buckets, hist), last.ret, tick), tick, KeepOf(c)) ==
              SeenSums(c, seen + [last], last.at)
  {
    var w := WidthOf(c);
    var tick, all := last.at / w, Ticked(seen + [last], w);
    assert all == hist + [Outcome(tick, last.ret)] && all[..|all| - 1] == hist;
    RingIsLongEnough(c);
    RingIsExact(c.buckets, all, tick, KeepOf(c));
    WindowShape(c);
    SumsAreCounts(c, seen + [last], last.at, (h: Outcome) => h.tick <= tick && tick - h.tick < KeepOf(c));
  }

  lemma {:induction false} TooBadIs(c: Config, seen: seq<Seen>, now: nat)
    requires c.windowMs > 0 && c.buckets > 0 && seen != [] && InWindow(c, seen[|seen| - 1].at, now)
    ensures var s := SeenSums(c, seen, now);
            TooBad(c, s) ==
              (s.requests >= c.minRequests
               && ((c.failureRate > 0 && s.failures * 100 >= c.failureRate * s.requests)
                   || (c.slowRate > 0 && s.slows * 100 >= c.slowRate * s.requests)))
  {
    var s := SeenSums(c, seen, now);
    assert s.requests > 0;
    RateReached(s.failures, s.requests, c.failureRate);
    RateReached(s.slows, s.requests, c.slowRate);
  }

  /** One more result, against the failure counter. */
  lemma {:induction false} FailuresCounted(seen: seq<Seen>, consec: nat, threshold: nat)
    requires seen != [] && FailsAtEnd(seen[..|seen| - 1], consec) && threshold > 0
    ensures LastFail(seen, threshold) <==>
              (if seen[|seen| - 1].ret.mark == FAIL then consec + 1 else 0) >= threshold
  {
    var init := seen[..|seen| - 1];
    if consec < |init| { assert seen[|init| - 1 - consec] == init[|init| - 1 - consec]; }
    forall i | 0 <= i < |init| ensures seen[i] == init[i] {}
  }

  // ----- when a half-open breaker closes -----

  /** How many successes under `turn` were reported. */
  function Successes(steps: seq<Step>, n: nat, turn: nat): nat
    requires n <= |steps|
  {
    if n == 0 then 0
    else Successes(steps, n - 1, turn)
         + if steps[n - 1].Report? && steps[n - 1].turn == turn && steps[n - 1].ret.mark == OK then 1 else 0
  }

  /** Successes are counted under the half-open turn, and no turn to come has any. */
  predicate Tallied(cb: Cb, turn: nat, successes: nat) {
    && (turn > cb.turn ==> successes == 0)
    && (turn == cb.turn && cb.state == HALF_OPEN ==> successes == cb.okCount)
    && (turn == cb.turn && cb.state == OPEN ==> successes == 0)
  }

  predicate Succeeds(s: Step, turn: nat) { s.Report? && s.turn == turn && s.ret.mark == OK }

  /** A report leaves state and turn, and counts a success of the half-open turn, or it moves. */
  lemma {:induction false} TallyAfter(cb: Cb, ret: UpRet, turn: nat, now: nat)
    requires turn >= 1
    ensures var d := Record(cb, ret, turn, now);
            || (d.turn == cb.turn && d.state == cb.state
                && (cb.state == HALF_OPEN ==>
                      d.okCount == cb.okCount + if turn == cb.turn && ret.mark == OK then 1 else 0))
            || (d.turn == cb.turn + 1 && d.state != HALF_OPEN && cb.state != OPEN)
  {
  }

  lemma {:induction false} TallyStep(b: Breaker, s: Step, turn: nat, successes: nat)
    requires Enabled(b, s) && PermitsFit(b.cb, b.permits) && Tallied(b.cb, turn, successes)
    ensures Tallied(Next(b, s).cb, turn, successes + if Succeeds(s, turn) then 1 else 0)
  {
    match s
    case Ask(now) => AskTally(b.cb, now);
    case Report(named, ret, now) =>
      assert 1 <= named <= b.cb.turn;
      TallyAfter(b.cb, ret, named, now);
  }

  lemma {:induction false} AskTally(cb: Cb, now: int)
    ensures var d := IsAllowed(cb, now).0;
            || (d.turn == cb.turn && d.state == cb.state && d.okCount == cb.okCount)
            || (d.turn == cb.turn + 1 && d.state == HALF_OPEN && d.okCount == 0)
  {
  }

  lemma {:induction false} SuccessesCounted(cfg: Config, steps: seq<Step>, bs: seq<Breaker>, n: nat, turn: nat)
    requires Run(cfg, steps, bs) && n < |bs|
    ensures Tallied(bs[n].cb, turn, Successes(steps, n, turn))
  {
    if n > 0 {
      SuccessesCounted(cfg, steps, bs, n - 1, turn);
      BreakerConservation(cfg, steps, bs, n - 1);
      TallyAtStep(cfg, steps, bs, n, turn);
    }
  }

  lemma {:induction false} TallyAtStep(cfg: Config, steps: seq<Step>, bs: seq<Breaker>, n: nat, turn: nat)
    requires Run(cfg, steps, bs) && 0 < n < |bs| && Inv(bs[n - 1])
    requires Tallied(bs[n - 1].cb, turn, Successes(steps, n - 1, turn))
    ensures Tallied(bs[n].cb, turn, Successes(steps, n, turn))
  {
    TallyStep(bs[n - 1], steps[n - 1], turn, Successes(steps, n - 1, turn));
  }

  /** In half-open, a failure under the current turn opens again, and a success closes exactly when it
      is the `halfOpenOk`-th under that turn. */
  lemma {:induction false} ClosesExactly(cfg: Config, steps: seq<Step>, bs: seq<Breaker>, n: nat)
    requires Run(cfg, steps, bs) && n < |steps| && steps[n].Report?
    requires bs[n].cb.state == HALF_OPEN && steps[n].turn == bs[n].cb.turn
    ensures bs[n + 1].cb.state == match steps[n].ret.mark
                                  case FAIL => OPEN
                                  case SKIP => HALF_OPEN
                                  case OK => if Successes(steps, n, steps[n].turn) + 1 >= Normal(cfg).halfOpenOk
                                             then CLOSED else HALF_OPEN
  {
    BreakerConservation(cfg, steps, bs, n);
    SuccessesCounted(cfg, steps, bs, n, steps[n].turn);
    assert bs[n + 1] == Next(bs[n], steps[n]);
  }
}
