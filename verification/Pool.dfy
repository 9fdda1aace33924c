/** The three-layer block allocator (tools/pool.h, tools/pool.cpp) as a state machine over one
    size class; classes share only the guard that drains a thread's bins. A step is one thread-local
    action or one section under the slab's lock; blocks are named by span and index, intrusive lists
    are sequences, head first. */
module Pool {

  datatype Block = Block(span: nat, index: nat)

  /** `published` is history: the span was linked into the slab at some time. */
  datatype Span = Span(free: seq<Block>, used: int, published: bool)

  datatype Bin = Bin(blocks: seq<Block>, cnt: int, max: int)

  /** Where a thread stands inside alloc or free. */
  datatype Pc = Idle | Checking | Mapping | Linking(span: nat) | Taking | Popping | Draining

  /** `guarded`: the thread has entered fill_alloc, whose TlsGuard drains its bins at exit. */
  datatype Thread = Thread(bin: Bin, pc: Pc, guarded: bool)

  datatype Pool = Pool(
    nblocks: nat,
    spans: map<nat, Span>,
    partial_: seq<nat>,
    threads: map<nat, Thread>,
    user: set<Block>,
    lost: set<Block>)      // left in the bin of a thread that exited unguarded

  datatype Step =
    | Start(t: nat)
    | Exit(t: nat)
    | Alloc(t: nat)
    | Check(t: nat)
    | Map(t: nat, span: nat, fails: bool)
    | Link(t: nat)
    | Take(t: nat)
    | PopFilled(t: nat)
    | Free(t: nat, b: Block)
    | Drain(t: nat)
    | DrainLocal(t: nat)
    | FillElsewhere(t: nat)    // fill_alloc for another size class

  const BIN_MAX := 256

  function Blocks(span: nat, n: nat): (s: seq<Block>)
    ensures |s| == n && forall i :: 0 <= i < n ==> s[i] == Block(span, n - 1 - i)
  {
    seq(n, i requires 0 <= i < n => Block(span, n - 1 - i))
  }

  function Without(s: seq<nat>, x: nat): seq<nat> {
    if s == [] then [] else if s[0] == x then s[1..] else [s[0]] + Without(s[1..], x)
  }

  function Push(b: Bin, x: Block): Bin {
    b.(blocks := [x] + b.blocks, cnt := b.cnt + 1)
  }

  function Pop(b: Bin): Bin
    requires b.blocks != []
  {
    b.(blocks := b.blocks[1..], cnt := b.cnt - 1)
  }

  function SetBin(m: Pool, t: nat, b: Bin): Pool
    requires t in m.threads
  {
    m.(threads := m.threads[t := m.threads[t].(bin := b)])
  }

  function Goto(m: Pool, t: nat, pc: Pc): Pool
    requires t in m.threads
  {
    m.(threads := m.threads[t := m.threads[t].(pc := pc)])
  }

  // ----- the sections under the lock -----

  predicate CanTake(m: Pool, t: nat) {
    && t in m.threads && m.partial_ != [] && m.partial_[0] in m.spans && m.spans[m.partial_[0]].free != []
  }

  /** One block from the first partial span to the thread's bin. */
  function TakeOne(m: Pool, t: nat): Pool
    requires CanTake(m, t)
  {
    var s := m.partial_[0];
    var sp := m.spans[s];
    var left := sp.free[1..];
    SetBin(m, t, Push(m.threads[t].bin, sp.free[0]))
      .(spans := m.spans[s := sp.(free := left, used := sp.used + 1)],
        partial_ := if left == [] then m.partial_[1..] else m.partial_)
  }

  function TakeUpTo(m: Pool, t: nat, k: nat): Pool
    decreases k
  {
    if k == 0 || !CanTake(m, t) then m else TakeUpTo(TakeOne(m, t), t, k - 1)
  }

  predicate CanGive(m: Pool, t: nat) {
    t in m.threads && m.threads[t].bin.blocks != [] && m.threads[t].bin.blocks[0].span in m.spans
  }

  /** The bin's first block goes home, and a span that was full is linked again. */
  function GiveBack(m: Pool, t: nat): Pool
    requires CanGive(m, t)
  {
    var b := m.threads[t].bin.blocks[0];
    var sp := m.spans[b.span];
    SetBin(m, t, Pop(m.threads[t].bin))
      .(spans := m.spans[b.span := sp.(free := [b] + sp.free, used := sp.used - 1)],
        partial_ := if sp.free == [] then [b.span] + m.partial_ else m.partial_)
  }

  /** The bin's first block was its span's last one out: the span is unlinked and unmapped. */
  function GiveLast(m: Pool, t: nat): Pool
    requires CanGive(m, t)
  {
    var b := m.threads[t].bin.blocks[0];
    SetBin(m, t, Pop(m.threads[t].bin))
      .(spans := m.spans - {b.span},
        partial_ := if m.spans[b.span].free != [] then Without(m.partial_, b.span) else m.partial_)
  }

  function GiveOne(m: Pool, t: nat): Pool
    requires CanGive(m, t)
  {
    if m.spans[m.threads[t].bin.blocks[0].span].used - 1 == 0 then GiveLast(m, t) else GiveBack(m, t)
  }

  function GiveUpTo(m: Pool, t: nat, k: nat): Pool
  {
    if k == 0 then m
    else
      var m' := GiveUpTo(m, t, k - 1);
      if CanGive(m', t) then GiveOne(m', t) else m'
  }

  // ----- steps -----

  predicate At(m: Pool, t: nat, pc: Pc) {
    t in m.threads && m.threads[t].pc == pc
  }

  predicate Enabled(m: Pool, s: Step) {
    match s
    case Start(t) => t !in m.threads
    case Exit(t) => At(m, t, Idle)
    case Alloc(t) => At(m, t, Idle)
    case Check(t) => At(m, t, Checking)
    case Map(t, span, _) => At(m, t, Mapping) && span !in m.spans
    case Link(t) => t in m.threads && m.threads[t].pc.Linking? && m.threads[t].pc.span in m.spans
    case Take(t) => At(m, t, Taking)
    case PopFilled(t) => At(m, t, Popping)
    case Free(t, b) => At(m, t, Idle) && b in m.user
    case Drain(t) => At(m, t, Draining)
    case DrainLocal(t) => At(m, t, Idle)
    case FillElsewhere(t) => At(m, t, Idle)
  }

  function Half(max: int): nat { if max / 2 < 1 then 1 else max / 2 }

  /** The bin's first block to the caller, or a null pointer. */
  function PopToUser(m: Pool, t: nat, missed: Pc): Pool
    requires t in m.threads
  {
    var bin := m.threads[t].bin;
    if bin.blocks == [] then Goto(m, t, missed)
    else Goto(SetBin(m, t, Pop(bin)), t, Idle).(user := m.user + {bin.blocks[0]})
  }

  function EmptyBin(m: Pool, t: nat): Pool
    requires t in m.threads
  {
    GiveUpTo(m, t, |m.threads[t].bin.blocks|)
  }

  function Guarded(m: Pool, t: nat): Pool
    requires t in m.threads
  {
    m.(threads := m.threads[t := m.threads[t].(guarded := true)])
  }

  function Leave(m: Pool, t: nat): Pool {
    m.(threads := m.threads - {t})
  }

  function BinSet(b: Bin): set<Block> { set x | x in b.blocks }

  function Next(m: Pool, s: Step): Pool
    requires Enabled(m, s)
  {
    match s
    case Start(t) => m.(threads := m.threads[t := Thread(Bin([], 0, 16), Idle, false)])
    case Exit(t) =>
      if m.threads[t].guarded then Leave(EmptyBin(m, t), t)
      else Leave(m, t).(lost := m.lost + BinSet(m.threads[t].bin))
    case Alloc(t) => PopToUser(m, t, Checking)
    case Check(t) => Goto(Guarded(m, t), t, if m.partial_ == [] then Mapping else Taking)
    case Map(t, span, fails) =>
      if fails then Goto(m, t, Idle)
      else Goto(m, t, Linking(span)).(spans := m.spans[span := Span(Blocks(span, m.nblocks), 0, false)])
    case Link(t) =>
      var span := m.threads[t].pc.span;
      Goto(m, t, Taking).(spans := m.spans[span := m.spans[span].(published := true)],
                          partial_ := [span] + m.partial_)
    case Take(t) =>
      if m.partial_ == [] then Goto(m, t, Idle)
      else
        var max := m.threads[t].bin.max;
        var m' := TakeUpTo(m, t, Half(max));
        if t in m'.threads then
          var bin := m'.threads[t].bin;
          Goto(SetBin(m', t, bin.(max := if max < BIN_MAX then max + 1 else max)), t, Popping)
        else m'
    case PopFilled(t) => PopToUser(m, t, Idle)
    case Free(t, b) =>
      var bin := Push(m.threads[t].bin, b);
      Goto(SetBin(m, t, bin), t, if bin.cnt > bin.max then Draining else Idle).(user := m.user - {b})
    case Drain(t) =>
      var bin := m.threads[t].bin;
      var give := if Half(bin.max) > bin.cnt then bin.cnt else Half(bin.max);
      var m' := GiveUpTo(m, t, if give < 0 then 0 else give);
      if t in m'.threads then Goto(m', t, Idle) else m'
    case DrainLocal(t) => EmptyBin(m, t)
    case FillElsewhere(t) => Guarded(m, t)
  }

  ghost predicate Run(n: nat, steps: seq<Step>, ms: seq<Pool>) {
    && |ms| == |steps| + 1
    && ms[0] == Pool(n, map[], [], map[], {}, {})
    && forall i {:trigger steps[i]} :: 0 <= i < |steps| ==>
         Enabled(ms[i], steps[i]) && ms[i + 1] == Next(ms[i], steps[i])
  }

  // ----- the invariant: every block is in exactly one place -----

  datatype Place = OnSpan | InBin(t: nat) | InUse | Lost

  ghost predicate NoDup<T>(s: seq<T>) {
    forall i, j :: 0 <= i < j < |s| ==> s[i] != s[j]
  }

  /** `s` lists exactly the blocks that `w` puts in `place` (of span `span`, for the free lists). */
  ghost predicate BinFits(b: Bin, t: nat, w: map<Block, Place>) {
    && NoDup(b.blocks) && b.cnt == |b.blocks|
    && forall x :: x in b.blocks <==> x in w && w[x] == InBin(t)
  }

  ghost predicate SpanFits(sp: Span, s: nat, n: nat, w: map<Block, Place>) {
    && NoDup(sp.free) && sp.used + |sp.free| == n
    && (forall x :: x in sp.free <==> x in w && x.span == s && w[x] == OnSpan)
    && (!sp.published ==> sp.used == 0)
  }

  ghost predicate SpansFit(spans: map<nat, Span>, n: nat, w: map<Block, Place>) {
    && (forall x :: x in w <==> x.span in spans && x.index < n)
    && forall s :: s in spans ==> SpanFits(spans[s], s, n, w)
  }

  ghost predicate BinsFit(threads: map<nat, Thread>, w: map<Block, Place>) {
    && (forall t :: t in threads ==> BinFits(threads[t].bin, t, w))
    && (forall x :: x in w && w[x].InBin? ==> w[x].t in threads)
  }

  ghost predicate UserFits(user: set<Block>, lost: set<Block>, w: map<Block, Place>) {
    && (forall x :: x in user <==> x in w && w[x] == InUse)
    && (forall x :: x in lost <==> x in w && w[x] == Lost)
  }

  /** The slab links exactly the published spans with a free block, each once. */
  ghost predicate PartialFits(partial_: seq<nat>, spans: map<nat, Span>) {
    && NoDup(partial_)
    && forall s :: s in partial_ <==> s in spans && spans[s].published && spans[s].free != []
  }

  /** A span not yet published belongs to the one thread about to link it. */
  ghost predicate LinkersFit(threads: map<nat, Thread>, spans: map<nat, Span>) {
    && (forall t :: t in threads && threads[t].pc.Linking? ==>
          threads[t].pc.span in spans && !spans[threads[t].pc.span].published)
    && (forall t, u :: t in threads && u in threads && threads[t].pc.Linking? && threads[u].pc.Linking? ==>
          threads[t].pc.span == threads[u].pc.span ==> t == u)
  }

  ghost predicate Fits(m: Pool, w: map<Block, Place>) {
    && m.nblocks > 0
    && SpansFit(m.spans, m.nblocks, w)
    && BinsFit(m.threads, w)
    && UserFits(m.user, m.lost, w)
    && PartialFits(m.partial_, m.spans)
    && LinkersFit(m.threads, m.spans)
  }

  lemma Consed<T>(x: T, s: seq<T>)
    requires NoDup(s) && x !in s
    ensures NoDup([x] + s)
  {
  }

  lemma {:induction false} WithoutFacts(s: seq<nat>, x: nat)
    requires NoDup(s)
    ensures NoDup(Without(s, x))
    ensures forall y :: y in Without(s, x) <==> y in s && y != x
  {
    if s != [] && s[0] != x {
      WithoutFacts(s[1..], x);
      Consed(s[0], Without(s[1..], x));
    }
  }

  /** n different blocks of one span of n blocks are all of them. */
  lemma {:induction false} WholeSpan(free: seq<Block>, span: nat, n: nat)
    requires NoDup(free) && |free| == n
    requires forall x :: x in free ==> x.span == span && x.index < n
    ensures forall i :: 0 <= i < n ==> Block(span, i) in free
  {
    var all := set i | 0 <= i < n :: Block(span, i);
    var have := set x | x in free;
    RangeSize(span, n);
    DistinctSize(free);
    assert have <= all;
    SameSize(have, all);
    forall i | 0 <= i < n ensures Block(span, i) in free {
      assert Block(span, i) in all;
    }
  }

  lemma {:induction false} RangeSize(span: nat, n: nat)
    ensures |set i | 0 <= i < n :: Block(span, i)| == n
  {
    var all := set i | 0 <= i < n :: Block(span, i);
    if n == 0 {
      assert all == {};
    } else {
      RangeSize(span, n - 1);
      assert all == (set i | 0 <= i < n - 1 :: Block(span, i)) + {Block(span, n - 1)};
    }
  }

  lemma {:induction false} DistinctSize(s: seq<Block>)
    requires NoDup(s)
    ensures |set x | x in s| == |s|
  {
    if s == [] {
      assert (set x | x in s) == {};
    } else {
      DistinctSize(s[1..]);
      assert (set x | x in s) == (set x | x in s[1..]) + {s[0]};
    }
  }

  lemma {:induction false} SameSize(a: set<Block>, b: set<Block>)
    requires a <= b && |a| == |b|
    ensures a == b
  {
    assert b == a + (b - a);
    assert |b - a| == 0;
  }

  // ----- moving one block -----

  lemma BinGains(bin: Bin, t: nat, w: map<Block, Place>, b: Block)
    requires BinFits(bin, t, w) && b in w && w[b] != InBin(t)
    ensures BinFits(Push(bin, b), t, w[b := InBin(t)])
  {
    Consed(b, bin.blocks);
  }

  lemma BinLoses(bin: Bin, t: nat, w: map<Block, Place>, place: Place)
    requires BinFits(bin, t, w) && bin.blocks != [] && place != InBin(t)
    ensures bin.blocks[0] in w && w[bin.blocks[0]] == InBin(t)
    ensures BinFits(Pop(bin), t, w[bin.blocks[0] := place])
  {
    var b := bin.blocks[0];
    assert b in bin.blocks;
    assert bin.blocks == [b] + bin.blocks[1..];
  }

  /** Other bins do not notice a block that moves between places outside them. */
  lemma BinStays(bin: Bin, t: nat, w: map<Block, Place>, b: Block, place: Place)
    requires BinFits(bin, t, w) && b in w && w[b] != InBin(t) && place != InBin(t)
    ensures BinFits(bin, t, w[b := place])
  {
  }

  lemma SpanStays(sp: Span, s: nat, n: nat, w: map<Block, Place>, b: Block, place: Place)
    requires SpanFits(sp, s, n, w) && b in w && (b.span != s || (w[b] != OnSpan && place != OnSpan))
    ensures SpanFits(sp, s, n, w[b := place])
  {
  }

  lemma SpanLoses(sp: Span, s: nat, n: nat, w: map<Block, Place>, place: Place)
    requires SpanFits(sp, s, n, w) && sp.free != [] && sp.published && place != OnSpan
    ensures sp.free[0] in w && w[sp.free[0]] == OnSpan && sp.free[0].span == s
    ensures SpanFits(sp.(free := sp.free[1..], used := sp.used + 1), s, n, w[sp.free[0] := place])
  {
    var b := sp.free[0];
    assert b in sp.free;
    assert sp.free == [b] + sp.free[1..];
  }

  lemma SpanGains(sp: Span, s: nat, n: nat, w: map<Block, Place>, b: Block)
    requires SpanFits(sp, s, n, w) && b in w && b.span == s && w[b] != OnSpan && sp.published
    ensures SpanFits(sp.(free := [b] + sp.free, used := sp.used - 1), s, n, w[b := OnSpan])
  {
    Consed(b, sp.free);
  }

  /** A block in a bin or in use belongs to a published span that counts it. */
  lemma OutMeansUsed(m: Pool, w: map<Block, Place>, b: Block)
    requires Fits(m, w) && b in w && w[b] != OnSpan
    ensures b.span in m.spans && m.spans[b.span].used >= 1 && m.spans[b.span].published
  {
    var sp := m.spans[b.span];
    assert SpanFits(sp, b.span, m.nblocks, w);
    if sp.used <= 0 {
      var free := sp.free;
      if |free| > m.nblocks { TooMany(free, b.span, m.nblocks); }
      WholeSpan(free, b.span, m.nblocks);
      assert false;
    }
  }

  lemma TooMany(free: seq<Block>, span: nat, n: nat)
    requires NoDup(free) && forall x :: x in free ==> x.span == span && x.index < n
    ensures |free| <= n
  {
    var all := set i | 0 <= i < n :: Block(span, i);
    var have := set x | x in free;
    RangeSize(span, n);
    DistinctSize(free);
    assert all == have + (all - have);
  }

  lemma UserStays(user: set<Block>, lost: set<Block>, w: map<Block, Place>, b: Block, place: Place)
    requires UserFits(user, lost, w) && b in w && (w[b].OnSpan? || w[b].InBin?) && (place.OnSpan? || place.InBin?)
    ensures UserFits(user, lost, w[b := place])
  {
  }

  /** Taking a block from a span: every other bin and span keeps what it had. */
  lemma TakeOneFits(m: Pool, t: nat, w: map<Block, Place>) returns (w': map<Block, Place>)
    requires Fits(m, w) && CanTake(m, t)
    ensures Fits(TakeOne(m, t), w')
  {
    var s := m.partial_[0];
    var sp := m.spans[s];
    var b := sp.free[0];
    var left := sp.free[1..];
    w' := w[b := InBin(t)];
    assert s in m.partial_;
    SpanLoses(sp, s, m.nblocks, w, InBin(t));
    TakeSpans(m, s, w, InBin(t), w', b);
    BinGains(m.threads[t].bin, t, w, b);
    MoveBins(m.threads, t, Push(m.threads[t].bin, b), w, b, w');
    TakeLinkers(m, t);
    TakePartial(m.partial_, m.spans, sp.(free := left, used := sp.used + 1));
    UserStays(m.user, m.lost, w, b, InBin(t));
  }

  lemma TakeSpans(m: Pool, s: nat, w: map<Block, Place>, place: Place, w': map<Block, Place>, b: Block)
    requires SpansFit(m.spans, m.nblocks, w) && s in m.spans && m.spans[s].free != [] && b == m.spans[s].free[0]
    requires b in w && w[b] == OnSpan && b.span == s && w' == w[b := place] && place != OnSpan
    requires SpanFits(m.spans[s].(free := m.spans[s].free[1..], used := m.spans[s].used + 1), s, m.nblocks, w')
    ensures SpansFit(m.spans[s := m.spans[s].(free := m.spans[s].free[1..], used := m.spans[s].used + 1)],
                     m.nblocks, w')
  {
    forall q | q in m.spans && q != s ensures SpanFits(m.spans[q], q, m.nblocks, w') {
      assert SpanFits(m.spans[q], q, m.nblocks, w);
      SpanStays(m.spans[q], q, m.nblocks, w, b, place);
    }
  }

  /** One thread's bin changes with the place of one block that was, or ends, in it. */
  lemma MoveBins(threads: map<nat, Thread>, t: nat, bin: Bin, w: map<Block, Place>, b: Block, w': map<Block, Place>)
    requires BinsFit(threads, w) && t in threads && b in w && b in w' && w' == w[b := w'[b]]
    requires BinFits(bin, t, w')
    requires w[b].InBin? ==> w[b].t == t
    requires w'[b].InBin? ==> w'[b].t == t
    ensures BinsFit(threads[t := threads[t].(bin := bin)], w')
  {
    forall u | u in threads && u != t ensures BinFits(threads[u].bin, u, w') {
      BinStays(threads[u].bin, u, w, b, w'[b]);
    }
  }

  lemma TakeLinkers(m: Pool, t: nat)
    requires LinkersFit(m.threads, m.spans) && CanTake(m, t) && m.spans[m.partial_[0]].published
    ensures LinkersFit(TakeOne(m, t).threads, TakeOne(m, t).spans)
  {
  }

  lemma TakePartial(partial_: seq<nat>, spans: map<nat, Span>, sp: Span)
    requires PartialFits(partial_, spans) && partial_ != []
    requires partial_[0] in spans && sp.published
    ensures PartialFits(if sp.free == [] then partial_[1..] else partial_, spans[partial_[0] := sp])
  {
    assert partial_ == [partial_[0]] + partial_[1..];
    assert partial_[0] in partial_;
  }

  lemma {:induction false} TakeUpToFits(m: Pool, t: nat, k: nat, w: map<Block, Place>) returns (w': map<Block, Place>)
    requires Fits(m, w) && t in m.threads
    ensures Fits(TakeUpTo(m, t, k), w')
    decreases k
  {
    if k == 0 || !CanTake(m, t) {
      w' := w;
    } else {
      var w1 := TakeOneFits(m, t, w);
      w' := TakeUpToFits(TakeOne(m, t), t, k - 1, w1);
    }
  }

  lemma GiveOneFits(m: Pool, t: nat, w: map<Block, Place>) returns (w': map<Block, Place>)
    requires Fits(m, w) && CanGive(m, t)
    ensures Fits(GiveOne(m, t), w')
  {
    var b := m.threads[t].bin.blocks[0];
    var sp := m.spans[b.span];
    var home := sp.(free := [b] + sp.free, used := sp.used - 1);
    w' := w[b := OnSpan];
    BinLoses(m.threads[t].bin, t, w, OnSpan);
    OutMeansUsed(m, w, b);
    SpanGains(sp, b.span, m.nblocks, w, b);
    MoveBins(m.threads, t, Pop(m.threads[t].bin), w, b, w');
    GiveSpans(m, b, w, w');
    if sp.used - 1 == 0 {
      w' := GiveLastFits(m, t, b, w');
    } else {
      GiveBackFits(m, t, w');
    }
  }

  lemma GiveBackFits(m: Pool, t: nat, w: map<Block, Place>)
    requires CanGive(m, t) && m.nblocks > 0
    requires var b := m.threads[t].bin.blocks[0];
             var sp := m.spans[b.span];
             && sp.published
             && SpansFit(m.spans[b.span := sp.(free := [b] + sp.free, used := sp.used - 1)], m.nblocks, w)
    requires BinsFit(m.threads[t := m.threads[t].(bin := Pop(m.threads[t].bin))], w)
    requires UserFits(m.user, m.lost, w) && PartialFits(m.partial_, m.spans) && LinkersFit(m.threads, m.spans)
    ensures Fits(GiveBack(m, t), w)
  {
    var b := m.threads[t].bin.blocks[0];
    var sp := m.spans[b.span];
    GivePartial(m.partial_, m.spans, b.span, sp.(free := [b] + sp.free, used := sp.used - 1));
    GiveLinkers(m, t);
  }

  lemma GiveLinkers(m: Pool, t: nat)
    requires CanGive(m, t) && LinkersFit(m.threads, m.spans)
    ensures LinkersFit(GiveBack(m, t).threads, GiveBack(m, t).spans)
  {
  }

  lemma GiveSpans(m: Pool, b: Block, w: map<Block, Place>, w': map<Block, Place>)
    requires SpansFit(m.spans, m.nblocks, w) && b in w && b.span in m.spans && w' == w[b := OnSpan]
    requires var home := m.spans[b.span].(free := [b] + m.spans[b.span].free, used := m.spans[b.span].used - 1);
             SpanFits(home, b.span, m.nblocks, w')
    ensures var home := m.spans[b.span].(free := [b] + m.spans[b.span].free, used := m.spans[b.span].used - 1);
            SpansFit(m.spans[b.span := home], m.nblocks, w')
  {
    forall q | q in m.spans && q != b.span ensures SpanFits(m.spans[q], q, m.nblocks, w') {
      assert SpanFits(m.spans[q], q, m.nblocks, w);
      SpanStays(m.spans[q], q, m.nblocks, w, b, OnSpan);
    }
  }

  lemma GivePartial(partial_: seq<nat>, spans: map<nat, Span>, s: nat, sp: Span)
    requires PartialFits(partial_, spans) && s in spans && spans[s].published && sp.published && sp.free != []
    ensures PartialFits(if spans[s].free == [] then [s] + partial_ else partial_, spans[s := sp])
  {
    if spans[s].free == [] { Consed(s, partial_); }
  }

  /** The span's last block is home: all its blocks are on its free list, so none is anywhere
      else, and the span may go. */
  lemma GiveLastFits(m: Pool, t: nat, b: Block, w: map<Block, Place>) returns (w': map<Block, Place>)
    requires CanGive(m, t) && m.threads[t].bin.blocks[0] == b
    requires m.nblocks > 0 && m.spans[b.span].used == 1 && m.spans[b.span].published
    requires var sp := m.spans[b.span];
             SpansFit(m.spans[b.span := sp.(free := [b] + sp.free, used := 0)], m.nblocks, w)
    requires BinsFit(m.threads[t := m.threads[t].(bin := Pop(m.threads[t].bin))], w)
    requires UserFits(m.user, m.lost, w) && PartialFits(m.partial_, m.spans) && LinkersFit(m.threads, m.spans)
    ensures Fits(GiveLast(m, t), w')
  {
    var s := b.span;
    var sp := m.spans[s];
    var home := sp.(free := [b] + sp.free, used := 0);
    var spans := m.spans[s := home];
    assert SpanFits(home, s, m.nblocks, w) by { assert spans[s] == home; }
    WholeSpan(home.free, s, m.nblocks);
    w' := map x | x in w && x.span != s :: w[x];
    AllOnSpan(home, s, m.nblocks, w, spans);
    UnmapSpans(spans, m.nblocks, w, s, w');
    assert spans - {s} == m.spans - {s};
    UnmapBins(GiveLast(m, t).threads, w, s, w');
    UnmapPartial(m.partial_, m.spans, s);
    UnmapLinkers(m, t);
  }

  lemma UnmapPartial(partial_: seq<nat>, spans: map<nat, Span>, s: nat)
    requires PartialFits(partial_, spans) && s in spans && spans[s].published
    ensures PartialFits(if spans[s].free != [] then Without(partial_, s) else partial_, spans - {s})
  {
    WithoutFacts(partial_, s);
  }

  lemma UnmapLinkers(m: Pool, t: nat)
    requires LinkersFit(m.threads, m.spans) && CanGive(m, t) && m.spans[m.threads[t].bin.blocks[0].span].published
    ensures LinkersFit(GiveLast(m, t).threads, GiveLast(m, t).spans)
  {
  }

  lemma AllOnSpan(home: Span, s: nat, n: nat, w: map<Block, Place>, spans: map<nat, Span>)
    requires SpansFit(spans, n, w) && SpanFits(home, s, n, w)
    requires forall i :: 0 <= i < n ==> Block(s, i) in home.free
    ensures forall x :: x in w && x.span == s ==> w[x] == OnSpan
  {
    forall x | x in w && x.span == s ensures w[x] == OnSpan {
      assert x == Block(s, x.index) && x in home.free;
    }
  }

  lemma UnmapSpans(spans: map<nat, Span>, n: nat, w: map<Block, Place>, s: nat, w': map<Block, Place>)
    requires SpansFit(spans, n, w) && w' == map x | x in w && x.span != s :: w[x]
    ensures SpansFit(spans - {s}, n, w')
  {
    forall q | q in spans - {s} ensures SpanFits((spans - {s})[q], q, n, w') {
      assert SpanFits(spans[q], q, n, w);
    }
  }

  lemma UnmapBins(threads: map<nat, Thread>, w: map<Block, Place>, s: nat, w': map<Block, Place>)
    requires BinsFit(threads, w) && w' == map x | x in w && x.span != s :: w[x]
    requires forall x :: x in w && x.span == s ==> w[x] == OnSpan
    ensures BinsFit(threads, w')
  {
    forall t | t in threads ensures BinFits(threads[t].bin, t, w') {
      assert BinFits(threads[t].bin, t, w);
    }
  }

  lemma {:induction false} GiveUpToFits(m: Pool, t: nat, k: nat, w: map<Block, Place>) returns (w': map<Block, Place>)
    requires Fits(m, w) && t in m.threads
    ensures Fits(GiveUpTo(m, t, k), w')
    decreases k
  {
    w' := w;
    if k > 0 {
      w' := GiveUpToFits(m, t, k - 1, w);
      GivingIsLocal(m, t, k - 1);
      if CanGive(GiveUpTo(m, t, k - 1), t) { w' := GiveOneFits(GiveUpTo(m, t, k - 1), t, w'); }
    }
  }

  /** Neither loop moves a thread or changes who holds what outside the bin. */
  ghost predicate Local(m: Pool, a: Pool, t: nat) {
    && a.nblocks == m.nblocks && a.user == m.user && a.lost == m.lost
    && t in m.threads && t in a.threads && a.threads[t].pc == m.threads[t].pc
  }

  lemma {:induction false} TakingIsLocal(m: Pool, t: nat, k: nat)
    requires t in m.threads
    ensures Local(m, TakeUpTo(m, t, k), t)
    decreases k
  {
    if k > 0 && CanTake(m, t) { TakingIsLocal(TakeOne(m, t), t, k - 1); }
  }

  lemma {:induction false} GivingIsLocal(m: Pool, t: nat, k: nat)
    requires t in m.threads
    ensures Local(m, GiveUpTo(m, t, k), t)
    decreases k
  {
    if k > 0 { GivingIsLocal(m, t, k - 1); }
  }

  // ----- every step keeps it -----

  lemma GotoFits(m: Pool, t: nat, pc: Pc, w: map<Block, Place>)
    requires Fits(m, w) && t in m.threads && !pc.Linking?
    ensures Fits(Goto(m, t, pc), w)
  {
    forall u | u in m.threads ensures BinFits(Goto(m, t, pc).threads[u].bin, u, w) {
      assert BinFits(m.threads[u].bin, u, w);
    }
  }

  lemma SetMaxFits(m: Pool, t: nat, max: int, w: map<Block, Place>)
    requires Fits(m, w) && t in m.threads
    ensures Fits(SetBin(m, t, m.threads[t].bin.(max := max)), w)
  {
    var m' := SetBin(m, t, m.threads[t].bin.(max := max));
    forall u | u in m'.threads ensures BinFits(m'.threads[u].bin, u, w) {
      assert BinFits(m.threads[u].bin, u, w);
    }
  }

  /** A block handed to a caller was in the bin, so nobody had it. */
  lemma PopToUserFits(m: Pool, t: nat, missed: Pc, w: map<Block, Place>) returns (w': map<Block, Place>)
    requires Fits(m, w) && t in m.threads && !missed.Linking?
    ensures Fits(PopToUser(m, t, missed), w')
    ensures m.threads[t].bin.blocks != [] ==> m.threads[t].bin.blocks[0] !in m.user
  {
    var bin := m.threads[t].bin;
    if bin.blocks == [] {
      w' := w;
      GotoFits(m, t, missed, w);
    } else {
      w' := w[bin.blocks[0] := InUse];
      BinLoses(bin, t, w, InUse);
      MoveBins(m.threads, t, Pop(bin), w, bin.blocks[0], w');
      OutsideSpans(m.spans, m.nblocks, w, bin.blocks[0], InUse);
      PoppedFits(m, t, w, w');
    }
  }

  lemma OutsideSpans(spans: map<nat, Span>, n: nat, w: map<Block, Place>, b: Block, place: Place)
    requires SpansFit(spans, n, w) && b in w && w[b] != OnSpan && place != OnSpan
    ensures SpansFit(spans, n, w[b := place])
  {
    forall s | s in spans ensures SpanFits(spans[s], s, n, w[b := place]) {
      SpanStays(spans[s], s, n, w, b, place);
    }
  }

  lemma PoppedFits(m: Pool, t: nat, w: map<Block, Place>, w': map<Block, Place>)
    requires Fits(m, w) && t in m.threads && m.threads[t].bin.blocks != []
    requires m.threads[t].bin.blocks[0] in w && w[m.threads[t].bin.blocks[0]] == InBin(t)
    requires w' == w[m.threads[t].bin.blocks[0] := InUse] && SpansFit(m.spans, m.nblocks, w')
    requires BinsFit(SetBin(m, t, Pop(m.threads[t].bin)).threads, w')
    ensures Fits(Goto(SetBin(m, t, Pop(m.threads[t].bin)), t, Idle).(user := m.user + {m.threads[t].bin.blocks[0]}), w')
  {
    var m1 := SetBin(m, t, Pop(m.threads[t].bin)).(user := m.user + {m.threads[t].bin.blocks[0]});
    assert Fits(m1, w');
    GotoFits(m1, t, Idle, w');
  }

  lemma FreeFits(m: Pool, t: nat, b: Block, w: map<Block, Place>) returns (w': map<Block, Place>)
    requires Fits(m, w) && Enabled(m, Free(t, b))
    ensures Fits(Next(m, Free(t, b)), w')
  {
    w' := w[b := InBin(t)];
    BinGains(m.threads[t].bin, t, w, b);
    MoveBins(m.threads, t, Push(m.threads[t].bin, b), w, b, w');
    OutsideSpans(m.spans, m.nblocks, w, b, InBin(t));
    var m1 := SetBin(m, t, Push(m.threads[t].bin, b)).(user := m.user - {b});
    assert Fits(m1, w');
    GotoFits(m1, t, Next(m, Free(t, b)).threads[t].pc, w');
  }

  lemma TakenFits(m: Pool, t: nat, max: int, w: map<Block, Place>)
    requires Fits(m, w) && t in m.threads
    ensures Fits(Goto(SetBin(m, t, m.threads[t].bin.(max := max)), t, Popping), w)
  {
    SetMaxFits(m, t, max, w);
    GotoFits(SetBin(m, t, m.threads[t].bin.(max := max)), t, Popping, w);
  }

  lemma TakeFits(m: Pool, t: nat, w: map<Block, Place>) returns (w': map<Block, Place>)
    requires Fits(m, w) && Enabled(m, Take(t))
    ensures Fits(Next(m, Take(t)), w')
  {
    if m.partial_ == [] {
      w' := w;
      GotoFits(m, t, Idle, w);
    } else {
      var max := m.threads[t].bin.max;
      var m' := TakeUpTo(m, t, Half(max));
      w' := TakeUpToFits(m, t, Half(max), w);
      TakingIsLocal(m, t, Half(max));
      TakenFits(m', t, if max < BIN_MAX then max + 1 else max, w');
    }
  }

  lemma DrainFits(m: Pool, t: nat, w: map<Block, Place>) returns (w': map<Block, Place>)
    requires Fits(m, w) && Enabled(m, Drain(t))
    ensures Fits(Next(m, Drain(t)), w')
  {
    var bin := m.threads[t].bin;
    var give := if Half(bin.max) > bin.cnt then bin.cnt else Half(bin.max);
    var k := if give < 0 then 0 else give;
    w' := GiveUpToFits(m, t, k, w);
    GivingIsLocal(m, t, k);
    GotoFits(GiveUpTo(m, t, k), t, Idle, w');
  }

  /** `w'` is `w` and the n blocks of a new span, all on its free list. */
  ghost predicate Extends(w: map<Block, Place>, w': map<Block, Place>, span: nat, n: nat) {
    && (forall x: Block :: x in w' <==> x in w || (x.span == span && x.index < n))
    && (forall x :: x in w ==> w'[x] == w[x])
    && (forall x :: x in w' && x !in w ==> w'[x] == OnSpan)
  }

  lemma {:induction false} Extend(w: map<Block, Place>, span: nat, n: nat) returns (w': map<Block, Place>)
    requires forall x :: x in w ==> x.span != span
    ensures Extends(w, w', span, n)
  {
    if n == 0 {
      w' := w;
    } else {
      w' := Extend(w, span, n - 1);
      w' := w'[Block(span, n - 1) := OnSpan];
    }
  }

  lemma NewBlocks(span: nat, n: nat)
    ensures NoDup(Blocks(span, n))
    ensures forall x :: x in Blocks(span, n) <==> x.span == span && x.index < n
  {
    var s := Blocks(span, n);
    forall x: Block | x.span == span && x.index < n ensures x in s {
      assert s[n - 1 - x.index] == x;
    }
  }

  /** A new span brings new blocks, all on its free list. */
  lemma MapFits(m: Pool, t: nat, span: nat, w: map<Block, Place>) returns (w': map<Block, Place>)
    requires Fits(m, w) && Enabled(m, Map(t, span, false))
    ensures Fits(Next(m, Map(t, span, false)), w')
  {
    w' := Extend(w, span, m.nblocks);
    MapSpans(m.spans, m.nblocks, w, span, w');
    MapOthers(m.threads, m.user, m.lost, m.spans, m.nblocks, w, span, w');
    var sp := Span(Blocks(span, m.nblocks), 0, false);
    var m1 := m.(spans := m.spans[span := sp]);
    assert PartialFits(m.partial_, m1.spans);
    assert Fits(m1, w');
    MapLinks(m1, t, span, w', m);
  }

  lemma MapSpans(spans: map<nat, Span>, n: nat, w: map<Block, Place>, span: nat, w': map<Block, Place>)
    requires SpansFit(spans, n, w) && span !in spans && Extends(w, w', span, n)
    ensures SpansFit(spans[span := Span(Blocks(span, n), 0, false)], n, w')
  {
    NewBlocks(span, n);
    forall s | s in spans ensures SpanFits(spans[s], s, n, w') {
      assert SpanFits(spans[s], s, n, w);
    }
  }

  lemma MapOthers(threads: map<nat, Thread>, user: set<Block>, lost: set<Block>, spans: map<nat, Span>, n: nat,
                  w: map<Block, Place>, span: nat, w': map<Block, Place>)
    requires BinsFit(threads, w) && UserFits(user, lost, w) && Extends(w, w', span, n)
    ensures BinsFit(threads, w') && UserFits(user, lost, w')
  {
    forall u | u in threads ensures BinFits(threads[u].bin, u, w') {
      assert BinFits(threads[u].bin, u, w);
    }
  }

  /** The mapping thread is the one that will link the new span. */
  lemma MapLinks(m: Pool, t: nat, span: nat, w: map<Block, Place>, was: Pool)
    requires Fits(m, w) && t in m.threads && span in m.spans && !m.spans[span].published
    requires LinkersFit(was.threads, was.spans) && span !in was.spans && was.threads == m.threads
    ensures Fits(Goto(m, t, Linking(span)), w)
  {
    forall u | u in m.threads ensures BinFits(Goto(m, t, Linking(span)).threads[u].bin, u, w) {
      assert BinFits(m.threads[u].bin, u, w);
    }
  }

  lemma LinkFits(m: Pool, t: nat, w: map<Block, Place>)
    requires Fits(m, w) && Enabled(m, Link(t))
    ensures Fits(Next(m, Link(t)), w)
  {
    var m' := Next(m, Link(t));
    var s := m.threads[t].pc.span;
    assert SpanFits(m.spans[s], s, m.nblocks, w);
    Consed(s, m.partial_);
    forall q | q in m'.spans ensures SpanFits(m'.spans[q], q, m.nblocks, w) {
      assert SpanFits(m.spans[q], q, m.nblocks, w);
    }
    forall u | u in m'.threads ensures BinFits(m'.threads[u].bin, u, w) {
      assert BinFits(m.threads[u].bin, u, w);
    }
  }

  lemma StartFits(m: Pool, t: nat, w: map<Block, Place>)
    requires Fits(m, w) && Enabled(m, Start(t))
    ensures Fits(Next(m, Start(t)), w)
  {
    var m' := Next(m, Start(t));
    forall u | u in m'.threads ensures BinFits(m'.threads[u].bin, u, w) {
      if u != t { assert BinFits(m.threads[u].bin, u, w); }
    }
  }

  lemma LeaveFits(m: Pool, t: nat, w: map<Block, Place>)
    requires Fits(m, w) && t in m.threads && m.threads[t].bin.blocks == []
    ensures Fits(Leave(m, t), w)
  {
    var m' := Leave(m, t);
    forall u | u in m'.threads ensures BinFits(m'.threads[u].bin, u, w) {
      assert BinFits(m.threads[u].bin, u, w);
    }
    forall x | x in w && w[x].InBin? ensures w[x].t in m'.threads {
      assert BinFits(m.threads[t].bin, t, w);
    }
  }

  lemma GuardFits(m: Pool, t: nat, w: map<Block, Place>)
    requires Fits(m, w) && t in m.threads
    ensures Fits(Guarded(m, t), w)
  {
    var m' := Guarded(m, t);
    forall u | u in m'.threads ensures BinFits(m'.threads[u].bin, u, w) {
      assert BinFits(m.threads[u].bin, u, w);
    }
  }

  /** What is in a bin has a span to go to. */
  lemma HasAHome(m: Pool, t: nat, w: map<Block, Place>)
    requires Fits(m, w) && t in m.threads && m.threads[t].bin.blocks != []
    ensures CanGive(m, t)
  {
    var b := m.threads[t].bin.blocks[0];
    assert BinFits(m.threads[t].bin, t, w) && b in m.threads[t].bin.blocks;
  }

  lemma OneGiven(m: Pool, t: nat)
    requires CanGive(m, t)
    ensures t in GiveOne(m, t).threads && GiveOne(m, t).lost == m.lost
    ensures GiveOne(m, t).threads[t].bin.blocks == m.threads[t].bin.blocks[1..]
  {
  }

  /** Giving back takes the bin's blocks from the front, whatever becomes of their spans. */
  lemma {:induction false} GivenUp(m: Pool, t: nat, k: nat, w: map<Block, Place>)
    requires Fits(m, w) && t in m.threads && k <= |m.threads[t].bin.blocks|
    ensures t in GiveUpTo(m, t, k).threads && GiveUpTo(m, t, k).lost == m.lost
    ensures GiveUpTo(m, t, k).threads[t].bin.blocks == m.threads[t].bin.blocks[k..]
    decreases k
  {
    if k > 0 {
      GivenUp(m, t, k - 1, w);
      var m1 := GiveUpTo(m, t, k - 1);
      var w1 := GiveUpToFits(m, t, k - 1, w);
      HasAHome(m1, t, w1);
      OneGiven(m1, t);
      assert m1.threads[t].bin.blocks[1..] == m.threads[t].bin.blocks[k..];
    }
  }

  /** What was in the bin of a thread that goes without a guard is in no bin any more. */
  function Mislaid(w: map<Block, Place>, t: nat): map<Block, Place> {
    map x | x in w :: if w[x] == InBin(t) then Lost else w[x]
  }

  lemma MislaidSpans(spans: map<nat, Span>, n: nat, w: map<Block, Place>, t: nat)
    requires SpansFit(spans, n, w)
    ensures SpansFit(spans, n, Mislaid(w, t))
  {
    forall s | s in spans ensures SpanFits(spans[s], s, n, Mislaid(w, t)) {
      assert SpanFits(spans[s], s, n, w);
    }
  }

  lemma MislaidBins(threads: map<nat, Thread>, w: map<Block, Place>, t: nat)
    requires BinsFit(threads, w)
    ensures BinsFit(threads - {t}, Mislaid(w, t))
  {
    forall u | u in threads - {t} ensures BinFits((threads - {t})[u].bin, u, Mislaid(w, t)) {
      assert BinFits(threads[u].bin, u, w);
    }
  }

  lemma ExitFits(m: Pool, t: nat, w: map<Block, Place>) returns (w': map<Block, Place>)
    requires Fits(m, w) && Enabled(m, Exit(t))
    ensures Fits(Next(m, Exit(t)), w')
  {
    if m.threads[t].guarded {
      var n := |m.threads[t].bin.blocks|;
      GivenUp(m, t, n, w);
      w' := GiveUpToFits(m, t, n, w);
      LeaveFits(EmptyBin(m, t), t, w');
    } else {
      w' := Mislaid(w, t);
      assert BinFits(m.threads[t].bin, t, w);
      MislaidSpans(m.spans, m.nblocks, w, t);
      MislaidBins(m.threads, w, t);
    }
  }

  lemma StepFits(m: Pool, s: Step, w: map<Block, Place>) returns (w': map<Block, Place>)
    requires Fits(m, w) && Enabled(m, s)
    ensures Fits(Next(m, s), w')
  {
    w' := w;
    match s
    case Start(t) => StartFits(m, t, w);
    case Exit(t) => w' := ExitFits(m, t, w);
    case Alloc(t) => w' := PopToUserFits(m, t, Checking, w);
    case Check(t) =>
      GuardFits(m, t, w);
      GotoFits(Guarded(m, t), t, if m.partial_ == [] then Mapping else Taking, w);
    case Map(t, span, fails) => if fails { GotoFits(m, t, Idle, w); } else { w' := MapFits(m, t, span, w); }
    case Link(t) => LinkFits(m, t, w);
    case Take(t) => w' := TakeFits(m, t, w);
    case PopFilled(t) => w' := PopToUserFits(m, t, Idle, w);
    case Free(t, b) => w' := FreeFits(m, t, b, w);
    case Drain(t) => w' := DrainFits(m, t, w);
    case DrainLocal(t) => w' := GiveUpToFits(m, t, |m.threads[t].bin.blocks|, w);
    case FillElsewhere(t) => GuardFits(m, t, w);
  }

  lemma {:induction false} RunFits(n: nat, steps: seq<Step>, ms: seq<Pool>, k: nat) returns (w: map<Block, Place>)
    requires Run(n, steps, ms) && n > 0 && k < |ms|
    ensures Fits(ms[k], w)
  {
    if k == 0 {
      w := map[];
    } else {
      var before := RunFits(n, steps, ms, k - 1);
      assert ms[k] == Next(ms[k - 1], steps[k - 1]);
      w := StepFits(ms[k - 1], steps[k - 1], before);
    }
  }

  // ----- main results -----

  /** The blocks in bins, with callers, or lost. */
  ghost predicate Out(m: Pool, b: Block) {
    b in m.user || b in m.lost || exists t :: t in m.threads && b in m.threads[t].bin.blocks
  }

  /** In every reachable state, over any interleaving of any number of threads: every block of
      every mapped span is in exactly one place and no other block is anywhere, each span counts
      the blocks it is missing, the slab links exactly the published spans with a free block, and
      a block in a bin, in use or lost always belongs to a mapped span. */
  lemma PoolSafety(n: nat, steps: seq<Step>, ms: seq<Pool>, k: nat) returns (w: map<Block, Place>)
    requires Run(n, steps, ms) && n > 0 && k < |ms|
    ensures Fits(ms[k], w) && ms[k].nblocks > 0
    ensures forall b :: Out(ms[k], b) ==> b.span in ms[k].spans && b !in ms[k].spans[b.span].free
  {
    w := RunFits(n, steps, ms, k);
    var m := ms[k];
    forall b | Out(m, b) ensures b.span in m.spans && b !in m.spans[b.span].free {
      if b !in m.user && b !in m.lost {
        var t :| t in m.threads && b in m.threads[t].bin.blocks;
        assert BinFits(m.threads[t].bin, t, w);
      }
      assert b in w;
      assert SpanFits(m.spans[b.span], b.span, m.nblocks, w);
    }
  }

  /** A step that unmaps a span leaves none of its blocks in a bin or in use, and a step that
      hands out a block hands out one nobody had. */
  lemma UnmapAndHandOutAreSafe(n: nat, steps: seq<Step>, ms: seq<Pool>, k: nat)
    requires Run(n, steps, ms) && n > 0 && k < |steps|
    ensures forall b :: Out(ms[k + 1], b) ==> b.span in ms[k + 1].spans
    ensures steps[k].Alloc? || steps[k].PopFilled? ==>
              forall b :: b in ms[k + 1].user && b !in ms[k].user ==>
                  Out(ms[k], b) && !Out(ms[k + 1].(user := ms[k].user), b)
  {
    var w := PoolSafety(n, steps, ms, k);
    var w' := PoolSafety(n, steps, ms, k + 1);
    var m, m' := ms[k], ms[k + 1];
    if steps[k].Alloc? || steps[k].PopFilled? {
      var t := steps[k].t;
      forall b | b in m'.user && b !in m.user ensures Out(m, b) && !Out(m'.(user := m.user), b) {
        assert b == m.threads[t].bin.blocks[0];
        assert b in m.threads[t].bin.blocks;
        forall u | u in m'.threads ensures b !in m'.threads[u].bin.blocks {
          assert BinFits(m'.threads[u].bin, u, w');
        }
      }
    }
  }

  // ----- how many blocks move -----

  /** The blocks a thread's bin gains or loses at once: half of its maximum, and one at least. */
  function Batch(max: int): nat { if max < 2 then 1 else max / 2 }

  /** `t`'s bin has its old blocks and more in front: `k` of them, or all that the linked spans had. */
  ghost predicate Brought(m: Pool, r: Pool, t: nat, k: nat) {
    && t in m.threads && t in r.threads
    && var was, now := m.threads[t].bin, r.threads[t].bin;
       && |was.blocks| <= |now.blocks| <= |was.blocks| + k
       && now.blocks[|now.blocks| - |was.blocks|..] == was.blocks
       && (|now.blocks| < |was.blocks| + k ==> r.partial_ == [])
       && (|now.blocks| == |was.blocks| && k > 0 ==> m.partial_ == [])
       && now.max == was.max && r.threads[t].pc == m.threads[t].pc && r.threads.Keys == m.threads.Keys
       && forall u :: u in m.threads && u != t ==> r.threads[u] == m.threads[u]
  }

  lemma TakesWhatIsLinked(m: Pool, t: nat, w: map<Block, Place>)
    requires Fits(m, w) && t in m.threads
    ensures CanTake(m, t) <==> m.partial_ != []
  {
    if m.partial_ != [] { assert m.partial_[0] in m.partial_; }
  }

  lemma {:induction false} TakenBrings(m: Pool, t: nat, k: nat, w: map<Block, Place>)
    requires Fits(m, w) && t in m.threads
    ensures Brought(m, TakeUpTo(m, t, k), t, k)
    decreases k
  {
    TakesWhatIsLinked(m, t, w);
    if k > 0 && CanTake(m, t) {
      var a := TakeOne(m, t);
      var w' := TakeOneFits(m, t, w);
      TakenBrings(a, t, k - 1, w');
      OneMoreBrought(m, a, TakeUpTo(a, t, k - 1), t, k);
    }
  }

  lemma OneMoreBrought(m: Pool, a: Pool, r: Pool, t: nat, k: nat)
    requires k > 0 && CanTake(m, t) && a == TakeOne(m, t) && Brought(a, r, t, k - 1)
    ensures Brought(m, r, t, k)
  {
    var was, mid, now := m.threads[t].bin.blocks, a.threads[t].bin.blocks, r.threads[t].bin.blocks;
    assert mid[1..] == was;
    assert now[|now| - |was|..] == now[|now| - |mid|..][1..];
  }

  /** Where a thread stands bounds its bin: refilling starts from an empty one, and only a free can
      put it one block above its maximum, which sends it to drain. */
  predicate Bounded(th: Thread) {
    && 16 <= th.bin.max <= 256
    && match th.pc
       case Idle => |th.bin.blocks| <= th.bin.max
       case Popping => |th.bin.blocks| <= th.bin.max
       case Draining => |th.bin.blocks| == th.bin.max + 1
       case _ => th.bin.blocks == []
  }

  ghost predicate AllBounded(m: Pool) {
    forall t :: t in m.threads ==> Bounded(m.threads[t])
  }

  /** The loop that gives back touches no other thread, and not the maximum. */
  ghost predicate OthersStay(m: Pool, r: Pool, t: nat) {
    && r.threads.Keys == m.threads.Keys && t in m.threads
    && r.threads[t].bin.max == m.threads[t].bin.max
    && r.threads[t].pc == m.threads[t].pc
    && forall u :: u in m.threads && u != t ==> r.threads[u] == m.threads[u]
  }

  lemma {:induction false} GivingLeavesOthers(m: Pool, t: nat, k: nat)
    requires t in m.threads
    ensures OthersStay(m, GiveUpTo(m, t, k), t)
    decreases k
  {
    if k > 0 { GivingLeavesOthers(m, t, k - 1); }
  }

  lemma TakeBounds(m: Pool, t: nat, w: map<Block, Place>)
    requires Fits(m, w) && AllBounded(m) && Enabled(m, Take(t))
    ensures AllBounded(Next(m, Take(t)))
    ensures m.partial_ != [] ==>
              && t in Next(m, Take(t)).threads
              && var was, now, left := m.threads[t].bin, Next(m, Take(t)).threads[t].bin, Next(m, Take(t)).partial_;
                 && was.blocks == [] && 1 <= |now.blocks| <= Batch(was.max)
                 && (|now.blocks| < Batch(was.max) ==> left == [])
                 && now.max == if was.max == 256 then 256 else was.max + 1
  {
    var k := Half(m.threads[t].bin.max);
    TakenBrings(m, t, k, w);
    assert Bounded(m.threads[t]);
  }

  lemma DrainBounds(m: Pool, t: nat, w: map<Block, Place>)
    requires Fits(m, w) && AllBounded(m) && Enabled(m, Drain(t))
    ensures AllBounded(Next(m, Drain(t)))
    ensures t in Next(m, Drain(t)).threads
    ensures var was, now := m.threads[t].bin, Next(m, Drain(t)).threads[t].bin;
            |was.blocks| == was.max + 1 && now == was.(blocks := was.blocks[Batch(was.max)..], cnt := now.cnt)
  {
    var bin := m.threads[t].bin;
    var k := Half(bin.max);
    assert Bounded(m.threads[t]) && BinFits(bin, t, w);
    GivenUp(m, t, k, w);
    GivingLeavesOthers(m, t, k);
  }

  lemma EmptyBounds(m: Pool, t: nat, w: map<Block, Place>)
    requires Fits(m, w) && AllBounded(m) && At(m, t, Idle)
    ensures AllBounded(EmptyBin(m, t))
    ensures t in EmptyBin(m, t).threads && EmptyBin(m, t).threads[t].bin.blocks == []
  {
    var n := |m.threads[t].bin.blocks|;
    GivenUp(m, t, n, w);
    GivingLeavesOthers(m, t, n);
    assert Bounded(m.threads[t]);
  }

  lemma StepBounds(m: Pool, s: Step, w: map<Block, Place>)
    requires Fits(m, w) && AllBounded(m) && Enabled(m, s)
    ensures AllBounded(Next(m, s))
  {
    match s
    case Take(t) => TakeBounds(m, t, w);
    case Drain(t) => DrainBounds(m, t, w);
    case Exit(t) => if m.threads[t].guarded { EmptyBounds(m, t, w); }
    case DrainLocal(t) => EmptyBounds(m, t, w);
    case Free(t, b) =>
      assert BinFits(m.threads[t].bin, t, w) && Bounded(m.threads[t]);
    case _ =>
  }

  /** In every run no thread keeps more blocks between its calls than its bin's maximum, which stays
      between 16 and 256; a refill brings blocks while any span is linked, half the maximum unless the
      linked spans run out; and a bin above its maximum gives half of it back. */
  lemma {:induction false} BinsStayBounded(n: nat, steps: seq<Step>, ms: seq<Pool>, k: nat)
    requires Run(n, steps, ms) && n > 0 && k < |ms|
    ensures AllBounded(ms[k])
    ensures k < |steps| && steps[k].Take? && ms[k].partial_ != [] ==>
              && steps[k].t in ms[k].threads && steps[k].t in ms[k + 1].threads
              && var was, now := ms[k].threads[steps[k].t].bin, ms[k + 1].threads[steps[k].t].bin;
                 && was.blocks == [] && 1 <= |now.blocks| <= Batch(was.max)
                 && (|now.blocks| < Batch(was.max) ==> ms[k + 1].partial_ == [])
                 && now.max == if was.max == 256 then 256 else was.max + 1
    ensures k < |steps| && steps[k].Drain? ==>
              && steps[k].t in ms[k].threads && steps[k].t in ms[k + 1].threads
              && var was, now := ms[k].threads[steps[k].t].bin, ms[k + 1].threads[steps[k].t].bin;
                 |was.blocks| == was.max + 1 && now.blocks == was.blocks[Batch(was.max)..]
    decreases k
  {
    if k > 0 {
      BinsStayBounded(n, steps, ms, k - 1);
      var w := RunFits(n, steps, ms, k - 1);
      assert Enabled(ms[k - 1], steps[k - 1]) && ms[k] == Next(ms[k - 1], steps[k - 1]);
      StepBounds(ms[k - 1], steps[k - 1], w);
    }
    if k < |steps| {
      var w := RunFits(n, steps, ms, k);
      assert Enabled(ms[k], steps[k]) && ms[k + 1] == Next(ms[k], steps[k]);
      if steps[k].Take? { TakeBounds(ms[k], steps[k].t, w); }
      if steps[k].Drain? { DrainBounds(ms[k], steps[k].t, w); }
    }
  }

  // ----- exits -----

  /** A thread goes that has blocks in its bin and never entered fill_alloc. */
  predicate Loses(m: Pool, s: Step) {
    s.Exit? && s.t in m.threads && !m.threads[s.t].guarded && m.threads[s.t].bin.blocks != []
  }

  lemma OthersKeepLost(m: Pool, s: Step)
    requires Enabled(m, s) && !s.Exit?
    ensures Next(m, s).lost == m.lost
  {
    match s
    case Take(t) => TakingIsLocal(m, t, Half(m.threads[t].bin.max));
    case Drain(t) =>
      var bin := m.threads[t].bin;
      var give := if Half(bin.max) > bin.cnt then bin.cnt else Half(bin.max);
      GivingIsLocal(m, t, if give < 0 then 0 else give);
    case DrainLocal(t) => GivingIsLocal(m, t, |m.threads[t].bin.blocks|);
    case _ =>
  }

  lemma ExitKeepsOrLoses(m: Pool, t: nat, w: map<Block, Place>)
    requires Fits(m, w) && Enabled(m, Exit(t))
    ensures Next(m, Exit(t)).lost == if Loses(m, Exit(t)) then m.lost + BinSet(m.threads[t].bin) else m.lost
    ensures Loses(m, Exit(t)) ==> m.threads[t].bin.blocks[0] !in m.lost
  {
    var bin := m.threads[t].bin;
    assert BinFits(bin, t, w);
    if m.threads[t].guarded {
      GivenUp(m, t, |bin.blocks|, w);
    } else if bin.blocks != [] {
      assert bin.blocks[0] in bin.blocks;
    }
  }

  /** A step loses blocks exactly when it is the exit of a thread that has some in its bin and never
      entered fill_alloc; then it loses all of those. What is lost stays lost. */
  lemma OnlyUnguardedExitLoses(n: nat, steps: seq<Step>, ms: seq<Pool>, k: nat)
    requires Run(n, steps, ms) && n > 0 && k < |steps|
    ensures ms[k + 1].lost != ms[k].lost <==> Loses(ms[k], steps[k])
    ensures ms[k + 1].lost == ms[k].lost + if Loses(ms[k], steps[k]) then BinSet(ms[k].threads[steps[k].t].bin) else {}
  {
    var w := RunFits(n, steps, ms, k);
    assert ms[k + 1] == Next(ms[k], steps[k]);
    if steps[k].Exit? {
      var bin := ms[k].threads[steps[k].t].bin;
      ExitKeepsOrLoses(ms[k], steps[k].t, w);
      if Loses(ms[k], steps[k]) { assert bin.blocks[0] in BinSet(bin); }
    } else {
      OthersKeepLost(ms[k], steps[k]);
    }
  }

  ghost predicate LosesAt(steps: seq<Step>, ms: seq<Pool>, j: nat) {
    j < |steps| && j < |ms| && Loses(ms[j], steps[j])
  }

  /** So blocks are lost exactly in the runs with such an exit. */
  lemma {:induction false} LostIff(n: nat, steps: seq<Step>, ms: seq<Pool>, k: nat)
    requires Run(n, steps, ms) && n > 0 && k < |ms|
    ensures ms[k].lost != {} <==> exists j :: 0 <= j < k && LosesAt(steps, ms, j)
  {
    if k > 0 {
      LostIff(n, steps, ms, k - 1);
      OnlyUnguardedExitLoses(n, steps, ms, k - 1);
      assert LosesAt(steps, ms, k - 1) <==> Loses(ms[k - 1], steps[k - 1]);
    }
  }

  /** Whenever a caller has a block, a new thread that frees it and exits loses it. */
  lemma FreeingThreadLosesTheBlock(n: nat, steps: seq<Step>, ms: seq<Pool>, t: nat, b: Block) returns (more: seq<Pool>)
    requires Run(n, steps, ms) && b in ms[|steps|].user && t !in ms[|steps|].threads
    ensures Run(n, steps + [Start(t), Free(t, b), Exit(t)], ms + more)
    ensures more[2].lost == ms[|steps|].lost + {b}
  {
    var m := ms[|steps|];
    var m1 := Next(m, Start(t));
    var m2 := Next(m1, Free(t, b));
    assert m2.threads[t] == Thread(Bin([b], 1, 16), Idle, false);
    var m3 := Next(m2, Exit(t));
    assert BinSet(Bin([b], 1, 16)) == {b};
    more := [m1, m2, m3];
    OneMoreStep(n, steps, ms, Start(t));
    OneMoreStep(n, steps + [Start(t)], ms + [m1], Free(t, b));
    OneMoreStep(n, steps + [Start(t)] + [Free(t, b)], ms + [m1] + [m2], Exit(t));
    assert steps + [Start(t), Free(t, b), Exit(t)] == steps + [Start(t)] + [Free(t, b)] + [Exit(t)];
    assert ms + more == ms + [m1] + [m2] + [m3];
  }

  lemma OneMoreStep(n: nat, steps: seq<Step>, ms: seq<Pool>, s: Step)
    requires Run(n, steps, ms) && Enabled(ms[|steps|], s)
    ensures Run(n, steps + [s], ms + [Next(ms[|steps|], s)])
  {
    var steps', ms' := steps + [s], ms + [Next(ms[|steps|], s)];
    forall i | 0 <= i < |steps'| ensures Enabled(ms'[i], steps'[i]) && ms'[i + 1] == Next(ms'[i], steps'[i]) {
      if i < |steps| { assert steps'[i] == steps[i]; }
    }
  }
}
