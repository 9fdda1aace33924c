/** The lock-free multi-producer single-consumer ring (src/bronx/env/include/mpsc_ring.h), one
    step per atomic access. Positions are unbounded; interleaving is sequentially consistent. */
module MpscRing {
  import opened Arith

  // ----- slots: masking is remainder -----

  function Pow2(k: nat): nat {
    if k == 0 then 1 else 2 * Pow2(k - 1)
  }

  /** Bitwise and of two naturals. */
  function And(a: nat, b: nat): nat {
    if a == 0 || b == 0 then 0 else 2 * And(a / 2, b / 2) + (if a % 2 == 1 && b % 2 == 1 then 1 else 0)
  }

  /** `pos & (capacity - 1)`, as the ring computes a slot. */
  function Slot(pos: nat, cap: nat): nat
    requires cap > 0
  {
    And(pos, cap - 1)
  }

  ghost predicate SingleBit(cap: nat) {
    exists k :: cap == Pow2(k)
  }

  lemma {:induction false} MaskIsRemainder(pos: nat, k: nat)
    ensures Pow2(k) > 0 && Slot(pos, Pow2(k)) == pos % Pow2(k)
  {
    if k > 0 {
      MaskIsRemainder(pos / 2, k - 1);
      AndOdd(pos, Pow2(k - 1) - 1);
      Doubled(pos, Pow2(k - 1));
    }
  }

  lemma AndOdd(a: nat, b: nat)
    ensures And(a, 2 * b + 1) == 2 * And(a / 2, b) + a % 2
  {
    assert (2 * b + 1) / 2 == b && (2 * b + 1) % 2 == 1;
  }

  lemma Doubled(n: nat, m: nat)
    requires m > 0
    ensures n % (2 * m) == 2 * ((n / 2) % m) + n % 2
  {
    var q, r := (n / 2) / m, (n / 2) % m;
    assert n / 2 == q * m + r;
    assert q * (2 * m) == 2 * (q * m);
    Remainder(n, 2 * m, q, 2 * r + n % 2);
  }

  /** What the proofs use of slots: they are in range, positions a lap apart share one, and
      different positions of one lap do not. */
  lemma SlotFacts(cap: nat, p: nat, q: nat)
    requires SingleBit(cap)
    ensures cap > 0 && Slot(p, cap) < cap && Slot(p + cap, cap) == Slot(p, cap)
    ensures p < q < p + cap ==> Slot(p, cap) != Slot(q, cap)
  {
    var k :| cap == Pow2(k);
    MaskIsRemainder(p, k);
    MaskIsRemainder(q, k);
    MaskIsRemainder(p + cap, k);
    LapFacts(cap, p, q);
  }

  /** The position of the lap starting at `low` that shares `pos`'s slot. */
  lemma {:induction false} InLap(cap: nat, low: nat, pos: nat) returns (q: nat)
    requires SingleBit(cap) && cap > 0 && pos <= low + cap
    ensures low <= q < low + cap && Slot(q, cap) == Slot(pos, cap)
    ensures q == pos || pos + cap <= q || (pos == low + cap && q == low)
    decreases low + cap - pos
  {
    if pos == low + cap {
      SlotFacts(cap, low, low);
      q := low;
    } else if pos < low {
      SlotFacts(cap, pos, pos);
      q := InLap(cap, low, pos + cap);
    } else {
      q := pos;
    }
  }

  // ----- the ring -----

  datatype Cell<T> = Cell(seq_: nat, data: T)

  /** A producer inside try_push. */
  datatype Producer<T> =
    | ReadingSeq(value: T, pos: nat)
    | Claiming(value: T, pos: nat)
    | Writing(value: T, pos: nat)
    | Publishing(pos: nat)

  /** The consumer, outside or inside try_pop. */
  datatype Consumer<T> =
    | Idle
    | Reading(pos: nat)
    | Taking(pos: nat)
    | Releasing(pos: nat, out: T)
    | Advancing(pos: nat, out: T)

  /** `claims` and `popped` are histories: the values in the order their positions were claimed,
      and the values the consumer took. */
  datatype Ring<T> = Ring(
    cap: nat,
    cells: seq<Cell<T>>,
    head: nat,
    tail: nat,
    producers: map<nat, Producer<T>>,
    consumer: Consumer<T>,
    claims: seq<T>,
    popped: seq<T>)

  datatype Step<T> =
    | Push(p: nat, value: T)         // load head
    | ReadSeq(p: nat)                // load the slot's seq and branch on it
    | Claim(p: nat, spurious: bool)  // weak compare-exchange on head
    | Write(p: nat)
    | Publish(p: nat)
    | Pop                            // load tail
    | ReadPublished
    | Take
    | Free
    | Advance

  ghost predicate Init<T(!new)>(r: Ring<T>) {
    && SingleBit(r.cap) && |r.cells| == r.cap
    && (forall i :: 0 <= i < r.cap ==> r.cells[i].seq_ == i)
    && r.head == 0 && r.tail == 0 && r.producers == map[] && r.consumer == Idle
    && r.claims == [] && r.popped == []
  }

  predicate Fits<T>(r: Ring<T>) {
    r.cap > 0 && |r.cells| == r.cap
  }

  function At<T>(r: Ring<T>, pos: nat): nat
    requires Fits(r)
  {
    var s := Slot(pos, r.cap); if s < r.cap then s else 0
  }

  predicate Enabled<T>(r: Ring<T>, s: Step<T>) {
    && Fits(r)
    && match s
       case Push(p, _) => p !in r.producers
       case ReadSeq(p) => p in r.producers && r.producers[p].ReadingSeq?
       case Claim(p, _) => p in r.producers && r.producers[p].Claiming?
       case Write(p) => p in r.producers && r.producers[p].Writing?
       case Publish(p) => p in r.producers && r.producers[p].Publishing?
       case Pop => r.consumer.Idle?
       case ReadPublished => r.consumer.Reading?
       case Take => r.consumer.Taking?
       case Free => r.consumer.Releasing?
       case Advance => r.consumer.Advancing?
  }

  function Next<T>(r: Ring<T>, s: Step<T>): Ring<T>
    requires Enabled(r, s)
  {
    match s
    case Push(p, v) => r.(producers := r.producers[p := ReadingSeq(v, r.head)])
    case ReadSeq(p) =>
      var c := r.producers[p];
      var seq_ := r.cells[At(r, c.pos)].seq_;
      if seq_ == c.pos then r.(producers := r.producers[p := Claiming(c.value, c.pos)])
      else if seq_ < c.pos then r.(producers := r.producers - {p})         // returns false
      else r.(producers := r.producers[p := ReadingSeq(c.value, r.head)])
    case Claim(p, spurious) =>
      var c := r.producers[p];
      if r.head == c.pos && !spurious then
        r.(head := r.head + 1, claims := r.claims + [c.value],
           producers := r.producers[p := Writing(c.value, c.pos)])
      else r.(producers := r.producers[p := ReadingSeq(c.value, r.head)])
    case Write(p) =>
      var c := r.producers[p];
      r.(cells := r.cells[At(r, c.pos) := r.cells[At(r, c.pos)].(data := c.value)],
         producers := r.producers[p := Publishing(c.pos)])
    case Publish(p) =>                                                     // returns true
      var c := r.producers[p];
      r.(cells := r.cells[At(r, c.pos) := r.cells[At(r, c.pos)].(seq_ := c.pos + 1)],
         producers := r.producers - {p})
    case Pop => r.(consumer := Reading(r.tail))
    case ReadPublished =>
      if r.cells[At(r, r.consumer.pos)].seq_ == r.consumer.pos + 1 then r.(consumer := Taking(r.consumer.pos))
      else r.(consumer := Idle)                                            // returns false
    case Take =>
      var out := r.cells[At(r, r.consumer.pos)].data;
      r.(consumer := Releasing(r.consumer.pos, out), popped := r.popped + [out])
    case Free =>
      var c := r.consumer;
      r.(cells := r.cells[At(r, c.pos) := r.cells[At(r, c.pos)].(seq_ := c.pos + r.cap)],
         consumer := Advancing(c.pos, c.out))
    case Advance => r.(tail := r.consumer.pos + 1, consumer := Idle)       // returns true
  }

  ghost predicate Run<T(!new)>(steps: seq<Step<T>>, rs: seq<Ring<T>>) {
    && |rs| == |steps| + 1
    && Init(rs[0])
    && forall i {:trigger steps[i]} :: 0 <= i < |steps| ==>
         Enabled(rs[i], steps[i]) && rs[i + 1] == Next(rs[i], steps[i])
  }

  // ----- the invariant -----

  /** How many positions the consumer has given back to the producers. */
  function Freed<T>(tail: nat, c: Consumer<T>): nat {
    if c.Advancing? then tail + 1 else tail
  }

  function Taken<T>(tail: nat, c: Consumer<T>): nat {
    if c.Advancing? || c.Releasing? then tail + 1 else tail
  }

  /** Position `q` of the current lap: free, or claimed and with its producer, or published. */
  ghost predicate CellFits<T>(cell: Cell<T>, q: nat, head: nat, claims: seq<T>, pending: bool) {
    if cell.seq_ == q then q < head ==> pending
    else cell.seq_ == q + 1 && q < head && q < |claims| && cell.data == claims[q] && !pending
  }

  predicate Owns<T>(c: Producer<T>, q: nat) {
    (c.Writing? || c.Publishing?) && c.pos == q
  }

  ghost predicate Pending<T>(producers: map<nat, Producer<T>>, q: nat) {
    exists p :: p in producers && Owns(producers[p], q)
  }

  ghost predicate ProducerFits<T>(c: Producer<T>, r: Ring<T>, freed: nat)
    requires Fits(r)
  {
    match c
    case ReadingSeq(_, pos) => pos <= r.head
    case Claiming(_, pos) => pos <= r.head && pos < freed + r.cap
    case Writing(v, pos) => freed <= pos < r.head && pos < |r.claims| && r.claims[pos] == v
        && r.cells[At(r, pos)].seq_ == pos
    case Publishing(pos) =>
      freed <= pos < r.head && pos < |r.claims| && r.cells[At(r, pos)].seq_ == pos
          && r.cells[At(r, pos)].data == r.claims[pos]
  }

  ghost predicate ConsumerFits<T>(r: Ring<T>)
    requires Fits(r)
  {
    var c := r.consumer;
    && (!c.Idle? ==> c.pos == r.tail)
    && (c.Taking? || c.Releasing? ==> r.tail < r.head && r.cells[At(r, r.tail)].seq_ == r.tail + 1)
    && (c.Advancing? ==> r.tail < r.head)
  }

  ghost predicate OneOwner<T(!new)>(producers: map<nat, Producer<T>>) {
    forall p, q, pos :: p in producers && q in producers && Owns(producers[p], pos) && Owns(producers[q], pos) ==>
        p == q
  }

  ghost predicate CellsFit<T>(r: Ring<T>, freed: nat)
    requires Fits(r)
  {
    forall q {:trigger Pending(r.producers, q)} :: freed <= q < freed + r.cap ==>
      CellFits(r.cells[At(r, q)], q, r.head, r.claims, Pending(r.producers, q))
  }

  ghost predicate CountsFit<T>(r: Ring<T>, freed: nat) {
    && freed <= r.head <= freed + r.cap
    && |r.claims| == r.head
    && |r.popped| == Taken(r.tail, r.consumer) <= r.head && r.popped == r.claims[..|r.popped|]
  }

  ghost predicate Inv<T(!new)>(r: Ring<T>) {
    && SingleBit(r.cap) && r.cap >= 2 && Fits(r)
    && var freed := Freed(r.tail, r.consumer);
    && CountsFit(r, freed)
    && CellsFit(r, freed)
    && (forall p :: p in r.producers ==> ProducerFits(r.producers[p], r, freed))
    && OneOwner(r.producers)
    && ConsumerFits(r)
  }

  lemma InitFits<T(!new)>(r: Ring<T>)
    requires Init(r) && r.cap >= 2
    ensures Inv(r)
  {
    forall q | 0 <= q < r.cap ensures CellFits(r.cells[At(r, q)], q, r.head, r.claims, Pending(r.producers, q)) {
      SlotIsPosition(r.cap, q);
    }
  }

  lemma SlotIsPosition(cap: nat, q: nat)
    requires SingleBit(cap) && q < cap
    ensures Slot(q, cap) == q
  {
    var k :| cap == Pow2(k);
    MaskIsRemainder(q, k);
    Remainder(q, cap, 0, q);
  }

  // ----- every step keeps it -----

  lemma Apart<T(!new)>(r: Ring<T>, low: nat, p: nat, q: nat)
    requires SingleBit(r.cap) && Fits(r) && low <= p < low + r.cap && low <= q < low + r.cap && p != q
    ensures At(r, p) != At(r, q) && At(r, p) == Slot(p, r.cap) && At(r, q) == Slot(q, r.cap)
  {
    SlotFacts(r.cap, p, q);
    SlotFacts(r.cap, q, p);
  }

  /** The slot a producer reads belongs to its position, or to a lap before or behind it. */
  lemma SeqRead<T(!new)>(r: Ring<T>, pos: nat)
    requires Inv(r) && pos <= r.head
    ensures var seq_, freed := r.cells[At(r, pos)].seq_, Freed(r.tail, r.consumer);
            && (seq_ == pos ==> pos < freed + r.cap)
            && (seq_ < pos ==> pos == r.head == freed + r.cap)
  {
    var freed := Freed(r.tail, r.consumer);
    var q := InLap(r.cap, freed, pos);
    SlotFacts(r.cap, pos, pos);
    SlotFacts(r.cap, q, q);
    assert At(r, q) == At(r, pos);
    var pending := Pending(r.producers, q);
    assert CellFits(r.cells[At(r, q)], q, r.head, r.claims, pending);
  }

  /** Producer `p` moves between states that own no position, or leaves. */
  ghost predicate Local<T(!new)>(was: map<nat, Producer<T>>, now: map<nat, Producer<T>>, p: nat) {
    && (forall x :: x != p ==> (x in now <==> x in was) && (x in now ==> now[x] == was[x]))
    && (forall q :: p in was ==> !Owns(was[p], q))
    && (forall q :: p in now ==> !Owns(now[p], q))
  }

  lemma LocalKept<T(!new)>(r: Ring<T>, now: map<nat, Producer<T>>, p: nat)
    requires Inv(r) && Local(r.producers, now, p)
    requires p in now ==> ProducerFits(now[p], r, Freed(r.tail, r.consumer))
    ensures Inv(r.(producers := now))
  {
    var freed := Freed(r.tail, r.consumer);
    var r' := r.(producers := now);
    forall q | freed <= q < freed + r.cap
      ensures CellFits(r'.cells[At(r', q)], q, r'.head, r'.claims, Pending(now, q))
    {
      SamePending(r.producers, now, p, q);
      var pending := Pending(r.producers, q);
      assert CellFits(r.cells[At(r, q)], q, r.head, r.claims, pending);
    }
    forall x | x in now ensures ProducerFits(now[x], r', freed) {
      if x != p { assert ProducerFits(r.producers[x], r, freed); }
    }
  }

  lemma SamePending<T(!new)>(was: map<nat, Producer<T>>, now: map<nat, Producer<T>>, p: nat, q: nat)
    requires forall x :: x != p ==> (x in now <==> x in was) && (x in now ==> now[x] == was[x])
    requires p in was ==> !Owns(was[p], q)
    requires p in now ==> !Owns(now[p], q)
    ensures Pending(now, q) == Pending(was, q)
  {
    if Pending(was, q) { var x :| x in was && Owns(was[x], q); assert x in now && Owns(now[x], q); }
    if Pending(now, q) { var x :| x in now && Owns(now[x], q); assert x in was && Owns(was[x], q); }
  }

  lemma ReadSeqKept<T(!new)>(r: Ring<T>, p: nat)
    requires Inv(r) && Enabled(r, ReadSeq(p))
    ensures Inv(Next(r, ReadSeq(p)))
  {
    var c := r.producers[p];
    assert ProducerFits(c, r, Freed(r.tail, r.consumer));
    SeqRead(r, c.pos);
    LocalKept(r, Next(r, ReadSeq(p)).producers, p);
  }

  lemma ClaimKept<T(!new)>(r: Ring<T>, p: nat, spurious: bool)
    requires Inv(r) && Enabled(r, Claim(p, spurious))
    ensures Inv(Next(r, Claim(p, spurious)))
  {
    var c := r.producers[p];
    assert ProducerFits(c, r, Freed(r.tail, r.consumer));
    if r.head == c.pos && !spurious {
      ClaimedKept(r, p);
    } else {
      LocalKept(r, Next(r, Claim(p, spurious)).producers, p);
    }
  }

  lemma ClaimedKept<T(!new)>(r: Ring<T>, p: nat)
    requires Inv(r) && Enabled(r, Claim(p, false)) && r.head == r.producers[p].pos
    requires r.head < Freed(r.tail, r.consumer) + r.cap
    ensures Inv(Next(r, Claim(p, false)))
  {
    var freed, pos := Freed(r.tail, r.consumer), r.head;
    var r' := Next(r, Claim(p, false));
    var none := Pending(r.producers, pos);
    assert CellFits(r.cells[At(r, pos)], pos, r.head, r.claims, none);
    forall q | freed <= q < freed + r.cap
      ensures CellFits(r'.cells[At(r', q)], q, r'.head, r'.claims, Pending(r'.producers, q))
    {
      var pending := Pending(r.producers, q);
      assert CellFits(r.cells[At(r, q)], q, r.head, r.claims, pending);
      if q == pos {
        assert p in r'.producers && Owns(r'.producers[p], q);
      } else {
        SamePending(r.producers, r'.producers, p, q);
      }
    }
    forall x | x in r'.producers ensures ProducerFits(r'.producers[x], r', freed) {
      if x != p { assert ProducerFits(r.producers[x], r, freed); }
    }
    forall x, y, q | x in r'.producers && y in r'.producers && Owns(r'.producers[x], q) && Owns(r'.producers[y], q)
      ensures x == y
    {
      if x != p { assert ProducerFits(r.producers[x], r, freed); }
      if y != p { assert ProducerFits(r.producers[y], r, freed); }
    }
  }

  lemma WriteKept<T(!new)>(r: Ring<T>, p: nat)
    requires Inv(r) && Enabled(r, Write(p))
    ensures Inv(Next(r, Write(p)))
  {
    var freed, pos := Freed(r.tail, r.consumer), r.producers[p].pos;
    var r' := Next(r, Write(p));
    assert ProducerFits(r.producers[p], r, freed);
    assert Owns(r.producers[p], pos);
    forall q | freed <= q < freed + r.cap
      ensures CellFits(r'.cells[At(r', q)], q, r'.head, r'.claims, Pending(r'.producers, q))
    {
      var pending := Pending(r.producers, q);
      assert CellFits(r.cells[At(r, q)], q, r.head, r.claims, pending);
      if q == pos {
        assert p in r'.producers && Owns(r'.producers[p], q);
      } else {
        Apart(r, freed, pos, q);
        SamePending(r.producers, r'.producers, p, q);
      }
    }
    forall x | x in r'.producers ensures ProducerFits(r'.producers[x], r', freed) {
      if x != p { OtherProducer(r, freed, p, x, pos); }
    }
    forall x, y, q | x in r'.producers && y in r'.producers && Owns(r'.producers[x], q) && Owns(r'.producers[y], q)
      ensures x == y
    {
      assert Owns(r.producers[x], q) && Owns(r.producers[y], q);
    }
    ConsumerElsewhere(r, pos);
  }

  /** Another producer's slot is not the one at `pos`. */
  lemma OtherProducer<T(!new)>(r: Ring<T>, freed: nat, p: nat, x: nat, pos: nat)
    requires Inv(r) && freed == Freed(r.tail, r.consumer) && p in r.producers && x in r.producers && x != p
    requires Owns(r.producers[p], pos) && ProducerFits(r.producers[p], r, freed)
    ensures ProducerFits(r.producers[x], r, freed)
    ensures r.producers[x].Writing? || r.producers[x].Publishing? ==> At(r, r.producers[x].pos) != At(r, pos)
  {
    var c := r.producers[x];
    assert ProducerFits(c, r, freed);
    if c.Writing? || c.Publishing? {
      assert Owns(c, c.pos);
      Apart(r, freed, pos, c.pos);
    }
  }

  lemma ConsumerElsewhere<T(!new)>(r: Ring<T>, pos: nat)
    requires Inv(r) && Freed(r.tail, r.consumer) <= pos < r.head && r.cells[At(r, pos)].seq_ == pos
    ensures r.consumer.Taking? || r.consumer.Releasing? ==> At(r, r.tail) != At(r, pos)
  {
    if r.consumer.Taking? || r.consumer.Releasing? {
      assert pos != r.tail;
      Apart(r, r.tail, pos, r.tail);
    }
  }

  lemma PublishKept<T(!new)>(r: Ring<T>, p: nat)
    requires Inv(r) && Enabled(r, Publish(p))
    ensures Inv(Next(r, Publish(p)))
  {
    var freed, pos := Freed(r.tail, r.consumer), r.producers[p].pos;
    var r' := Next(r, Publish(p));
    assert ProducerFits(r.producers[p], r, freed);
    assert Owns(r.producers[p], pos);
    forall q | freed <= q < freed + r.cap
      ensures CellFits(r'.cells[At(r', q)], q, r'.head, r'.claims, Pending(r'.producers, q))
    {
      var pending := Pending(r.producers, q);
      assert CellFits(r.cells[At(r, q)], q, r.head, r.claims, pending);
      if q == pos {
        assert !Pending(r'.producers, q);
      } else {
        Apart(r, freed, pos, q);
        SamePending(r.producers, r'.producers, p, q);
      }
    }
    forall x | x in r'.producers ensures ProducerFits(r'.producers[x], r', freed) {
      OtherProducer(r, freed, p, x, pos);
    }
    ConsumerElsewhere(r, pos);
  }

  lemma ConsumerReads<T(!new)>(r: Ring<T>)
    requires Inv(r) && (r.consumer.Idle? || r.consumer.Reading? || r.consumer.Taking?)
    ensures r.cells[At(r, r.tail)].seq_ == r.tail + 1 ==>
              r.tail < r.head && r.cells[At(r, r.tail)].data == r.claims[r.tail]
    ensures r.cells[At(r, r.tail)].seq_ != r.tail + 1 ==> r.tail == r.head || Pending(r.producers, r.tail)
  {
    var pending := Pending(r.producers, r.tail);
    assert CellFits(r.cells[At(r, r.tail)], r.tail, r.head, r.claims, pending);
  }

  lemma ConsumerKept<T(!new)>(r: Ring<T>, s: Step<T>)
    requires Inv(r) && Enabled(r, s) && (s.Pop? || s.ReadPublished? || s.Take? || s.Advance?)
    ensures Inv(Next(r, s))
  {
    var r' := Next(r, s);
    if !s.Advance? { ConsumerReads(r); }
    var freed := Freed(r.tail, r.consumer);
    assert Freed(r'.tail, r'.consumer) == freed;
    forall q | freed <= q < freed + r.cap
      ensures CellFits(r'.cells[At(r', q)], q, r'.head, r'.claims, Pending(r'.producers, q))
    {
      var pending := Pending(r.producers, q);
      assert CellFits(r.cells[At(r, q)], q, r.head, r.claims, pending);
    }
    forall x | x in r'.producers ensures ProducerFits(r'.producers[x], r', freed) {
      assert ProducerFits(r.producers[x], r, freed);
    }
  }

  lemma FreeKept<T(!new)>(r: Ring<T>)
    requires Inv(r) && Enabled(r, Free)
    ensures Inv(Next(r, Free))
  {
    var r' := Next(r, Free);
    var low := r.tail;
    forall q | low + 1 <= q < low + 1 + r.cap
      ensures CellFits(r'.cells[At(r', q)], q, r'.head, r'.claims, Pending(r'.producers, q))
    {
      if q < low + r.cap {
        var pending := Pending(r.producers, q);
        assert CellFits(r.cells[At(r, q)], q, r.head, r.claims, pending);
        Apart(r, low, low, q);
      } else {
        SlotFacts(r.cap, low, low);
      }
    }
    forall x | x in r'.producers ensures ProducerFits(r'.producers[x], r', low + 1) {
      var c := r.producers[x];
      assert ProducerFits(c, r, low);
      if c.Writing? || c.Publishing? {
        assert c.pos != low;
        Apart(r, low, low, c.pos);
      }
    }
  }

  lemma StepKept<T(!new)>(r: Ring<T>, s: Step<T>)
    requires Inv(r) && Enabled(r, s)
    ensures Inv(Next(r, s))
  {
    match s
    case Push(p, v) => LocalKept(r, r.producers[p := ReadingSeq(v, r.head)], p);
    case ReadSeq(p) => ReadSeqKept(r, p);
    case Claim(p, spurious) => ClaimKept(r, p, spurious);
    case Write(p) => WriteKept(r, p);
    case Publish(p) => PublishKept(r, p);
    case Pop => ConsumerKept(r, s);
    case ReadPublished => ConsumerKept(r, s);
    case Take => ConsumerKept(r, s);
    case Free => FreeKept(r);
    case Advance => ConsumerKept(r, s);
  }

  lemma {:induction false} RunKept<T(!new)>(steps: seq<Step<T>>, rs: seq<Ring<T>>, n: nat)
    requires Run(steps, rs) && rs[0].cap >= 2 && n < |rs|
    ensures Inv(rs[n])
  {
    if n == 0 {
      InitFits(rs[0]);
    } else {
      RunKept(steps, rs, n - 1);
      assert rs[n] == Next(rs[n - 1], steps[n - 1]);
      StepKept(rs[n - 1], steps[n - 1]);
    }
  }

  // ----- main results -----

  /** Is the value of claimed position `q` still in the ring: with its producer, or published? */
  ghost predicate Held<T(!new)>(r: Ring<T>, q: nat)
    requires Fits(r) && q < |r.claims|
  {
    || (exists p :: p in r.producers && r.producers[p] == Writing(r.claims[q], q))
    || (r.cells[At(r, q)].data == r.claims[q]
        && (r.cells[At(r, q)].seq_ == q + 1 || exists p :: p in r.producers && r.producers[p] == Publishing(q)))
  }

  /** For any number of producers and a power-of-two capacity of at least two, in every reachable
      state the values taken are a prefix of the values in claim order (none lost, repeated or
      overtaken), and every other claimed value is still held, at its own slot. */
  lemma RingRefinesQueue<T(!new)>(steps: seq<Step<T>>, rs: seq<Ring<T>>, n: nat)
    requires Run(steps, rs) && rs[0].cap >= 2 && n < |rs|
    ensures var r := rs[n];
            && |r.popped| <= |r.claims| == r.head && r.popped == r.claims[..|r.popped|]
            && Fits(r) && r.head <= |r.popped| + r.cap
            && forall q :: |r.popped| <= q < r.head ==> Held(r, q)
  {
    RunKept(steps, rs, n);
    var r := rs[n];
    var freed := Freed(r.tail, r.consumer);
    forall q | |r.popped| <= q < r.head ensures Held(r, q) {
      var pending := Pending(r.producers, q);
      assert CellFits(r.cells[At(r, q)], q, r.head, r.claims, pending);
      if pending {
        var p :| p in r.producers && Owns(r.producers[p], q);
        assert ProducerFits(r.producers[p], r, freed);
      }
    }
  }

  /** A push that gives up read its slot while every slot was claimed and not yet given back; a pop
      that gives up found nothing claimed, or the oldest value not yet published. */
  lemma GivingUpIsJustified<T(!new)>(steps: seq<Step<T>>, rs: seq<Ring<T>>, n: nat)
    requires Run(steps, rs) && rs[0].cap >= 2 && n < |steps|
    ensures steps[n].ReadSeq? && steps[n].p !in rs[n + 1].producers ==>
              rs[n].head == Freed(rs[n].tail, rs[n].consumer) + rs[n].cap
    ensures steps[n].ReadPublished? && rs[n + 1].consumer.Idle? ==>
              rs[n].head == rs[n].tail || Pending(rs[n].producers, rs[n].tail)
  {
    RunKept(steps, rs, n);
    var r := rs[n];
    assert rs[n + 1] == Next(r, steps[n]);
    if steps[n].ReadSeq? {
      assert ProducerFits(r.producers[steps[n].p], r, Freed(r.tail, r.consumer));
      SeqRead(r, r.producers[steps[n].p].pos);
    }
    if steps[n].ReadPublished? { ConsumerReads(r); }
  }

  lemma RunSnoc<T(!new)>(steps: seq<Step<T>>, rs: seq<Ring<T>>, s: Step<T>)
    requires Run(steps, rs) && Enabled(rs[|steps|], s)
    ensures Run(steps + [s], rs + [Next(rs[|steps|], s)])
  {
    var steps', rs' := steps + [s], rs + [Next(rs[|steps|], s)];
    forall i | 0 <= i < |steps'| ensures Enabled(rs'[i], steps'[i]) && rs'[i + 1] == Next(rs'[i], steps'[i]) {
      if i < |steps| { assert steps'[i] == steps[i]; }
    }
  }

  lemma StepOn<T(!new)>(steps: seq<Step<T>>, rs: seq<Ring<T>>, s: Step<T>, r: Ring<T>)
      returns (steps': seq<Step<T>>, rs': seq<Ring<T>>)
    requires Run(steps, rs) && Enabled(rs[|steps|], s) && Next(rs[|steps|], s) == r
    ensures Run(steps', rs') && rs'[|steps'|] == r && rs'[0] == rs[0]
  {
    RunSnoc(steps, rs, s);
    steps', rs' := steps + [s], rs + [r];
  }

  /** With capacity one every slot number is 0, and a published slot looks free to the next push. */
  lemma PushIntoOne<T(!new)>(steps: seq<Step<T>>, rs: seq<Ring<T>>, h: nat, was: T, claims: seq<T>, v: T)
      returns (steps': seq<Step<T>>, rs': seq<Ring<T>>)
    requires Run(steps, rs) && rs[|steps|] == Ring(1, [Cell(h, was)], h, 0, map[], Idle, claims, [])
    ensures Run(steps', rs') && rs'[0] == rs[0]
    ensures rs'[|steps'|] == Ring(1, [Cell(h + 1, v)], h + 1, 0, map[], Idle, claims + [v], [])
  {
    assert Slot(h, 1) == 0;
    var c := [Cell(h, was)];
    steps', rs' := StepOn(steps, rs, Push(0, v), Ring(1, c, h, 0, map[0 := ReadingSeq(v, h)], Idle, claims, []));
    steps', rs' := StepOn(steps', rs', ReadSeq(0), Ring(1, c, h, 0, map[0 := Claiming(v, h)], Idle, claims, []));
    steps', rs' := StepOn(steps', rs', Claim(0, false),
        Ring(1, c, h + 1, 0, map[0 := Writing(v, h)], Idle, claims + [v], []));
    steps', rs' := StepOn(steps', rs', Write(0),
        Ring(1, [Cell(h, v)], h + 1, 0, map[0 := Publishing(h)], Idle, claims + [v], []));
    steps', rs' := StepOn(steps', rs', Publish(0), Ring(1, [Cell(h + 1, v)], h + 1, 0, map[], Idle, claims + [v], []));
  }

  /** Capacity one, which the constructor accepts, is outside the result: a second push overwrites
      the first value before it is taken, and the consumer then finds nothing. */
  lemma CapacityOneLosesValues<T(!new)>(a: T, b: T) returns (steps: seq<Step<T>>, rs: seq<Ring<T>>)
    ensures Run(steps, rs) && rs[0].cap == 1
    ensures rs[|steps|] == Ring(1, [Cell(2, b)], 2, 0, map[], Idle, [a, b], [])
    ensures Enabled(rs[|steps|], Pop) && Enabled(Next(rs[|steps|], Pop), ReadPublished)
    ensures Next(Next(rs[|steps|], Pop), ReadPublished) == rs[|steps|]
  {
    assert Pow2(0) == 1;
    steps, rs := [], [Ring(1, [Cell(0, a)], 0, 0, map[], Idle, [], [])];
    steps, rs := PushIntoOne(steps, rs, 0, a, [], a);
    steps, rs := PushIntoOne(steps, rs, 1, a, [a], b);
    assert Slot(0, 1) == 0;
  }
}
