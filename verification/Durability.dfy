/** Write-behind persistence as a state machine (src/ipban/engine.cpp:59-187, 387-418): edits
    queue operations, any number of callers flush, batches run on pool threads, a cancelled
    offload leaves its batch running, and the process may die at any point. */
module Durability {
  import opened Rules
  import opened HubSpec
  import opened Db

  /** Is the rule worth keeping over a restart? */
  predicate ShouldPersist(r: Rule, minTtl: nat) {
    || r.src == ADMIN || r.src == EMERG
    || r.expireAtMs == 0
    || (r.expireAtMs > r.createdAtMs && r.expireAtMs - r.createdAtMs >= minTtl)
  }

  /** The rules of a store that belong on disk. */
  function Project(s: Store, minTtl: nat): Store {
    map id | id in s && ShouldPersist(s[id], minTtl) :: s[id]
  }

  /** What an edit recorded as version `v` adds to the queue, given the ids believed stored. */
  function Persist(op: DeltaOp, v: nat, persisted: set<string>, minTtl: nat): seq<PersistOp> {
    if !op.del && ShouldPersist(op.rule, minTtl) then [Save(op.rule)]
    else if op.ruleId in persisted then [Del(op.ruleId, v)]
    else []
  }

  function Remember(op: DeltaOp, persisted: set<string>, minTtl: nat): set<string> {
    if !op.del && ShouldPersist(op.rule, minTtl) then persisted + {op.ruleId}
    else persisted - {op.ruleId}
  }

  const BATCH := 128

  /** Where a caller of flushPersistence stands. From `Holding` to `Failing` it owns m_flushing. */
  datatype FlushPc =
    | Entering
    | Holding
    | Waiting(worker: nat, count: nat)
    | Popping(done: nat, count: nat)
    | Failing
    | Emptied
    | Rechecking
  {
    predicate Owns() { Holding? || Waiting? || Popping? || Failing? || Emptied? }
  }

  /** A batch on a pool thread. `start` is its first operation's place in the queue's history. */
  datatype Worker = Worker(start: nat, batch: seq<PersistOp>, pos: nat, running: bool)

  /** The hub and the history of its life: the tables it started from, every store it had
      (`hist[i]` is version `firstVer + i`), every operation it queued, and how many were queued
      at each version. */
  datatype Book = Book(
    minTtl: nat,
    ver: nat,
    store: Store,
    persisted: set<string>,
    base: Tables,
    firstVer: nat,
    hist: seq<Store>,
    ops: seq<PersistOp>,
    marks: seq<nat>)

  /** The queue, its flushers and the tables; `popped` and `applied` count the operations of this
      life that left the queue and that reached the tables. */
  datatype Disk = Disk(
    pending: seq<PersistOp>,
    flushing: bool,
    callers: map<nat, FlushPc>,
    workers: map<nat, Worker>,
    tables: Tables,
    popped: nat,
    applied: nat)

  /** `durable`: the version covered by the last flush that returned true. */
  datatype Machine = Machine(book: Book, disk: Disk, durable: nat)

  /** A process that loads `t` at time `now` (restore). */
  function Boot(t: Tables, minTtl: nat, now: nat): Machine {
    var kept := t.(rules := Purge(t.rules, now));
    Machine(Book(minTtl, t.lastVer, kept.rules, kept.rules.Keys, kept, t.lastVer, [kept.rules], [], [0]),
            Disk([], false, map[], map[], kept, 0, 0),
            t.lastVer)
  }

  datatype FlushStep =
    | Begin
    | Enter
    | Copy(worker: nat)
    | Finish
    | Cancel
    | Pop
    | Fail
    | Release
    | Recheck

  datatype Step =
    | Edits(op: DeltaOp)
    | Flush(c: nat, step: FlushStep)
    | Work(worker: nat, fault: bool)
    | Restart(now: nat)

  predicate FlushEnabled(d: Disk, c: nat, s: FlushStep) {
    if s.Begin? then c !in d.callers
    else c in d.callers && PcAllows(d, d.callers[c], s)
  }

  predicate PcAllows(d: Disk, pc: FlushPc, s: FlushStep) {
    match s
    case Begin => false
    case Enter => pc.Entering?
    case Copy(w) => pc.Holding? && w !in d.workers
    case Finish => pc.Waiting? && pc.worker in d.workers && Finished(d.workers[pc.worker])
    case Cancel => pc.Waiting?
    case Pop => pc.Popping? && pc.done <= |d.pending|
    case Fail => pc.Failing?
    case Release => pc.Emptied?
    case Recheck => pc.Rechecking?
  }

  predicate Finished(w: Worker) {
    !w.running || w.pos == |w.batch|
  }

  predicate WorkEnabled(d: Disk, w: nat) {
    w in d.workers && d.workers[w].running && d.workers[w].pos < |d.workers[w].batch|
  }

  predicate Enabled(m: Machine, s: Step) {
    match s
    case Edits(op) => WfOp(op) && (op.del ==> op.ruleId in m.book.store)
    case Flush(c, step) => FlushEnabled(m.disk, c, step)
    case Work(w, _) => WorkEnabled(m.disk, w)
    case Restart(_) => true
  }

  function FlushNext(d: Disk, c: nat, s: FlushStep): Disk
    requires FlushEnabled(d, c, s)
  {
    match s
    case Begin => d.(callers := d.callers[c := Entering])
    case Enter =>
      if d.flushing then d.(callers := d.callers - {c})          // returns false
      else d.(flushing := true, callers := d.callers[c := Holding])
    case Copy(w) =>
      if d.pending == [] then d.(callers := d.callers[c := Emptied])
      else
        var n := if |d.pending| < BATCH then |d.pending| else BATCH;
        d.(callers := d.callers[c := Waiting(w, n)],
           workers := d.workers[w := Worker(d.popped, d.pending[..n], 0, true)])
    case Finish => d.(callers := d.callers[c := Popping(d.workers[d.callers[c].worker].pos, d.callers[c].count)])
    case Cancel => d.(callers := d.callers[c := Popping(0, d.callers[c].count)])
    case Pop =>
      var pc := d.callers[c];
      d.(pending := d.pending[pc.done..], popped := d.popped + pc.done,
         callers := d.callers[c := if pc.done == pc.count then Holding else Failing])
    case Fail => d.(flushing := false, callers := d.callers - {c})   // returns false
    case Release => d.(flushing := false, callers := d.callers[c := Rechecking])
    case Recheck =>
      if d.pending == [] then d.(callers := d.callers - {c})     // returns true
      else d.(callers := d.callers[c := Entering])
  }

  /** One operation of a batch: committed, or refused or failed, which ends the batch. */
  function WorkNext(d: Disk, w: nat, fault: bool): Disk
    requires WorkEnabled(d, w)
  {
    var k := d.workers[w];
    if fault || !Storable(k.batch[k.pos]) then Advanced(d, w, d.tables, k.(running := false), d.applied)
    else Advanced(d, w, Commit(d.tables, k.batch[k.pos]), k.(pos := k.pos + 1), Max(d.applied, k.start + k.pos + 1))
  }

  function Advanced(d: Disk, w: nat, tables: Tables, k: Worker, applied: nat): Disk {
    d.(tables := tables, workers := d.workers[w := k], applied := applied)
  }

  /** An edit and its queueing share one m_mtx section; it is taken at its push to the queue. */
  function Recorded(b: Book, store: Store, more: seq<PersistOp>, persisted: set<string>): Book {
    b.(ver := b.ver + 1, store := store, persisted := persisted,
       hist := b.hist + [store], ops := b.ops + more, marks := b.marks + [|b.ops| + |more|])
  }

  function Queued(b: Book, op: DeltaOp): seq<PersistOp> {
    Persist(Stamp(op, b.ver + 1), b.ver + 1, b.persisted, b.minTtl)
  }

  function EditNext(b: Book, op: DeltaOp): Book {
    var o := Stamp(op, b.ver + 1);
    Recorded(b, ApplyOp(b.store, o), Queued(b, op), Remember(o, b.persisted, b.minTtl))
  }

  function Next(m: Machine, s: Step): Machine
    requires Enabled(m, s)
  {
    match s
    case Edits(op) =>
      m.(book := EditNext(m.book, op), disk := m.disk.(pending := m.disk.pending + Queued(m.book, op)))
    case Flush(c, step) =>
      m.(disk := FlushNext(m.disk, c, step),
         durable := if step.Recheck? && m.disk.pending == [] then m.book.ver else m.durable)
    case Work(w, fault) => m.(disk := WorkNext(m.disk, w, fault))
    case Restart(now) => Boot(m.disk.tables, m.book.minTtl, now)
  }

  ghost predicate Run(minTtl: nat, steps: seq<Step>, ms: seq<Machine>) {
    && |ms| == |steps| + 1
    && ms[0] == Boot(EMPTY, minTtl, 0)
    && forall i {:trigger steps[i]} :: 0 <= i < |steps| ==>
         Enabled(ms[i], steps[i]) && ms[i + 1] == Next(ms[i], steps[i])
  }

  // ----- the invariant -----

  ghost predicate Increasing(ops: seq<PersistOp>, low: nat, high: nat) {
    && (forall i :: 0 <= i < |ops| ==> low < ops[i].Version() <= high)
    && (forall i, j :: 0 <= i < j < |ops| ==> ops[i].Version() < ops[j].Version())
  }

  ghost predicate MarksFit(marks: seq<nat>, n: nat) {
    && marks != [] && marks[0] == 0 && marks[|marks| - 1] == n
    && (forall i :: 0 <= i < |marks| ==> marks[i] <= n)
    && (forall i, j :: 0 <= i < j < |marks| ==> marks[i] <= marks[j] <= marks[i] + (j - i))
  }

  /** A store of this life, cut to what belongs on disk, is what the first `mark` queued
      operations make of the starting tables. */
  ghost predicate StoreFits(store: Store, mark: nat, base: Tables, ops: seq<PersistOp>, minTtl: nat) {
    && WfStore(store)
    && mark <= |ops|
    && Project(store, minTtl) == CommitAll(base, ops[..mark]).rules
  }

  ghost predicate HistFits(hist: seq<Store>, marks: seq<nat>, base: Tables, ops: seq<PersistOp>, minTtl: nat) {
    && |hist| == |marks|
    && forall i {:trigger StoreFits(hist[i], marks[i], base, ops, minTtl)} ::
         0 <= i < |hist| ==> StoreFits(hist[i], marks[i], base, ops, minTtl)
  }

  ghost predicate Last(hist: seq<Store>, store: Store, persisted: set<string>, minTtl: nat) {
    && hist != [] && hist[|hist| - 1] == store
    && persisted == Project(store, minTtl).Keys
  }

  ghost predicate BookInv(b: Book) {
    && WfTables(b.base) && b.base.lastVer <= b.firstVer
    && b.ver + 1 == b.firstVer + |b.hist|
    && MarksFit(b.marks, |b.ops|)
    && HistFits(b.hist, b.marks, b.base, b.ops, b.minTtl)
    && Last(b.hist, b.store, b.persisted, b.minTtl)
    && Increasing(b.ops, b.firstVer, b.ver)
  }

  ghost predicate TablesFit(tables: Tables, base: Tables, ops: seq<PersistOp>, applied: nat) {
    && applied <= |ops|
    && forall s :: s == OpSet(ops[..applied]) ==> Reflects(tables, base, s)
  }

  ghost predicate WorkerFits(k: Worker, ops: seq<PersistOp>, applied: nat) {
    && k.start + |k.batch| <= |ops|
    && k.batch == ops[k.start..k.start + |k.batch|]
    && k.pos <= |k.batch| && k.start + k.pos <= applied
  }

  ghost predicate WorkersFit(workers: map<nat, Worker>, ops: seq<PersistOp>, applied: nat) {
    forall w :: w in workers ==> WorkerFits(workers[w], ops, applied)
  }

  ghost predicate CallerFits(pc: FlushPc, workers: map<nat, Worker>, popped: nat, applied: nat, left: nat) {
    match pc
    case Waiting(w, n) => w in workers && workers[w].start == popped && |workers[w].batch| == n <= left
    case Popping(k, n) => k <= n <= left && popped + k <= applied
    case _ => true
  }

  ghost predicate CallersFit(callers: map<nat, FlushPc>, workers: map<nat, Worker>, popped: nat, applied: nat,
                             left: nat)
  {
    forall c :: c in callers ==> CallerFits(callers[c], workers, popped, applied, left)
  }

  ghost predicate PendingFits(pending: seq<PersistOp>, ops: seq<PersistOp>, popped: nat, applied: nat) {
    popped <= applied && popped <= |ops| && pending == ops[popped..]
  }

  /** m_flushing is a lock: at most one caller is between taking and clearing it. */
  ghost predicate OneOwner(callers: map<nat, FlushPc>, flushing: bool) {
    && (forall c :: c in callers && callers[c].Owns() ==> flushing)
    && (forall c, d :: c in callers && d in callers && callers[c].Owns() && callers[d].Owns() ==> c == d)
  }

  ghost predicate DiskInv(d: Disk, base: Tables, ops: seq<PersistOp>) {
    && TablesFit(d.tables, base, ops, d.applied)
    && PendingFits(d.pending, ops, d.popped, d.applied)
    && WorkersFit(d.workers, ops, d.applied)
    && CallersFit(d.callers, d.workers, d.popped, d.applied, |d.pending|)
    && OneOwner(d.callers, d.flushing)
  }

  ghost predicate DurableInv(durable: nat, firstVer: nat, marks: seq<nat>, applied: nat) {
    && firstVer <= durable < firstVer + |marks|
    && marks[durable - firstVer] <= applied
  }

  ghost predicate Inv(m: Machine) {
    && BookInv(m.book)
    && DiskInv(m.disk, m.book.base, m.book.ops)
    && DurableInv(m.durable, m.book.firstVer, m.book.marks, m.disk.applied)
  }

  // ----- edits keep it -----

  lemma EditKept(m: Machine, op: DeltaOp)
    requires Inv(m) && Enabled(m, Edits(op))
    ensures Inv(Next(m, Edits(op)))
  {
    EditKeepsBook(m.book, op);
    EditKeepsDisk(m.disk, m.book.base, m.book.ops, Queued(m.book, op));
    DurableStays(m.durable, m.book.firstVer, m.book.marks, m.disk.applied, |m.book.ops| + |Queued(m.book, op)|);
  }

  lemma DurableStays(durable: nat, firstVer: nat, marks: seq<nat>, applied: nat, mark: nat)
    requires DurableInv(durable, firstVer, marks, applied)
    ensures DurableInv(durable, firstVer, marks + [mark], applied)
  {
  }

  lemma EditKeepsDisk(d: Disk, base: Tables, ops: seq<PersistOp>, more: seq<PersistOp>)
    requires DiskInv(d, base, ops)
    ensures DiskInv(d.(pending := d.pending + more), base, ops + more)
  {
    assert (ops + more)[..d.applied] == ops[..d.applied];
    forall w | w in d.workers ensures WorkerFits(d.workers[w], ops + more, d.applied) {
      var k := d.workers[w];
      assert (ops + more)[k.start..k.start + |k.batch|] == ops[k.start..k.start + |k.batch|];
    }
    forall c | c in d.callers ensures CallerFits(d.callers[c], d.workers, d.popped, d.applied, |d.pending + more|) {
      assert CallerFits(d.callers[c], d.workers, d.popped, d.applied, |d.pending|);
    }
  }

  lemma {:induction false} EditKeepsBook(b: Book, op: DeltaOp)
    requires BookInv(b) && WfOp(op)
    ensures BookInv(EditNext(b, op))
  {
    var o := Stamp(op, b.ver + 1);
    EditGrows(b, op);
    RecordKept(b, EditNext(b, op), ApplyOp(b.store, o), Queued(b, op), Remember(o, b.persisted, b.minTtl));
  }

  /** What is recorded of one more store fits what was recorded so far. */
  ghost predicate Grown(b: Book, store: Store, more: seq<PersistOp>, persisted: set<string>) {
    && HistFits(b.hist + [store], b.marks + [|b.ops| + |more|], b.base, b.ops + more, b.minTtl)
    && Increasing(b.ops + more, b.firstVer, b.ver + 1)
    && MarksFit(b.marks + [|b.ops| + |more|], |b.ops| + |more|)
    && Last(b.hist + [store], store, persisted, b.minTtl)
  }

  lemma {:induction false} EditGrows(b: Book, op: DeltaOp)
    requires BookInv(b) && WfOp(op)
    ensures var o := Stamp(op, b.ver + 1);
            Grown(b, ApplyOp(b.store, o), Queued(b, op), Remember(o, b.persisted, b.minTtl))
  {
    var o, more := Stamp(op, b.ver + 1), Queued(b, op);
    StampedFits(op, b.ver + 1);
    HistAfterEdit(b.hist, b.marks, b.base, b.ops, b.minTtl, b.firstVer, b.ver, b.store, o, more);
    OpsGrow(b.ops, b.firstVer, b.ver, more);
    MarksGrow(b.marks, |b.ops|, |b.ops| + |more|);
  }

  lemma {:induction false} RecordKept(b: Book, after: Book, store: Store, more: seq<PersistOp>,
                                      persisted: set<string>)
    requires BookInv(b) && Grown(b, store, more, persisted) && after == Recorded(b, store, more, persisted)
    ensures BookInv(after)
  {
  }

  lemma HistAfterEdit(hist: seq<Store>, marks: seq<nat>, base: Tables, ops: seq<PersistOp>, minTtl: nat,
                      low: nat, high: nat, store: Store, o: DeltaOp, more: seq<PersistOp>)
    requires WfTables(base) && base.lastVer <= low <= high && Increasing(ops, low, high)
    requires HistFits(hist, marks, base, ops, minTtl)
    requires hist != [] && hist[|hist| - 1] == store && marks[|marks| - 1] == |ops|
    requires WfOp(o) && (!o.del ==> o.rule.version == high + 1)
    requires more == Persist(o, high + 1, Project(store, minTtl).Keys, minTtl)
    ensures |more| <= 1 && (more != [] ==> more[0].Version() == high + 1)
    ensures HistFits(hist + [ApplyOp(store, o)], marks + [|ops| + |more|], base, ops + more, minTtl)
    ensures Last(hist + [ApplyOp(store, o)], ApplyOp(store, o), Remember(o, Project(store, minTtl).Keys, minTtl),
              minTtl)
  {
    InOrder(base, ops, low, high);
    assert StoreFits(hist[|hist| - 1], marks[|hist| - 1], base, ops, minTtl);
    MirroredInOrder(store, base, ops, high, minTtl, o, more);
    HistGrows(hist, marks, base, ops, minTtl, ApplyOp(store, o), more);
  }

  lemma StampedFits(op: DeltaOp, v: nat)
    requires WfOp(op)
    ensures WfOp(Stamp(op, v)) && (!op.del ==> Stamp(op, v).rule.version == v)
  {
  }

  lemma MarksGrow(marks: seq<nat>, n: nat, n': nat)
    requires MarksFit(marks, n) && n <= n' <= n + 1
    ensures MarksFit(marks + [n'], n')
  {
  }

  lemma OpsGrow(ops: seq<PersistOp>, low: nat, high: nat, more: seq<PersistOp>)
    requires Increasing(ops, low, high) && low <= high
    requires |more| <= 1 && (more != [] ==> more[0].Version() == high + 1)
    ensures Increasing(ops + more, low, high + 1)
  {
  }

  lemma InOrder(base: Tables, ops: seq<PersistOp>, low: nat, high: nat)
    requires WfTables(base) && base.lastVer <= low && Increasing(ops, low, high) && low <= high
    ensures UniqueVersions(OpSet(ops)) && NewerThan(OpSet(ops), base.lastVer)
    ensures Reflects(CommitAll(base, ops), base, OpSet(ops))
    ensures CommitAll(base, ops).lastVer <= high
  {
    CommitAllReflects(base, ops);
  }

  /** A newer operation always takes effect on tables that hold only older versions. */
  lemma NewestTakesEffect(t: Tables, o: PersistOp)
    requires WfTables(t) && t.lastVer < o.Version()
    ensures Commit(t, o).rules == if o.Save? then t.rules[o.rule.id := o.rule] else t.rules - {o.ruleId}
  {
  }

  /** Queueing mirrors the edit: the projection changes by exactly the queued operation. */
  lemma PersistMirrors(store: Store, o: DeltaOp, v: nat, t: Tables, minTtl: nat)
    requires WfOp(o) && (!o.del ==> o.rule.version == v)
    requires WfTables(t) && t.lastVer < v && t.rules == Project(store, minTtl)
    ensures var more := Persist(o, v, Project(store, minTtl).Keys, minTtl);
            && |more| <= 1
            && (more == [] ==> Project(ApplyOp(store, o), minTtl) == t.rules)
            && (more != [] ==> more[0].Version() == v && Project(ApplyOp(store, o), minTtl) == Commit(t, more[0]).rules)
    ensures Remember(o, Project(store, minTtl).Keys, minTtl) == Project(ApplyOp(store, o), minTtl).Keys
  {
    var more := Persist(o, v, Project(store, minTtl).Keys, minTtl);
    if more != [] { NewestTakesEffect(t, more[0]); }
  }

  lemma MirroredInOrder(store: Store, base: Tables, ops: seq<PersistOp>, high: nat, minTtl: nat,
                        o: DeltaOp, more: seq<PersistOp>)
    requires WfOp(o) && (!o.del ==> o.rule.version == high + 1)
    requires StoreFits(store, |ops|, base, ops, minTtl)
    requires WfTables(CommitAll(base, ops)) && CommitAll(base, ops).lastVer <= high
    requires more == Persist(o, high + 1, Project(store, minTtl).Keys, minTtl)
    ensures WfStore(ApplyOp(store, o))
    ensures |more| <= 1 && (more != [] ==> more[0].Version() == high + 1)
    ensures Project(ApplyOp(store, o), minTtl) == CommitAll(base, ops + more).rules
    ensures Remember(o, Project(store, minTtl).Keys, minTtl) == Project(ApplyOp(store, o), minTtl).Keys
  {
    assert ops[..|ops|] == ops;
    PersistMirrors(store, o, high + 1, CommitAll(base, ops), minTtl);
    CommitAllSnoc(base, ops, more);
  }

  lemma CommitAllSnoc(base: Tables, ops: seq<PersistOp>, more: seq<PersistOp>)
    requires |more| <= 1
    ensures CommitAll(base, ops + more) == if more == [] then CommitAll(base, ops)
              else Commit(CommitAll(base, ops), more[0])
  {
    if more == [] {
      assert ops + more == ops;
    } else {
      assert (ops + more)[..|ops|] == ops;
    }
  }

  lemma HistGrows(hist: seq<Store>, marks: seq<nat>, base: Tables, ops: seq<PersistOp>, minTtl: nat,
                  store: Store, more: seq<PersistOp>)
    requires HistFits(hist, marks, base, ops, minTtl) && WfStore(store)
    requires Project(store, minTtl) == CommitAll(base, ops + more).rules
    ensures HistFits(hist + [store], marks + [|ops| + |more|], base, ops + more, minTtl)
  {
    assert (ops + more)[..|ops| + |more|] == ops + more;
    assert StoreFits(store, |ops| + |more|, base, ops + more, minTtl);
    forall i | 0 <= i < |hist| ensures StoreFits(hist[i], marks[i], base, ops + more, minTtl) {
      assert StoreFits(hist[i], marks[i], base, ops, minTtl);
      assert (ops + more)[..marks[i]] == ops[..marks[i]];
    }
  }

  // ----- the pool threads keep it -----

  /** The operations that reached the tables are always a prefix of the queue's history, and
      repeating one of them, as an orphaned batch does, changes nothing. */
  lemma WorkKept(d: Disk, base: Tables, ops: seq<PersistOp>, low: nat, high: nat, w: nat, fault: bool)
    requires WfTables(base) && base.lastVer <= low <= high && Increasing(ops, low, high)
    requires DiskInv(d, base, ops) && WorkEnabled(d, w)
    ensures DiskInv(WorkNext(d, w, fault), base, ops)
  {
    var k := d.workers[w];
    if fault || !Storable(k.batch[k.pos]) {
      StoppedKept(d, base, ops, w);
    } else {
      CommittedKept(d, base, ops, low, high, w);
    }
  }

  lemma StoppedKept(d: Disk, base: Tables, ops: seq<PersistOp>, w: nat)
    requires DiskInv(d, base, ops) && WorkEnabled(d, w)
    ensures DiskInv(Advanced(d, w, d.tables, d.workers[w].(running := false), d.applied), base, ops)
  {
    var k := d.workers[w].(running := false);
    assert WorkerFits(d.workers[w], ops, d.applied);
    WorkKeepsRest(d, ops, w, k, d.applied);
    AdvancedKept(d, base, ops, w, d.tables, k, d.applied);
  }

  lemma CommittedKept(d: Disk, base: Tables, ops: seq<PersistOp>, low: nat, high: nat, w: nat)
    requires WfTables(base) && base.lastVer <= low <= high && Increasing(ops, low, high)
    requires DiskInv(d, base, ops) && WorkEnabled(d, w)
    ensures var k := d.workers[w];
            DiskInv(Advanced(d, w, Commit(d.tables, k.batch[k.pos]), k.(pos := k.pos + 1),
                Max(d.applied, k.start + k.pos + 1)),
                    base, ops)
  {
    var k := d.workers[w];
    var i := k.start + k.pos;
    assert WorkerFits(k, ops, d.applied);
    assert k.batch[k.pos] == ops[i];
    CommitKeepsTables(d.tables, base, ops, low, high, d.applied, i);
    WorkKeepsRest(d, ops, w, k.(pos := k.pos + 1), Max(d.applied, i + 1));
    AdvancedKept(d, base, ops, w, Commit(d.tables, ops[i]), k.(pos := k.pos + 1), Max(d.applied, i + 1));
  }

  lemma AdvancedKept(d: Disk, base: Tables, ops: seq<PersistOp>, w: nat, tables: Tables, k: Worker, applied: nat)
    requires DiskInv(d, base, ops)
    requires TablesFit(tables, base, ops, applied)
    requires PendingFits(d.pending, ops, d.popped, applied) && WorkersFit(d.workers[w := k], ops, applied)
    requires CallersFit(d.callers, d.workers[w := k], d.popped, applied, |d.pending|)
    ensures DiskInv(Advanced(d, w, tables, k, applied), base, ops)
  {
  }

  lemma CommitKeepsTables(t: Tables, base: Tables, ops: seq<PersistOp>, low: nat, high: nat, applied: nat, i: nat)
    requires WfTables(base) && base.lastVer <= low <= high && Increasing(ops, low, high)
    requires TablesFit(t, base, ops, applied) && i <= applied && i < |ops|
    ensures TablesFit(Commit(t, ops[i]), base, ops, Max(applied, i + 1))
  {
    var before, after := OpSet(ops[..applied]), OpSet(ops[..Max(applied, i + 1)]);
    assert Reflects(t, base, before);
    assert after == before + {ops[i]};
    PrefixIsOrdered(base, ops, low, high, Max(applied, i + 1));
    CommitReflects(t, base, before, ops[i]);
  }

  lemma PrefixIsOrdered(base: Tables, ops: seq<PersistOp>, low: nat, high: nat, n: nat)
    requires base.lastVer <= low && Increasing(ops, low, high) && n <= |ops|
    ensures UniqueVersions(OpSet(ops[..n])) && NewerThan(OpSet(ops[..n]), base.lastVer)
  {
  }

  lemma WorkKeepsRest(d: Disk, ops: seq<PersistOp>, w: nat, k: Worker, applied: nat)
    requires PendingFits(d.pending, ops, d.popped, d.applied) && WorkersFit(d.workers, ops, d.applied)
    requires CallersFit(d.callers, d.workers, d.popped, d.applied, |d.pending|)
    requires w in d.workers && d.applied <= applied && WorkerFits(k, ops, applied)
    requires k.start == d.workers[w].start && k.batch == d.workers[w].batch
    ensures PendingFits(d.pending, ops, d.popped, applied) && WorkersFit(d.workers[w := k], ops, applied)
    ensures CallersFit(d.callers, d.workers[w := k], d.popped, applied, |d.pending|)
  {
    forall u | u in d.workers && u != w ensures WorkerFits(d.workers[u], ops, applied) {
      assert WorkerFits(d.workers[u], ops, d.applied);
    }
    forall c | c in d.callers ensures CallerFits(d.callers[c], d.workers[w := k], d.popped, applied, |d.pending|) {
      assert CallerFits(d.callers[c], d.workers, d.popped, d.applied, |d.pending|);
    }
  }

  // ----- the flushers keep it -----

  lemma FlushKept(d: Disk, base: Tables, ops: seq<PersistOp>, c: nat, s: FlushStep)
    requires DiskInv(d, base, ops) && FlushEnabled(d, c, s)
    ensures DiskInv(FlushNext(d, c, s), base, ops)
  {
    if c in d.callers { assert CallerFits(d.callers[c], d.workers, d.popped, d.applied, |d.pending|); }
    var d' := FlushNext(d, c, s);
    match s
    case Begin =>
    case Enter =>
    case Copy(w) => if d.pending != [] { CopyKept(d, base, ops, c, w); }
    case Finish => assert WorkerFits(d.workers[d.callers[c].worker], ops, d.applied);
    case Cancel =>
    case Pop => PopKept(d, base, ops, c);
    case Fail =>
    case Release =>
    case Recheck =>
  }

  lemma CopyKept(d: Disk, base: Tables, ops: seq<PersistOp>, c: nat, w: nat)
    requires DiskInv(d, base, ops) && FlushEnabled(d, c, Copy(w)) && d.pending != []
    ensures DiskInv(FlushNext(d, c, Copy(w)), base, ops)
  {
    var d' := FlushNext(d, c, Copy(w));
    var k := d'.workers[w];
    assert k.batch == ops[k.start..k.start + |k.batch|];
    forall u | u in d'.workers ensures WorkerFits(d'.workers[u], ops, d.applied) {
      if u != w { assert WorkerFits(d.workers[u], ops, d.applied); }
    }
    forall q | q in d'.callers ensures CallerFits(d'.callers[q], d'.workers, d.popped, d.applied, |d.pending|) {
      if q != c { assert CallerFits(d.callers[q], d.workers, d.popped, d.applied, |d.pending|); }
    }
  }

  lemma PopKept(d: Disk, base: Tables, ops: seq<PersistOp>, c: nat)
    requires DiskInv(d, base, ops) && FlushEnabled(d, c, Pop)
    ensures DiskInv(FlushNext(d, c, Pop), base, ops)
  {
    var d' := FlushNext(d, c, Pop);
    assert CallerFits(d.callers[c], d.workers, d.popped, d.applied, |d.pending|);
    assert d'.pending == ops[d'.popped..];
    forall q | q in d'.callers ensures CallerFits(d'.callers[q], d'.workers, d'.popped, d'.applied, |d'.pending|) {
      if q != c { assert !d.callers[q].Owns(); }
    }
  }

  // ----- whole runs -----

  lemma BootFits(t: Tables, minTtl: nat, now: nat)
    requires WfTables(t) && WfStore(t.rules) && Project(t.rules, minTtl) == t.rules
    ensures Inv(Boot(t, minTtl, now))
  {
    var m := Boot(t, minTtl, now);
    assert m.book.ops[..0] == [];
    assert OpSet([]) == {};
    assert Project(m.book.store, minTtl) == m.book.store;
    assert StoreFits(m.book.hist[0], m.book.marks[0], m.book.base, m.book.ops, minTtl);
  }

  /** What the tables hold is always the projection of one of this life's stores, no older than
      the last version a flush vouched for. */
  lemma TablesAreAStore(m: Machine) returns (i: nat)
    requires Inv(m)
    ensures m.durable <= m.book.firstVer + i <= m.book.ver && i < |m.book.hist|
    ensures m.disk.tables.rules == Project(m.book.hist[i], m.book.minTtl)
    ensures WfTables(m.disk.tables)
  {
    var b := m.book;
    var n := m.disk.applied;
    i := MarkOf(b.marks, |b.ops|, n, m.durable - b.firstVer);
    assert StoreFits(b.hist[i], b.marks[i], b.base, b.ops, b.minTtl);
    PrefixReplayed(m.disk.tables, b.base, b.ops, b.firstVer, b.ver, n);
  }

  lemma PrefixReplayed(t: Tables, base: Tables, ops: seq<PersistOp>, low: nat, high: nat, n: nat)
    requires WfTables(base) && base.lastVer <= low <= high && Increasing(ops, low, high)
    requires TablesFit(t, base, ops, n)
    ensures t.rules == CommitAll(base, ops[..n]).rules && WfTables(t)
  {
    assert Reflects(t, base, OpSet(ops[..n]));
    PrefixIsOrdered(base, ops, low, high, n);
    CommitAllReflects(base, ops[..n]);
    ReflectionIsUnique(t, CommitAll(base, ops[..n]), base, OpSet(ops[..n]));
  }

  /** Marks climb by at most one, so every count up to the total is the mark of some version. */
  lemma {:induction false} MarkOf(marks: seq<nat>, total: nat, n: nat, from: nat) returns (i: nat)
    requires MarksFit(marks, total) && n <= total && from < |marks| && marks[from] <= n
    ensures from <= i < |marks| && marks[i] == n
    decreases |marks| - from
  {
    i := from;
    while marks[i] != n
      invariant from <= i < |marks| && marks[i] <= n
      decreases |marks| - i
    {
      i := i + 1;
    }
  }

  lemma StepKept(m: Machine, s: Step)
    requires Inv(m) && Enabled(m, s)
    ensures Inv(Next(m, s))
  {
    match s
    case Edits(op) => EditKept(m, op);
    case Flush(c, step) => FlushStepKept(m, c, step);
    case Work(w, fault) => WorkStepKept(m, w, fault);
    case Restart(now) => RestartKept(m, now);
  }

  lemma WorkStepKept(m: Machine, w: nat, fault: bool)
    requires Inv(m) && Enabled(m, Work(w, fault))
    ensures Inv(Next(m, Work(w, fault)))
  {
    WorkKept(m.disk, m.book.base, m.book.ops, m.book.firstVer, m.book.ver, w, fault);
  }

  lemma RestartKept(m: Machine, now: nat)
    requires Inv(m)
    ensures Inv(Boot(m.disk.tables, m.book.minTtl, now))
  {
    var i := TablesAreAStore(m);
    assert StoreFits(m.book.hist[i], m.book.marks[i], m.book.base, m.book.ops, m.book.minTtl);
    BootFits(m.disk.tables, m.book.minTtl, now);
  }

  lemma FlushStepKept(m: Machine, c: nat, step: FlushStep)
    requires Inv(m) && Enabled(m, Flush(c, step))
    ensures Inv(Next(m, Flush(c, step)))
  {
    FlushKept(m.disk, m.book.base, m.book.ops, c, step);
    if step.Recheck? && m.disk.pending == [] {
      assert m.disk.popped == |m.book.ops|;
    }
  }

  lemma {:induction false} RunKept(minTtl: nat, steps: seq<Step>, ms: seq<Machine>, n: nat)
    requires Run(minTtl, steps, ms) && n < |ms|
    ensures Inv(ms[n]) && ms[n].book.minTtl == minTtl
  {
    if n == 0 {
      BootFits(EMPTY, minTtl, 0);
    } else {
      RunKept(minTtl, steps, ms, n - 1);
      assert ms[n] == Next(ms[n - 1], steps[n - 1]);
      StepKept(ms[n - 1], steps[n - 1]);
    }
  }

  // ----- the flushing flag -----

  /** The flag is up only while a caller is at work under it. */
  ghost predicate Owned(d: Disk) {
    d.flushing ==> exists c :: c in d.callers && d.callers[c].Owns()
  }

  lemma {:induction false} OwnedKept(d: Disk, c: nat, s: FlushStep)
    requires Owned(d) && FlushEnabled(d, c, s)
    ensures Owned(FlushNext(d, c, s))
  {
    var d' := FlushNext(d, c, s);
    if d'.flushing {
      if c in d'.callers && d'.callers[c].Owns() {
      } else {
        var o :| o in d.callers && d.callers[o].Owns();
        assert o in d'.callers && d'.callers[o].Owns();
      }
    }
  }

  /** A flush ends only because another is at work, because a batch was not written to its end, or
      with nothing left to write; and the flag never stays up behind it. */
  lemma {:induction false} FlushesEnd(minTtl: nat, steps: seq<Step>, ms: seq<Machine>, n: nat)
    requires Run(minTtl, steps, ms) && n < |ms|
    ensures Owned(ms[n].disk)
    ensures n < |steps| && steps[n].Flush? && steps[n].c in ms[n].disk.callers
              && steps[n].c !in ms[n + 1].disk.callers ==>
              || (ms[n].disk.flushing && ms[n].disk.callers[steps[n].c].Entering?)
              || ms[n].disk.callers[steps[n].c].Failing?
              || ms[n].disk.pending == []
    ensures n < |steps| && steps[n].Flush? && steps[n].c in ms[n + 1].disk.callers
            && ms[n + 1].disk.callers[steps[n].c].Failing? ==>
              && steps[n].c in ms[n].disk.callers && ms[n].disk.callers[steps[n].c].Popping?
              && ms[n].disk.callers[steps[n].c].done != ms[n].disk.callers[steps[n].c].count
    decreases n
  {
    if n > 0 {
      FlushesEnd(minTtl, steps, ms, n - 1);
      assert Enabled(ms[n - 1], steps[n - 1]) && ms[n] == Next(ms[n - 1], steps[n - 1]);
      if steps[n - 1].Flush? { OwnedKept(ms[n - 1].disk, steps[n - 1].c, steps[n - 1].step); }
    }
    if n < |steps| { assert Enabled(ms[n], steps[n]) && ms[n + 1] == Next(ms[n], steps[n]); }
  }

  /** In every reachable state, so at every point where the process may die, the rules table holds
      what belongs on disk of the hub store at one version of this life, no older than the version
      any flush that returned true had to cover: the permanent rules, those of an administrator or
      an emergency, and those made for at least `minTtl`. A restart then serves these less what has
      expired, under a version above everything in the tables. */
  lemma CrashDurability(minTtl: nat, steps: seq<Step>, ms: seq<Machine>, n: nat, now: nat) returns (i: nat)
    requires Run(minTtl, steps, ms) && n < |ms|
    ensures var b := ms[n].book;
            && i < |b.hist| && ms[n].durable <= b.firstVer + i <= b.ver
            && (forall id :: id in ms[n].disk.tables.rules <==>
                  && id in b.hist[i]
                  && var r := b.hist[i][id];
                     || r.expireAtMs == 0 || r.src == ADMIN || r.src == EMERG
                     || (r.createdAtMs < r.expireAtMs && r.createdAtMs + minTtl <= r.expireAtMs))
            && (forall id :: id in ms[n].disk.tables.rules ==> ms[n].disk.tables.rules[id] == b.hist[i][id])
    ensures var t, served := ms[n].disk.tables.rules, Boot(ms[n].disk.tables, minTtl, now).book.store;
            && (forall id :: id in served <==>
                  id in t && (t[id].expireAtMs == 0 || (now <= INT64_MAX && now < t[id].expireAtMs)))
            && (forall id :: id in served ==> served[id] == t[id])
    ensures var t, next := ms[n].disk.tables, Boot(ms[n].disk.tables, minTtl, now).book.ver + 1;
            && (forall id :: id in t.rules ==> t.rules[id].version < next)
            && (forall id :: id in t.tombs ==> t.tombs[id] < next)
  {
    RunKept(minTtl, steps, ms, n);
    i := TablesAreAStore(ms[n]);
  }

  /** Within one life, stores already recorded stay recorded and a durable version stays durable:
      an edit once reported durable is in the tables for good. */
  lemma {:induction false} DurableForGood(minTtl: nat, steps: seq<Step>, ms: seq<Machine>, a: nat, z: nat)
    requires Run(minTtl, steps, ms) && a <= z < |ms|
    requires forall i :: a <= i < z ==> !steps[i].Restart?
    ensures ms[a].book.firstVer == ms[z].book.firstVer
    ensures ms[a].book.hist <= ms[z].book.hist
    ensures ms[a].durable <= ms[z].durable
    decreases z - a
  {
    if a < z {
      DurableForGood(minTtl, steps, ms, a, z - 1);
      RunKept(minTtl, steps, ms, z - 1);
      assert ms[z] == Next(ms[z - 1], steps[z - 1]);
    }
  }

  // ----- a flush that nothing disturbs -----

  /** Some steps lead from `a` to `b`. */
  ghost predicate Reaches(a: Machine, b: Machine) {
    exists steps, ms :: Path(steps, ms) && ms[0] == a && ms[|steps|] == b
  }

  ghost predicate Path(steps: seq<Step>, ms: seq<Machine>) {
    && |ms| == |steps| + 1
    && forall i {:trigger steps[i]} :: 0 <= i < |steps| ==>
         Enabled(ms[i], steps[i]) && ms[i + 1] == Next(ms[i], steps[i])
  }

  lemma StandsStill(m: Machine)
    ensures Reaches(m, m)
  {
    var steps, ms: seq<Machine> := [], [m];
    assert Path(steps, ms) && ms[|steps|] == m;
  }

  lemma GoesOn(a: Machine, m: Machine, s: Step)
    requires Reaches(a, m) && Enabled(m, s)
    ensures Reaches(a, Next(m, s))
  {
    var steps, ms :| Path(steps, ms) && ms[0] == a && ms[|steps|] == m;
    var steps', ms' := steps + [s], ms + [Next(m, s)];
    forall i | 0 <= i < |steps'| ensures Enabled(ms'[i], steps'[i]) && ms'[i + 1] == Next(ms'[i], steps'[i]) {
      if i < |steps| { assert steps'[i] == steps[i]; }
    }
    assert Path(steps', ms') && ms'[|steps'|] == Next(m, s);
  }

  ghost predicate AllStorable(ops: seq<PersistOp>) {
    forall i :: 0 <= i < |ops| ==> Storable(ops[i])
  }

  /** A batch without faults is committed to its end. */
  lemma {:induction false} BatchRuns(a: Machine, m: Machine, w: nat) returns (z: Machine)
    requires Reaches(a, m) && w in m.disk.workers && m.disk.workers[w].running
    requires AllStorable(m.disk.workers[w].batch) && m.disk.workers[w].pos <= |m.disk.workers[w].batch|
    ensures Reaches(a, z) && z.book == m.book && w in z.disk.workers
    ensures z.disk.pending == m.disk.pending && z.disk.flushing == m.disk.flushing && z.disk.callers == m.disk.callers
    ensures z.disk.workers[w] == m.disk.workers[w].(pos := |m.disk.workers[w].batch|)
    decreases |m.disk.workers[w].batch| - m.disk.workers[w].pos
  {
    if m.disk.workers[w].pos == |m.disk.workers[w].batch| {
      z := m;
    } else {
      GoesOn(a, m, Work(w, false));
      z := BatchRuns(a, Next(m, Work(w, false)), w);
    }
  }

  /** One round of the flusher's loop: a batch is copied, committed and taken off the queue. */
  lemma RoundRuns(a: Machine, m: Machine, c: nat, w: nat) returns (z: Machine)
    requires Reaches(a, m) && c in m.disk.callers && m.disk.callers[c].Holding? && w !in m.disk.workers
    requires m.disk.pending != [] && AllStorable(m.disk.pending)
    ensures Reaches(a, z) && z.book == m.book && z.disk.flushing == m.disk.flushing
    ensures c in z.disk.callers && z.disk.callers[c].Holding? && |z.disk.pending| < |m.disk.pending|
    ensures AllStorable(z.disk.pending)
  {
    var copied := Next(m, Flush(c, Copy(w)));
    GoesOn(a, m, Flush(c, Copy(w)));
    var done := BatchRuns(a, copied, w);
    var finished := Next(done, Flush(c, Finish));
    GoesOn(a, done, Flush(c, Finish));
    z := Next(finished, Flush(c, Pop));
    GoesOn(a, finished, Flush(c, Pop));
  }

  lemma FreeWorker(workers: map<nat, Worker>) returns (w: nat)
    ensures w !in workers
  {
    w := NotIn(workers.Keys);
  }

  lemma {:induction false} NotIn(s: set<nat>) returns (w: nat)
    ensures forall x :: x in s ==> x < w
    decreases |s|
  {
    if s == {} {
      w := 0;
    } else {
      var y :| y in s;
      var low := NotIn(s - {y});
      w := Max(low, y + 1);
      forall x | x in s ensures x < w {
        if x != y { assert x in s - {y}; }
      }
    }
  }

  lemma {:induction false} LoopRuns(a: Machine, m: Machine, c: nat) returns (z: Machine)
    requires Reaches(a, m) && c in m.disk.callers && m.disk.callers[c].Holding? && AllStorable(m.disk.pending)
    ensures Reaches(a, z) && z.book == m.book && c in z.disk.callers && z.disk.callers[c].Holding?
    ensures z.disk.pending == []
    decreases |m.disk.pending|
  {
    if m.disk.pending == [] {
      z := m;
    } else {
      var w := FreeWorker(m.disk.workers);
      var next := RoundRuns(a, m, c, w);
      z := LoopRuns(a, next, c);
    }
  }

  /** When nobody else flushes, nothing faults and the database takes every queued operation, a
      flush goes through, and every change recorded so far is durable. */
  lemma FlushGoesThrough(m: Machine, c: nat) returns (z: Machine)
    requires !m.disk.flushing && c !in m.disk.callers && AllStorable(m.disk.pending)
    ensures Reaches(m, z) && z.book == m.book && z.disk.pending == [] && c !in z.disk.callers
    ensures z.durable == m.book.ver
  {
    StandsStill(m);
    GoesOn(m, m, Flush(c, Begin));
    var begun := Next(m, Flush(c, Begin));
    GoesOn(m, begun, Flush(c, Enter));
    var looped := LoopRuns(m, Next(begun, Flush(c, Enter)), c);
    var w := FreeWorker(looped.disk.workers);
    GoesOn(m, looped, Flush(c, Copy(w)));
    var emptied := Next(looped, Flush(c, Copy(w)));
    GoesOn(m, emptied, Flush(c, Release));
    var released := Next(emptied, Flush(c, Release));
    GoesOn(m, released, Flush(c, Recheck));
    z := Next(released, Flush(c, Recheck));
  }
}
