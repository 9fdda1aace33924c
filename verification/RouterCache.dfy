/** Cached routing over table swaps (Router in src/gateway/router.cpp). A lookup captures table and
    generation in one section, then asks the cache, computes, and stores, with swaps in between. */
module RouterCache {
  import opened Rules
  import Router

  type Table = seq<Router.RouteRule>
  type Result = Option<Router.RouteRule>

  datatype Query = Query(verb: string, host: string, path: string)

  /** The answer of a table, unique by Router.AnswerIsUnique. */
  ghost predicate Answers(t: Table, q: Query, r: Result) {
    Router.IsAnswer(t, q.verb, q.host, q.path, r)
  }

  // ----- keys -----

  function Digit(d: nat): char
    requires d < 10
  {
    '0' + d as char
  }

  function Text(n: nat): (s: string)
    ensures '|' !in s
  {
    if n < 10 then [Digit(n)] else Text(n / 10) + [Digit(n % 10)]
  }

  function Key(gen: nat, q: Query): string {
    Text(gen) + "|" + (q.verb + "|" + (q.host + "|" + q.path))
  }

  lemma {:induction false} TextIsInjective(a: nat, b: nat)
    requires Text(a) == Text(b)
    ensures a == b
  {
    var s, t := Text(a), Text(b);
    TextLength(a);
    TextLength(b);
    if a >= 10 && b >= 10 {
      assert Text(a / 10) == s[..|s| - 1] == t[..|t| - 1] == Text(b / 10);
      TextIsInjective(a / 10, b / 10);
      assert s[|s| - 1] == Digit(a % 10) && t[|t| - 1] == Digit(b % 10);
    } else if a < 10 && b < 10 {
      assert s[0] == Digit(a) && t[0] == Digit(b);
    }
  }

  lemma TextLength(n: nat)
    ensures Text(n) != "" && (|Text(n)| == 1 <==> n < 10)
  {
    if n >= 10 { TextLength(n / 10); }
  }

  /** Text before the first bar, and what follows it, can be read back. */
  lemma {:induction false} CutAtBar(a: string, x: string, b: string, y: string)
    requires '|' !in a && '|' !in b && a + "|" + x == b + "|" + y
    ensures a == b && x == y
  {
    var s, t := a + "|" + x, b + "|" + y;
    assert s[|a|] == '|' && t[|b|] == '|';
    assert forall i :: 0 <= i < |a| ==> s[i] == a[i];
    assert forall i :: 0 <= i < |b| ==> t[i] == b[i];
    assert |a| == |b|;
    assert a == s[..|a|] && b == t[..|b|];
    assert x == s[|a| + 1..] && y == t[|b| + 1..];
  }

  /** One bar further on: host and path of the two queries are cut from one text at different bars. */
  ghost predicate Shifted(p: Query, q: Query) {
    exists t :: ShiftedBy(p, q, t)
  }

  predicate ShiftedBy(p: Query, q: Query, t: string) {
    q.host == p.host + "|" + t && p.path == t + "|" + q.path
  }

  /** A text with two cuts at bars. */
  lemma TwoCuts(a: string, x: string, b: string, y: string) returns (t: string)
    requires a + "|" + x == b + "|" + y && |a| < |b|
    ensures b == a + "|" + t && x == t + "|" + y
  {
    var s := a + "|" + x;
    assert s == b + "|" + y;
    t := b[|a| + 1..];
    assert forall i :: 0 <= i < |b| ==> b[i] == s[i];
    assert s[|a|] == '|' && s[|b|] == '|';
    assert b == b[..|a|] + [b[|a|]] + t;
    assert b[..|a|] == a;
    assert x == s[|a| + 1..] && y == s[|b| + 1..];
    assert x == s[|a| + 1..|b|] + [s[|b|]] + s[|b| + 1..];
    assert s[|a| + 1..|b|] == t;
  }

  lemma SameCut(a: string, x: string, b: string, y: string)
    requires a + "|" + x == b + "|" + y && |a| == |b|
    ensures a == b && x == y
  {
    var s, t := a + "|" + x, b + "|" + y;
    assert s == t;
    assert a == s[..|a|] && b == t[..|b|];
    assert x == s[|a| + 1..] && y == t[|b| + 1..];
  }

  lemma ShiftJoins(p: Query, q: Query)
    requires Shifted(p, q)
    ensures p.host + "|" + p.path == q.host + "|" + q.path
    ensures |q.path| < |p.path| && '|' in p.path && '|' in q.host
  {
    var t :| ShiftedBy(p, q, t);
    assert p.host + "|" + (t + "|" + q.path) == (p.host + "|" + t) + "|" + q.path;
    assert p.path[|t|] == '|' && q.host[|p.host|] == '|';
  }

  /** Two queries share a key exactly when they are the same query of the same generation, or one is
      the other shifted by a bar from the path into the host. Methods hold no bars. */
  lemma KeysEqualIff(g: nat, p: Query, h: nat, q: Query)
    requires '|' !in p.verb && '|' !in q.verb
    ensures Key(g, p) == Key(h, q) <==> g == h && p.verb == q.verb && (p == q || Shifted(p, q) || Shifted(q, p))
  {
    if Key(g, p) == Key(h, q) {
      CutAtBar(Text(g), p.verb + "|" + (p.host + "|" + p.path), Text(h), q.verb + "|" + (q.host + "|" + q.path));
      TextIsInjective(g, h);
      CutAtBar(p.verb, p.host + "|" + p.path, q.verb, q.host + "|" + q.path);
      if |p.host| < |q.host| {
        var t := TwoCuts(p.host, p.path, q.host, q.path);
        assert ShiftedBy(p, q, t);
      } else if |q.host| < |p.host| {
        var t := TwoCuts(q.host, q.path, p.host, p.path);
        assert ShiftedBy(q, p, t);
      } else {
        SameCut(p.host, p.path, q.host, q.path);
      }
    }
    if Shifted(p, q) { ShiftJoins(p, q); }
    if Shifted(q, p) { ShiftJoins(q, p); }
  }

  /** A query has its key to itself exactly when neither its host nor its path holds a bar. */
  lemma KeyIsItsOwnIff(g: nat, q: Query)
    requires '|' !in q.verb
    ensures '|' !in q.host && '|' !in q.path <==>
              forall h: nat, p: Query :: '|' !in p.verb && Key(h, p) == Key(g, q) ==> h == g && p == q
  {
    if '|' in q.host {
      var i :| 0 <= i < |q.host| && q.host[i] == '|';
      var p := Query(q.verb, q.host[..i], q.host[i + 1..] + "|" + q.path);
      assert q.host == p.host + "|" + q.host[i + 1..];
      assert ShiftedBy(p, q, q.host[i + 1..]);
      KeysEqualIff(g, p, g, q);
      assert |p.host| < |q.host|;
    } else if '|' in q.path {
      var i :| 0 <= i < |q.path| && q.path[i] == '|';
      var p := Query(q.verb, q.host + "|" + q.path[..i], q.path[i + 1..]);
      assert q.path == q.path[..i] + "|" + p.path;
      assert ShiftedBy(q, p, q.path[..i]);
      KeysEqualIff(g, p, g, q);
      assert |p.path| < |q.path|;
    } else {
      forall h: nat, p: Query | '|' !in p.verb && Key(h, p) == Key(g, q) ensures h == g && p == q {
        KeysEqualIff(h, p, g, q);
        if Shifted(p, q) { ShiftJoins(p, q); }
        if Shifted(q, p) { ShiftJoins(q, p); }
      }
    }
  }

  /** Queries whose methods hold no bar, as parsed methods never do. */
  ghost predicate Plain(qs: iset<Query>) {
    forall q :: q in qs ==> '|' !in q.verb
  }

  /** No two of the queries differ by a bar between host and path. */
  ghost predicate Apart(qs: iset<Query>) {
    forall p, q :: p in qs && q in qs && p.verb == q.verb ==> !Shifted(p, q)
  }

  /** A path from the parser never holds a bar, so parsed requests are apart; so are requests whose
      hosts hold none, whatever a key extractor makes of them. */
  lemma BarsOnOneSideAreApart(qs: iset<Query>)
    requires (forall q :: q in qs ==> '|' !in q.path) || (forall q :: q in qs ==> '|' !in q.host)
    ensures Apart(qs)
  {
    forall p, q | p in qs && q in qs && p.verb == q.verb ensures !Shifted(p, q) {
      if Shifted(p, q) { ShiftJoins(p, q); }
    }
  }

  // ----- the router -----

  /** A lookup in flight, with the table and generation it captured. */
  datatype Lookup =
    | Asking(q: Query, table: Table, gen: nat)
    | Storing(q: Query, gen: nat, result: Result)
    | Done(q: Query, gen: nat, result: Result)

  /** `tables` is history: the table of every generation. */
  datatype State = State(
    table: Table,
    gen: nat,
    cache: map<string, Result>,
    lookups: map<nat, Lookup>,
    tables: map<nat, Table>)

  datatype Step =
    | Swap(table: Table)
    | Begin(id: nat, q: Query)
    | Ask(id: nat, computed: Result)
    | Store(id: nat)
    | Evict(key: string)      // by the cache, or by the invalidation that follows a swap

  ghost predicate Enabled(s: State, step: Step) {
    match step
    case Swap(_) => true
    case Begin(id, _) => id !in s.lookups
    case Ask(id, computed) =>
      id in s.lookups && s.lookups[id].Asking? && Answers(s.lookups[id].table, s.lookups[id].q, computed)
    case Store(id) => id in s.lookups && s.lookups[id].Storing?
    case Evict(_) => true
  }

  function Next(s: State, step: Step): State
    requires step.Ask? ==> step.id in s.lookups && s.lookups[step.id].Asking?
    requires step.Store? ==> step.id in s.lookups && s.lookups[step.id].Storing?
  {
    match step
    case Swap(t) => s.(table := t, gen := s.gen + 1, tables := s.tables[s.gen + 1 := t])
    case Begin(id, q) => s.(lookups := s.lookups[id := Asking(q, s.table, s.gen)])
    case Ask(id, computed) =>
      var l := s.lookups[id];
      var key := Key(l.gen, l.q);
      s.(lookups := s.lookups[id := if key in s.cache then Done(l.q, l.gen, s.cache[key])
                                    else Storing(l.q, l.gen, computed)])
    case Store(id) =>
      var l := s.lookups[id];
      s.(cache := s.cache[Key(l.gen, l.q) := l.result],
         lookups := s.lookups[id := Done(l.q, l.gen, l.result)])
    case Evict(key) => s.(cache := s.cache - {key})
  }

  function Start(t: Table): State {
    State(t, 0, map[], map[], map[0 := t])
  }

  ghost predicate Run(t: Table, steps: seq<Step>, ss: seq<State>) {
    && |ss| == |steps| + 1
    && ss[0] == Start(t)
    && forall i {:trigger steps[i]} :: 0 <= i < |steps| ==>
         Enabled(ss[i], steps[i]) && ss[i + 1] == Next(ss[i], steps[i])
  }

  ghost predicate Uses(steps: seq<Step>, qs: iset<Query>) {
    forall i :: 0 <= i < |steps| && steps[i].Begin? ==> steps[i].q in qs
  }

  // ----- cached is as good as looked up -----

  ghost predicate LookupFits(l: Lookup, tables: map<nat, Table>, qs: iset<Query>) {
    && l.q in qs && l.gen in tables
    && match l
       case Asking(_, table, gen) => tables[gen] == table
       case Storing(q, gen, result) => Answers(tables[gen], q, result)
       case Done(q, gen, result) => Answers(tables[gen], q, result)
  }

  /** A cached result answers every query that would find it. */
  ghost predicate CacheFits(cache: map<string, Result>, tables: map<nat, Table>, qs: iset<Query>) {
    forall g, q {:trigger Key(g, q)} :: q in qs && Key(g, q) in cache ==>
      g in tables && Answers(tables[g], q, cache[Key(g, q)])
  }

  ghost predicate Inv(s: State, qs: iset<Query>) {
    && (forall g :: g in s.tables ==> g <= s.gen)
    && s.gen in s.tables && s.tables[s.gen] == s.table
    && CacheFits(s.cache, s.tables, qs)
    && forall id :: id in s.lookups ==> LookupFits(s.lookups[id], s.tables, qs)
  }

  lemma StepKept(s: State, step: Step, qs: iset<Query>)
    requires Inv(s, qs) && Enabled(s, step) && (step.Begin? ==> step.q in qs) && Plain(qs) && Apart(qs)
    ensures Inv(Next(s, step), qs)
  {
    var s' := Next(s, step);
    match step
    case Swap(t) =>
      forall id | id in s'.lookups ensures LookupFits(s'.lookups[id], s'.tables, qs) {
        assert LookupFits(s.lookups[id], s.tables, qs);
      }
    case Begin(id, q) =>
    case Ask(id, computed) =>
      assert LookupFits(s.lookups[id], s.tables, qs);
    case Store(id) =>
      var l := s.lookups[id];
      assert LookupFits(l, s.tables, qs);
      StoreKept(s.cache, s.tables, qs, l.gen, l.q, l.result);
    case Evict(key) =>
  }

  /** A stored result is found by its own query only. */
  lemma StoreKept(cache: map<string, Result>, tables: map<nat, Table>, qs: iset<Query>, gen: nat, q: Query, r: Result)
    requires CacheFits(cache, tables, qs) && Plain(qs) && Apart(qs)
    requires q in qs && gen in tables && Answers(tables[gen], q, r)
    ensures CacheFits(cache[Key(gen, q) := r], tables, qs)
  {
    var cache' := cache[Key(gen, q) := r];
    forall g, p | p in qs && Key(g, p) in cache' ensures g in tables && Answers(tables[g], p, cache'[Key(g, p)]) {
      if Key(g, p) == Key(gen, q) { KeysEqualIff(g, p, gen, q); }
    }
  }

  /** Every finished lookup has the answer of the table of the generation it captured. */
  ghost predicate Right(s: State) {
    forall id :: id in s.lookups && s.lookups[id].Done? ==>
      && s.lookups[id].gen in s.tables
      && Answers(s.tables[s.lookups[id].gen], s.lookups[id].q, s.lookups[id].result)
  }

  /** However swaps, evictions and other lookups interleave, a finished lookup has the answer of the
      table of the generation it captured, when no two of the queries differ by a bar alone. */
  lemma {:induction false} CachedIsLookedUp(qs: iset<Query>, t: Table, steps: seq<Step>, ss: seq<State>, n: nat)
    requires Run(t, steps, ss) && Uses(steps, qs) && Plain(qs) && Apart(qs) && n < |ss|
    ensures Inv(ss[n], qs) && Right(ss[n])
  {
    if n > 0 {
      CachedIsLookedUp(qs, t, steps, ss, n - 1);
      assert ss[n] == Next(ss[n - 1], steps[n - 1]);
      StepKept(ss[n - 1], steps[n - 1], qs);
    }
    forall id | id in ss[n].lookups && ss[n].lookups[id].Done?
      ensures ss[n].lookups[id].gen in ss[n].tables
              && Answers(ss[n].tables[ss[n].lookups[id].gen], ss[n].lookups[id].q, ss[n].lookups[id].result)
    {
      assert LookupFits(ss[n].lookups[id], ss[n].tables, qs);
    }
  }

  // ----- and only then -----

  ghost predicate AlwaysRight(qs: iset<Query>) {
    forall t, steps, ss, n :: Run(t, steps, ss) && Uses(steps, qs) && 0 <= n < |ss| ==> Right(ss[n])
  }

  /** A table that answers one path only. */
  function OnlyFor(path: string): Table {
    [Router.RouteRule("", Router.EXACT, path, [], "", 0, 0)]
  }

  lemma OnlyAnswer(p: Query, q: Query)
    ensures Answers(OnlyFor(p.path), p, Some(OnlyFor(p.path)[0]))
    ensures q.path != p.path ==>
              Answers(OnlyFor(p.path), q, None) && !Answers(OnlyFor(p.path), q, Some(OnlyFor(p.path)[0]))
  {
    assert Router.Best(OnlyFor(p.path), p.verb, p.host, p.path, 0);
  }

  /** Two queries that differ by a bar alone: the second gets the answer of the first. */
  lemma WrongAnswer(p: Query, q: Query) returns (steps: seq<Step>, ss: seq<State>)
    requires '|' !in p.verb && p.verb == q.verb && Shifted(p, q)
    ensures Run(OnlyFor(p.path), steps, ss) && Uses(steps, iset{p, q}) && |ss| == 6 && !Right(ss[5])
  {
    var t := OnlyFor(p.path);
    var r := Some(t[0]);
    ShiftJoins(p, q);
    OnlyAnswer(p, q);
    KeysEqualIff(0, p, 0, q);
    steps := [Begin(0, p), Ask(0, r), Store(0), Begin(1, q), Ask(1, None)];
    var s0 := Start(t);
    var s1 := Next(s0, steps[0]);
    var s2 := Next(s1, steps[1]);
    var s3 := Next(s2, steps[2]);
    var s4 := Next(s3, steps[3]);
    var s5 := Next(s4, steps[4]);
    ss := [s0, s1, s2, s3, s4, s5];
    assert s5.lookups[1] == Done(q, 0, r);
  }

  /** Lookups are right in every run over a set of queries exactly when no two of them differ by a bar
      between host and path alone. With the default key, which is the parsed path, none do. */
  lemma CacheIsRightIff(qs: iset<Query>)
    requires Plain(qs)
    ensures Apart(qs) <==> AlwaysRight(qs)
  {
    if Apart(qs) {
      forall t, steps, ss, n | Run(t, steps, ss) && Uses(steps, qs) && 0 <= n < |ss| ensures Right(ss[n]) {
        CachedIsLookedUp(qs, t, steps, ss, n);
      }
    } else {
      var p, q :| p in qs && q in qs && p.verb == q.verb && Shifted(p, q);
      var steps, ss := WrongAnswer(p, q);
      assert Uses(steps, qs);
    }
  }
}
