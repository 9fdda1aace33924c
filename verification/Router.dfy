/** Routing (src/gateway/router.cpp): which rule a request gets, the index that finds it, and the
    cache keyed by table generation. */
module Router {
  import opened Rules
  import opened Body
  import opened Framing

  datatype MatchType = EXACT | PREFIX

  datatype RouteRule = RouteRule(
    name: string, matchType: MatchType, path: string, methods: seq<string>, host: string,
    priority: int, insertionIdx: nat)

  // ----- matching one rule -----

  predicate IsBlank(c: char) { c == ' ' || c == '\t' }

  function TrimBlanks(s: string): (t: string)
    ensures |t| <= |s|
  {
    if s != "" && IsBlank(s[0]) then TrimBlanks(s[1..])
    else if s != "" && IsBlank(s[|s| - 1]) then TrimBlanks(s[..|s| - 1])
    else s
  }

  function Lowered(s: string): string {
    if s == "" then "" else [Lower(s[0])] + Lowered(s[1..])
  }

  /** Lower case, without brackets around an IPv6 literal or a port behind a name. */
  function NormHost(host: string): string {
    var h := TrimBlanks(host);
    if h == "" then ""
    else if h[0] == '[' then
      Lowered(if ']' in h then Before(h[1..], ']') else h)
    else
      var name := Before(h, ':');
      Lowered(if |name| < |h| && ':' !in h[|name| + 1..] then name else h)
  }

  /** Allowed when the list is empty or names the method, whatever its case. */
  predicate MethodMatches(allowed: seq<string>, verb: string) {
    allowed == [] || exists i :: 0 <= i < |allowed| && SameNoCase(CStr(allowed[i]), CStr(verb))
  }

  predicate HostMatches(ruleHost: string, host: string) {
    ruleHost == "" || NormHost(ruleHost) == host
  }

  /** /api matches /api and /api/foo but not /apifoo. */
  predicate SegPrefix(path: string, prefix: string) {
    if prefix == "/" then path != "" && path[0] == '/'
    else prefix <= path && (|path| == |prefix| || path[|prefix|] == '/')
  }

  /** A path cut at its slashes. */
  function Segments(path: string): (segs: seq<string>)
    ensures |segs| > 0
  {
    if path == "" then [""]
    else
      var more := Segments(path[1..]);
      if path[0] == '/' then [""] + more else [[path[0]] + more[0]] + more[1..]
  }

  /** A prefix rule takes the paths that begin with its segments; the rule for "/" all that begin
      with a slash. */
  lemma PrefixIsOfSegments(path: string, prefix: string)
    ensures prefix != "/" ==> (SegPrefix(path, prefix) <==> Segments(prefix) <= Segments(path))
    ensures prefix == "/" ==> (SegPrefix(path, prefix) <==> |Segments(path)| > 1 && Segments(path)[0] == "")
  {
    if prefix == "/" {
      if path != "" && path[0] != '/' { assert Segments(path)[0] != ""; }
    } else {
      BeginsWith(path, prefix);
    }
  }

  /** The plain test: the prefix, then the end or a slash. */
  predicate Begins(path: string, prefix: string) {
    prefix <= path && (|path| == |prefix| || path[|prefix|] == '/')
  }

  lemma {:induction false} BeginsWith(path: string, prefix: string)
    ensures Begins(path, prefix) <==> Segments(prefix) <= Segments(path)
  {
    if prefix == "" {
      if path != "" && path[0] != '/' { assert Segments(path)[0] != ""; }
    } else if path == "" {
      assert |Segments(prefix)| > 1 || Segments(prefix)[0] != "";
    } else {
      BeginsWith(path[1..], prefix[1..]);
      BeginsStep(path, prefix);
      SegmentsStep(path, prefix);
    }
  }

  lemma BeginsStep(path: string, prefix: string)
    requires path != "" && prefix != ""
    ensures Begins(path, prefix) <==> path[0] == prefix[0] && Begins(path[1..], prefix[1..])
  {
    if path[0] == prefix[0] && prefix[1..] <= path[1..] {
      assert path == [path[0]] + path[1..] && prefix == [prefix[0]] + prefix[1..];
    }
    if prefix <= path { assert path[1..][..|prefix| - 1] == prefix[1..]; }
  }

  lemma SegmentsStep(path: string, prefix: string)
    requires path != "" && prefix != ""
    ensures Segments(prefix) <= Segments(path) <==>
              path[0] == prefix[0] && Segments(prefix[1..]) <= Segments(path[1..])
  {
    var a, b := Segments(prefix[1..]), Segments(path[1..]);
    if prefix[0] == '/' {
      if path[0] == '/' { ConsPrefix("", a, "", b); } else { ConsPrefix("", a, [path[0]] + b[0], b[1..]); }
    } else {
      assert a == [a[0]] + a[1..] && b == [b[0]] + b[1..];
      ConsPrefix(a[0], a[1..], b[0], b[1..]);
      if path[0] == '/' {
        ConsPrefix([prefix[0]] + a[0], a[1..], "", b);
      } else {
        ConsPrefix([prefix[0]] + a[0], a[1..], [path[0]] + b[0], b[1..]);
        assert ([prefix[0]] + a[0])[1..] == a[0] && ([path[0]] + b[0])[1..] == b[0];
        assert ([prefix[0]] + a[0])[0] == prefix[0] && ([path[0]] + b[0])[0] == path[0];
      }
    }
  }

  lemma ConsPrefix(x: string, xs: seq<string>, y: string, ys: seq<string>)
    ensures [x] + xs <= [y] + ys <==> x == y && xs <= ys
  {
    if [x] + xs <= [y] + ys {
      assert ([x] + xs)[0] == ([y] + ys)[0];
      assert ([x] + xs)[1..] == xs && ([y] + ys)[1..] == ys;
      assert ([y] + ys)[..|xs| + 1] == [x] + xs;
      assert ys[..|xs|] == ([y] + ys)[..|xs| + 1][1..];
    }
  }

  // ----- the forms of a host -----

  predicate Blanks(s: string) { forall i :: 0 <= i < |s| ==> s[i] == ' ' || s[i] == '\t' }

  /** A name as compared: each letter in lower case. */
  predicate InLowerCase(low: string, name: string) {
    && |low| == |name|
    && forall i :: 0 <= i < |name| ==> IsLow(low[i], name[i])
  }

  predicate IsLow(low: char, c: char) {
    (low == c && c !in UPPER) || exists k :: 0 <= k < 26 && c == UPPER[k] && low == LOWER[k]
  }

  lemma {:induction false} LoweredIs(s: string)
    ensures InLowerCase(Lowered(s), s)
  {
    if s != "" { LoweredIs(s[1..]); }
  }

  lemma {:induction false} TrimmedHost(pre: string, core: string, post: string)
    requires Blanks(pre) && Blanks(post) && core != "" && !IsBlank(core[0]) && !IsBlank(core[|core| - 1])
    ensures TrimBlanks(pre + core + post) == core
    decreases |pre| + |post|
  {
    var s := pre + core + post;
    if pre != "" {
      assert s[0] == pre[0];
      assert s[1..] == pre[1..] + core + post;
      TrimmedHost(pre[1..], core, post);
    } else if post != "" {
      assert s[0] == core[0];
      assert s[|s| - 1] == post[|post| - 1];
      assert s[..|s| - 1] == pre + core + post[..|post| - 1];
      TrimmedHost(pre, core, post[..|post| - 1]);
    } else {
      assert s == core;
    }
  }

  /** The name a host stands for, in each of its forms and between blanks: a bare name, a name with a
      port, an IPv6 literal in brackets with or without one, and a literal without brackets, whose
      colons are many. */
  lemma HostForms(pre: string, core: string, post: string, name: string, port: string)
    requires Blanks(pre) && Blanks(post) && core != "" && !IsBlank(core[0]) && !IsBlank(core[|core| - 1])
    ensures (core[0] != '[' && ':' !in core) ==> InLowerCase(NormHost(pre + core + post), core)
    ensures core[0] != '[' && core == name + ":" + port && ':' !in name && ':' !in port ==>
              InLowerCase(NormHost(pre + core + post), name)
    ensures core == "[" + name + "]" + port && ']' !in name ==> InLowerCase(NormHost(pre + core + post), name)
    ensures core[0] != '[' && core == name + ":" + port && ':' !in name && ':' in port ==>
              InLowerCase(NormHost(pre + core + post), core)
    ensures core[0] == '[' && ']' !in core ==> InLowerCase(NormHost(pre + core + post), core)
  {
    TrimmedHost(pre, core, post);
    if core[0] == '[' {
      if core == "[" + name + "]" + port && ']' !in name { Bracketed(core, name, port); }
    } else if core == name + ":" + port && ':' !in name {
      Ported(core, name, port);
    } else if ':' !in core {
      BeforeIs(core, ':', core, "");
    }
    LoweredIs(core);
    LoweredIs(name);
  }

  lemma Bracketed(core: string, name: string, port: string)
    requires core == "[" + name + "]" + port && ']' !in name
    ensures ']' in core && Before(core[1..], ']') == name
  {
    assert core[|name| + 1] == ']';
    assert core[1..] == name + ("]" + port);
    BeforeIs(core[1..], ']', name, "]" + port);
  }

  lemma Ported(core: string, name: string, port: string)
    requires core == name + ":" + port && ':' !in name
    ensures Before(core, ':') == name && |name| < |core| && core[|name| + 1..] == port
  {
    assert core == name + (":" + port);
    BeforeIs(core, ':', name, ":" + port);
  }

  /** Methods are compared up to a NUL and in any case. */
  lemma MethodsInAnyCase(allowed: seq<string>, verb: string)
    ensures MethodMatches(allowed, verb) <==>
              allowed == [] || exists i, low :: 0 <= i < |allowed| && InLowerCase(low, CStr(allowed[i]))
                                                && InLowerCase(low, CStr(verb))
  {
    LoweredIs(CStr(verb));
    if i :| 0 <= i < |allowed| && SameNoCase(CStr(allowed[i]), CStr(verb)) {
      SameLow(Lowered(CStr(verb)), CStr(verb), CStr(allowed[i]));
    }
    if i, low :| 0 <= i < |allowed| && InLowerCase(low, CStr(allowed[i])) && InLowerCase(low, CStr(verb)) {
      OneLow(low, CStr(allowed[i]), CStr(verb));
    }
  }

  lemma SameLow(low: string, a: string, b: string)
    requires InLowerCase(low, a) && SameNoCase(b, a)
    ensures InLowerCase(low, b)
  {
    forall i | 0 <= i < |b| ensures IsLow(low[i], b[i]) {
      LowIs(low[i], a[i]);
      LowIs(low[i], b[i]);
    }
  }

  lemma OneLow(low: string, a: string, b: string)
    requires InLowerCase(low, a) && InLowerCase(low, b)
    ensures SameNoCase(a, b)
  {
    forall i | 0 <= i < |a| ensures Lower(a[i]) == Lower(b[i]) {
      LowIs(low[i], a[i]);
      LowIs(low[i], b[i]);
    }
  }

  lemma LowIs(low: char, c: char)
    ensures IsLow(low, c) <==> low == Lower(c)
  {
    if 'A' <= c <= 'Z' { Letters(c as int - 'A' as int); }
    forall k | 0 <= k < 26 ensures UPPER[k] as int == 'A' as int + k && LOWER[k] as int == 'a' as int + k {
      Letters(k);
    }
  }

  lemma Letters(k: nat)
    requires k < 26
    ensures UPPER[k] as int == 'A' as int + k && LOWER[k] as int == 'a' as int + k
  {
  }

  lemma {:induction false} OnlyBlanks(s: string)
    requires Blanks(s)
    ensures NormHost(s) == ""
  {
    if s != "" { OnlyBlanks(s[1..]); }
  }

  predicate Matches(r: RouteRule, verb: string, host: string, path: string) {
    && HostMatches(r.host, host)
    && MethodMatches(r.methods, verb)
    && if r.matchType == EXACT then path == r.path else SegPrefix(path, r.path)
  }

  // ----- which of two rules is better -----

  function Set01(empty: bool): int { if empty then 0 else 1 }

  const INT_MAX: int := 0x7FFF_FFFF
  const INT_MIN: int := -0x8000_0000

  /** A 32-bit signed result, as it wraps. */
  function Wrap(x: int): int {
    var m := x % 0x1_0000_0000;
    if m > INT_MAX then m - 0x1_0000_0000 else m
  }

  /** Negative when `a` comes before `b`. */
  function Compare(a: RouteRule, b: RouteRule): int {
    var ha, hb := Set01(a.host == ""), Set01(b.host == "");
    var ma, mb := Set01(a.methods == []), Set01(b.methods == []);
    if ha != hb then hb - ha
    else if ma != mb then mb - ma
    else if a.priority != b.priority then Wrap(b.priority - a.priority)
    else Wrap(Wrap(a.insertionIdx) - Wrap(b.insertionIdx))
  }

  /** The tie-break as meant: host, method, priority, insertion order. */
  predicate TieBreak(a: RouteRule, b: RouteRule) {
    if (a.host == "") != (b.host == "") then a.host != ""
    else if (a.methods == []) != (b.methods == []) then a.methods != []
    else if a.priority != b.priority then a.priority > b.priority
    else a.insertionIdx < b.insertionIdx
  }

  predicate IsInt(x: int) { INT_MIN <= x <= INT_MAX }

  /** The comparison is the tie-break as meant exactly when the priorities are compared without
      overflow, or not at all. */
  lemma CompareIsTieBreak(a: RouteRule, b: RouteRule)
    requires IsInt(a.priority) && IsInt(b.priority) && a.insertionIdx <= INT_MAX && b.insertionIdx <= INT_MAX
    ensures (Compare(a, b) < 0 <==> TieBreak(a, b)) <==>
              || (a.host == "") != (b.host == "") || (a.methods == []) != (b.methods == [])
              || IsInt(b.priority - a.priority)
  {
  }

  /** The order of the specification: exact before prefix, then the longer path, then the
      tie-break. Exact rules that match one path all have that path. */
  predicate Better(a: RouteRule, b: RouteRule) {
    if a.matchType != b.matchType then a.matchType == EXACT
    else if |a.path| != |b.path| then |a.path| > |b.path|
    else TieBreak(a, b)
  }

  lemma BetterIsAnOrder(a: RouteRule, b: RouteRule, c: RouteRule)
    ensures !(Better(a, b) && Better(b, a))
    ensures Better(a, b) && Better(b, c) ==> Better(a, c)
    ensures a.insertionIdx != b.insertionIdx ==> Better(a, b) || Better(b, a)
  {
  }

  // ----- the table -----

  /** Each rule carries its place, and priorities can be compared. */
  ghost predicate Listed(rules: seq<RouteRule>) {
    && |rules| <= INT_MAX
    && (forall i :: 0 <= i < |rules| ==> rules[i].insertionIdx == i && IsInt(rules[i].priority))
    && (forall i, j :: 0 <= i < |rules| && 0 <= j < |rules| ==> IsInt(rules[j].priority - rules[i].priority))
  }

  /** Rule `i` is the one a request should get. */
  ghost predicate Best(rules: seq<RouteRule>, verb: string, host: string, path: string, i: nat) {
    && i < |rules| && Matches(rules[i], verb, host, path)
    && forall j :: 0 <= j < |rules| && j != i && Matches(rules[j], verb, host, path) ==> Better(rules[i], rules[j])
  }

  /** Places in the rule list, best first. */
  ghost predicate Sorted(s: seq<nat>, rules: seq<RouteRule>) {
    && (forall i :: 0 <= i < |s| ==> s[i] < |rules|)
    && (forall i, j :: 0 <= i < j < |s| ==> Better(rules[s[i]], rules[s[j]]))
  }

  ghost predicate Distinct(s: seq<nat>) {
    forall i, j :: 0 <= i < j < |s| ==> s[i] != s[j]
  }

  /** The tests by which rules are filed. */
  function ByPath(p: string): RouteRule -> bool { (r: RouteRule) => r.matchType == EXACT && r.path == p }
  function ByPrefix(): RouteRule -> bool { (r: RouteRule) => r.matchType == PREFIX }

  /** `s` holds exactly the places of the rules that pass, each once. */
  ghost predicate Holds(s: seq<nat>, rules: seq<RouteRule>, test: RouteRule -> bool) {
    && Distinct(s)
    && (forall x: nat :: x in s <==> x < |rules| && test(rules[x]))
  }

  ghost predicate ExactFiled(x: map<string, seq<nat>>, rules: seq<RouteRule>) {
    && (forall p :: p in x ==> Holds(x[p], rules, ByPath(p)))
    && (forall i :: 0 <= i < |rules| && rules[i].matchType == EXACT ==> rules[i].path in x)
  }

  lemma HoldsMore(s: seq<nat>, rules: seq<RouteRule>, test: RouteRule -> bool, r: RouteRule)
    requires Holds(s, rules, test)
    ensures Holds(if test(r) then s + [|rules|] else s, rules + [r], test)
  {
    var more := rules + [r];
    assert more[|rules|] == r && |rules| !in s;
    forall x: nat | x < |rules| ensures more[x] == rules[x] {}
    assert |rules| in s + [|rules|];
    forall x | x in s + [|rules|] ensures x in s || x == |rules| {}
  }

  /** The sort's comparator; exact rules filed together have paths of equal length. */
  predicate Less(a: RouteRule, b: RouteRule) {
    if |a.path| != |b.path| then |a.path| > |b.path| else Compare(a, b) < 0
  }

  lemma ComparatorIsBetter(rules: seq<RouteRule>, i: nat, j: nat)
    requires Listed(rules) && i < |rules| && j < |rules| && rules[i].matchType == rules[j].matchType
    ensures Less(rules[i], rules[j]) <==> Better(rules[i], rules[j])
  {
    CompareIsTieBreak(rules[i], rules[j]);
  }

  function Insert(s: seq<nat>, x: nat, rules: seq<RouteRule>): seq<nat>
    requires x < |rules| && forall i :: 0 <= i < |s| ==> s[i] < |rules|
  {
    if s == [] then [x]
    else if Less(rules[x], rules[s[0]]) then [x] + s
    else [s[0]] + Insert(s[1..], x, rules)
  }

  /** Whatever the comparator says, an insertion keeps what was there. */
  lemma {:induction false} InsertedOnce(s: seq<nat>, x: nat, rules: seq<RouteRule>)
    requires x < |rules| && (forall i :: 0 <= i < |s| ==> s[i] < |rules|) && Distinct(s) && x !in s
    ensures Distinct(Insert(s, x, rules))
    ensures forall y :: y in Insert(s, x, rules) <==> y in s || y == x
  {
    if s != [] && !Less(rules[x], rules[s[0]]) {
      InsertedOnce(s[1..], x, rules);
      assert s == [s[0]] + s[1..] && s[0] !in s[1..];
    }
  }

  lemma {:induction false} Inserted(s: seq<nat>, x: nat, rules: seq<RouteRule>)
    requires Listed(rules) && Sorted(s, rules) && x < |rules| && x !in s
    requires forall i :: 0 <= i < |s| ==> rules[s[i]].matchType == rules[x].matchType
    ensures Sorted(Insert(s, x, rules), rules)
    ensures forall y :: y in Insert(s, x, rules) <==> y in s || y == x
  {
    if s != [] {
      ComparatorIsBetter(rules, x, s[0]);
      BetterIsAnOrder(rules[x], rules[s[0]], rules[x]);
      assert s == [s[0]] + s[1..];
      if Less(rules[x], rules[s[0]]) {
        Fronted(s, x, rules);
      } else {
        Inserted(s[1..], x, rules);
        forall y | y in Insert(s[1..], x, rules) ensures y < |rules| && Better(rules[s[0]], rules[y]) {
          if y != x { HeadIsBest(s, y, rules); }
        }
        Headed(s[0], Insert(s[1..], x, rules), rules);
      }
    }
  }

  lemma Fronted(s: seq<nat>, x: nat, rules: seq<RouteRule>)
    requires Sorted(s, rules) && s != [] && x < |rules| && Better(rules[x], rules[s[0]])
    ensures Sorted([x] + s, rules)
  {
    forall j | 0 <= j < |s| ensures Better(rules[x], rules[s[j]]) {
      BetterIsAnOrder(rules[x], rules[s[0]], rules[s[j]]);
    }
  }

  lemma HeadIsBest(s: seq<nat>, y: nat, rules: seq<RouteRule>)
    requires Sorted(s, rules) && s != [] && y in s[1..]
    ensures y < |rules| && Better(rules[s[0]], rules[y])
  {
    var i :| 0 <= i < |s[1..]| && s[1..][i] == y;
    assert s[i + 1] == y;
  }

  lemma Headed(h: nat, t: seq<nat>, rules: seq<RouteRule>)
    requires Sorted(t, rules) && h < |rules|
    requires forall y :: y in t ==> y < |rules| && Better(rules[h], rules[y])
    ensures Sorted([h] + t, rules)
  {
  }

  method SortPlaces(s: seq<nat>, rules: seq<RouteRule>, ghost test: RouteRule -> bool) returns (t: seq<nat>)
    requires Holds(s, rules, test)
    requires forall a, b :: test(a) && test(b) ==> a.matchType == b.matchType
    ensures Holds(t, rules, test) && (Listed(rules) ==> Sorted(t, rules))
  {
    t := [];
    for i := 0 to |s|
      invariant Distinct(t) && forall x :: x in t <==> x in s[..i]
      invariant Listed(rules) ==> Sorted(t, rules)
    {
      assert s[..i + 1] == s[..i] + [s[i]];
      assert s[i] !in s[..i] && s[i] in s;
      forall j | 0 <= j < |t| ensures t[j] < |rules| && rules[t[j]].matchType == rules[s[i]].matchType {
        assert t[j] in s[..i];
        assert t[j] in s;
      }
      InsertedOnce(t, s[i], rules);
      if Listed(rules) { Inserted(t, s[i], rules); }
      t := Insert(t, s[i], rules);
    }
    assert s[..|s|] == s;
  }

  /** The first matching rule of a sorted list is better than every other matching one in it. */
  method FirstMatch(s: seq<nat>, rules: seq<RouteRule>, verb: string, host: string, path: string)
    returns (found: Option<nat>)
    requires Sorted(s, rules)
    ensures found.None? ==> forall x :: x in s ==> !Matches(rules[x], verb, host, path)
    ensures found.Some? ==> found.value in s && Matches(rules[found.value], verb, host, path)
    ensures found.Some? ==> forall x :: x in s && x != found.value && Matches(rules[x], verb, host, path) ==>
                                        Better(rules[found.value], rules[x])
  {
    for k := 0 to |s|
      invariant forall j :: 0 <= j < k ==> !Matches(rules[s[j]], verb, host, path)
    {
      if Matches(rules[s[k]], verb, host, path) { return Some(s[k]); }
    }
    return None;
  }

  class RouteTable {
    var rules: seq<RouteRule>
    var exactMap: map<string, seq<nat>>
    var prefixVec: seq<nat>

    /** Every rule is filed once: under its path, or among the prefixes. */
    ghost predicate Filed()
      reads this
    {
      && (forall i :: 0 <= i < |rules| ==> rules[i].insertionIdx == i)
      && ExactFiled(exactMap, rules)
      && Holds(prefixVec, rules, ByPrefix())
    }

    ghost predicate Built()
      reads this
    {
      Filed() && Sorted(prefixVec, rules) && forall p :: p in exactMap ==> Sorted(exactMap[p], rules)
    }

    constructor ()
      ensures Built() && rules == []
    {
      rules, exactMap, prefixVec := [], map[], [];
    }

    method AddRule(rule: RouteRule)
      requires Filed()
      modifies this
      ensures Filed() && rules == old(rules) + [rule.(insertionIdx := |old(rules)|)]
    {
      var r := rule.(insertionIdx := |rules|);
      var idx := |rules|;
      HoldsMore(prefixVec, rules, ByPrefix(), r);
      FileExact(exactMap, rules, r);
      rules := rules + [r];
      if r.matchType == EXACT {
        exactMap := exactMap[r.path := (if r.path in exactMap then exactMap[r.path] else []) + [idx]];
      } else {
        prefixVec := prefixVec + [idx];
      }
    }

    /** Sorts every list of the index, best first where the comparator is an order. */
    method Build()
      requires Filed()
      modifies this`exactMap, this`prefixVec
      ensures Filed() && (Listed(rules) ==> Built())
    {
      var rest := exactMap.Keys;
      while rest != {}
        invariant rest <= exactMap.Keys && ExactFiled(exactMap, rules)
        invariant Listed(rules) ==> forall p :: p in exactMap && p !in rest ==> Sorted(exactMap[p], rules)
        decreases |rest|
        modifies this`exactMap
      {
        var p :| p in rest;
        var s := SortPlaces(exactMap[p], rules, ByPath(p));
        exactMap := exactMap[p := s];
        rest := rest - {p};
      }
      prefixVec := SortPlaces(prefixVec, rules, ByPrefix());
    }

    /** The best of all rules that match, or nothing when none does. */
    method Match(verb: string, host: string, path: string) returns (found: Option<RouteRule>)
      requires Built()
      ensures IsAnswer(rules, verb, host, path, found)
    {
      var exact := if path in exactMap then exactMap[path] else [];
      var first := FirstMatch(exact, rules, verb, host, path);
      if first.Some? {
        ExactAnswer(exactMap, rules, verb, host, path, first.value);
        return Some(rules[first.value]);
      }
      var second := FirstMatch(prefixVec, rules, verb, host, path);
      NoExact(exactMap, rules, verb, host, path);
      PrefixAnswer(prefixVec, rules, verb, host, path, second);
      return if second.Some? then Some(rules[second.value]) else None;
    }
  }

  /** What a request should get from a rule list. */
  ghost predicate IsAnswer(rules: seq<RouteRule>, verb: string, host: string, path: string, found: Option<RouteRule>) {
    match found
    case None => forall i :: 0 <= i < |rules| ==> !Matches(rules[i], verb, host, path)
    case Some(r) => exists i: nat :: Best(rules, verb, host, path, i) && r == rules[i]
  }

  lemma FileExact(x: map<string, seq<nat>>, rules: seq<RouteRule>, r: RouteRule)
    requires ExactFiled(x, rules)
    ensures ExactFiled(if r.matchType == EXACT
                       then x[r.path := (if r.path in x then x[r.path] else []) + [|rules|]]
                       else x,
                       rules + [r])
  {
    var more := rules + [r];
    var y := if r.matchType == EXACT then x[r.path := (if r.path in x then x[r.path] else []) + [|rules|]] else x;
    forall p | p in y ensures Holds(y[p], more, ByPath(p)) {
      if p in x {
        HoldsMore(x[p], rules, ByPath(p), r);
      } else {
        assert Holds([], rules, ByPath(p));
        HoldsMore([], rules, ByPath(p), r);
      }
    }
    forall i | 0 <= i < |more| && more[i].matchType == EXACT ensures more[i].path in y {
      if i < |rules| { assert more[i] == rules[i]; }
    }
  }

  lemma ExactAnswer(x: map<string, seq<nat>>, rules: seq<RouteRule>, verb: string, host: string, path: string, i: nat)
    requires ExactFiled(x, rules) && path in x && i in x[path] && Matches(rules[i], verb, host, path)
    requires forall j :: j in x[path] && j != i && Matches(rules[j], verb, host, path) ==> Better(rules[i], rules[j])
    ensures IsAnswer(rules, verb, host, path, Some(rules[i]))
  {
    forall j | 0 <= j < |rules| && j != i && Matches(rules[j], verb, host, path) ensures Better(rules[i], rules[j]) {
      if rules[j].matchType == EXACT { assert j in x[path]; }
    }
    assert Best(rules, verb, host, path, i);
  }

  lemma NoExact(x: map<string, seq<nat>>, rules: seq<RouteRule>, verb: string, host: string, path: string)
    requires ExactFiled(x, rules)
    requires path in x ==> forall j :: j in x[path] ==> !Matches(rules[j], verb, host, path)
    ensures forall i :: 0 <= i < |rules| && rules[i].matchType == EXACT ==> !Matches(rules[i], verb, host, path)
  {
    forall i | 0 <= i < |rules| && rules[i].matchType == EXACT ensures !Matches(rules[i], verb, host, path) {
      if rules[i].path == path { assert i in x[path]; }
    }
  }

  lemma PrefixAnswer(v: seq<nat>, rules: seq<RouteRule>, verb: string, host: string, path: string, found: Option<nat>)
    requires Holds(v, rules, ByPrefix())
    requires forall i :: 0 <= i < |rules| && rules[i].matchType == EXACT ==> !Matches(rules[i], verb, host, path)
    requires found.None? ==> forall x :: x in v ==> !Matches(rules[x], verb, host, path)
    requires found.Some? ==> found.value in v && Matches(rules[found.value], verb, host, path)
    requires found.Some? ==> forall x :: x in v && x != found.value && Matches(rules[x], verb, host, path) ==>
                                         Better(rules[found.value], rules[x])
    ensures IsAnswer(rules, verb, host, path, if found.Some? then Some(rules[found.value]) else None)
  {
    forall j: nat | j < |rules| && Matches(rules[j], verb, host, path) ensures j in v {}
    if found.Some? { assert Best(rules, verb, host, path, found.value); }
  }

  /** A rule list gives each request one answer. */
  lemma AnswerIsUnique(rules: seq<RouteRule>, verb: string, host: string, path: string, a: Option<RouteRule>,
                       b: Option<RouteRule>)
    requires IsAnswer(rules, verb, host, path, a) && IsAnswer(rules, verb, host, path, b)
    ensures a == b
  {
    if a.Some? && b.Some? {
      var i: nat :| Best(rules, verb, host, path, i) && a.value == rules[i];
      var j: nat :| Best(rules, verb, host, path, j) && b.value == rules[j];
      if i != j { BetterIsAnOrder(rules[i], rules[j], rules[i]); }
    }
  }
}
