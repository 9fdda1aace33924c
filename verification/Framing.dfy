/** The framing decision (src/gateway/http_parse.cpp): Content-Length and Transfer-Encoding fields,
    for requests and responses (sections 6.1 and 6.3 of RFC 9112). */
module Framing {
  import opened Rules
  import opened Body

  datatype Field = Field(name: string, value: string)

  // ----- text helpers -----

  /** C strings end at the first NUL. */
  function CStr(s: string): string { Before(s, '\0') }

  function Lower(c: char): (d: char)
    ensures (exists i :: 0 <= i < 26 && c == UPPER[i] && d == LOWER[i]) || (c == d && c !in UPPER)
  {
    if 'A' <= c <= 'Z' then
      assert c == UPPER[c as int - 'A' as int];
      c - 'A' + 'a'
    else c
  }

  const UPPER := "ABCDEFGHIJKLMNOPQRSTUVWXYZ"
  const LOWER := "abcdefghijklmnopqrstuvwxyz"

  predicate SameNoCase(a: string, b: string) {
    |a| == |b| && forall i :: 0 <= i < |a| ==> Lower(a[i]) == Lower(b[i])
  }

  /** strcasecmp(s.c_str(), word) == 0 */
  predicate Is(s: string, word: string) { SameNoCase(CStr(s), word) }

  predicate IsSpace(c: char) { c == ' ' || '\t' <= c <= '\r' }

  function TrimLeft(s: string): (t: string)
    ensures |t| <= |s|
  {
    if s != "" && IsSpace(s[0]) then TrimLeft(s[1..]) else s
  }

  function TrimRight(s: string): (t: string)
    ensures |t| <= |s|
  {
    if s != "" && IsSpace(s[|s| - 1]) then TrimRight(s[..|s| - 1]) else s
  }

  function Trim(s: string): string { TrimRight(TrimLeft(s)) }

  predicate Digits(s: string) { forall i :: 0 <= i < |s| ==> '0' <= s[i] <= '9' }

  predicate AllDigits(s: string) { s != "" && Digits(s) }

  function Decimal(s: string): nat
    requires Digits(s)
  {
    if s == "" then 0 else Decimal(s[..|s| - 1]) * 10 + (s[|s| - 1] as nat - '0' as nat)
  }

  /** A length field's number: digits only, once trimmed, and within 64 bits. */
  function LengthOf(value: string): Option<nat> {
    var t := Trim(value);
    if AllDigits(t) && Decimal(t) <= UINT64_MAX then Some(Decimal(t)) else None
  }

  /** The coding a list element names. */
  function Coding(part: string): string { Trim(Before(part, ';')) }

  /** The only Transfer-Encoding value the gateway takes: one element, chunked. */
  predicate OnlyChunked(value: string) {
    ',' !in value && Coding(value) != "" && Is(Coding(value), "chunked")
  }

  // ----- the Transfer-Encoding list -----

  function FindComma(s: string, pos: nat): (r: Option<nat>)
    requires pos <= |s|
    ensures r.Some? ==> pos <= r.value < |s| && s[r.value] == ',' && forall i :: pos <= i < r.value ==> s[i] != ','
    ensures r.None? ==> forall i :: pos <= i < |s| ==> s[i] != ','
    decreases |s| - pos
  {
    if pos == |s| then None else if s[pos] == ',' then Some(pos) else FindComma(s, pos + 1)
  }

  /** Scanning the list element by element comes to this: anything but a single `chunked` is
      malformed or unsupported. */
  method ParseTe(value: string) returns (hasChunked: bool, unsupported: bool, malformed: bool)
    ensures malformed || unsupported <==> !OnlyChunked(value)
    ensures OnlyChunked(value) ==> hasChunked
  {
    hasChunked, unsupported, malformed := false, false, false;
    var pos := 0;
    while pos <= |value|
      invariant 0 <= pos <= |value|
      invariant !hasChunked && !malformed
      invariant pos > 0 ==> unsupported && ',' in value
      invariant pos == 0 ==> !unsupported
      decreases |value| - pos
    {
      var comma := FindComma(value, pos);
      var part := if comma.Some? then value[pos..comma.value] else value[pos..];
      if pos == 0 && comma.None? { assert part == value; }
      part := Coding(part);
      if part == "" {
        malformed := true;
        return;
      }
      if Is(part, "chunked") {
        hasChunked := true;
        if comma.Some? {
          malformed := true;
          return;
        }
      } else {
        unsupported := true;
      }
      if comma.None? { break; }
      pos := comma.value + 1;
    }
  }

  // ----- field by field -----

  const BAD := 1003

  datatype Seen = Seen(error: nat, hasClen: bool, clen: nat, chunked: bool)

  const NOTHING := Seen(0, false, 0, false)

  predicate IsLength(f: Field) { Is(f.name, "Content-Length") }
  predicate IsCoding(f: Field) { !IsLength(f) && Is(f.name, "Transfer-Encoding") }

  /** One field; a response also minds which of length and chunked came first. */
  function Take(s: Seen, f: Field, response: bool): Seen {
    if IsLength(f) then TakeLength(s, LengthOf(f.value), response)
    else if IsCoding(f) then TakeCoding(s, OnlyChunked(f.value), response)
    else s
  }

  function TakeLength(s: Seen, n: Option<nat>, response: bool): Seen {
    if n.None? || (s.hasClen && s.clen != n.value) || (response && s.chunked) then s.(error := BAD)
    else s.(clen := n.value, hasClen := true)
  }

  function TakeCoding(s: Seen, good: bool, response: bool): Seen {
    if !good then s.(error := BAD)
    else s.(chunked := true, error := if response && s.hasClen then BAD else s.error)
  }

  /** Accepted with a framing and a length (0 unless framed by length), or rejected. */
  datatype Decision = Reject | Accept(framing: BodyFraming, length: nat)

  function Lengthy(s: Seen): Decision {
    if s.clen > 0 then Accept(ContentLength, s.clen) else Accept(NoBody, 0)
  }

  function ReqDecision(s: Seen): Decision {
    if s.error != 0 || (s.hasClen && s.chunked) then Reject
    else if s.chunked then Accept(Chunked, 0)
    else if s.hasClen then Lengthy(s)
    else Accept(NoBody, 0)
  }

  function RespDecision(s: Seen): Decision {
    if s.error != 0 then Reject
    else if s.chunked then Accept(Chunked, 0)
    else if s.hasClen then Lengthy(s)
    else Accept(UntilClose, 0)
  }

  function TakeAll(fs: seq<Field>, response: bool): Seen {
    if fs == [] then NOTHING else Take(TakeAll(fs[..|fs| - 1], response), fs[|fs| - 1], response)
  }

  function Decide(fs: seq<Field>, response: bool): Decision {
    var s := TakeAll(fs, response);
    if response then RespDecision(s) else ReqDecision(s)
  }

  class HttpParser {
    const response: bool
    var error: nat
    var hasClen: bool
    var clen: nat
    var chunked: bool

    constructor (response: bool)
      ensures View() == NOTHING && this.response == response
    {
      this.response := response;
      error, hasClen, clen, chunked := 0, false, 0, false;
    }

    function View(): Seen
      reads this
    {
      Seen(error, hasClen, clen, chunked)
    }

    method OnHttpField(f: Field)
      modifies this
      ensures View() == Take(old(View()), f, response)
    {
      if Is(f.name, "Content-Length") {
        var n := LengthOf(f.value);
        if n.None? {
          error := BAD;
        } else if hasClen && clen != n.value {
          error := BAD;
        } else if response && chunked {
          error := BAD;
        } else {
          clen := n.value;
          hasClen := true;
        }
      } else if Is(f.name, "Transfer-Encoding") {
        var has, unsupported, malformed := ParseTe(f.value);
        if malformed || unsupported {
          error := BAD;
        } else if has {
          if response && hasClen { error := BAD; }
          chunked := true;
        }
      }
    }

    method BodyFramingOf() returns (framing: BodyFraming)
      modifies this`error
      ensures response ==> error == old(error)
      ensures error != 0 <==> if response then RespDecision(old(View())) == Reject
                              else ReqDecision(old(View())) == Reject
      ensures error == 0 && response ==> RespDecision(old(View())).framing == framing
      ensures error == 0 && !response ==> ReqDecision(old(View())).framing == framing
    {
      if !response && hasClen && chunked {
        error := BAD;
        return NoBody;
      }
      if chunked { return Chunked; }
      if hasClen { return if clen > 0 then ContentLength else NoBody; }
      return if response then UntilClose else NoBody;
    }
  }

  // ----- what the fields decide, whatever their order -----

  /** Some length field gives the number `n`. */
  ghost predicate Gives(fs: seq<Field>, n: nat) {
    exists i :: 0 <= i < |fs| && IsLength(fs[i]) && LengthOf(fs[i].value) == Some(n)
  }

  ghost predicate BadLength(fs: seq<Field>) {
    exists i :: 0 <= i < |fs| && IsLength(fs[i]) && LengthOf(fs[i].value) == None
  }

  ghost predicate TwoLengths(fs: seq<Field>) {
    exists m, n :: Gives(fs, m) && Gives(fs, n) && m != n
  }

  ghost predicate BadCoding(fs: seq<Field>) {
    exists i :: 0 <= i < |fs| && IsCoding(fs[i]) && !OnlyChunked(fs[i].value)
  }

  ghost predicate IsChunked(fs: seq<Field>) {
    exists i :: 0 <= i < |fs| && IsCoding(fs[i]) && OnlyChunked(fs[i].value)
  }

  /** The reasons to reject a message for its framing. */
  ghost predicate Ambiguous(fs: seq<Field>) {
    BadLength(fs) || TwoLengths(fs) || BadCoding(fs) || (IsChunked(fs) && exists n :: Gives(fs, n))
  }

  /** While nothing was wrong, what was seen is what the fields say; once something was, it stays. */
  ghost predicate Tracks(s: Seen, fs: seq<Field>, strict: bool) {
    && (s.error == 0 <==> !BadLength(fs) && !TwoLengths(fs) && !BadCoding(fs)
                          && !(strict && IsChunked(fs) && exists n :: Gives(fs, n)))
    && (s.error == 0 ==> (s.hasClen <==> exists n :: Gives(fs, n)) && (s.hasClen ==> Gives(fs, s.clen)))
    && (s.error == 0 ==> (s.chunked <==> IsChunked(fs)))
  }

  lemma Snoc(fs: seq<Field>, f: Field)
    ensures var gs := fs + [f];
            && (forall n: nat :: Gives(gs, n) <==> Gives(fs, n) || (IsLength(f) && LengthOf(f.value) == Some(n)))
            && (BadLength(gs) <==> BadLength(fs) || (IsLength(f) && LengthOf(f.value) == None))
            && (BadCoding(gs) <==> BadCoding(fs) || (IsCoding(f) && !OnlyChunked(f.value)))
            && (IsChunked(gs) <==> IsChunked(fs) || (IsCoding(f) && OnlyChunked(f.value)))
  {
    var gs := fs + [f];
    assert gs[|fs|] == f;
    forall i | 0 <= i < |fs| ensures gs[i] == fs[i] {}
  }

  lemma TwoSnoc(fs: seq<Field>, f: Field)
    ensures TwoLengths(fs + [f]) <==>
              TwoLengths(fs) || (IsLength(f) && LengthOf(f.value).Some?
                                 && exists n :: Gives(fs, n) && n != LengthOf(f.value).value)
  {
    Snoc(fs, f);
  }

  lemma LengthStep(s: Seen, fs: seq<Field>, f: Field, response: bool)
    requires Tracks(s, fs, response) && IsLength(f)
    ensures Tracks(Take(s, f, response), fs + [f], response)
  {
    Snoc(fs, f);
    TwoSnoc(fs, f);
    if s.error == 0 && s.hasClen && LengthOf(f.value).Some? {
      OneLength(fs, s.clen, LengthOf(f.value).value);
    }
  }

  lemma CodingStep(s: Seen, fs: seq<Field>, f: Field, response: bool)
    requires Tracks(s, fs, response) && !IsLength(f)
    ensures Tracks(Take(s, f, response), fs + [f], response)
  {
    Snoc(fs, f);
    TwoSnoc(fs, f);
  }

  /** With one length so far, a new one differs from some earlier one exactly if from that one. */
  lemma OneLength(fs: seq<Field>, n: nat, m: nat)
    requires Gives(fs, n) && !TwoLengths(fs)
    ensures (exists k :: Gives(fs, k) && k != m) <==> n != m
  {
  }

  lemma {:induction false} AllTracked(fs: seq<Field>, response: bool)
    ensures Tracks(TakeAll(fs, response), fs, response)
  {
    if fs != [] {
      var init, last := fs[..|fs| - 1], fs[|fs| - 1];
      AllTracked(init, response);
      assert fs == init + [last];
      if IsLength(last) {
        LengthStep(TakeAll(init, response), init, last, response);
      } else {
        CodingStep(TakeAll(init, response), init, last, response);
      }
    }
  }

  /** What an acceptable list of fields asks for. */
  ghost predicate Asks(fs: seq<Field>, d: Decision, otherwise: BodyFraming) {
    if IsChunked(fs) then d == Accept(Chunked, 0)
    else if n :| Gives(fs, n) then d == if n > 0 then Accept(ContentLength, n) else Accept(NoBody, 0)
    else d == Accept(otherwise, 0)
  }

  /** A message is rejected for its framing exactly when a length is invalid, two lengths differ, a
      coding is anything but a single chunked, or length and chunked come together; otherwise its
      framing and length are what the fields ask for. The same for requests and responses. */
  lemma DecisionsAreThese(fs: seq<Field>, response: bool)
    ensures Decide(fs, response) == Reject <==> Ambiguous(fs)
    ensures !Ambiguous(fs) ==> Asks(fs, Decide(fs, response), if response then UntilClose else NoBody)
  {
    AllTracked(fs, response);
  }

  ghost predicate SameFields(xs: seq<Field>, ys: seq<Field>) {
    forall f :: f in xs <==> f in ys
  }

  lemma SameMeaning(xs: seq<Field>, ys: seq<Field>)
    requires SameFields(xs, ys)
    ensures forall n :: Gives(xs, n) ==> Gives(ys, n)
    ensures BadLength(xs) ==> BadLength(ys)
    ensures BadCoding(xs) ==> BadCoding(ys)
    ensures IsChunked(xs) ==> IsChunked(ys)
  {
    forall i | 0 <= i < |xs| ensures exists j :: 0 <= j < |ys| && ys[j] == xs[i] {
      assert xs[i] in ys;
    }
  }

  /** Acceptance, framing and length do not depend on the order of the fields, nor on repeats. */
  lemma OrderDoesNotMatter(xs: seq<Field>, ys: seq<Field>, response: bool)
    requires multiset(xs) == multiset(ys) || SameFields(xs, ys)
    ensures Decide(xs, response) == Decide(ys, response)
  {
    forall f ensures f in xs <==> f in ys {
      assert f in xs <==> f in multiset(xs);
      assert f in ys <==> f in multiset(ys);
    }
    SameMeaning(xs, ys);
    SameMeaning(ys, xs);
    DecisionsAreThese(xs, response);
    DecisionsAreThese(ys, response);
  }

  // ----- what the values say -----

  predicate Blank(s: string) { forall c :: c in s ==> c in " \t\n\U{000B}\U{000C}\r" }

  lemma {:induction false} TrimLeftIs(pre: string, rest: string)
    requires Blank(pre) && (rest == "" || !IsSpace(rest[0]))
    ensures TrimLeft(pre + rest) == rest
  {
    if pre != "" {
      assert (pre + rest)[1..] == pre[1..] + rest && pre[0] in pre;
      TrimLeftIs(pre[1..], rest);
    } else {
      assert pre + rest == rest;
    }
  }

  lemma {:induction false} TrimRightIs(rest: string, post: string)
    requires Blank(post) && (rest == "" || !IsSpace(rest[|rest| - 1]))
    ensures TrimRight(rest + post) == rest
    decreases |post|
  {
    if post != "" {
      var s := rest + post;
      assert s[..|s| - 1] == rest + post[..|post| - 1] && post[|post| - 1] in post;
      TrimRightIs(rest, post[..|post| - 1]);
    } else {
      assert rest + post == rest;
    }
  }

  lemma {:induction false} TrimLeftCuts(s: string) returns (pre: string)
    ensures Blank(pre) && s == pre + TrimLeft(s) && (TrimLeft(s) == "" || !IsSpace(TrimLeft(s)[0]))
  {
    if s != "" && IsSpace(s[0]) {
      var more := TrimLeftCuts(s[1..]);
      pre := [s[0]] + more;
    } else {
      pre := "";
    }
  }

  lemma {:induction false} TrimRightCuts(s: string) returns (post: string)
    ensures Blank(post) && s == TrimRight(s) + post
    ensures TrimRight(s) == "" || !IsSpace(TrimRight(s)[|TrimRight(s)| - 1])
    decreases |s|
  {
    if s != "" && IsSpace(s[|s| - 1]) {
      var more := TrimRightCuts(s[..|s| - 1]);
      post := more + [s[|s| - 1]];
    } else {
      post := "";
    }
  }

  /** `core` without the blanks on either side. */
  ghost predicate Framed(s: string, pre: string, core: string, post: string) {
    && s == pre + core + post && Blank(pre) && Blank(post)
    && (core != "" ==> !IsSpace(core[0]) && !IsSpace(core[|core| - 1]))
  }

  lemma TrimCuts(s: string) returns (pre: string, post: string)
    ensures Framed(s, pre, Trim(s), post)
  {
    var left := TrimLeft(s);
    pre := TrimLeftCuts(s);
    post := TrimRightCuts(left);
    Assoc(pre, TrimRight(left), post);
    if TrimRight(left) != "" { assert (TrimRight(left) + post)[0] == TrimRight(left)[0]; }
  }

  lemma Assoc(a: string, b: string, c: string)
    ensures a + (b + c) == a + b + c
  {
  }

  /** Trimming leaves what stands between blanks, and nothing else is so. */
  lemma TrimIs(s: string, core: string)
    ensures Trim(s) == core <==> exists pre, post :: Framed(s, pre, core, post)
  {
    var pre, post := TrimCuts(s);
    if p, q :| Framed(s, p, core, q) { FramedIsTrimmed(s, p, core, q); }
  }

  lemma FramedIsTrimmed(s: string, pre: string, core: string, post: string)
    requires Framed(s, pre, core, post)
    ensures Trim(s) == core
  {
    assert s == pre + (core + post);
    if core != "" {
      TrimLeftIs(pre, core + post);
      TrimRightIs(core, post);
    } else {
      AllBlank(pre + post);
      assert s == pre + post;
    }
  }

  lemma {:induction false} AllBlank(s: string)
    requires Blank(s)
    ensures TrimLeft(s) == ""
  {
    if s != "" {
      assert s[0] in s;
      AllBlank(s[1..]);
    }
  }

  /** A number as it is written. */
  function DecText(n: nat): string {
    if n < 10 then ["0123456789"[n]] else DecText(n / 10) + ["0123456789"[n % 10]]
  }

  lemma {:induction false} DecimalSnoc(init: string, d: nat)
    requires Digits(init) && d < 10
    ensures Digits(init + ["0123456789"[d]])
    ensures Decimal(init + ["0123456789"[d]]) == Decimal(init) * 10 + d
  {
    var s := init + ["0123456789"[d]];
    assert s[..|s| - 1] == init;
  }

  lemma {:induction false} DecimalOf(z: nat, n: nat)
    ensures Digits(Zeros(z) + DecText(n)) && Decimal(Zeros(z) + DecText(n)) == n
    decreases n + z
  {
    if n >= 10 {
      DecimalOf(z, n / 10);
      DecimalSnoc(Zeros(z) + DecText(n / 10), n % 10);
      assert Zeros(z) + DecText(n) == Zeros(z) + DecText(n / 10) + ["0123456789"[n % 10]];
    } else if z > 0 {
      DecimalOf(z - 1, 0);
      DecimalSnoc(Zeros(z - 1) + DecText(0), n);
      assert Zeros(z) + DecText(n) == Zeros(z - 1) + DecText(0) + ["0123456789"[n]];
    } else {
      DecimalSnoc("", n);
      assert Zeros(z) + DecText(n) == "" + ["0123456789"[n]];
    }
  }

  lemma {:induction false} DigitsWrite(s: string) returns (z: nat)
    requires AllDigits(s)
    ensures s == Zeros(z) + DecText(Decimal(s))
  {
    var init := s[..|s| - 1];
    var d := LastDigit(s);
    DecimalSnoc(init, d);
    if init == "" {
      z := 0;
      OneDigit(d);
    } else {
      var y := DigitsWrite(init);
      z := DigitWritten(init, y, d);
    }
  }

  lemma {:induction false} LastDigit(s: string) returns (d: nat)
    requires AllDigits(s)
    ensures d < 10 && s == s[..|s| - 1] + ["0123456789"[d]] && Digits(s[..|s| - 1])
  {
    d := s[|s| - 1] as nat - '0' as nat;
    assert "0123456789"[d] == s[|s| - 1];
  }

  lemma {:induction false} OneDigit(d: nat)
    requires d < 10
    ensures "" + ["0123456789"[d]] == Zeros(0) + DecText(d)
  {
  }

  lemma {:induction false} DigitWritten(init: string, z: nat, d: nat) returns (y: nat)
    requires Digits(init) && init == Zeros(z) + DecText(Decimal(init)) && d < 10
    ensures init + ["0123456789"[d]] == Zeros(y) + DecText(Decimal(init) * 10 + d)
  {
    var n := Decimal(init);
    if n == 0 {
      y := z + 1;
    } else {
      y := z;
      assert (n * 10 + d) / 10 == n && (n * 10 + d) % 10 == d;
    }
  }

  /** A length field gives `n` exactly when its value is the decimal text of `n`, of 64 bits, behind
      any zeros and between blanks. */
  lemma LengthIff(value: string, n: nat)
    ensures LengthOf(value) == Some(n) <==>
              n <= UINT64_MAX && exists pre, z: nat, post :: Framed(value, pre, Zeros(z) + DecText(n), post)
  {
    var t := Trim(value);
    TrimIs(value, t);
    if AllDigits(t) && Decimal(t) == n {
      var z := DigitsWrite(t);
      assert t == Zeros(z) + DecText(n);
    }
    if pre, z: nat, post :| Framed(value, pre, Zeros(z) + DecText(n), post) {
      FramedIsTrimmed(value, pre, Zeros(z) + DecText(n), post);
      DecimalOf(z, n);
    }
  }

  /** `chunked`, each letter in either case. */
  predicate SpellsChunked(w: string) {
    |w| == 7 && forall i :: 0 <= i < 7 ==> w[i] == "chunked"[i] || w[i] == "CHUNKED"[i]
  }

  // ----- the coding and NUL -----

  /** The test as meant: one element, whose whole text is `chunked` whatever its case. */
  predicate WhollyChunked(value: string) {
    ',' !in value && SameNoCase(Coding(value), "chunked")
  }

  /** The text between blanks, up to an extension, is `chunked` in any case. */
  ghost predicate ChunkedThen(v: string, pre: string, w: string, post: string, ext: string) {
    && v == pre + w + post + ext && Framed(pre + w + post, pre, w, post) && SpellsChunked(w)
    && (ext == "" || ext[0] == ';')
  }

  lemma ChunkedLetters(w: string)
    ensures SameNoCase(w, "chunked") <==> SpellsChunked(w)
  {
    if |w| == 7 {
      forall i | 0 <= i < 7
          ensures Lower(w[i]) == Lower("chunked"[i]) <==> w[i] == "chunked"[i] || w[i] == "CHUNKED"[i] {
      }
    }
  }

  lemma {:induction false} BeforeIs(s: string, c: char, p: string, rest: string)
    requires s == p + rest && c !in p && (rest == "" || rest[0] == c)
    ensures Before(s, c) == p
  {
    if p != "" {
      assert s[0] == p[0] && p[0] in p && s[1..] == p[1..] + rest;
      BeforeIs(s[1..], c, p[1..], rest);
    }
  }

  lemma ChunkedSpelled(v: string)
    requires WhollyChunked(v)
    ensures exists pre, w, post, ext :: ChunkedThen(v, pre, w, post, ext)
  {
    var element := Before(v, ';');
    var pre, post := TrimCuts(element);
    ChunkedLetters(Trim(element));
    assert v == element + v[|element|..];
    assert ChunkedThen(v, pre, Trim(element), post, v[|element|..]);
  }

  lemma SpelledIsChunked(v: string, pre: string, w: string, post: string, ext: string)
    requires ',' !in v && ChunkedThen(v, pre, w, post, ext)
    ensures WhollyChunked(v)
  {
    NoSemicolon(pre, w, post);
    BeforeIs(v, ';', pre + w + post, ext);
    FramedIsTrimmed(pre + w + post, pre, w, post);
    ChunkedLetters(w);
  }

  /** The test as meant takes exactly the values that spell `chunked`, each letter in either case,
      between blanks, with nothing behind it but a parameter, and no second element. */
  lemma WhollyChunkedIff(v: string)
    ensures WhollyChunked(v) <==> ',' !in v && exists pre, w, post, ext :: ChunkedThen(v, pre, w, post, ext)
  {
    if WhollyChunked(v) { ChunkedSpelled(v); }
    if ',' !in v {
      forall pre, w, post, ext | ChunkedThen(v, pre, w, post, ext) ensures WhollyChunked(v) {
        SpelledIsChunked(v, pre, w, post, ext);
      }
    }
  }

  lemma NoSemicolon(pre: string, w: string, post: string)
    requires Blank(pre) && Blank(post) && SpellsChunked(w)
    ensures ';' !in pre + w + post
  {
    assert ';' !in pre && ';' !in post;
    forall i | 0 <= i < |w| ensures w[i] != ';' {
      assert w[i] == "chunked"[i] || w[i] == "CHUNKED"[i];
    }
  }

  lemma {:induction false} CStrWithoutNul(s: string)
    ensures '\0' !in s <==> CStr(s) == s
  {
    if '\0' !in s { BeforeAbsent(s, '\0'); }
  }

  lemma {:induction false} TrimmedFromText(s: string, c: char)
    ensures c in TrimLeft(s) ==> c in s
    ensures c in TrimRight(s) ==> c in s
    decreases |s|
  {
    if s != "" && IsSpace(s[0]) { TrimmedFromText(s[1..], c); }
    if s != "" && IsSpace(s[|s| - 1]) { TrimmedFromText(s[..|s| - 1], c); }
  }

  lemma ChunkedHasNoNul(c: string)
    ensures SameNoCase(c, "chunked") ==> '\0' !in c
  {
    if SameNoCase(c, "chunked") {
      forall i | 0 <= i < |c| ensures c[i] != '\0' {
        assert Lower(c[i]) == Lower("chunked"[i]);
      }
    }
  }

  /** The code's test and the test as meant differ exactly on a single element that names `chunked`
      up to a NUL and goes on behind it. */
  lemma OnlyANulDiffers(v: string)
    ensures OnlyChunked(v) != WhollyChunked(v) <==> ',' !in v && '\0' in Coding(v) && Is(Coding(v), "chunked")
    ensures WhollyChunked(v) ==> OnlyChunked(v)
    ensures '\0' !in v ==> OnlyChunked(v) == WhollyChunked(v)
  {
    var c := Coding(v);
    CStrWithoutNul(c);
    ChunkedHasNoNul(c);
    if '\0' in c {
      TrimmedFromText(TrimLeft(Before(v, ';')), '\0');
      TrimmedFromText(Before(v, ';'), '\0');
    }
  }

  /** The characters a request's field value can hold: no controls, except those of folded lines
      (src/gateway/include/gw_parser/http11_parser.rl). */
  predicate RequestText(v: string) {
    forall i :: 0 <= i < |v| ==> (v[i] >= ' ' && v[i] != 127 as char) || v[i] == '\t' || v[i] == '\r' || v[i] == '\n'
  }

  /** So for requests the two tests agree; only a response can tell them apart. */
  lemma RequestsAreStrict(v: string)
    requires RequestText(v)
    ensures OnlyChunked(v) == WhollyChunked(v)
  {
    OnlyANulDiffers(v);
  }

  /** Such a response: `chunked`, a NUL and anything in one element that has no blank at its end. */
  lemma AfterANul(x: string)
    requires x != "" && !IsSpace(x[|x| - 1]) && ',' !in x && ';' !in x
    ensures OnlyChunked("chunked\0" + x) && !WhollyChunked("chunked\0" + x)
  {
    var w := "chunked\0" + x;
    BeforeAbsent(w, ';');
    assert w[0] == 'c';
    assert TrimLeft(w) == w && TrimRight(w) == w;
    NulCut("chunked", x);
    assert w == "chunked" + "\0" + x;
    assert |w| != |"chunked"|;
  }

  lemma {:induction false} NulCut(a: string, b: string)
    requires '\0' !in a
    ensures CStr(a + "\0" + b) == a
  {
    var v := a + "\0" + b;
    if a == "" {
      assert v[0] == '\0';
    } else {
      NulCut(a[1..], b);
      assert v[1..] == a[1..] + "\0" + b;
    }
  }
}
