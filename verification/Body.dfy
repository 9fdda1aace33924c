/** Streaming bodies (src/gateway/body.cpp): the encoder, what a chunked byte stream decodes to,
    and the reader that decodes it piece by piece from a buffer over a socket. */
module Body {
  import opened Rules
  import opened Buf

  datatype BodyFraming = NoBody | ContentLength | Chunked | UntilClose

  datatype BodyErr = NoError | Io | Malformed | TooLarge

  const CRLF := "\r\n"
  const LINE_LIMIT: nat := 8192
  const TRAILER_LIMIT: nat := 32

  // ----- encoding -----

  predicate IsHex(c: char) { '0' <= c <= '9' || 'a' <= c <= 'f' || 'A' <= c <= 'F' }

  function HexDigit(d: nat): (c: char)
    requires d < 16
    ensures IsHex(c) && DigitValue(c) == d && c == "0123456789abcdef"[d]
  {
    if d < 10 then '0' + d as char else 'a' + (d - 10) as char
  }

  function DigitValue(c: char): (d: nat)
    requires IsHex(c)
    ensures d < 16
  {
    if c <= '9' then c as int - '0' as int
    else if c <= 'F' then c as int - 'A' as int + 10
    else c as int - 'a' as int + 10
  }

  predicate AllHex(s: string) { forall i :: 0 <= i < |s| ==> IsHex(s[i]) }

  /** The number as `%zx` prints it. */
  function HexText(n: nat): (s: string)
    ensures s != "" && AllHex(s)
  {
    if n < 16 then [HexDigit(n)] else HexText(n / 16) + [HexDigit(n % 16)]
  }

  function HexValue(s: string): nat
    requires AllHex(s)
  {
    if s == "" then 0 else HexValue(s[..|s| - 1]) * 16 + DigitValue(s[|s| - 1])
  }

  function EncodeChunk(framing: BodyFraming, data: string): string {
    if framing.Chunked? then HexText(|data|) + CRLF + data + CRLF else data
  }

  function EncodeEnd(framing: BodyFraming): string {
    if framing.Chunked? then "0\r\n\r\n" else ""
  }

  // ----- what a chunked stream decodes to -----

  predicate CrlfAt(s: string, k: nat) {
    k + 1 < |s| && s[k] == '\r' && s[k + 1] == '\n'
  }

  ghost predicate FirstCrlf(s: string, i: nat) {
    CrlfAt(s, i) && forall k :: 0 <= k < i ==> !CrlfAt(s, k)
  }

  function CrlfFrom(s: string, i: nat): (r: Option<nat>)
    ensures r.Some? ==> i <= r.value && CrlfAt(s, r.value) && forall k :: i <= k < r.value ==> !CrlfAt(s, k)
    ensures r.None? ==> forall k :: i <= k ==> !CrlfAt(s, k)
    decreases |s| - i
  {
    if i + 1 >= |s| then None else if CrlfAt(s, i) then Some(i) else CrlfFrom(s, i + 1)
  }

  function Crlf(s: string): (r: Option<nat>)
    ensures r.Some? ==> FirstCrlf(s, r.value)
    ensures r.None? ==> forall k :: !CrlfAt(s, k)
  {
    CrlfFrom(s, 0)
  }

  datatype Line = Line(text: string, rest: string) | Long(text: string, rest: string) | NoLine(error: BodyErr)

  /** The next line. One whose end lies more than a byte past the limit is read or given up, and
      which of the two depends on how the bytes arrive (LineIsFixedIff). */
  ghost function NextLine(s: string): Line {
    match Crlf(s)
    case Some(i) => if i + 2 <= LINE_LIMIT + 1 then Line(s[..i], s[i + 2..]) else Long(s[..i], s[i + 2..])
    case None => NoLine(if |s| > LINE_LIMIT then Malformed else Io)
  }

  datatype Took = Took(text: string, rest: string, longs: nat) | Refused(error: BodyErr, gaveUp: bool)

  /** The next line for a reader that reads `longs` more over-long lines and gives up at the one after. */
  ghost function LineWith(s: string, longs: nat): Took {
    match NextLine(s)
    case Line(text, rest) => Took(text, rest, longs)
    case Long(text, rest) => if longs > 0 then Took(text, rest, longs - 1) else Refused(Malformed, true)
    case NoLine(e) => Refused(e, false)
  }

  function Zeros(k: nat): (s: string)
    ensures |s| == k && forall i :: 0 <= i < k ==> s[i] == '0'
  {
    seq(k, _ => '0')
  }

  function Before(s: string, c: char): (p: string)
    ensures c !in p && p <= s && (p != s ==> s[|p|] == c)
  {
    if s == "" || s[0] == c then "" else [s[0]] + Before(s[1..], c)
  }

  /** The bytes delivered, the last count and the error told, the bytes left unread, and whether it
      ended by giving up an over-long line. */
  datatype Outcome = Outcome(data: string, ret: int, error: BodyErr, rest: string, gaveUp: bool)

  function Prepend(data: string, o: Outcome): Outcome {
    o.(data := data + o.data)
  }

  ghost function Trailers(s: string, lines: nat, longs: nat): Outcome
    decreases |s|
  {
    match LineWith(s, longs)
    case Refused(e, gaveUp) => Outcome("", 0, e, s, gaveUp)
    case Took(text, rest, more) =>
      if text == "" then Outcome("", 0, NoError, rest, false)
      else if lines + 1 > TRAILER_LIMIT then Outcome("", -1, Malformed, rest, false)
      else Trailers(rest, lines + 1, more)
  }

  /** A chunk's size, from its size line: hex digits up to an extension, within 64 bits. */
  function SizeOf(text: string): Option<nat> {
    var hex := Before(text, ';');
    if hex == "" || !AllHex(hex) || HexValue(hex) > UINT64_MAX then None else Some(HexValue(hex))
  }

  /** The chunks up to the line of size zero, or where decoding stops before it. */
  datatype Walk = Stopped(o: Outcome) | AtTrailer(data: string, rest: string, longs: nat)

  function Onto(data: string, w: Walk): Walk {
    match w
    case Stopped(o) => Stopped(Prepend(data, o))
    case AtTrailer(d, rest, longs) => AtTrailer(data + d, rest, longs)
  }

  /** Decoding `s` with `left` bytes of the current chunk to come, when `total` of at most `max`
      body bytes were announced so far. */
  ghost function Chunks(left: nat, total: nat, max: nat, s: string, longs: nat): Walk
    decreases |s|, left == 0
  {
    if left > 0 then
      if |s| < left then Stopped(Outcome(s, -1, Io, "", false))
      else AfterData(s[..left], total, max, s[left..], longs)
    else
      match LineWith(s, longs)
      case Refused(e, gaveUp) => Stopped(Outcome("", -1, e, s, gaveUp))
      case Took(text, rest, more) =>
        match SizeOf(text)
        case None => Stopped(Outcome("", -1, Malformed, rest, false))
        case Some(size) =>
          if size == 0 then AtTrailer("", rest, more)
          else if size > max || total > max - size then Stopped(Outcome("", -1, TooLarge, rest, false))
          else Chunks(size, total + size, max, rest, more)
  }

  /** A chunk's data is delivered before the line end behind it is looked at. */
  ghost function AfterData(data: string, total: nat, max: nat, s: string, longs: nat): Walk
    decreases |s|, true, 0
  {
    if |s| < 2 then Stopped(Outcome(data, -1, Io, s, false))
    else if s[0] != '\r' || s[1] != '\n' then Stopped(Outcome(data, -1, Malformed, s, false))
    else Onto(data, Chunks(0, total, max, s[2..], longs))
  }

  ghost function Finish(w: Walk): Outcome {
    match w
    case Stopped(o) => o
    case AtTrailer(data, rest, longs) => Prepend(data, Trailers(rest, 0, longs))
  }

  /** Where decoding stands: bytes of the chunk to come, bytes announced, and what is unread. */
  datatype Pos = Pos(left: nat, total: nat, unread: string)

  ghost function WalkFrom(at: Pos, max: nat, longs: nat): Walk {
    Chunks(at.left, at.total, max, at.unread, longs)
  }

  /** What the whole stream decodes to, for a reader that gives up at over-long line number `longs`. */
  ghost function Decode(at: Pos, max: nat, longs: nat): Outcome {
    Finish(WalkFrom(at, max, longs))
  }

  lemma FinishOnto(data: string, w: Walk)
    ensures Finish(Onto(data, w)) == Prepend(data, Finish(w))
  {
    if w.AtTrailer? {
      var t := Trailers(w.rest, 0, w.longs);
      assert (data + w.data) + t.data == data + (w.data + t.data);
    }
  }

  // ----- how lines depend on arrival -----

  /** Reading a line of `all` when `have` bytes are buffered and the rest arrives in these cuts: the
      buffer is searched, then its length is looked at, then it is filled once more. */
  ghost function ReadsLine(all: string, have: nat, cuts: seq<nat>): Line
    requires have <= |all|
    decreases |all| - have
  {
    match Crlf(all[..have])
    case Some(i) => Line(all[..i], all[i + 2..])
    case None =>
      if have > LINE_LIMIT then NoLine(Malformed)
      else if have == |all| then NoLine(Io)
      else ReadsLine(all, have + Piece(|all| - have, cuts, FILL), Later(cuts))
  }

  /** A line read under that arrival is this one. */
  ghost predicate ArrivesAs(all: string, have: nat, cuts: seq<nat>, line: Line) {
    have <= |all| && forall p: nat {:trigger Longs(p)} :: Longs(p) ==> ReadsLine(all, have, cuts) == line
  }

  /** Once more bytes have arrived, reading goes on as it would have. */
  ghost predicate SameArrival(all: string, have: nat, cuts: seq<nat>, have': nat, cuts': seq<nat>) {
    && have <= |all| && have' <= |all|
    && forall p: nat {:trigger Longs(p)} :: Longs(p) ==> ReadsLine(all, have, cuts) == ReadsLine(all, have', cuts')
  }

  /** No line ends among these bytes. */
  ghost predicate NoEndIn(c: string) {
    forall k :: !CrlfAt(c, k)
  }

  lemma LineFoundAt(c: string, more: string, i: nat, now: seq<nat>, have: nat, cuts: seq<nat>) returns (longs: nat)
    requires FirstCrlf(c, i) && SameArrival(c + more, |c|, now, have, cuts)
    ensures LineRead(c + more, true, c[..i], NoError, (c + more)[i + 2..], longs)
    ensures ArrivesAs(c + more, have, cuts, Line(c[..i], (c + more)[i + 2..]))
  {
    LineFound(c, more, i);
    longs := if i + 2 <= LINE_LIMIT + 1 then 0 else 1;
    assert (c + more)[..|c|] == c && Longs(0);
    FirstIsUnique(c, i, Crlf(c).value);
  }

  /** No line end among the buffered bytes: given up, at the end, or to be looked at again. */
  lemma GivenUpHere(c: string, more: string, now: seq<nat>, have: nat, cuts: seq<nat>)
    requires NoEndIn(c) && SameArrival(c + more, |c|, now, have, cuts) && |c| > LINE_LIMIT
    ensures LineRead(c + more, false, "", Malformed, c + more, 0) && ArrivesAs(c + more, have, cuts, NoLine(Malformed))
  {
    assert (c + more)[..|c|] == c && Longs(0);
    LineTooLong(c, more);
  }

  lemma EndsHere(c: string, now: seq<nat>, have: nat, cuts: seq<nat>)
    requires NoEndIn(c) && SameArrival(c, |c|, now, have, cuts) && |c| <= LINE_LIMIT
    ensures LineRead(c, false, "", Io, c, 0) && ArrivesAs(c, have, cuts, NoLine(Io))
  {
    assert c[..|c|] == c && Longs(0);
    LineCut(c);
  }

  lemma LooksAgain(c: string, more: string, now: seq<nat>, have: nat, cuts: seq<nat>)
    requires NoEndIn(c) && SameArrival(c + more, |c|, now, have, cuts)
    requires |c| <= LINE_LIMIT && more != ""
    ensures SameArrival(c + more, |c| + Piece(|more|, now, FILL), Later(now), have, cuts)
  {
    assert (c + more)[..|c|] == c && Longs(0);
  }

  /** The same, when so much has arrived and so many cuts are left. */
  lemma MoreArrived(all: string, size: nat, now: seq<nat>, have: nat, cuts: seq<nat>, size': nat, now': seq<nat>)
    requires size < |all| && NoEndIn(all[..size]) && SameArrival(all, size, now, have, cuts) && size <= LINE_LIMIT
    requires size' == size + Piece(|all| - size, now, FILL) && now' == Later(now)
    ensures SameArrival(all, size', now', have, cuts)
  {
    assert all == all[..size] + all[size..];
    LooksAgain(all[..size], all[size..], now, have, cuts);
  }

  /** One or the other for an over-long line, and fixed by the bytes for any other. */
  ghost predicate May(line: Line, got: Line) {
    match line
    case Long(text, rest) => got == Line(text, rest) || got == NoLine(Malformed)
    case _ => got == line
  }

  lemma ReadsLineNow(all: string, have: nat, cuts: seq<nat>)
    requires have <= |all| && (Crlf(all[..have]).Some? || have > LINE_LIMIT || have == |all|)
    ensures May(NextLine(all), ReadsLine(all, have, cuts))
  {
    var c, more := all[..have], all[have..];
    assert all == c + more;
    var i := Crlf(c);
    if i.Some? {
      LineFound(c, more, i.value);
    } else if have > LINE_LIMIT {
      LineTooLong(c, more);
    } else {
      assert c == all;
      LineCut(all);
    }
  }

  lemma {:induction false} ReadsLineMay(all: string, have: nat, cuts: seq<nat>)
    requires have <= |all|
    ensures May(NextLine(all), ReadsLine(all, have, cuts))
    decreases |all| - have
  {
    if Crlf(all[..have]).Some? || have > LINE_LIMIT || have == |all| {
      ReadsLineNow(all, have, cuts);
    } else {
      ReadsLineMay(all, have + Piece(|all| - have, cuts, FILL), Later(cuts));
    }
  }

  /** How a line is read is the same for every split between buffer and socket and every
      fragmentation, exactly when its end does not lie more than a byte past the limit. */
  lemma LineIsFixedIff(all: string)
    ensures (forall have, cuts :: 0 <= have <= |all| ==> ReadsLine(all, have, cuts) == ReadsLine(all, |all|, []))
            <==> !NextLine(all).Long?
  {
    if NextLine(all).Long? {
      LongDepends(all);
      var have := LINE_LIMIT + 1;
      assert 0 <= have <= |all| && ReadsLine(all, have, []) != ReadsLine(all, |all|, []);
    } else {
      forall have, cuts | 0 <= have <= |all| ensures ReadsLine(all, have, cuts) == ReadsLine(all, |all|, []) {
        ReadsLineMay(all, have, cuts);
        ReadsLineMay(all, |all|, []);
      }
    }
  }

  /** An over-long line is read when it is all there, and given up when only a little too much is. */
  lemma LongDepends(all: string)
    requires NextLine(all).Long?
    ensures LINE_LIMIT + 1 <= |all|
    ensures ReadsLine(all, LINE_LIMIT + 1, []) == NoLine(Malformed) && ReadsLine(all, |all|, []).Line?
  {
    var have, i := LINE_LIMIT + 1, Crlf(all).value;
    assert all[..|all|] == all;
    forall k ensures !CrlfAt(all[..have], k) {
      if CrlfAt(all[..have], k) { assert CrlfAt(all, k); }
    }
  }

  // ----- the reader -----

  lemma CrlfInPrefix(c: string, more: string, i: nat)
    requires FirstCrlf(c, i)
    ensures Crlf(c + more) == Some(i)
  {
    var s := c + more;
    assert forall k :: 0 <= k <= i ==> (CrlfAt(c, k) <==> CrlfAt(s, k));
    assert FirstCrlf(s, i);
    FirstIsUnique(s, i, Crlf(s).value);
  }

  lemma FirstIsUnique(s: string, i: nat, j: nat)
    requires FirstCrlf(s, i) && FirstCrlf(s, j)
    ensures i == j
  {
  }

  lemma LineFound(c: string, more: string, i: nat)
    requires FirstCrlf(c, i)
    ensures var all := c + more;
            NextLine(all) == if i + 2 <= LINE_LIMIT + 1 then Line(c[..i], all[i + 2..]) else Long(c[..i], all[i + 2..])
    ensures (c + more)[i + 2..] == c[i + 2..] + more && (c + more)[..i] == c[..i]
  {
    CrlfInPrefix(c, more, i);
    assert (c + more)[..i] == c[..i];
  }

  lemma LineTooLong(c: string, more: string)
    requires |c| > LINE_LIMIT && forall k :: !CrlfAt(c, k)
    ensures NextLine(c + more).Long? || NextLine(c + more) == NoLine(Malformed)
  {
    var r := Crlf(c + more);
    if r.Some? { assert !CrlfAt(c, r.value); }
  }

  lemma LineCut(c: string)
    requires |c| <= LINE_LIMIT && forall k :: !CrlfAt(c, k)
    ensures NextLine(c) == NoLine(Io)
  {
  }

  /** How reading a line of `all` ended, leaving `unread`; `longs` counts an over-long line that was read. */
  ghost predicate LineRead(all: string, ok: bool, line: string, error: BodyErr, unread: string, longs: nat) {
    && (ok <==> error == NoError) && longs <= 1
    && if ok then |unread| < |all| && (NextLine(all) == if longs == 1 then Long(line, unread) else Line(line, unread))
       else unread == all && longs == 0 && LineWith(all, 0).Refused? && LineWith(all, 0).error == error
  }

  /** The reader's answer is this outcome. */
  predicate Shows(o: Outcome, data: string, ret: int, error: BodyErr, rest: string) {
    o.data == data && o.ret == ret && o.error == error && o.rest == rest
  }

  /** A number of over-long lines. What is said below stays folded until `assert Longs(p)` opens it. */
  predicate Longs(p: nat) { p >= 0 }

  /** Having read `longs` over-long lines, the reader is `lines'` lines into the trailer of `s`. */
  ghost predicate TrailersLead(s: string, lines: nat, s': string, lines': nat, longs: nat) {
    forall p: nat {:trigger Longs(p)} :: Longs(p) ==> Trailers(s, lines, longs + p) == Trailers(s', lines', p)
  }

  /** A reader of the trailer `s` that read `longs` over-long lines answers this. */
  ghost predicate TrailersGive(s: string, lines: nat, longs: nat, ret: int, error: BodyErr, rest: string) {
    forall p: nat {:trigger Longs(p)} :: p == longs && Longs(p) ==> Shows(Trailers(s, lines, p), "", ret, error, rest)
  }

  /** Having delivered `got` and read `longs` over-long lines, decoding stands at `b`, from `a`. */
  ghost predicate Leads(max: nat, a: Pos, got: string, b: Pos, longs: nat) {
    forall p: nat {:trigger Longs(p)} :: Longs(p) ==> Decode(a, max, longs + p) == Prepend(got, Decode(b, max, p))
  }

  /** A reader that starts at `a` and read `longs` over-long lines answers this. */
  ghost predicate Gives(max: nat, a: Pos, longs: nat, got: string, n: int, error: BodyErr, rest: string) {
    forall p: nat {:trigger Longs(p)} :: p == longs && Longs(p) ==> Shows(Decode(a, max, p), got, n, error, rest)
  }

  lemma TrailersLeadOn(s: string, s1: string, lines1: nat, longs: nat, s2: string, lines2: nat, more: nat)
    requires TrailersLead(s, 0, s1, lines1, longs) && TrailersLead(s1, lines1, s2, lines2, more)
    ensures TrailersLead(s, 0, s2, lines2, longs + more)
  {
    forall p: nat ensures Longs(p) ==> Trailers(s, 0, longs + more + p) == Trailers(s2, lines2, p) {
      assert Longs(p) && Longs(more + p);
      assert longs + more + p == longs + (more + p);
    }
  }

  lemma TrailersGiveOn(s: string, s1: string, lines1: nat, longs: nat, more: nat, ret: int, error: BodyErr,
                       rest: string)
    requires TrailersLead(s, 0, s1, lines1, longs) && TrailersGive(s1, lines1, more, ret, error, rest)
    ensures TrailersGive(s, 0, longs + more, ret, error, rest)
  {
    assert Longs(more);
  }

  lemma TrailersGoOn(s: string, s1: string, lines1: nat, longs: nat, more: nat, stop: Option<int>, error: BodyErr,
                     rest: string)
    requires TrailersLead(s, 0, s1, lines1, longs)
    requires stop.None? ==> TrailersLead(s1, lines1, rest, lines1 + 1, more)
    requires stop.Some? ==> TrailersGive(s1, lines1, more, stop.value, error, rest)
    ensures stop.None? ==> TrailersLead(s, 0, rest, lines1 + 1, longs + more)
    ensures stop.Some? ==> TrailersGive(s, 0, longs + more, stop.value, error, rest)
  {
    if stop.None? {
      TrailersLeadOn(s, s1, lines1, longs, rest, lines1 + 1, more);
    } else {
      TrailersGiveOn(s, s1, lines1, longs, more, stop.value, error, rest);
    }
  }

  lemma LeadsNowhere(max: nat, a: Pos)
    ensures Leads(max, a, "", a, 0)
  {
    forall p: nat ensures Decode(a, max, 0 + p) == Prepend("", Decode(a, max, p)) {
      assert "" + Decode(a, max, p).data == Decode(a, max, p).data;
    }
  }

  lemma LeadsOn(max: nat, a: Pos, got: string, b: Pos, longs: nat, more: string, c: Pos, longs': nat)
    requires Leads(max, a, got, b, longs) && Leads(max, b, more, c, longs')
    ensures Leads(max, a, got + more, c, longs + longs')
  {
    forall p: nat ensures Decode(a, max, longs + longs' + p) == Prepend(got + more, Decode(c, max, p)) {
      assert Longs(p) && Longs(longs' + p);
      assert longs + longs' + p == longs + (longs' + p);
      Assoc(got, more, Decode(c, max, p).data);
    }
  }

  lemma GivesOn(max: nat, a: Pos, got: string, b: Pos, longs: nat, more: string, longs': nat, n: int, error: BodyErr,
                rest: string)
    requires Leads(max, a, got, b, longs) && Gives(max, b, longs', more, n, error, rest)
    ensures Gives(max, a, longs + longs', got + more, n, error, rest)
  {
    assert Longs(longs');
  }

  /** A size line that announces data. */
  lemma SizeLeads(total: nat, max: nat, s: string, text: string, size: nat, rest: string, longs: nat)
    requires longs <= 1 && NextLine(s) == (if longs == 1 then Long(text, rest) else Line(text, rest))
    requires SizeOf(text) == Some(size) && 0 < size <= max && total <= max - size
    ensures Leads(max, Pos(0, total, s), "", Pos(size, total + size, rest), longs)
  {
    var a, b := Pos(0, total, s), Pos(size, total + size, rest);
    forall p: nat ensures Decode(a, max, longs + p) == Prepend("", Decode(b, max, p)) {
      assert WalkFrom(a, max, longs + p) == WalkFrom(b, max, p);
      assert "" + Decode(b, max, p).data == Decode(b, max, p).data;
    }
  }

  /** Where a size line ends decoding. */
  lemma HeadGives(total: nat, max: nat, s: string, ok: bool, text: string, rest: string, longs: nat, error: BodyErr)
    requires LineRead(s, ok, text, error, rest, longs)
    ensures !ok ==> Gives(max, Pos(0, total, s), longs, "", -1, error, rest)
    ensures ok && SizeOf(text).None? ==> Gives(max, Pos(0, total, s), longs, "", -1, Malformed, rest)
    ensures ok && SizeOf(text).Some? && SizeOf(text).value > 0
            && (SizeOf(text).value > max || total > max - SizeOf(text).value) ==>
              Gives(max, Pos(0, total, s), longs, "", -1, TooLarge, rest)
  {
    assert LineWith(s, longs) == if ok then Took(text, rest, 0) else LineWith(s, 0);
  }

  lemma TrailerGives(s: string, lines: nat, ok: bool, text: string, rest: string, longs: nat, error: BodyErr)
    requires LineRead(s, ok, text, error, rest, longs)
    ensures !ok ==> TrailersGive(s, lines, longs, 0, error, rest)
    ensures ok && text == "" ==> TrailersGive(s, lines, longs, 0, NoError, rest)
    ensures ok && text != "" && lines + 1 > TRAILER_LIMIT ==> TrailersGive(s, lines, longs, -1, Malformed, rest)
    ensures ok && text != "" && lines + 1 <= TRAILER_LIMIT ==> TrailersLead(s, lines, rest, lines + 1, longs)
  {
    if ok {
      forall p: nat ensures LineWith(s, longs + p) == Took(text, rest, p) {}
      assert LineWith(s, longs + 0) == Took(text, rest, 0);
    }
  }

  lemma ZeroThenTrailers(total: nat, max: nat, s: string, text: string, rest: string, longs: nat, more: nat)
    requires longs <= 1 && NextLine(s) == (if longs == 1 then Long(text, rest) else Line(text, rest))
    requires SizeOf(text) == Some(0)
    ensures Decode(Pos(0, total, s), max, longs + more) == Trailers(rest, 0, more)
  {
    assert WalkFrom(Pos(0, total, s), max, longs + more) == AtTrailer("", rest, more);
    assert "" + Trailers(rest, 0, more).data == Trailers(rest, 0, more).data;
  }

  lemma ZeroGives(total: nat, max: nat, s: string, text: string, rest: string, longs: nat, more: nat,
                  ret: int, error: BodyErr, end: string)
    requires LineRead(s, true, text, NoError, rest, longs) && SizeOf(text) == Some(0)
    requires TrailersGive(rest, 0, more, ret, error, end)
    ensures Gives(max, Pos(0, total, s), longs + more, "", ret, error, end)
  {
    ZeroThenTrailers(total, max, s, text, rest, longs, more);
    assert Longs(more);
  }

  /** Part of a chunk's data. */
  lemma DataLeads(left: nat, total: nat, max: nat, s: string, take: nat)
    requires 0 < take < left && take <= |s|
    ensures Leads(max, Pos(left, total, s), s[..take], Pos(left - take, total, s[take..]), 0)
  {
    var a, b := Pos(left, total, s), Pos(left - take, total, s[take..]);
    forall p: nat ensures Decode(a, max, 0 + p) == Prepend(s[..take], Decode(b, max, p)) {
      DataPart(left, total, max, s, take, p);
      FinishOnto(s[..take], Chunks(left - take, total, max, s[take..], p));
    }
  }

  lemma DataPart(left: nat, total: nat, max: nat, s: string, take: nat, longs: nat)
    requires 0 < take < left && take <= |s|
    ensures Chunks(left, total, max, s, longs) == Onto(s[..take], Chunks(left - take, total, max, s[take..], longs))
  {
    var rest := s[take..];
    if |s| < left {
      assert s == s[..take] + rest;
    } else {
      assert rest[left - take..] == s[left..];
      assert s[..left] == s[..take] + rest[..left - take];
      AfterDataJoins(s[..take], rest[..left - take], total, max, s[left..], longs);
    }
  }

  lemma AfterDataJoins(a: string, b: string, total: nat, max: nat, s: string, longs: nat)
    ensures AfterData(a + b, total, max, s, longs) == Onto(a, AfterData(b, total, max, s, longs))
  {
    if !(|s| < 2) && s[0] == '\r' && s[1] == '\n' {
      var w := Chunks(0, total, max, s[2..], longs);
      Assoc(a, b, if w.Stopped? then w.o.data else w.data);
    }
  }

  lemma AfterCrlf(data: string, total: nat, max: nat, rest: string, longs: nat)
    ensures AfterData(data, total, max, CRLF + rest, longs) == Onto(data, Chunks(0, total, max, rest, longs))
  {
    assert (CRLF + rest)[2..] == rest;
  }

  /** The rest of a chunk's data with the line end behind it. */
  lemma ChunkLeads(at: Pos, max: nat, got: string, rest: string)
    requires at.left > 0 && |got| == at.left && at.unread == got + (CRLF + rest)
    ensures Leads(max, at, got, Pos(0, at.total, rest), 0)
  {
    var b := Pos(0, at.total, rest);
    assert at.unread[..at.left] == got && at.unread[at.left..] == CRLF + rest;
    forall p: nat ensures Decode(at, max, 0 + p) == Prepend(got, Decode(b, max, p)) {
      AfterCrlf(got, at.total, max, rest, p);
      FinishOnto(got, Chunks(0, at.total, max, rest, p));
    }
  }

  /** A chunk whose data is not all there, or not followed by a line end. */
  lemma DataGives(at: Pos, max: nat, got: string, error: BodyErr, rest: string)
    requires at.left > 0
    requires || (at.unread == got && |got| < at.left && error == Io && rest == "")
             || (|got| == at.left && at.unread == got + rest
                 && AfterData(got, at.total, max, rest, 0) == Stopped(Outcome(got, -1, error, rest, false)))
    ensures Gives(max, at, 0, got, -1, error, rest)
  {
    if |got| == at.left { assert at.unread[..at.left] == got && at.unread[at.left..] == rest; }
  }

  lemma Assoc(a: string, b: string, c: string)
    ensures (a + b) + c == a + (b + c)
  {
  }

  method ScanCrlf(c: string) returns (r: Option<nat>)
    ensures r.Some? ==> FirstCrlf(c, r.value)
    ensures r.None? ==> forall k :: !CrlfAt(c, k)
  {
    var i := 0;
    while i + 1 < |c|
      invariant forall k :: 0 <= k < i ==> !CrlfAt(c, k)
    {
      if c[i] == '\r' && c[i + 1] == '\n' { return Some(i); }
      i := i + 1;
    }
    return None;
  }

  class BodyReader {
    const framing: BodyFraming
    const buf: InBuf
    const sock: Sock?
    const max: nat
    var remaining: nat
    var finished: bool
    var error: BodyErr
    var total: nat
    var left: nat

    constructor (framing: BodyFraming, contentLength: nat, buf: InBuf, sock: Sock?, max: nat)
      requires buf.Valid()
      ensures Valid() && this.framing == framing && this.buf == buf && this.sock == sock && this.max == max
      ensures total == 0 && left == 0 && error == NoError && remaining == contentLength
      ensures finished <==> framing.NoBody? || (framing.ContentLength? && contentLength == 0)
    {
      this.framing, this.buf, this.sock, this.max := framing, buf, sock, max;
      remaining, error, total, left := contentLength, NoError, 0, 0;
      finished := framing.NoBody? || (framing.ContentLength? && contentLength == 0);
    }

    ghost predicate Valid()
      reads this, buf
    {
      buf.Valid() && left <= total <= max
    }

    /** Every byte not yet read, wherever it is. */
    ghost function Unread(): string
      requires buf.Valid()
      reads this, buf, buf.data, sock
    {
      buf.Contents() + if sock == null then "" else sock.rest
    }

    /** How the bytes still in the socket will arrive. */
    function Cuts(): seq<nat>
      reads this, sock
    {
      if sock == null then [] else sock.cuts
    }

    method SetError(code: BodyErr)
      modifies this`error
      ensures error == if old(error) == NoError then code else old(error)
    {
      if error == NoError { error := code; }
    }

    method AccountBytes(n: nat) returns (ok: bool)
      requires total <= max
      modifies this`error, this`finished, this`total
      ensures ok <==> n + old(total) <= max
      ensures ok ==> total == old(total) + n && error == old(error) && finished == old(finished)
      ensures !ok ==> total == old(total) && finished && error == if old(error) == NoError then TooLarge else old(error)
    {
      if n > max || total > max - n {
        SetError(TooLarge);
        finished := true;
        return false;
      }
      total := total + n;
      return true;
    }

    /** One read from the socket, or an error when there is nothing to read. */
    method More() returns (ok: bool)
      requires Valid() && |buf.Contents()| <= SIZE_MAX / 4 && error == NoError
      modifies this`error, buf, buf.data, sock
      ensures Valid() && (buf.data == old(buf.data) || fresh(buf.data))
      ensures Unread() == old(Unread())
      ensures ok ==> error == NoError && |old(buf.Contents())| < |Unread()|
      ensures ok ==> |buf.Contents()| == |old(buf.Contents())|
                                         + Piece(|Unread()| - |old(buf.Contents())|, old(Cuts()), FILL)
      ensures ok ==> Cuts() == Later(old(Cuts()))
      ensures !ok ==> error == Io && buf.Contents() == Unread() == old(buf.Contents())
    {
      if sock == null {
        SetError(Io);
        return false;
      }
      var rt := buf.Fill(sock);
      if rt <= 0 {
        SetError(Io);
        return false;
      }
      return true;
    }

    method Ensure(n: nat) returns (ok: bool)
      requires Valid() && error == NoError && n <= LINE_LIMIT
      modifies this`error, buf, buf.data, sock
      ensures Valid() && (buf.data == old(buf.data) || fresh(buf.data))
      ensures Unread() == old(Unread())
      ensures ok ==> error == NoError && |buf.Contents()| >= n
      ensures !ok ==> error == Io && |Unread()| < n
    {
      while |buf.Contents()| < n
        invariant Valid() && (buf.data == old(buf.data) || fresh(buf.data))
        invariant Unread() == old(Unread()) && error == NoError
        decreases n - |buf.Contents()|
      {
        var more := More();
        if !more { return false; }
      }
      return true;
    }

    /** One look at the buffer, and one more read from the socket if the line is not there. `all`, `have`
        and `cuts` are what reading began with. */
    method LineStep(ghost all: string, ghost have: nat, ghost cuts: seq<nat>)
      returns (done: bool, ok: bool, line: string, ghost longs: nat)
      requires Valid() && error == NoError && Unread() == all && SameArrival(all, |buf.Contents()|, Cuts(), have, cuts)
      modifies this`error, buf, buf.data, sock
      ensures Valid() && (buf.data == old(buf.data) || fresh(buf.data))
      ensures done ==> LineRead(all, ok, line, error, Unread(), longs)
      ensures done ==> ArrivesAs(all, have, cuts, if ok then Line(line, Unread()) else NoLine(error))
      ensures !done ==> error == NoError && Unread() == all && |old(buf.Contents())| < |buf.Contents()|
      ensures !done ==> SameArrival(all, |buf.Contents()|, Cuts(), have, cuts)
    {
      ghost var c, more, now := buf.Contents(), if sock == null then "" else sock.rest, Cuts();
      ghost var i := 0;
      var found;
      found, line, i := TakeLine();
      if found {
        longs := LineFoundAt(c, more, i, now, have, cuts);
        return true, true, line, longs;
      }
      done := NoLineYet(all, have, cuts);
      return done, false, "", 0;
    }

    /** The buffer holds no line end: it is given up, or filled once more. */
    method NoLineYet(ghost all: string, ghost have: nat, ghost cuts: seq<nat>) returns (done: bool)
      requires Valid() && error == NoError && Unread() == all && SameArrival(all, |buf.Contents()|, Cuts(), have, cuts)
      requires NoEndIn(buf.Contents())
      modifies this`error, buf, buf.data, sock
      ensures Valid() && (buf.data == old(buf.data) || fresh(buf.data)) && Unread() == all
      ensures done ==> LineRead(all, false, "", error, all, 0) && ArrivesAs(all, have, cuts, NoLine(error))
      ensures !done ==> error == NoError && |old(buf.Contents())| < |buf.Contents()|
      ensures !done ==> SameArrival(all, |buf.Contents()|, Cuts(), have, cuts)
    {
      ghost var c, more, now := buf.Contents(), if sock == null then "" else sock.rest, Cuts();
      if |buf.Contents()| > LINE_LIMIT {
        GivenUpHere(c, more, now, have, cuts);
        SetError(Malformed);
        return true;
      }
      done := FillAgain(all, have, cuts);
    }

    /** Filled once more, or at the stream's end. */
    method FillAgain(ghost all: string, ghost have: nat, ghost cuts: seq<nat>) returns (done: bool)
      requires Valid() && error == NoError && Unread() == all && SameArrival(all, |buf.Contents()|, Cuts(), have, cuts)
      requires NoEndIn(buf.Contents()) && |buf.Contents()| <= LINE_LIMIT
      modifies this`error, buf, buf.data, sock
      ensures Valid() && (buf.data == old(buf.data) || fresh(buf.data)) && Unread() == all
      ensures done ==> LineRead(all, false, "", error, all, 0) && ArrivesAs(all, have, cuts, NoLine(error))
      ensures !done ==> error == NoError && |old(buf.Contents())| < |buf.Contents()|
      ensures !done ==> SameArrival(all, |buf.Contents()|, Cuts(), have, cuts)
    {
      ghost var size, now := |buf.Contents()|, Cuts();
      assert all[..size] == buf.Contents();
      var got := More();
      if got {
        MoreArrived(all, size, now, have, cuts, |buf.Contents()|, Cuts());
        return false;
      }
      EndsHere(all, now, have, cuts);
      return true;
    }

    method ReadLine() returns (ok: bool, line: string, ghost longs: nat)
      requires Valid() && error == NoError
      modifies this`error, buf, buf.data, sock
      ensures Valid() && (buf.data == old(buf.data) || fresh(buf.data))
      ensures LineRead(old(Unread()), ok, line, error, Unread(), longs)
      ensures ArrivesAs(old(Unread()), |old(buf.Contents())|, old(Cuts()),
                        if ok then Line(line, Unread()) else NoLine(error))
    {
      ghost var all, cuts, have := Unread(), Cuts(), |buf.Contents()|;
      var done := false;
      ok, line, longs := false, "", 0;
      while !done
        invariant Valid() && (buf.data == old(buf.data) || fresh(buf.data))
        invariant done ==> LineRead(all, ok, line, error, Unread(), longs)
        invariant done ==> ArrivesAs(all, have, cuts, if ok then Line(line, Unread()) else NoLine(error))
        invariant !done ==>
                    Unread() == all && error == NoError && SameArrival(all, |buf.Contents()|, Cuts(), have, cuts)
        decreases !done, |all| - |buf.Contents()|
      {
        done, ok, line, longs := LineStep(all, have, cuts);
      }
    }

    /** Takes a line that is already buffered, up to its end at `i`. */
    method TakeLine() returns (found: bool, line: string, ghost i: nat)
      requires Valid() && error == NoError
      modifies buf
      ensures Valid() && buf.data == old(buf.data)
      ensures found ==> FirstCrlf(old(buf.Contents()), i) && line == old(buf.Contents())[..i]
      ensures found ==> i + 2 <= |old(Unread())| && Unread() == old(Unread())[i + 2..]
      ensures !found ==> Unread() == old(Unread()) && buf.Contents() == old(buf.Contents()) && line == ""
      ensures !found ==> NoEndIn(buf.Contents())
    {
      ghost var c, more := buf.Contents(), if sock == null then "" else sock.rest;
      var at := ScanCrlf(buf.Contents());
      if at.None? { return false, "", 0; }
      line := buf.Contents()[..at.value];
      buf.Consume(at.value + 2);
      Split(c, more, at.value + 2);
      return true, line, at.value;
    }

    /** Where decoding stands. */
    ghost function Here(): Pos
      requires buf.Valid()
      reads this, buf, buf.data, sock
    {
      Pos(left, total, Unread())
    }

    /** One trailer line: the empty one ends the body, one too many is an error. */
    method TrailerStep(lines: nat) returns (stop: Option<int>, ghost longs: nat)
      requires Valid() && error == NoError && !finished
      modifies this`error, this`finished, buf, buf.data, sock
      ensures Valid() && (buf.data == old(buf.data) || fresh(buf.data))
      ensures |Unread()| <= |old(Unread())|
      ensures stop.None? ==> error == NoError && !finished && |Unread()| < |old(Unread())|
      ensures stop.None? ==> TrailersLead(old(Unread()), lines, Unread(), lines + 1, longs)
      ensures stop.Some? ==> finished && (stop.value == 0 || stop.value == -1)
      ensures stop.Some? ==> TrailersGive(old(Unread()), lines, longs, stop.value, error, Unread())
    {
      ghost var s := Unread();
      var ok, text;
      ok, text, longs := ReadLine();
      TrailerGives(s, lines, ok, text, Unread(), longs, error);
      if !ok || text == "" {
        finished := true;
        return Some(0), longs;
      }
      if lines + 1 > TRAILER_LIMIT {
        SetError(Malformed);
        finished := true;
        return Some(-1), longs;
      }
      return None, longs;
    }

    /** The same, of a trailer that began at `all`, `before` over-long lines ago. */
    method TrailerMore(lines: nat, ghost all: string, ghost before: nat) returns (stop: Option<int>, ghost longs: nat)
      requires Valid() && error == NoError && !finished && TrailersLead(all, 0, Unread(), lines, before)
      modifies this`error, this`finished, buf, buf.data, sock
      ensures Valid() && (buf.data == old(buf.data) || fresh(buf.data))
      ensures |Unread()| <= |old(Unread())|
      ensures stop.None? ==> error == NoError && !finished && |Unread()| < |old(Unread())|
      ensures stop.None? ==> TrailersLead(all, 0, Unread(), lines + 1, longs)
      ensures stop.Some? ==> finished && (stop.value == 0 || stop.value == -1)
      ensures stop.Some? ==> TrailersGive(all, 0, longs, stop.value, error, Unread())
    {
      ghost var s, more := Unread(), 0;
      stop, more := TrailerStep(lines);
      longs := before + more;
      TrailersGoOn(all, s, lines, before, more, stop, error, Unread());
    }

    /** Skips the trailer, up to and with its empty line. */
    method SkipTrailers() returns (ret: int, ghost longs: nat)
      requires Valid() && error == NoError && !finished
      modifies this`error, this`finished, buf, buf.data, sock
      ensures Valid() && (buf.data == old(buf.data) || fresh(buf.data))
      ensures finished && |Unread()| <= |old(Unread())| && (ret == 0 || ret == -1)
      ensures TrailersGive(old(Unread()), 0, longs, ret, error, Unread())
    {
      ghost var all := Unread();
      longs := 0;
      var lines := 0;
      var stop := None;
      while stop == None
        invariant Valid() && (buf.data == old(buf.data) || fresh(buf.data))
        invariant |Unread()| <= |all|
        invariant stop.None? ==> error == NoError && !finished
        invariant stop.None? ==> TrailersLead(all, 0, Unread(), lines, longs)
        invariant stop.Some? ==> finished && (stop.value == 0 || stop.value == -1)
        invariant stop.Some? ==> TrailersGive(all, 0, longs, stop.value, error, Unread())
        decreases stop == None, |Unread()|
      {
        stop, longs := TrailerMore(lines, all, longs);
        lines := lines + 1;
      }
      return stop.value, longs;
    }

    /** Reads a chunk's size line, and the trailer behind the last chunk's. */
    method ReadHead() returns (stop: Option<int>, ghost longs: nat)
      requires Valid() && error == NoError && !finished && left == 0
      modifies this, buf, buf.data, sock
      ensures Valid() && (buf.data == old(buf.data) || fresh(buf.data))
      ensures |Unread()| <= |old(Unread())| && remaining == old(remaining)
      ensures total - left == old(total)
      ensures stop.None? ==> error == NoError && !finished && left > 0
      ensures stop.None? ==> Leads(max, old(Here()), "", Here(), longs)
      ensures stop.Some? ==> left == 0 && stop.value <= 0 && (finished || error != NoError)
      ensures stop.Some? ==> Gives(max, old(Here()), longs, "", stop.value, error, Unread())
    {
      ghost var s := Unread();
      var ok, text;
      ok, text, longs := ReadLine();
      HeadGives(total, max, s, ok, text, Unread(), longs, error);
      if !ok {
        finished := true;
        return Some(-1), longs;
      }
      var announced := SizeOf(text);
      if announced.None? {
        SetError(Malformed);
        return Some(-1), longs;
      }
      if announced.value == 0 {
        var ret;
        ret, longs := EndBody(s, text, longs);
        return Some(ret), longs;
      }
      stop := OpenChunk(announced.value, s, text, longs);
    }

    /** Behind the line of size zero. */
    method EndBody(ghost s: string, ghost text: string, ghost before: nat) returns (ret: int, ghost longs: nat)
      requires Valid() && error == NoError && !finished && left == 0
      requires LineRead(s, true, text, NoError, Unread(), before) && SizeOf(text) == Some(0)
      modifies this`error, this`finished, buf, buf.data, sock
      ensures Valid() && (buf.data == old(buf.data) || fresh(buf.data))
      ensures finished && |Unread()| <= |old(Unread())| && (ret == 0 || ret == -1)
      ensures Gives(max, Pos(0, total, s), longs, "", ret, error, Unread())
    {
      ghost var rest, more := Unread(), 0;
      ret, more := SkipTrailers();
      longs := before + more;
      ZeroGives(total, max, s, text, rest, before, more, ret, error, Unread());
    }

    /** Behind a line of another size. */
    method OpenChunk(size: nat, ghost s: string, ghost text: string, ghost longs: nat) returns (stop: Option<int>)
      requires Valid() && error == NoError && !finished && left == 0 && size > 0
      requires LineRead(s, true, text, NoError, Unread(), longs) && SizeOf(text) == Some(size)
      modifies this`error, this`finished, this`total, this`left
      ensures Valid() && total - left == old(total)
      ensures stop.None? ==> error == NoError && !finished && left > 0
      ensures stop.None? ==> Leads(max, Pos(0, old(total), s), "", Here(), longs)
      ensures stop.Some? ==> left == 0 && stop.value == -1 && finished && error != NoError
      ensures stop.Some? ==> Gives(max, Pos(0, old(total), s), longs, "", stop.value, error, Unread())
    {
      HeadGives(total, max, s, true, text, Unread(), longs, NoError);
      var fits := AccountBytes(size);
      if !fits { return Some(-1); }
      SizeLeads(total - size, max, s, text, size, Unread(), longs);
      left := size;
      return None;
    }

    /** Hands over the first `take` buffered bytes. */
    method Take(take: nat) returns (got: string)
      requires Valid() && take <= |buf.Contents()|
      modifies buf
      ensures Valid() && buf.data == old(buf.data)
      ensures old(Unread()) == got + Unread() && |got| == take
      ensures got == old(Unread())[..take] && Unread() == old(Unread())[take..]
    {
      ghost var c, more := buf.Contents(), if sock == null then "" else sock.rest;
      got := buf.Contents()[..take];
      buf.Consume(take);
      Split(c, more, take);
    }

    /** The line end behind a chunk's data. */
    method CloseChunk(ghost data: string) returns (ok: bool)
      requires Valid() && error == NoError && !finished && left == 0
      modifies this`error, this`finished, buf, buf.data, sock
      ensures Valid() && (buf.data == old(buf.data) || fresh(buf.data))
      ensures |Unread()| <= |old(Unread())|
      ensures ok ==> error == NoError && !finished && old(Unread()) == CRLF + Unread()
      ensures !ok ==> finished && error != NoError && Unread() == old(Unread())
      ensures !ok ==>
                AfterData(data, total, max, old(Unread()), 0) == Stopped(Outcome(data, -1, error, Unread(), false))
    {
      ok := Ensure(2);
      if !ok {
        finished := true;
        return;
      }
      if buf.Contents()[0] != '\r' || buf.Contents()[1] != '\n' {
        SetError(Malformed);
        finished := true;
        return false;
      }
      var end := Take(2);
      assert end == CRLF;
    }

    /** Delivers what is at hand of the current chunk, and checks the line end behind it. `start` and
        `longs` are where this call began and the over-long lines since. */
    method ReadData(ghost start: Pos, ghost longs: nat) returns (n: int, got: string)
      requires Valid() && error == NoError && !finished && left > 0 && Leads(max, start, "", Here(), longs)
      modifies this, buf, buf.data, sock
      ensures Valid() && (buf.data == old(buf.data) || fresh(buf.data))
      ensures total == old(total) && left + |got| == old(left) && remaining == old(remaining)
      ensures n > 0 ==> error == NoError && !finished && n == |got| && |Unread()| < |old(Unread())|
      ensures n > 0 ==> Leads(max, start, got, Here(), longs)
      ensures n <= 0 ==> finished && error != NoError
      ensures n <= 0 ==> Gives(max, start, longs, got, n, error, Unread())
    {
      ghost var here := Here();
      var stocked := Stock();
      if !stocked {
        DataGives(Here(), max, "", Io, "");
        n, got := -1, "";
      } else {
        var take := |buf.Contents()|;
        if take > left { take := left; }
        n, got := Deliver(take);
      }
      assert "" + got == got;
      if n > 0 {
        LeadsOn(max, start, "", here, longs, got, Here(), 0);
      } else {
        GivesOn(max, start, "", here, longs, got, 0, n, error, Unread());
      }
    }

    /** Hands over `take` bytes of the chunk; with the last of them, the line end is due. */
    method Deliver(take: nat) returns (n: int, got: string)
      requires Valid() && error == NoError && !finished && 0 < take <= left && take <= |buf.Contents()|
      modifies this`error, this`finished, this`left, buf, buf.data, sock
      ensures Valid() && (buf.data == old(buf.data) || fresh(buf.data))
      ensures left == old(left) - take && |got| == take && |Unread()| < |old(Unread())|
      ensures (n == take && error == NoError && !finished) || (n == -1 && error != NoError && finished)
      ensures n > 0 ==> Leads(max, old(Here()), got, Here(), 0)
      ensures n <= 0 ==> Gives(max, old(Here()), 0, got, n, error, Unread())
    {
      ghost var here := Here();
      if take < left {
        DataLeads(left, total, max, Unread(), take);
        got := Take(take);
        left := left - take;
        return take, got;
      }
      got := Take(take);
      left := 0;
      ghost var rest := Unread();
      var ok := CloseChunk(got);
      if ok { ChunkLeads(here, max, got, Unread()); } else { DataGives(here, max, got, error, Unread()); }
      return if ok then take else -1, got;
    }

    /** Makes sure there is something to read, or gives up. */
    method Stock() returns (ok: bool)
      requires Valid() && error == NoError && !finished
      modifies this`error, this`finished, buf, buf.data, sock
      ensures Valid() && (buf.data == old(buf.data) || fresh(buf.data))
      ensures Unread() == old(Unread())
      ensures ok ==> error == NoError && !finished && |buf.Contents()| > 0
      ensures !ok ==> error == Io && finished && Unread() == ""
    {
      if |buf.Contents()| == 0 {
        ok := More();
        if !ok { finished := true; }
        return;
      }
      return true;
    }

    method ReadChunked() returns (n: int, got: string, ghost longs: nat)
      requires Valid() && error == NoError && !finished
      modifies this, buf, buf.data, sock
      ensures Valid() && (buf.data == old(buf.data) || fresh(buf.data))
      ensures total - left == old(total - left) + |got| && remaining == old(remaining)
      ensures n > 0 ==> error == NoError && !finished && n == |got| && |Unread()| < |old(Unread())|
      ensures n > 0 ==> Leads(max, old(Here()), got, Here(), longs)
      ensures n <= 0 ==> finished || error != NoError
      ensures n <= 0 ==> Gives(max, old(Here()), longs, got, n, error, Unread())
    {
      ghost var start := Here();
      longs := 0;
      if left == 0 {
        var stop;
        stop, longs := ReadHead();
        if stop.Some? { return stop.value, "", longs; }
      } else {
        LeadsNowhere(max, start);
      }
      n, got := ReadData(start, longs);
    }

    /** One piece of a body of known length. */
    method ReadClen() returns (n: int, got: string)
      requires Valid() && error == NoError && !finished
      modifies this, buf, buf.data, sock
      ensures Valid() && (buf.data == old(buf.data) || fresh(buf.data))
      ensures old(Unread()) == got + Unread() && left == old(left)
      ensures total == old(total) + |got| && remaining == old(remaining) - |got|
      ensures n > 0 ==> n == |got| && error == NoError && (finished <==> remaining == 0)
      ensures n == 0 <==> old(remaining) == 0
      ensures n == 0 ==> got == "" && error == NoError && finished
      ensures n < 0 ==> got == "" && finished && error == if old(Unread()) == "" then Io else TooLarge
      ensures n < 0 && error == TooLarge ==> old(total) + old(remaining) > max
    {
      if remaining == 0 {
        finished := true;
        return 0, "";
      }
      var stocked := Stock();
      if !stocked { return -1, ""; }
      var take := |buf.Contents()|;
      if take > remaining { take := remaining; }
      var fits := AccountBytes(take);
      if !fits { return -1, ""; }
      got := Take(take);
      remaining := remaining - take;
      if remaining == 0 { finished := true; }
      return take, got;
    }

    /** One piece of a body that ends with the connection. */
    method ReadUntilClose() returns (n: int, got: string)
      requires Valid() && error == NoError && !finished
      modifies this, buf, buf.data, sock
      ensures Valid() && (buf.data == old(buf.data) || fresh(buf.data))
      ensures old(Unread()) == got + Unread() && left == old(left) && remaining == old(remaining)
      ensures total == old(total) + |got|
      ensures n > 0 ==> n == |got| && error == NoError && !finished
      ensures n == 0 ==> got == "" && error == NoError && finished && Unread() == "" && (sock == null || !sock.broken)
      ensures n < 0 ==> got == "" && finished
                        && (if old(Unread()) == "" then error == Io && sock != null && sock.broken
                            else error == TooLarge && old(total) + |old(Unread())| > max)
    {
      if |buf.Contents()| == 0 {
        if sock == null {
          finished := true;
          return 0, "";
        }
        var rt := buf.Fill(sock);
        if rt <= 0 {
          if rt < 0 { SetError(Io); }
          finished := true;
          return if rt < 0 then -1 else 0, "";
        }
      }
      var take := |buf.Contents()|;
      var fits := AccountBytes(take);
      if !fits { return -1, ""; }
      got := Take(take);
      return take, got;
    }

    /** What one call does to a body of known length. */
    twostate predicate ClenGives(n: int, got: string)
      requires old(Valid()) && Valid()
      reads this, buf, buf.data, sock
    {
      && remaining == old(remaining) - |got|
      && (n > 0 ==> n == |got| && error == NoError && (finished <==> remaining == 0))
      && (n == 0 <==> old(remaining) == 0)
      && (n == 0 ==> got == "" && error == NoError && finished)
      && (n < 0 ==> got == "" && finished && error == if old(Unread()) == "" then Io else TooLarge)
    }

    /** What one call does to a body that ends with the connection. */
    twostate predicate CloseGives(n: int, got: string)
      requires old(Valid()) && Valid()
      reads this, buf, buf.data, sock
    {
      && (n > 0 ==> n == |got| && error == NoError && !finished)
      && (n == 0 ==> got == "" && error == NoError && finished && Unread() == "" && (sock == null || !sock.broken))
      && (n < 0 ==> got == "" && finished
                    && if old(Unread()) == "" then error == Io && sock != null && sock.broken else error == TooLarge)
    }

    method ReadChunk() returns (n: int, got: string, ghost longs: nat)
      requires Valid()
      modifies this, buf, buf.data, sock
      ensures Valid() && (buf.data == old(buf.data) || fresh(buf.data))
      ensures total - left == old(total - left) + |got|
      ensures old(finished) ==> n == 0 && got == "" && finished && error == old(error) && Unread() == old(Unread())
      ensures !old(finished) && old(error) != NoError ==>
                n == -1 && got == "" && error == old(error) && Unread() == old(Unread())
      ensures !old(finished) && old(error) == NoError && framing.Chunked? ==>
                && (n > 0 ==> error == NoError && !finished && n == |got| && |Unread()| < |old(Unread())|)
                && (n > 0 ==> Leads(max, old(Here()), got, Here(), longs))
                && (n <= 0 ==> finished || error != NoError)
                && (n <= 0 ==> Gives(max, old(Here()), longs, got, n, error, Unread()))
      ensures !framing.Chunked? ==> old(Unread()) == got + Unread()
      ensures !old(finished) && old(error) == NoError ==>
                match framing
                case NoBody => n == 0 && got == "" && finished
                case ContentLength => ClenGives(n, got)
                case UntilClose => CloseGives(n, got)
                case Chunked => true
    {
      longs := 0;
      if finished { return 0, "", 0; }
      if error != NoError { return -1, "", 0; }
      match framing
      case ContentLength => n, got := ReadClen();
      case Chunked => n, got, longs := ReadChunked();
      case UntilClose => n, got := ReadUntilClose();
      case NoBody =>
        finished := true;
        return 0, "", 0;
    }
  }

  // ----- whole bodies -----

  lemma Split(c: string, more: string, n: nat)
    requires n <= |c|
    ensures c + more == c[..n] + (c[n..] + more)
    ensures (c + more)[..n] == c[..n] && (c + more)[n..] == c[n..] + more
  {
  }

  /** One more piece of a body that began at `start` and of which `all` has been delivered. */
  method Pull(r: BodyReader, ghost start: Pos, ghost all: string, ghost before: nat)
    returns (n: int, piece: string, ghost longs: nat)
    requires r.Valid() && r.framing.Chunked? && !r.finished && r.error == NoError
    requires Leads(r.max, start, all, r.Here(), before)
    modifies r, r.buf, r.buf.data, r.sock
    ensures r.Valid() && (r.buf.data == old(r.buf.data) || fresh(r.buf.data))
    ensures r.total - r.left == old(r.total - r.left) + |piece|
    ensures n > 0 ==> r.error == NoError && !r.finished && |r.Unread()| < |old(r.Unread())|
    ensures n > 0 ==> Leads(r.max, start, all + piece, r.Here(), longs)
    ensures n <= 0 ==> r.finished || r.error != NoError
    ensures n <= 0 ==> Gives(r.max, start, longs, all + piece, n, r.error, r.Unread())
  {
    ghost var here, more := r.Here(), 0;
    n, piece, more := r.ReadChunk();
    longs := before + more;
    if n > 0 {
      LeadsOn(r.max, start, all, here, before, piece, r.Here(), more);
    } else {
      GivesOn(r.max, start, all, here, before, piece, more, n, r.error, r.Unread());
    }
  }

  /** The forwarding loop: pieces until the reader has no more. However the network cut the bytes,
      the pieces add up to what the bytes decode to, and never to more than the limit. */
  method Drain(r: BodyReader) returns (n: int, all: string, ghost longs: nat)
    requires r.Valid() && r.framing.Chunked? && !r.finished && r.error == NoError
    modifies r, r.buf, r.buf.data, r.sock
    ensures r.Valid() && n <= 0 && (r.finished || r.error != NoError)
    ensures Shows(Decode(old(r.Here()), r.max, longs), all, n, r.error, r.Unread())
    ensures old(r.total - r.left) + |all| <= r.max
    ensures n == 0 && r.error == NoError <==> Complete(old(r.Here()), r.max, longs)
    ensures !Decode(old(r.Here()), r.max, 0).gaveUp ==>
              Shows(Decode(old(r.Here()), r.max, 0), all, n, r.error, r.Unread())
  {
    ghost var start := r.Here();
    LeadsNowhere(r.max, start);
    all, n, longs := "", 1, 0;
    while n > 0
      invariant r.Valid() && (r.buf.data == old(r.buf.data) || fresh(r.buf.data))
      invariant r.total - r.left == old(r.total - r.left) + |all|
      invariant n > 0 ==> !r.finished && r.error == NoError
      invariant n > 0 ==> Leads(r.max, start, all, r.Here(), longs)
      invariant n <= 0 ==> r.finished || r.error != NoError
      invariant n <= 0 ==> Gives(r.max, start, longs, all, n, r.error, r.Unread())
      decreases n > 0, |r.Unread()|
    {
      var piece;
      n, piece, longs := Pull(r, start, all, longs);
      all := all + piece;
    }
    Given(r.max, start, longs, all, n, r.error, r.Unread());
  }

  /** What the answer of a reader says about the stream. */
  lemma Given(max: nat, start: Pos, longs: nat, all: string, n: int, error: BodyErr, rest: string)
    requires Gives(max, start, longs, all, n, error, rest)
    ensures Shows(Decode(start, max, longs), all, n, error, rest)
    ensures n == 0 && error == NoError <==> Complete(start, max, longs)
    ensures !Decode(start, max, 0).gaveUp ==> Shows(Decode(start, max, 0), all, n, error, rest)
  {
    assert Longs(longs);
    EndsAtZeroIff(start, max, longs, NoError);
    Fixed(start, max, longs);
  }

  lemma FirstLine(text: string, rest: string)
    requires '\r' !in text && |text| + 2 <= LINE_LIMIT
    ensures NextLine(text + CRLF + rest) == Line(text, rest)
  {
    var c := text + CRLF;
    assert FirstCrlf(c, |text|);
    LineFound(c, rest, |text|);
    assert c[..|text|] == text;
    assert c[|text| + 2..] == "" && "" + rest == rest;
  }

  lemma BeforeAbsent(s: string, c: char)
    requires c !in s
    ensures Before(s, c) == s
  {
  }

  // ----- when the end is complete -----

  /** The stream behind `k` complete non-empty lines, and how many over-long ones may still come. */
  ghost function AfterLines(s: string, k: nat, longs: nat): Option<(string, nat)>
    decreases k
  {
    if k == 0 then Some((s, longs))
    else
      match LineWith(s, longs)
      case Took(text, rest, more) => if text == "" then None else AfterLines(rest, k - 1, more)
      case Refused(_, _) => None
  }

  /** `k` complete non-empty lines, within the limit, and then the empty line (NoError), or no line
      for the reason `e`. */
  ghost predicate TrailerEnds(s: string, lines: nat, k: nat, longs: nat, e: BodyErr) {
    && lines + k <= TRAILER_LIMIT && AfterLines(s, k, longs).Some?
    && var (t, more) := AfterLines(s, k, longs).value;
       match LineWith(t, more)
       case Took(text, _, _) => text == "" && e == NoError
       case Refused(e', _) => e == e'
  }

  ghost predicate TrailerEndsWith(s: string, lines: nat, longs: nat, e: BodyErr) {
    exists k: nat :: TrailerEnds(s, lines, k, longs, e)
  }

  /** What the first line means for where the trailer ends. */
  lemma EndsAtFirst(s: string, lines: nat, longs: nat, e: BodyErr)
    requires lines <= TRAILER_LIMIT && (LineWith(s, longs).Refused? || LineWith(s, longs).text == "")
    ensures TrailerEndsWith(s, lines, longs, e) <==>
              e == if LineWith(s, longs).Refused? then LineWith(s, longs).error else NoError
  {
    assert TrailerEnds(s, lines, 0, longs, e) <==>
           e == if LineWith(s, longs).Refused? then LineWith(s, longs).error else NoError;
    assert forall k: nat :: k > 0 ==> AfterLines(s, k, longs).None?;
  }

  lemma EndsLater(s: string, lines: nat, longs: nat, e: BodyErr)
    requires LineWith(s, longs).Took? && LineWith(s, longs).text != ""
    ensures var rest, more := LineWith(s, longs).rest, LineWith(s, longs).longs;
            TrailerEndsWith(s, lines, longs, e) <==> TrailerEndsWith(rest, lines + 1, more, e)
  {
    var rest, more, next := LineWith(s, longs).rest, LineWith(s, longs).longs, lines + 1;
    if k: nat :| TrailerEnds(s, lines, k, longs, e) {
      assert k > 0;
      assert TrailerEnds(rest, next, k - 1, more, e);
    }
    if k: nat :| TrailerEnds(rest, next, k, more, e) {
      assert TrailerEnds(s, lines, k + 1, longs, e);
    }
  }

  lemma {:induction false} TrailersEndIff(s: string, lines: nat, longs: nat, e: BodyErr)
    requires lines <= TRAILER_LIMIT
    ensures Trailers(s, lines, longs).ret == 0 && Trailers(s, lines, longs).error == e <==>
              TrailerEndsWith(s, lines, longs, e)
    decreases |s|
  {
    match LineWith(s, longs)
    case Refused(_, _) => EndsAtFirst(s, lines, longs, e);
    case Took(text, rest, more) =>
      if text == "" {
        EndsAtFirst(s, lines, longs, e);
      } else {
        EndsLater(s, lines, longs, e);
        if lines < TRAILER_LIMIT { TrailersEndIff(rest, lines + 1, more, e); }
      }
  }

  /** Decoding that stops before the line of size zero never ends at zero. */
  lemma {:induction false} StoppedFails(left: nat, total: nat, max: nat, s: string, longs: nat)
    ensures var w := Chunks(left, total, max, s, longs);
            w.Stopped? ==> w.o.ret == -1 && w.o.error != NoError
    decreases |s|, left == 0
  {
    if left > 0 {
      if |s| >= left {
        var end := s[left..];
        if |end| >= 2 { StoppedFails(0, total, max, end[2..], longs); }
      }
    } else {
      match LineWith(s, longs)
      case Refused(_, _) =>
      case Took(text, rest, more) =>
        match SizeOf(text) {
          case None =>
          case Some(size) =>
            if 0 < size <= max && total <= max - size { StoppedFails(size, total + size, max, rest, more); }
        }
    }
  }

  /** The line of size zero was read, and the trailer behind it is complete: at most 32 lines and the
      empty one. */
  ghost predicate Complete(at: Pos, max: nat, longs: nat) {
    var w := WalkFrom(at, max, longs);
    w.AtTrailer? && TrailerEndsWith(w.rest, 0, w.longs, NoError)
  }

  /** A reader ends at zero exactly when the line of size zero was read and the trailer, within its
      32 lines, ends with the empty line or breaks off; breaking off leaves its reason in the error.
      So the count alone does not tell a complete body from a cut one, and count and error together do. */
  lemma EndsAtZeroIff(at: Pos, max: nat, longs: nat, e: BodyErr)
    ensures var w, o := WalkFrom(at, max, longs), Decode(at, max, longs);
            && (o.ret == 0 && o.error == e <==> w.AtTrailer? && TrailerEndsWith(w.rest, 0, w.longs, e))
            && (w.AtTrailer? ==> o.data == w.data)
    ensures e == NoError ==>
              (Decode(at, max, longs).ret == 0 && Decode(at, max, longs).error == e <==> Complete(at, max, longs))
  {
    var w := WalkFrom(at, max, longs);
    StoppedFails(at.left, at.total, max, at.unread, longs);
    if w.AtTrailer? {
      TrailersEndIff(w.rest, 0, w.longs, e);
      TrailersDeliverNothing(w.rest, 0, w.longs);
      assert w.data + "" == w.data;
    }
  }

  lemma {:induction false} TrailersDeliverNothing(s: string, lines: nat, longs: nat)
    ensures Trailers(s, lines, longs).data == ""
    decreases |s|
  {
    match LineWith(s, longs)
    case Refused(_, _) =>
    case Took(text, rest, more) =>
      if text != "" && lines < TRAILER_LIMIT { TrailersDeliverNothing(rest, lines + 1, more); }
  }

  // ----- when the bytes alone decide -----

  lemma {:induction false} TrailersFixed(s: string, lines: nat, longs: nat)
    ensures !Trailers(s, lines, 0).gaveUp ==> Trailers(s, lines, longs) == Trailers(s, lines, 0)
    decreases |s|
  {
    match NextLine(s)
    case NoLine(_) =>
    case Long(_, _) =>
    case Line(text, rest) => if text != "" && lines < TRAILER_LIMIT { TrailersFixed(rest, lines + 1, longs); }
  }

  /** With patience for `longs` lines instead of none, the same walk, if none is given up. */
  function Patient(w: Walk, longs: nat): Walk {
    if w.AtTrailer? then w.(longs := longs) else w
  }

  lemma {:induction false} ChunksFixed(left: nat, total: nat, max: nat, s: string, longs: nat)
    ensures var w := Chunks(left, total, max, s, 0);
            && (w.AtTrailer? ==> w.longs == 0)
            && ((w.Stopped? && w.o.gaveUp) || Chunks(left, total, max, s, longs) == Patient(w, longs))
    decreases |s|, left == 0
  {
    if left > 0 {
      if |s| >= left && |s[left..]| >= 2 { ChunksFixed(0, total, max, s[left..][2..], longs); }
    } else {
      match NextLine(s)
      case NoLine(_) =>
      case Long(_, _) =>
      case Line(text, rest) =>
        match SizeOf(text) {
          case None =>
          case Some(size) =>
            if 0 < size <= max && total <= max - size { ChunksFixed(size, total + size, max, rest, longs); }
        }
    }
  }

  lemma {:induction false} TrailersShrink(s: string, lines: nat, longs: nat)
    ensures |Trailers(s, lines, longs).rest| <= |s|
    ensures Trailers(s, lines, 0).gaveUp ==> |Trailers(s, lines, 1).rest| < |Trailers(s, lines, 0).rest|
    decreases |s|
  {
    match NextLine(s)
    case NoLine(_) =>
    case Line(text, rest) => if text != "" && lines < TRAILER_LIMIT { TrailersShrink(rest, lines + 1, longs); }
    case Long(text, rest) =>
      if text != "" && lines < TRAILER_LIMIT {
        TrailersShrink(rest, lines + 1, 0);
        if longs > 0 { TrailersShrink(rest, lines + 1, longs - 1); }
      }
  }

  lemma {:induction false} ChunksShrink(left: nat, total: nat, max: nat, s: string, longs: nat)
    ensures |Finish(Chunks(left, total, max, s, longs)).rest| <= |s|
    decreases |s|, left == 0
  {
    if left > 0 {
      if |s| >= left && |s[left..]| >= 2 {
        ChunksShrink(0, total, max, s[left..][2..], longs);
        FinishOnto(s[..left], Chunks(0, total, max, s[left..][2..], longs));
      }
    } else {
      match LineWith(s, longs)
      case Refused(_, _) =>
      case Took(text, rest, more) =>
        match SizeOf(text) {
          case None =>
          case Some(size) =>
            if size == 0 {
              TrailersShrink(rest, 0, more);
            } else if size <= max && total <= max - size {
              ChunksShrink(size, total + size, max, rest, more);
            }
        }
    }
  }

  /** Reading one more over-long line than before leaves less unread. */
  lemma {:induction false} OneMoreLong(left: nat, total: nat, max: nat, s: string)
    ensures Finish(Chunks(left, total, max, s, 0)).gaveUp ==>
              |Finish(Chunks(left, total, max, s, 1)).rest| < |Finish(Chunks(left, total, max, s, 0)).rest|
    decreases |s|, left == 0
  {
    if left > 0 {
      if |s| >= left && |s[left..]| >= 2 {
        OneMoreLong(0, total, max, s[left..][2..]);
        FinishOnto(s[..left], Chunks(0, total, max, s[left..][2..], 0));
        FinishOnto(s[..left], Chunks(0, total, max, s[left..][2..], 1));
      }
    } else {
      match NextLine(s)
      case NoLine(_) =>
      case Line(text, rest) =>
        match SizeOf(text) {
          case None =>
          case Some(size) =>
            if size == 0 {
              TrailersShrink(rest, 0, 0);
            } else if size <= max && total <= max - size {
              OneMoreLong(size, total + size, max, rest);
            }
        }
      case Long(text, rest) =>
        match SizeOf(text) {
          case None =>
          case Some(size) =>
            if size == 0 {
              TrailersShrink(rest, 0, 0);
            } else if size <= max && total <= max - size {
              ChunksShrink(size, total + size, max, rest, 0);
            }
        }
    }
  }

  /** The bytes alone fix the outcome exactly when no over-long line is met before the end. */
  lemma FixedIff(at: Pos, max: nat)
    ensures (forall longs: nat :: Decode(at, max, longs) == Decode(at, max, 0)) <==> !Decode(at, max, 0).gaveUp
  {
    if Decode(at, max, 0).gaveUp {
      OneMoreLong(at.left, at.total, max, at.unread);
      assert Decode(at, max, 1) != Decode(at, max, 0);
    } else {
      forall longs: nat ensures Decode(at, max, longs) == Decode(at, max, 0) {
        Fixed(at, max, longs);
      }
    }
  }

  lemma Fixed(at: Pos, max: nat, longs: nat)
    ensures !Decode(at, max, 0).gaveUp ==> Decode(at, max, longs) == Decode(at, max, 0)
  {
    var w := WalkFrom(at, max, 0);
    ChunksFixed(at.left, at.total, max, at.unread, longs);
    if w.AtTrailer? { TrailersFixed(w.rest, 0, longs); }
  }
}
