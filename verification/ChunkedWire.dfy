/** Chunked messages on the wire (src/gateway/body.cpp): what size lines say, and that reading a whole
    message gives its data back, as the gateway's encoder or any other peer may have written it. */
module ChunkedWire {
  import opened Rules
  import opened Buf
  import opened Body

  // ----- size lines -----

  lemma {:induction false} HexRoundTrip(n: nat)
    ensures HexValue(HexText(n)) == n && ';' !in HexText(n) && '\r' !in HexText(n)
    ensures n <= UINT64_MAX ==> |HexText(n)| <= 16
  {
    HexLength(n, 16);
    HexBack(n);
    forall c | c in HexText(n) ensures IsHex(c) {}
  }

  lemma {:induction false} HexBack(n: nat)
    ensures HexValue(HexText(n)) == n
  {
    if n < 16 {
      assert HexText(n)[..0] == "";
    } else {
      HexBack(n / 16);
      assert HexText(n)[..|HexText(n)| - 1] == HexText(n / 16);
    }
  }

  function Pow16(k: nat): nat { if k == 0 then 1 else 16 * Pow16(k - 1) }

  lemma {:induction false} HexLength(n: nat, k: nat)
    requires k > 0
    ensures n < Pow16(k) ==> |HexText(n)| <= k
    ensures Pow16(16) == UINT64_MAX + 1
  {
    assert Pow16(4) == 0x1_0000 && Pow16(8) == 0x1_0000_0000 && Pow16(12) == 0x1_0000_0000_0000;
    if n < Pow16(k) && n >= 16 {
      assert k > 1;
      HexLength(n / 16, k - 1);
    }
  }

  /** The same letter, whatever its case. */
  predicate SameLetter(c: char, d: char) {
    c == d || exists i :: 0 <= i < 6 && c == "ABCDEF"[i] && d == "abcdef"[i]
  }

  /** `text` is the hexadecimal text of `n`, behind any zeros and in letters of either case. */
  ghost predicate Spells(text: string, n: nat) {
    exists z: nat :: SpellsBehind(text, n, z)
  }

  ghost predicate SpellsBehind(text: string, n: nat, z: nat) {
    var plain := Zeros(z) + HexText(n);
    |text| == |plain| && forall i :: 0 <= i < |text| ==> SameLetter(text[i], plain[i])
  }

  /** A hexadecimal digit in either case is the letter its value is printed as. */
  lemma LetterOf(c: char)
    ensures IsHex(c) ==> SameLetter(c, HexDigit(DigitValue(c)))
    ensures forall d :: 0 <= d < 16 && SameLetter(c, HexDigit(d)) ==> IsHex(c) && DigitValue(c) == d
  {
    if 'A' <= c <= 'F' {
      var i := c as int - 'A' as int;
      assert c == "ABCDEF"[i] && HexDigit(DigitValue(c)) == "abcdef"[i];
    }
  }

  lemma OneMoreDigit(init: string, last: char, m: nat, z: nat)
    requires SpellsBehind(init, m, z) && IsHex(last)
    ensures Spells(init + [last], 16 * m + DigitValue(last))
  {
    var d, text := DigitValue(last), init + [last];
    LetterOf(last);
    if m == 0 {
      assert HexText(0) == "0" && HexText(d) == [HexDigit(d)];
      assert Zeros(z + 1) + HexText(d) == Zeros(z) + HexText(0) + [HexDigit(d)];
      assert SpellsBehind(text, d, z + 1);
    } else {
      assert (16 * m + d) / 16 == m && (16 * m + d) % 16 == d;
      assert Zeros(z) + HexText(16 * m + d) == Zeros(z) + HexText(m) + [HexDigit(d)];
      assert SpellsBehind(text, 16 * m + d, z);
    }
  }

  lemma {:induction false} ValueIsSpelled(text: string)
    requires text != "" && AllHex(text)
    ensures Spells(text, HexValue(text))
  {
    var init, last := text[..|text| - 1], text[|text| - 1];
    assert text == init + [last];
    if init == "" {
      LetterOf(last);
      var d := DigitValue(last);
      assert text[..0] == "" && HexValue(text) == d;
      assert Zeros(0) + HexText(d) == [HexDigit(d)];
      assert SpellsBehind(text, d, 0);
    } else {
      ValueIsSpelled(init);
      var z: nat :| SpellsBehind(init, HexValue(init), z);
      OneMoreDigit(init, last, HexValue(init), z);
    }
  }

  lemma {:induction false} SpelledHasValue(text: string, n: nat, z: nat)
    requires SpellsBehind(text, n, z)
    ensures text != "" && AllHex(text) && HexValue(text) == n
    decreases |text|
  {
    var plain := Zeros(z) + HexText(n);
    var init, last := text[..|text| - 1], text[|text| - 1];
    LetterOf(last);
    if n >= 16 {
      assert plain[..|plain| - 1] == Zeros(z) + HexText(n / 16);
      SpelledHasValue(init, n / 16, z);
    } else if z > 0 {
      assert plain[..|plain| - 1] == Zeros(z - 1) + HexText(0);
      SpelledHasValue(init, 0, z - 1);
    } else {
      assert init == "";
    }
  }

  /** A size line is taken exactly when its text up to an extension spells a number of 64 bits, in
      letters of either case and behind any zeros, and then for that number. */
  lemma SizeIff(line: string, n: nat)
    ensures SizeOf(line) == Some(n) <==> n <= UINT64_MAX && Spells(Before(line, ';'), n)
  {
    var text := Before(line, ';');
    if text != "" && AllHex(text) { ValueIsSpelled(text); }
    if Spells(text, n) {
      var z: nat :| SpellsBehind(text, n, z);
      SpelledHasValue(text, n, z);
    }
  }

  // ----- messages -----

  /** A line that fits: no carriage return in it, and within the limit. */
  predicate Fits(line: string) {
    '\r' !in line && |line| + 2 <= 8192
  }

  /** A line that announces `n` bytes, whoever wrote it. */
  ghost predicate Announces(line: string, n: nat) {
    Fits(line) && Spells(Before(line, ';'), n)
  }

  datatype Chunk = Chunk(line: string, data: string)

  function TrailerText(lines: seq<string>): string {
    if lines == [] then CRLF else lines[0] + CRLF + TrailerText(lines[1..])
  }

  function Wire(chunks: seq<Chunk>, last: string, trailer: seq<string>): string {
    if chunks == [] then last + CRLF + TrailerText(trailer)
    else chunks[0].line + CRLF + (chunks[0].data + (CRLF + Wire(chunks[1..], last, trailer)))
  }

  function Data(chunks: seq<Chunk>): string {
    if chunks == [] then "" else chunks[0].data + Data(chunks[1..])
  }

  /** A message as any peer may write it: every chunk announced, a last line of size zero, and at
      most 32 trailer lines. */
  ghost predicate WellFormed(chunks: seq<Chunk>, last: string, trailer: seq<string>) {
    && (forall i :: 0 <= i < |chunks| ==> chunks[i].data != "" && Announces(chunks[i].line, |chunks[i].data|))
    && Announces(last, 0)
    && |trailer| <= 32 && forall i :: 0 <= i < |trailer| ==> trailer[i] != "" && Fits(trailer[i])
  }

  lemma {:induction false} TrailerIsSkipped(lines: seq<string>, tail: string, n: nat, longs: nat)
    requires n + |lines| <= TRAILER_LIMIT && forall i :: 0 <= i < |lines| ==> lines[i] != "" && Fits(lines[i])
    ensures Trailers(TrailerText(lines) + tail, n, longs) == Outcome("", 0, NoError, tail, false)
    decreases |lines|
  {
    if lines == [] {
      assert CRLF + tail == "" + CRLF + tail;
      FirstLine("", tail);
    } else {
      var rest := TrailerText(lines[1..]) + tail;
      Assoc(lines[0] + CRLF, TrailerText(lines[1..]), tail);
      FirstLine(lines[0], rest);
      TrailerIsSkipped(lines[1..], tail, n + 1, longs);
    }
  }

  lemma EndDecodes(last: string, trailer: seq<string>, tail: string, total: nat, max: nat, longs: nat)
    requires WellFormed([], last, trailer)
    ensures Yields(max, Pos(0, total, Wire([], last, trailer) + tail), longs, Outcome("", 0, NoError, tail, false))
  {
    var rest := TrailerText(trailer) + tail;
    Assoc(last + CRLF, TrailerText(trailer), tail);
    FirstLine(last, rest);
    AnnouncedSize(last, 0);
    ZeroThenTrailers(total, max, last + CRLF + rest, last, rest, 0, longs);
    TrailerIsSkipped(trailer, tail, 0, longs);
  }

  lemma AnnouncedSize(line: string, n: nat)
    requires Announces(line, n) && n <= UINT64_MAX
    ensures SizeOf(line) == Some(n)
  {
    SizeIff(line, n);
  }

  lemma SizeLineLeads(line: string, n: nat, total: nat, max: nat, body: string)
    requires Fits(line) && SizeOf(line) == Some(n) && n > 0 && total + n <= max
    ensures Leads(max, Pos(0, total, line + CRLF + body), "", Pos(n, total + n, body), 0)
  {
    FirstLine(line, body);
    SizeLeads(total, max, line + CRLF + body, line, n, body, 0);
  }

  /** What decoding comes to, folded like the predicates of Body. */
  ghost predicate Yields(max: nat, a: Pos, longs: nat, o: Outcome) {
    forall at: Pos {:trigger From(at)} :: From(at) && at == a ==> Decode(at, max, longs) == o
  }

  predicate From(at: Pos) { at.left >= 0 }

  lemma ThenYields(max: nat, a: Pos, got: string, b: Pos, longs: nat, o: Outcome)
    requires Leads(max, a, got, b, 0) && Yields(max, b, longs, o)
    ensures Yields(max, a, longs, Prepend(got, o))
  {
    assert Longs(longs) && From(b);
  }

  lemma FollowedBy(chunk: Chunk, more: string, tail: string)
    ensures (chunk.line + CRLF + (chunk.data + (CRLF + more))) + tail
         == chunk.line + CRLF + (chunk.data + (CRLF + (more + tail)))
  {
  }

  /** An announced chunk decodes to its data, then to what follows. */
  lemma ChunkYields(chunk: Chunk, more: string, tail: string, total: nat, max: nat, longs: nat, after: Outcome)
    requires chunk.data != "" && Announces(chunk.line, |chunk.data|) && total + |chunk.data| <= max <= UINT64_MAX
    requires Yields(max, Pos(0, total + |chunk.data|, more + tail), longs, after)
    ensures Yields(max, Pos(0, total, (chunk.line + CRLF + (chunk.data + (CRLF + more))) + tail), longs,
                   Prepend(chunk.data, after))
  {
    var n, body := |chunk.data|, chunk.data + (CRLF + (more + tail));
    var a, b, c := Pos(0, total, chunk.line + CRLF + body), Pos(n, total + n, body), Pos(0, total + n, more + tail);
    ChunkLeads(b, max, chunk.data, more + tail);
    ThenYields(max, b, chunk.data, c, longs, after);
    AnnouncedSize(chunk.line, n);
    SizeLineLeads(chunk.line, n, total, max, body);
    ThenYields(max, a, "", b, longs, Prepend(chunk.data, after));
    assert "" + (chunk.data + after.data) == chunk.data + after.data;
    FollowedBy(chunk, more, tail);
  }

  lemma RestIsWellFormed(chunks: seq<Chunk>, last: string, trailer: seq<string>)
    requires WellFormed(chunks, last, trailer) && chunks != []
    ensures WellFormed(chunks[1..], last, trailer)
    ensures chunks[0].data != "" && Announces(chunks[0].line, |chunks[0].data|)
    ensures Data(chunks) == chunks[0].data + Data(chunks[1..])
  {
  }

  lemma WireStep(chunks: seq<Chunk>, last: string, trailer: seq<string>, tail: string, total: nat, max: nat,
                 longs: nat, after: Outcome)
    requires chunks != [] && chunks[0].data != "" && Announces(chunks[0].line, |chunks[0].data|)
    requires total + |chunks[0].data| <= max <= UINT64_MAX
    requires Yields(max, Pos(0, total + |chunks[0].data|, Wire(chunks[1..], last, trailer) + tail), longs, after)
    ensures Yields(max, Pos(0, total, Wire(chunks, last, trailer) + tail), longs, Prepend(chunks[0].data, after))
  {
    ChunkYields(chunks[0], Wire(chunks[1..], last, trailer), tail, total, max, longs, after);
  }

  lemma {:induction false} WireYields(chunks: seq<Chunk>, last: string, trailer: seq<string>, tail: string,
                                      total: nat, max: nat, longs: nat)
    requires WellFormed(chunks, last, trailer) && total + |Data(chunks)| <= max <= UINT64_MAX
    ensures Yields(max, Pos(0, total, Wire(chunks, last, trailer) + tail), longs,
                   Outcome(Data(chunks), 0, NoError, tail, false))
    decreases |chunks|
  {
    if chunks == [] {
      EndDecodes(last, trailer, tail, total, max, longs);
    } else {
      RestIsWellFormed(chunks, last, trailer);
      var after := Outcome(Data(chunks[1..]), 0, NoError, tail, false);
      WireYields(chunks[1..], last, trailer, tail, total + |chunks[0].data|, max, longs);
      WireStep(chunks, last, trailer, tail, total, max, longs, after);
    }
  }

  /** Decoding a well-formed message gives its data and leaves exactly what came behind it. */
  lemma WireDecodes(chunks: seq<Chunk>, last: string, trailer: seq<string>, tail: string, total: nat, max: nat,
                    longs: nat)
    requires WellFormed(chunks, last, trailer) && total + |Data(chunks)| <= max <= UINT64_MAX
    ensures Decode(Pos(0, total, Wire(chunks, last, trailer) + tail), max, longs)
         == Outcome(Data(chunks), 0, NoError, tail, false)
  {
    WireYields(chunks, last, trailer, tail, total, max, longs);
    assert From(Pos(0, total, Wire(chunks, last, trailer) + tail));
  }

  // ----- where a message goes wrong -----

  /** What may follow some good chunks: a chunk that would be too much, a size line that spells no
      number, data without a line end behind it, data cut off, or too many trailer lines. */
  datatype Flaw =
    | TooMuch(line: string, n: nat, more: string)
    | NoSize(line: string, more: string)
    | NoLineEnd(line: string, data: string, more: string)
    | CutOff(line: string, n: nat, part: string)
    | LongTrailer(line: string, lines: seq<string>, more: string)

  ghost predicate IsFlaw(f: Flaw, room: nat) {
    match f
    case TooMuch(line, n, _) => Announces(line, n) && room < n <= UINT64_MAX
    case NoSize(line, _) => Fits(line) && forall n: nat :: n <= UINT64_MAX ==> !Spells(Before(line, ';'), n)
    case NoLineEnd(line, data, more) =>
      Announces(line, |data|) && 0 < |data| <= room && |more| >= 2 && more[..2] != CRLF
    case CutOff(line, n, part) => Announces(line, n) && |part| < n <= room
    case LongTrailer(line, lines, _) =>
      Announces(line, 0) && |lines| == 33 && forall i :: 0 <= i < |lines| ==>
          lines[i] != "" && Fits(lines[i])
  }

  function Lines(lines: seq<string>, more: string): string {
    if lines == [] then more else lines[0] + CRLF + Lines(lines[1..], more)
  }

  function FlawText(f: Flaw): string {
    match f
    case TooMuch(line, _, more) => line + CRLF + more
    case NoSize(line, more) => line + CRLF + more
    case NoLineEnd(line, data, more) => line + CRLF + (data + more)
    case CutOff(line, _, part) => line + CRLF + part
    case LongTrailer(line, lines, more) => line + CRLF + Lines(lines, more)
  }

  /** What is delivered of it, the error told, and where reading stops. */
  function FlawOutcome(f: Flaw): Outcome {
    match f
    case TooMuch(_, _, more) => Outcome("", -1, TooLarge, more, false)
    case NoSize(_, more) => Outcome("", -1, Malformed, more, false)
    case NoLineEnd(_, data, more) => Outcome(data, -1, Malformed, more, false)
    case CutOff(_, _, part) => Outcome(part, -1, Io, "", false)
    case LongTrailer(_, _, more) => Outcome("", -1, Malformed, more, false)
  }

  lemma SizeFlawYields(f: Flaw, total: nat, max: nat, longs: nat)
    requires (f.TooMuch? || f.NoSize?) && total <= max && IsFlaw(f, max - total)
    ensures Yields(max, Pos(0, total, FlawText(f)), longs, FlawOutcome(f))
  {
    FirstLine(f.line, f.more);
    if f.TooMuch? {
      AnnouncedSize(f.line, f.n);
    } else if SizeOf(f.line).Some? {
      SizeIff(f.line, SizeOf(f.line).value);
    }
  }

  lemma DataFlawYields(f: Flaw, total: nat, max: nat, longs: nat)
    requires (f.NoLineEnd? || f.CutOff?) && total <= max <= UINT64_MAX && IsFlaw(f, max - total)
    ensures Yields(max, Pos(0, total, FlawText(f)), longs, FlawOutcome(f))
  {
    var n := if f.NoLineEnd? then |f.data| else f.n;
    var body := if f.NoLineEnd? then f.data + f.more else f.part;
    AnnouncedSize(f.line, n);
    SizeLineLeads(f.line, n, total, max, body);
    BodyFlawYields(f, n, total + n, max, longs);
    ThenYields(max, Pos(0, total, f.line + CRLF + body), "", Pos(n, total + n, body), longs, FlawOutcome(f));
    assert "" + FlawOutcome(f).data == FlawOutcome(f).data;
  }

  lemma NoCrlfHere(s: string)
    requires |s| >= 2 && s[..2] != CRLF
    ensures s[0] != '\r' || s[1] != '\n'
  {
    assert s[..2] == [s[0], s[1]];
  }

  lemma BodyFlawYields(f: Flaw, n: nat, total: nat, max: nat, longs: nat)
    requires f.NoLineEnd? ==> n == |f.data| > 0 && |f.more| >= 2 && f.more[..2] != CRLF
    requires f.CutOff? ==> |f.part| < n
    requires f.NoLineEnd? || f.CutOff?
    ensures Yields(max, Pos(n, total, if f.NoLineEnd? then f.data + f.more else f.part), longs, FlawOutcome(f))
  {
    if f.NoLineEnd? {
      var s := f.data + f.more;
      assert s[..n] == f.data && s[n..] == f.more;
      NoCrlfHere(f.more);
      assert WalkFrom(Pos(n, total, s), max, longs) == AfterData(f.data, total, max, f.more, longs);
    }
  }

  lemma {:induction false} TrailerOverflows(lines: seq<string>, more: string, n: nat, longs: nat)
    requires n + |lines| == 33 && lines != []
    requires forall i :: 0 <= i < |lines| ==> lines[i] != "" && Fits(lines[i])
    ensures Trailers(Lines(lines, more), n, longs) == Outcome("", -1, Malformed, more, false)
    decreases |lines|
  {
    var rest := Lines(lines[1..], more);
    FirstLine(lines[0], rest);
    if |lines| > 1 { TrailerOverflows(lines[1..], more, n + 1, longs); }
  }

  lemma TrailerFlawYields(f: Flaw, total: nat, max: nat, longs: nat)
    requires f.LongTrailer? && IsFlaw(f, 0)
    ensures Yields(max, Pos(0, total, FlawText(f)), longs, FlawOutcome(f))
  {
    var rest := Lines(f.lines, f.more);
    FirstLine(f.line, rest);
    AnnouncedSize(f.line, 0);
    ZeroThenTrailers(total, max, f.line + CRLF + rest, f.line, rest, 0, longs);
    TrailerOverflows(f.lines, f.more, 0, longs);
  }

  lemma FlawYields(f: Flaw, total: nat, max: nat, longs: nat)
    requires total <= max <= UINT64_MAX && IsFlaw(f, max - total)
    ensures Yields(max, Pos(0, total, FlawText(f)), longs, FlawOutcome(f)) && total + |FlawOutcome(f).data| <= max
  {
    if f.TooMuch? || f.NoSize? {
      SizeFlawYields(f, total, max, longs);
    } else if f.LongTrailer? {
      TrailerFlawYields(f, total, max, longs);
    } else {
      DataFlawYields(f, total, max, longs);
    }
  }

  /** Good chunks, then `rest`. */
  function Front(chunks: seq<Chunk>, rest: string): string {
    if chunks == [] then rest
    else chunks[0].line + CRLF + (chunks[0].data + (CRLF + Front(chunks[1..], rest)))
  }

  ghost predicate AllAnnounced(chunks: seq<Chunk>) {
    forall i :: 0 <= i < |chunks| ==> chunks[i].data != "" && Announces(chunks[i].line, |chunks[i].data|)
  }

  lemma {:induction false} FrontYields(chunks: seq<Chunk>, rest: string, total: nat, max: nat, longs: nat, o: Outcome)
    requires AllAnnounced(chunks) && total + |Data(chunks)| <= max <= UINT64_MAX
    requires Yields(max, Pos(0, total + |Data(chunks)|, rest), longs, o)
    ensures Yields(max, Pos(0, total, Front(chunks, rest)), longs, Prepend(Data(chunks), o))
    decreases |chunks|
  {
    if chunks == [] {
      assert "" + o.data == o.data;
    } else {
      var chunk, more := chunks[0], Front(chunks[1..], rest);
      var after := Prepend(Data(chunks[1..]), o);
      FrontYields(chunks[1..], rest, total + |chunk.data|, max, longs, o);
      assert more + "" == more && Front(chunks, rest) + "" == Front(chunks, rest);
      ChunkYields(chunk, more, "", total, max, longs, after);
      Assoc(chunk.data, Data(chunks[1..]), o.data);
    }
  }

  /** A message that goes wrong delivers the data of its good chunks, and what it still may of the bad
      one, and tells the error its flaw stands for; no more than `max` bytes are ever delivered. */
  lemma FlawsAreTold(chunks: seq<Chunk>, f: Flaw, total: nat, max: nat, longs: nat)
    requires AllAnnounced(chunks) && total + |Data(chunks)| <= max <= UINT64_MAX
    requires IsFlaw(f, max - total - |Data(chunks)|)
    ensures Decode(Pos(0, total, Front(chunks, FlawText(f))), max, longs) == Prepend(Data(chunks), FlawOutcome(f))
    ensures total + |Data(chunks)| + |FlawOutcome(f).data| <= max
  {
    FlawYields(f, total + |Data(chunks)|, max, longs);
    FrontYields(chunks, FlawText(f), total, max, longs, FlawOutcome(f));
    assert From(Pos(0, total, Front(chunks, FlawText(f))));
  }

  // ----- the gateway's own encoding -----

  function EncodeAll(chunks: seq<string>): string {
    if chunks == [] then EncodeEnd(Chunked) else EncodeChunk(Chunked, chunks[0]) + EncodeAll(chunks[1..])
  }

  function Concat(chunks: seq<string>): string {
    if chunks == [] then "" else chunks[0] + Concat(chunks[1..])
  }

  function Own(chunks: seq<string>): seq<Chunk> {
    if chunks == [] then [] else [Chunk(HexText(|chunks[0]|), chunks[0])] + Own(chunks[1..])
  }

  lemma PlainSize(n: nat)
    requires n <= UINT64_MAX
    ensures Announces(HexText(n), n)
  {
    HexRoundTrip(n);
    BeforeAbsent(HexText(n), ';');
    assert Zeros(0) + HexText(n) == HexText(n);
    assert SpellsBehind(HexText(n), n, 0);
  }

  /** What the encoder writes is a well-formed message of the same data. */
  lemma {:induction false} EncodedIsWire(chunks: seq<string>)
    requires (forall i :: 0 <= i < |chunks| ==> chunks[i] != "") && |Concat(chunks)| <= UINT64_MAX
    ensures WellFormed(Own(chunks), "0", []) && Data(Own(chunks)) == Concat(chunks)
    ensures EncodeAll(chunks) == Wire(Own(chunks), "0", [])
  {
    PlainSize(0);
    if chunks != [] {
      EncodedIsWire(chunks[1..]);
      var own := Own(chunks);
      PlainSize(|chunks[0]|);
      assert own[1..] == Own(chunks[1..]);
      assert forall i :: 1 <= i < |own| ==> own[i] == own[1..][i - 1];
      OwnChunk(HexText(|chunks[0]|), chunks[0], EncodeAll(chunks[1..]));
    }
  }

  lemma OwnChunk(size: string, data: string, more: string)
    ensures (size + CRLF + data + CRLF) + more == size + CRLF + (data + (CRLF + more))
  {
  }

  /** Decoding what was encoded gives the data back and leaves exactly what came behind it. */
  lemma DecodeInvertsEncode(chunks: seq<string>, tail: string, total: nat, max: nat, longs: nat)
    requires forall i :: 0 <= i < |chunks| ==> chunks[i] != ""
    requires total + |Concat(chunks)| <= max <= UINT64_MAX
    ensures Decode(Pos(0, total, EncodeAll(chunks) + tail), max, longs)
         == Outcome(Concat(chunks), 0, NoError, tail, false)
  {
    EncodedIsWire(chunks);
    WireDecodes(Own(chunks), "0", [], tail, total, max, longs);
  }

  /** Chunked round trip: for every well-formed message within the limit, from the gateway's encoder or
      any other, every byte string behind it, every split between buffer and socket and every
      fragmentation, the reader returns the data, finishes without error, and leaves exactly the
      bytes behind. */
  method ReadBack(r: BodyReader, ghost chunks: seq<Chunk>, ghost last: string, ghost trailer: seq<string>,
                  ghost tail: string)
    returns (n: int, all: string)
    requires r.Valid() && r.framing.Chunked? && !r.finished && r.error == NoError && r.left == 0 && r.total == 0
    requires WellFormed(chunks, last, trailer) && |Data(chunks)| <= r.max <= UINT64_MAX
    requires r.Unread() == Wire(chunks, last, trailer) + tail
    modifies r, r.buf, r.buf.data, r.sock
    ensures r.Valid() && n == 0 && all == Data(chunks) && r.finished && r.error == NoError && r.Unread() == tail
  {
    ghost var longs;
    ghost var max := r.max;
    n, all, longs := Drain(r);
    WireDecodes(chunks, last, trailer, tail, 0, max, longs);
  }
}
