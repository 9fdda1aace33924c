/** The control plane's frames (src/ipban/proto.cpp): a 20-byte big-endian head and a body, written
    and read over sockets that may cut the bytes anywhere. Bytes are chars. */
module Proto {
  import opened Rules
  import opened Buf

  const MAGIC: nat := 0x42414e31
  const VERSION: nat := 2
  const MAX_BODY: nat := 8 * 1024 * 1024
  const HEAD: nat := 20

  datatype Head = Head(magic: nat, version: nat, kind: nat, bodyLen: nat, seq_: nat)

  datatype Msg = Msg(kind: nat, seq_: nat, body: string)

  datatype FrameErr = NoFrameErr | ShortHead | BadMagic | BadVer | BadKind | TooBig | ShortBody

  datatype MsgRet = Ok | Closed | BadMsg | IoErr

  /** HELLO (1) to RESULT (15), without a gap. */
  predicate KnownKind(kind: nat) { 1 <= kind <= 15 }

  predicate Sendable(m: Msg) {
    KnownKind(m.kind) && |m.body| <= MAX_BODY && m.seq_ <= UINT64_MAX
  }

  // ----- big-endian numbers -----

  function Pow256(w: nat): (p: nat)
    ensures p > 0
  {
    if w == 0 then 1 else 256 * Pow256(w - 1)
  }

  function Be(v: nat, w: nat): (s: string)
    ensures |s| == w
  {
    if w == 0 then "" else Be(v / 256, w - 1) + [(v % 256) as char]
  }

  function Value(s: string): nat {
    if s == "" then 0 else Value(s[..|s| - 1]) * 256 + s[|s| - 1] as nat
  }

  lemma {:induction false} ValueOfBe(v: nat, w: nat)
    requires v < Pow256(w)
    ensures Value(Be(v, w)) == v
  {
    if w > 0 {
      ValueOfBe(v / 256, w - 1);
      assert Be(v, w)[..w - 1] == Be(v / 256, w - 1);
    }
  }

  /** The number two bytes give, and four, the highest byte first. */
  function Two(s: string): nat
    requires |s| == 2
  {
    0x100 * s[0] as nat + s[1] as nat
  }

  function Four(s: string): nat
    requires |s| == 4
  {
    0x100_0000 * s[0] as nat + 0x1_0000 * s[1] as nat + 0x100 * s[2] as nat + s[3] as nat
  }

  lemma {:induction false} ValueSplits(s: string, k: nat)
    requires k <= |s|
    ensures Value(s) == Value(s[..k]) * Pow256(|s| - k) + Value(s[k..])
  {
    if k == |s| {
      assert s[..k] == s;
    } else {
      var init := s[..|s| - 1];
      ValueSplits(init, k);
      assert init[..k] == s[..k] && init[k..] == s[k..][..|s| - k - 1] && s[k..][|s| - k - 1] == s[|s| - 1];
      Shifted(Value(s[..k]), Pow256(|s| - k - 1), Value(init[k..]));
    }
  }

  lemma Shifted(a: nat, p: nat, b: nat)
    ensures (a * p + b) * 256 == a * (256 * p) + b * 256
  {
  }

  lemma {:induction false} SmallValues(s: string)
    ensures |s| == 2 ==> Value(s) == Two(s)
    ensures |s| == 4 ==> Value(s) == Four(s)
    ensures |s| == 8 ==> Value(s) == 0x1_0000_0000 * Four(s[..4]) + Four(s[4..])
  {
    if |s| == 8 {
      ValueSplits(s, 4);
      Powers();
      SmallValues(s[..4]);
      SmallValues(s[4..]);
    } else if |s| == 4 {
      var high, low := s[..2], s[2..];
      ValueSplits(s, 2);
      Powers();
      SmallValues(high);
      SmallValues(low);
      assert low[0] == s[2] && low[1] == s[3];
    } else if |s| == 2 {
      var first := s[..1];
      assert first[..0] == "" && Value(first) == s[0] as nat;
      assert s[..|s| - 1] == first;
    }
  }

  lemma StoreOne(before: string, at: nat, low: string, tail: string, c: char)
    requires at < |before|
    ensures (before[..at + 1] + low + tail)[at := c] == before[..at] + ([c] + low) + tail
  {
  }

  lemma BeNext(left: nat, i: nat, low: string)
    ensures Be(left, i + 1) + low == Be(left / 256, i) + ([(left % 256) as char] + low)
  {
  }

  /** Stores a number at `p`, highest byte first, and returns the place behind it. */
  method Put(b: array<char>, p: nat, v: nat, w: nat) returns (q: nat)
    requires p + w <= b.Length
    modifies b
    ensures q == p + w && b[..] == old(b[..p]) + Be(v, w) + old(b[p + w..])
    ensures b[..q] == old(b[..p]) + Be(v, w)
  {
    var i, left := w, v;
    ghost var before, tail, low := b[..], b[p + w..], "";
    assert Be(v, w) + low == Be(v, w);
    assert before == before[..p + w] + low + tail;
    while i > 0
      invariant 0 <= i <= w && |low| == w - i
      invariant b[..] == before[..p + i] + low + tail
      invariant Be(v, w) == Be(left, i) + low
    {
      i := i - 1;
      BeNext(left, i, low);
      StoreOne(before, p + i, low, tail, (left % 256) as char);
      b[p + i] := (left % 256) as char;
      low := [(left % 256) as char] + low;
      left := left / 256;
    }
    assert before[..p + 0] == old(b[..p]) && Be(left, 0) + low == low;
    return p + w;
  }

  method Get(b: array<char>, p: nat, w: nat) returns (v: nat, q: nat)
    requires p + w <= b.Length
    ensures v == Value(b[p..p + w]) && q == p + w
  {
    v := 0;
    var i := 0;
    while i < w
      invariant 0 <= i <= w && v == Value(b[p..p + i])
    {
      assert b[p..p + i + 1][..i] == b[p..p + i];
      v := v * 256 + b[p + i] as nat;
      i := i + 1;
    }
    return v, p + w;
  }

  // ----- heads -----

  function HeadBytes(h: Head): (s: string)
    ensures |s| == HEAD
  {
    Be(h.magic, 4) + Be(h.version, 2) + Be(h.kind, 2) + Be(h.bodyLen, 4) + Be(h.seq_, 8)
  }

  function HeadOf(s: string): Head
    requires |s| == HEAD
  {
    Head(Value(s[0..4]), Value(s[4..6]), Value(s[6..8]), Value(s[8..12]), Value(s[12..20]))
  }

  function Check(h: Head): FrameErr {
    if h.magic != MAGIC then BadMagic
    else if h.version != VERSION then BadVer
    else if !KnownKind(h.kind) then BadKind
    else if h.bodyLen > MAX_BODY then TooBig
    else NoFrameErr
  }

  method PackHead(h: Head) returns (b: array<char>)
    ensures fresh(b) && b[..] == HeadBytes(h)
  {
    b := new char[HEAD];
    var p := Put(b, 0, h.magic, 4);
    p := Put(b, p, h.version, 2);
    p := Put(b, p, h.kind, 2);
    p := Put(b, p, h.bodyLen, 4);
    p := Put(b, p, h.seq_, 8);
    assert b[..p] == b[..];
  }

  method HeadErr(b: array<char>) returns (err: FrameErr, h: Head)
    requires b.Length == HEAD
    ensures h == HeadOf(b[..]) && err == Check(h)
    ensures err == BadMagic <==> h.magic != 0x42414e31
    ensures err == BadVer <==> h.magic == 0x42414e31 && h.version != 2
    ensures err == BadKind <==> h.magic == 0x42414e31 && h.version == 2 && !(1 <= h.kind <= 15)
    ensures err == TooBig <==> h.magic == 0x42414e31 && h.version == 2 && 1 <= h.kind <= 15 && h.bodyLen > 8388608
    ensures err == NoFrameErr <==>
              h.magic == 0x42414e31 && h.version == 2 && 1 <= h.kind <= 15 && h.bodyLen <= 8388608
  {
    var p := 0;
    var magic, version, kind, bodyLen, seq_;
    magic, p := Get(b, p, 4);
    version, p := Get(b, p, 2);
    kind, p := Get(b, p, 2);
    bodyLen, p := Get(b, p, 4);
    seq_, p := Get(b, p, 8);
    h := Head(magic, version, kind, bodyLen, seq_);
    assert b[..][0..4] == b[0..4] && b[..][4..6] == b[4..6] && b[..][6..8] == b[6..8];
    assert b[..][8..12] == b[8..12] && b[..][12..20] == b[12..20];
    err := Check(h);
  }

  lemma HeadRoundTrip(h: Head)
    requires h.magic < Pow256(4) && h.version < Pow256(2) && h.kind < Pow256(2) && h.bodyLen < Pow256(4)
               && h.seq_ < Pow256(8)
    ensures HeadOf(HeadBytes(h)) == h
  {
    var s := HeadBytes(h);
    assert s[0..4] == Be(h.magic, 4) && s[4..6] == Be(h.version, 2) && s[6..8] == Be(h.kind, 2);
    assert s[8..12] == Be(h.bodyLen, 4) && s[12..20] == Be(h.seq_, 8);
    ValueOfBe(h.magic, 4);
    ValueOfBe(h.version, 2);
    ValueOfBe(h.kind, 2);
    ValueOfBe(h.bodyLen, 4);
    ValueOfBe(h.seq_, 8);
  }

  // ----- one message -----

  function Frame(m: Msg): string {
    HeadBytes(Head(MAGIC, VERSION, m.kind, |m.body|, m.seq_)) + m.body
  }

  /** A frame byte by byte: BAN1, then version, kind, length and number of the message, each with its
      highest byte first, then the body. */
  lemma FrameBytes(m: Msg)
    requires Sendable(m)
    ensures var f := Frame(m);
            && |f| == 20 + |m.body| && f[20..] == m.body && f[..4] == "BAN1"
            && Two(f[4..6]) == 2 && Two(f[6..8]) == m.kind && Four(f[8..12]) == |m.body|
            && 0x1_0000_0000 * Four(f[12..16]) + Four(f[16..20]) == m.seq_
  {
    var f := Frame(m);
    Powers();
    assert f[0..4] == Be(MAGIC, 4) && f[4..6] == Be(VERSION, 2) && f[6..8] == Be(m.kind, 2);
    assert f[8..12] == Be(|m.body|, 4) && f[12..20] == Be(m.seq_, 8);
    ValueOfBe(MAGIC, 4);
    ValueOfBe(VERSION, 2);
    ValueOfBe(m.kind, 2);
    ValueOfBe(|m.body|, 4);
    ValueOfBe(m.seq_, 8);
    SmallValues(f[..4]);
    SmallValues(f[4..6]);
    SmallValues(f[6..8]);
    SmallValues(f[8..12]);
    SmallValues(f[12..20]);
    assert f[12..20][..4] == f[12..16] && f[12..20][4..] == f[16..20];
    MagicText(f[..4]);
  }

  lemma MagicText(s: string)
    requires |s| == 4 && Four(s) == 0x42414e31 && forall i :: 0 <= i < 4 ==> s[i] as nat < 256
    ensures s == "BAN1"
  {
    assert s[0] == 'B' && s[1] == 'A' && s[2] == 'N' && s[3] == '1';
  }

  datatype Got = GotMsg(msg: Msg, rest: string) | End(ret: MsgRet, err: FrameErr)

  function Gone(broken: bool): MsgRet { if broken then IoErr else Closed }

  /** What a receiver makes of a stream that ends in a close, or in an error. */
  function Parse(s: string, broken: bool): Got {
    if s == "" then End(Gone(broken), NoFrameErr)
    else if |s| < HEAD then End(BadMsg, ShortHead)
    else
      var h := HeadOf(s[..HEAD]);
      var rest := s[HEAD..];
      if Check(h) != NoFrameErr then End(BadMsg, Check(h))
      else if |rest| < h.bodyLen then
        if rest == "" && broken then End(IoErr, NoFrameErr) else End(BadMsg, ShortBody)
      else GotMsg(Msg(h.kind, h.seq_, rest[..h.bodyLen]), rest[h.bodyLen..])
  }

  /** Reads until `len` bytes are there or the stream ends, however it is cut. */
  method ReadExact(sock: Sock, len: nat) returns (r: MsgRet, data: array<char>, got: nat)
    modifies sock
    ensures fresh(data) && data.Length == len && got <= len
    ensures r == Ok <==> |old(sock.rest)| >= len
    ensures r == Ok ==> got == len && data[..] == old(sock.rest)[..len] && sock.rest == old(sock.rest)[len..]
    ensures r != Ok ==> r == Gone(sock.broken) && got == |old(sock.rest)| && sock.rest == ""
  {
    data := new char[len];
    got := 0;
    while got < len
      invariant got <= len
      invariant data[..got] + sock.rest == old(sock.rest)
      modifies data, sock
    {
      var n, piece := sock.Recv(len - got);
      if n <= 0 {
        assert got == |old(sock.rest)|;
        return if n < 0 then IoErr else Closed, data, got;
      }
      forall i | 0 <= i < |piece| {
        data[got + i] := piece[i];
      }
      assert data[..got + n] == data[..got] + piece;
      got := got + n;
    }
    assert data[..got] == data[..];
    return Ok, data, got;
  }

  method RecvMsg(sock: Sock) returns (r: MsgRet, err: FrameErr, msg: Msg)
    modifies sock
    ensures match Parse(old(sock.rest), sock.broken)
            case GotMsg(m, rest) => r == Ok && msg == m && sock.rest == rest && err == NoFrameErr
            case End(ret, e) => r == ret && r != Ok && err == e
  {
    msg := Msg(6, 0, "");
    ghost var s := sock.rest;
    var head, got;
    r, head, got := ReadExact(sock, HEAD);
    if r != Ok {
      if got > 0 { return BadMsg, ShortHead, msg; }
      return r, NoFrameErr, msg;
    }
    var h;
    err, h := HeadErr(head);
    if err != NoFrameErr { return BadMsg, err, msg; }
    msg := Msg(h.kind, h.seq_, "");
    if h.bodyLen > 0 {
      var body;
      r, body, got := ReadExact(sock, h.bodyLen);
      if r != Ok {
        if got > 0 || r == Closed { return BadMsg, ShortBody, msg; }
        return r, NoFrameErr, msg;
      }
      msg := msg.(body := body[..]);
    }
    return Ok, NoFrameErr, msg;
  }

  // ----- sending -----

  /** The sending end: takes as much of each write as `cuts` says, until `room` is used up. */
  class Sink {
    var written: string
    var room: nat
    var cuts: seq<nat>

    constructor (room: nat, cuts: seq<nat>)
      ensures written == "" && this.room == room && this.cuts == cuts
    {
      written, this.room, this.cuts := "", room, cuts;
    }

    method Send(bytes: string) returns (n: int)
      requires bytes != ""
      modifies this
      ensures n <= |bytes| && n <= old(room) && (n > 0 <==> old(room) > 0)
      ensures n > 0 ==> written == old(written) + bytes[..n] && room == old(room) - n
      ensures n <= 0 ==> written == old(written) && room == old(room)
    {
      if room == 0 { return -1; }
      var k := if cuts == [] || cuts[0] == 0 then |bytes| else cuts[0];
      if k > |bytes| { k := |bytes|; }
      if k > room { k := room; }
      if cuts != [] { cuts := cuts[1..]; }
      written := written + bytes[..k];
      room := room - k;
      return k;
    }
  }

  /** All of it, or, when the connection fails, a part from the front. */
  method SendAll(sink: Sink, bytes: string) returns (ok: bool)
    modifies sink
    ensures ok <==> |bytes| <= old(sink.room)
    ensures ok ==> sink.written == old(sink.written) + bytes
    ensures !ok ==> sink.written == old(sink.written) + bytes[..old(sink.room)]
  {
    var sent := 0;
    assert old(sink.written) + bytes[..0] == old(sink.written);
    while sent < |bytes|
      invariant 0 <= sent <= |bytes| && sent + sink.room == old(sink.room)
      invariant sink.written == old(sink.written) + bytes[..sent]
    {
      var n := sink.Send(bytes[sent..]);
      if n <= 0 { return false; }
      assert bytes[..sent] + bytes[sent..][..n] == bytes[..sent + n];
      sent := sent + n;
    }
    assert bytes[..sent] == bytes;
    return true;
  }

  method SendMsg(sink: Sink, m: Msg) returns (ok: bool, err: FrameErr)
    requires m.kind < 0x1_0000 && m.seq_ <= UINT64_MAX
    modifies sink
    ensures err == if !KnownKind(m.kind) then BadKind else if |m.body| > MAX_BODY then TooBig else NoFrameErr
    ensures ok <==> Sendable(m) && |Frame(m)| <= old(sink.room)
    ensures ok ==> sink.written == old(sink.written) + Frame(m)
    ensures err != NoFrameErr ==> sink.written == old(sink.written)
  {
    if !KnownKind(m.kind) { return false, BadKind; }
    if |m.body| > MAX_BODY { return false, TooBig; }
    var head := PackHead(Head(MAGIC, VERSION, m.kind, |m.body|, m.seq_));
    ok := SendAll(sink, head[..] + m.body);
    return ok, NoFrameErr;
  }

  // ----- whole streams -----

  function Frames(ms: seq<Msg>): string {
    if ms == [] then "" else Frame(ms[0]) + Frames(ms[1..])
  }

  /** The messages of a stream, and how it ended. */
  datatype Stream = Stream(ms: seq<Msg>, ret: MsgRet, err: FrameErr)

  function After(ms: seq<Msg>, s: Stream): Stream { s.(ms := ms + s.ms) }

  function ParseAll(s: string, broken: bool): Stream
    decreases |s|
  {
    match Parse(s, broken)
    case End(ret, err) => Stream([], ret, err)
    case GotMsg(m, rest) => After([m], ParseAll(rest, broken))
  }

  lemma AfterBoth(a: seq<Msg>, b: seq<Msg>, s: Stream)
    ensures After(a, After(b, s)) == After(a + b, s) && After([], s) == s
  {
    assert a + (b + s.ms) == (a + b) + s.ms;
    assert [] + s.ms == s.ms;
  }

  lemma Powers()
    ensures Pow256(2) == 0x1_0000 && Pow256(4) == 0x1_0000_0000 && Pow256(8) == UINT64_MAX + 1
  {
    assert Pow256(4) == 256 * (256 * Pow256(2));
    assert Pow256(6) == 256 * (256 * Pow256(4));
    assert Pow256(8) == 256 * (256 * Pow256(6));
  }

  lemma FrameParses(m: Msg, rest: string, broken: bool)
    requires Sendable(m)
    ensures Parse(Frame(m) + rest, broken) == GotMsg(m, rest)
  {
    var h := Head(MAGIC, VERSION, m.kind, |m.body|, m.seq_);
    Powers();
    HeadRoundTrip(h);
    Cut(HeadBytes(h), m.body, rest);
    HeadThenBody(h, Frame(m) + rest, m.body, rest, broken);
  }

  lemma Cut(head: string, body: string, rest: string)
    ensures (head + body + rest)[..|head|] == head
    ensures (head + body + rest)[|head|..] == body + rest
    ensures (body + rest)[..|body|] == body && (body + rest)[|body|..] == rest
  {
  }

  lemma HeadThenBody(h: Head, s: string, body: string, rest: string, broken: bool)
    requires |s| >= HEAD && HeadOf(s[..HEAD]) == h && Check(h) == NoFrameErr && h.bodyLen == |body|
    requires s[HEAD..] == body + rest && (body + rest)[..|body|] == body && (body + rest)[|body|..] == rest
    ensures Parse(s, broken) == GotMsg(Msg(h.kind, h.seq_, body), rest)
  {
  }

  /** A frame cut anywhere inside yields no message: a bad one, unless the stream broke off right
      behind the head. */
  lemma CutFrameIsNoMessage(m: Msg, part: string, broken: bool)
    requires Sendable(m) && part <= Frame(m) && 0 < |part| < |Frame(m)|
    ensures Parse(part, broken).End?
    ensures Parse(part, broken) == if |part| < HEAD then End(BadMsg, ShortHead)
                                   else if |part| == HEAD && broken then End(IoErr, NoFrameErr)
                                   else End(BadMsg, ShortBody)
  {
    if |part| >= HEAD {
      var h := Head(MAGIC, VERSION, m.kind, |m.body|, m.seq_);
      Powers();
      HeadRoundTrip(h);
      assert part[..HEAD] == Frame(m)[..HEAD] == HeadBytes(h);
    }
  }

  lemma Joined(a: string, b: string, c: string)
    ensures (a + b) + c == a + (b + c)
  {
  }

  /** Whole frames parse to their messages, then whatever follows parses on its own. */
  lemma {:induction false} FramesParse(ms: seq<Msg>, tail: string, broken: bool)
    requires forall i :: 0 <= i < |ms| ==> Sendable(ms[i])
    ensures ParseAll(Frames(ms) + tail, broken) == After(ms, ParseAll(tail, broken))
  {
    if ms == [] {
      assert Frames(ms) + tail == tail;
    } else {
      FramesParse(ms[1..], tail, broken);
      Joined(Frame(ms[0]), Frames(ms[1..]), tail);
      FrameThen(ms[0], Frames(ms[1..]) + tail, broken);
      AfterBoth([ms[0]], ms[1..], ParseAll(tail, broken));
      assert ms == [ms[0]] + ms[1..];
    }
  }

  /** A stream cut anywhere yields the messages whose frames came through whole, and no other. */
  lemma {:induction false} CutGivesAPrefix(ms: seq<Msg>, s: string, broken: bool) returns (k: nat)
    requires forall i :: 0 <= i < |ms| ==> Sendable(ms[i])
    requires s <= Frames(ms)
    ensures k <= |ms| && ParseAll(s, broken).ms == ms[..k] && |Frames(ms[..k])| <= |s|
    ensures k < |ms| ==> |s| < |Frames(ms[..k + 1])|
  {
    if ms == [] {
      k := 0;
    } else {
      var f := Frame(ms[0]);
      if |s| < |f| {
        k := 0;
        CutInFirst(ms, s, broken);
      } else {
        var rest := s[|f|..];
        assert s == f + rest;
        k := CutGivesAPrefix(ms[1..], rest, broken);
        FrameThen(ms[0], rest, broken);
        PrefixFrames(ms, k);
        if k + 1 < |ms| { PrefixFrames(ms, k + 1); }
        k := k + 1;
      }
    }
  }

  lemma CutInFirst(ms: seq<Msg>, s: string, broken: bool)
    requires ms != [] && Sendable(ms[0]) && s <= Frames(ms) && |s| < |Frame(ms[0])|
    ensures ParseAll(s, broken).ms == [] && ms[..0] == [] && |Frames(ms[..0])| <= |s| < |Frames(ms[..1])|
  {
    assert ms[..1][1..] == [];
    assert s <= Frame(ms[0]);
    if s != "" { CutFrameIsNoMessage(ms[0], s, broken); }
  }

  lemma PrefixFrames(ms: seq<Msg>, k: nat)
    requires k + 1 <= |ms|
    ensures ms[..k + 1] == [ms[0]] + ms[1..][..k]
    ensures Frames(ms[..k + 1]) == Frame(ms[0]) + Frames(ms[1..][..k])
  {
    assert ms[..k + 1][1..] == ms[1..][..k];
  }

  lemma FrameThen(m: Msg, rest: string, broken: bool)
    requires Sendable(m)
    ensures ParseAll(Frame(m) + rest, broken) == After([m], ParseAll(rest, broken))
  {
    FrameParses(m, rest, broken);
  }

  /** Receives until the stream gives no further message. */
  method RecvAllMsgs(sock: Sock) returns (ms: seq<Msg>, last: MsgRet, err: FrameErr)
    modifies sock
    ensures Stream(ms, last, err) == ParseAll(old(sock.rest), sock.broken)
  {
    ms, last, err := [], Ok, NoFrameErr;
    ghost var spec := ParseAll(sock.rest, sock.broken);
    AfterBoth([], [], spec);
    while last == Ok
      invariant last == Ok ==> spec == After(ms, ParseAll(sock.rest, sock.broken))
      invariant last != Ok ==> spec == Stream(ms, last, err)
      decreases last == Ok, |sock.rest|
    {
      ghost var before := sock.rest;
      var m;
      last, err, m := RecvMsg(sock);
      if last == Ok {
        AfterBoth(ms, [m], ParseAll(sock.rest, sock.broken));
        ms := ms + [m];
      } else {
        assert ParseAll(before, sock.broken) == Stream([], last, err);
        assert ms + [] == ms;
      }
    }
  }

  /** Stream round trip: however the bytes are cut, a receiver gets exactly the messages sent, then
      the close; and if the stream is cut inside the next frame it still gets only those. */
  method StreamRoundTrip(sock: Sock, ghost sent: seq<Msg>, ghost next: Msg, ghost part: string)
      returns (ms: seq<Msg>, last: MsgRet, err: FrameErr)
    requires forall i :: 0 <= i < |sent| ==> Sendable(sent[i])
    requires Sendable(next) && part <= Frame(next) && |part| < |Frame(next)|
    requires sock.rest == Frames(sent) + part
    modifies sock
    ensures ms == sent && last != Ok
    ensures part == "" ==> last == Gone(sock.broken) && err == NoFrameErr
    ensures part != "" && !sock.broken ==> last == BadMsg && (err == ShortHead || err == ShortBody)
  {
    FramesParse(sent, part, sock.broken);
    if part != "" { CutFrameIsNoMessage(next, part, sock.broken); }
    ms, last, err := RecvAllMsgs(sock);
  }
}
