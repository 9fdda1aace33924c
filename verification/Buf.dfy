/** The connection's read buffer over a movable array, and the socket it fills from
    (src/gateway/buf.cpp). Bytes are chars, as in the source. */
module Buf {

  const SIZE_MAX: nat := 0xFFFF_FFFF_FFFF_FFFF
  const FILL: nat := 4096

  /** How many of `n` remaining bytes one read gives; a cut of 0, or none, means all that fits. */
  function Piece(n: nat, cuts: seq<nat>, max: nat): (k: nat)
    requires n > 0 && max > 0
    ensures 0 < k <= n && k <= max
  {
    var k := if cuts == [] || cuts[0] == 0 || cuts[0] > max then max else cuts[0];
    if k > n then n else k
  }

  /** Cuts can be anything: any number of the remaining bytes that fits may come first. */
  lemma AnyPieceMayCome(n: nat, max: nat, k: nat, later: seq<nat>)
    requires 0 < k <= n && k <= max
    ensures Piece(n, [k] + later, max) == k && Later([k] + later) == later
  {
  }

  function Later(cuts: seq<nat>): seq<nat> {
    if cuts == [] then [] else cuts[1..]
  }

  /** The receiving end of a socket: `rest` is what the peer will still deliver, `cuts` how the
      network will cut it, and `broken` whether it ends in an error rather than a close. */
  class Sock {
    var rest: string
    var cuts: seq<nat>
    const broken: bool

    constructor (stream: string, cuts: seq<nat>, broken: bool)
      ensures rest == stream && this.cuts == cuts && this.broken == broken
    {
      rest, this.cuts, this.broken := stream, cuts, broken;
    }

    method Recv(max: nat) returns (n: int, got: string)
      requires max > 0
      modifies this
      ensures n > 0 <==> old(rest) != ""
      ensures n > 0 ==> n == |got| == Piece(|old(rest)|, old(cuts), max) && old(rest) == got + rest
      ensures n <= 0 ==> got == "" && rest == old(rest) && (n < 0 <==> broken)
      ensures cuts == if n > 0 then Later(old(cuts)) else old(cuts)
    {
      if rest == "" {
        return if broken then -1 else 0, "";
      }
      var k := Piece(|rest|, cuts, max);
      cuts := Later(cuts);
      n, got, rest := k, rest[..k], rest[k..];
    }
  }

  predicate PowerOfTwo(n: nat) {
    n == 1 || (n > 1 && n % 2 == 0 && PowerOfTwo(n / 2))
  }

  /** Smallest power of two from `v` up, or the largest size when none fits (ceil_pow2). */
  function CeilPow2(v: nat): (r: nat)
    requires v <= SIZE_MAX
    ensures v > 0x8000_0000_0000_0000 ==> r == SIZE_MAX
    ensures v <= 0x8000_0000_0000_0000 ==> PowerOfTwo(r) && r >= v && (v > 0 ==> r < 2 * v)
  {
    if v <= 1 then 1
    else if v > 0x8000_0000_0000_0000 then SIZE_MAX
    else
      var half := CeilPow2((v + 1) / 2);
      assert half == 1 || half % 2 == 0;
      2 * half
  }

  /** Three quarters of the memory, or 64 KiB. */
  predicate WorthIt(now: nat, least: nat) {
    least < now && (4 * least <= now || now - least >= 64 * 1024)
  }

  function Largest(a: nat, b: nat, c: nat): nat {
    if a >= b && a >= c then a else if b >= c then b else c
  }

  /** The four bytes that end a header block. */
  predicate EmptyLineAt(c: string, k: nat) {
    k + 3 < |c| && c[k] == '\r' && c[k + 1] == '\n' && c[k + 2] == '\r' && c[k + 3] == '\n'
  }

  class InBuf {
    var data: array<char>
    var rpos: nat
    var wpos: nat

    ghost predicate Valid()
      reads this
    {
      rpos <= wpos <= data.Length <= SIZE_MAX && data.Length > 0
    }

    /** The readable bytes. */
    function Contents(): string
      requires Valid()
      reads this, data
    {
      data[rpos..wpos]
    }

    constructor (capacity: nat)
      requires capacity <= SIZE_MAX
      ensures Valid() && fresh(data) && Contents() == ""
      ensures data.Length == if capacity == 0 then 1 else capacity
    {
      data := new char[if capacity == 0 then 1 else capacity];
      rpos, wpos := 0, 0;
    }

    /** Moves the readable bytes to the front, and to a larger array if that is not enough; fails
        only when the capacity would pass what a size can hold. */
    method EnsureWritable(need: nat) returns (ok: bool)
      requires Valid() && need <= SIZE_MAX
      modifies this, data
      ensures Valid() && (data == old(data) || fresh(data))
      ensures Contents() == old(Contents())
      ensures ok ==> data.Length - wpos >= need
      ensures data.Length >= old(data.Length)
      ensures old(wpos - rpos) + need <= SIZE_MAX / 2 ==> ok
    {
      if data.Length - wpos >= need { return true; }
      var r := wpos - rpos;
      if rpos > 0 {
        forall i | 0 <= i < r {
          data[i] := data[rpos + i];
        }
        rpos, wpos := 0, r;
      }
      assert Contents() == old(Contents());
      if data.Length - wpos >= need { return true; }
      if need > SIZE_MAX - wpos { return false; }
      var doubled := data.Length * 2;
      if doubled > SIZE_MAX { return false; }
      var newCap := doubled;
      while newCap - wpos < need
        invariant doubled <= newCap <= SIZE_MAX
        decreases SIZE_MAX - newCap
      {
        if newCap > SIZE_MAX / 2 { return false; }
        newCap := newCap * 2;
      }
      var newData := new char[newCap];
      forall i | 0 <= i < wpos {
        newData[i] := data[i];
      }
      data := newData;
      assert Contents() == old(Contents());
      return true;
    }

    method Append(bytes: string) returns (ok: bool)
      requires Valid() && |bytes| <= SIZE_MAX
      modifies this, data
      ensures Valid() && (data == old(data) || fresh(data))
      ensures Contents() == if ok then old(Contents()) + bytes else old(Contents())
      ensures old(wpos - rpos) + |bytes| <= SIZE_MAX / 2 ==> ok
    {
      ok := EnsureWritable(|bytes|);
      if ok { Put(bytes); }
    }

    /** Copies bytes behind the readable ones. */
    method Put(bytes: string)
      requires Valid() && |bytes| <= data.Length - wpos
      modifies this`wpos, data
      ensures Valid() && Contents() == old(Contents()) + bytes
    {
      forall i | 0 <= i < |bytes| {
        data[wpos + i] := bytes[i];
      }
      wpos := wpos + |bytes|;
      assert data[rpos..wpos] == old(data[rpos..wpos]) + bytes;
    }

    /** Reads once from the socket: what leaves the socket arrives behind the readable bytes. */
    method Fill(sock: Sock) returns (n: int)
      requires Valid() && wpos - rpos <= SIZE_MAX / 4
      modifies this, data, sock
      ensures Valid() && (data == old(data) || fresh(data))
      ensures Contents() + sock.rest == old(Contents()) + old(sock.rest)
      ensures n > 0 <==> old(sock.rest) != ""
      ensures n > 0 ==> n == Piece(|old(sock.rest)|, old(sock.cuts), FILL) && |Contents()| == |old(Contents())| + n
      ensures sock.cuts == if n > 0 then Later(old(sock.cuts)) else old(sock.cuts)
      ensures n <= 0 ==> Contents() == old(Contents()) && sock.rest == "" && (n < 0 <==> sock.broken)
    {
      var ok := EnsureWritable(FILL);
      var got;
      n, got := sock.Recv(FILL);
      if n > 0 { Put(got); }
    }

    method Consume(n: nat)
      requires Valid()
      modifies this`rpos, this`wpos
      ensures Valid()
      ensures Contents() == if n >= |old(Contents())| then "" else old(Contents())[n..]
    {
      if n >= wpos - rpos {
        rpos, wpos := 0, 0;
      } else {
        rpos := rpos + n;
      }
    }

    /** Gives memory back when it is worth it, keeping the readable bytes and the asked room. */
    method Trim(minCapacity: nat, reserve: nat, denied: bool) returns (shrunk: bool)
      requires Valid() && minCapacity <= SIZE_MAX && reserve <= SIZE_MAX
      modifies this
      ensures Valid() && (data == old(data) || fresh(data))
      ensures Contents() == old(Contents())
      ensures !shrunk ==> data == old(data) && rpos == old(rpos) && wpos == old(wpos)
      ensures var r := |old(Contents())|;
              && (r + reserve > SIZE_MAX ==> !shrunk)
              && (r + reserve <= SIZE_MAX ==>
                    var least := CeilPow2(Largest(minCapacity, r + reserve, 1));
                    && (shrunk <==> !denied && WorthIt(old(data.Length), least))
                    && (shrunk ==> data.Length == least))
      ensures shrunk ==> data.Length >= |Contents()| + reserve && data.Length >= minCapacity
      ensures shrunk ==> 4 * data.Length <= old(data.Length) || data.Length + 64 * 1024 <= old(data.Length)
    {
      var r := wpos - rpos;
      assert r == |Contents()|;
      if reserve > SIZE_MAX - r { return false; }
      var needed := r + reserve;
      var target := if minCapacity > needed then minCapacity else needed;
      if target == 0 { target := 1; }
      target := CeilPow2(target);
      if target < needed || target < minCapacity || target >= data.Length { return false; }
      if !(target <= data.Length / 4) && !(data.Length - target >= 64 * 1024) { return false; }
      if denied { return false; }
      MoveTo(target);
      return true;
    }

    /** The readable bytes go to the front of an array of another size. */
    method MoveTo(size: nat)
      requires Valid() && wpos - rpos <= size <= SIZE_MAX && size > 0
      modifies this
      ensures Valid() && fresh(data) && data.Length == size && Contents() == old(Contents())
    {
      var r := wpos - rpos;
      var newData := new char[size];
      forall i | 0 <= i < r {
        newData[i] := data[rpos + i];
      }
      data, rpos, wpos := newData, 0, r;
      assert Contents() == old(Contents());
    }

    /** The length of the header block, up to and with its empty line; 0 when it is not complete. */
    method FindHeaderEnd() returns (n: nat)
      requires Valid()
      ensures n == 0 ==> forall k :: !EmptyLineAt(Contents(), k)
      ensures n > 0 ==> n >= 4 && EmptyLineAt(Contents(), n - 4) && forall k :: 0 <= k < n - 4 ==>
                !EmptyLineAt(Contents(), k)
    {
      var len := wpos - rpos;
      if len < 4 { return 0; }
      ghost var c := Contents();
      var i := 0;
      while i + 3 < len
        invariant 0 <= i <= len - 3
        invariant forall k :: 0 <= k < i ==> !EmptyLineAt(c, k)
      {
        assert c[i] == data[rpos + i] && c[i + 1] == data[rpos + i + 1]
            && c[i + 2] == data[rpos + i + 2] && c[i + 3] == data[rpos + i + 3];
        if data[rpos + i] == '\r' && data[rpos + i + 1] == '\n'
           && data[rpos + i + 2] == '\r' && data[rpos + i + 3] == '\n' {
          return i + 4;
        }
        i := i + 1;
      }
      return 0;
    }
  }
}
