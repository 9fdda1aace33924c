/** Networks as bit prefixes (src/ipban/ip.cpp): masking a network's bytes and testing whether an
    address falls in it. */
module IpNet {
  import opened Rules

  function Width(f: Fam): nat { if f.V4? then 4 else 16 }

  /** The single bit `j` of a byte, the highest first. */
  function One(j: nat): bv8
    requires j < 8
  {
    match j
    case 0 => 0x80 case 1 => 0x40 case 2 => 0x20 case 3 => 0x10
    case 4 => 0x08 case 5 => 0x04 case 6 => 0x02 case _ => 0x01
  }

  predicate Bit(b: bv8, j: nat)
    requires j < 8
  {
    b & One(j) != 0
  }

  predicate Full(ip: Ip) {
    ip.prefix == 8 * Width(ip.fam)
  }

  /** The binary form every parsed address has: sixteen bytes, and zero behind an IPv4 address. */
  predicate Canonical(ip: Ip) {
    && |ip.bytes| == 16
    && ip.prefix <= 8 * Width(ip.fam)
    && (ip.fam.V4? ==> forall i :: 4 <= i < 16 ==> ip.bytes[i] == 0)
  }

  /** Do two bytes agree on their first `keep` bits? */
  ghost predicate SameTop(a: bv8, b: bv8, keep: nat)
    requires keep <= 8
  {
    forall j :: 0 <= j < keep ==> Bit(a, j) == Bit(b, j)
  }

  /** How many of byte `i`'s bits are network bits. */
  function Keep(prefix: nat, i: nat): (k: nat)
    ensures k <= 8
  {
    if prefix <= 8 * i then 0 else if prefix >= 8 * i + 8 then 8 else prefix - 8 * i
  }

  /** Does `addr` agree with `net` on the network's first `prefix` bits? */
  ghost predicate InNet(addr: Ip, net: Ip)
    requires |addr.bytes| == 16 && |net.bytes| == 16
  {
    && addr.fam == net.fam
    && forall i :: 0 <= i < Width(net.fam) ==> SameTop(addr.bytes[i], net.bytes[i], Keep(net.prefix, i))
  }

  /** The byte with its first `keep` bits set: 0xff << (8 - keep). */
  function Mask(keep: nat): bv8
    requires keep <= 8
  {
    match keep
    case 0 => 0x00 case 1 => 0x80 case 2 => 0xc0 case 3 => 0xe0 case 4 => 0xf0
    case 5 => 0xf8 case 6 => 0xfc case 7 => 0xfe case _ => 0xff
  }

  lemma MaskKeepsBits(b: bv8, keep: nat, j: nat)
    requires keep <= 8 && j < 8
    ensures Bit(b & Mask(keep), j) == (j < keep && Bit(b, j))
  {
    var m, o := Mask(keep), One(j);
    assert (b & m) & o == b & (m & o);
    assert m & o == if j < keep then o else 0;
  }

  lemma SameBitsSameByte(a: bv8, b: bv8)
    requires forall j :: 0 <= j < 8 ==> Bit(a, j) == Bit(b, j)
    ensures a == b
  {
    assert Bit(a, 0) == Bit(b, 0) && Bit(a, 1) == Bit(b, 1) && Bit(a, 2) == Bit(b, 2) && Bit(a, 3) == Bit(b, 3);
    assert Bit(a, 4) == Bit(b, 4) && Bit(a, 5) == Bit(b, 5) && Bit(a, 6) == Bit(b, 6) && Bit(a, 7) == Bit(b, 7);
  }

  predicate MaskedSame(a: bv8, b: bv8, keep: nat)
    requires keep <= 8
  {
    a & Mask(keep) == b & Mask(keep)
  }

  /** Comparing two bytes under a mask compares their first bits. */
  lemma MaskedEqual(a: bv8, b: bv8, keep: nat)
    requires keep <= 8
    ensures MaskedSame(a, b, keep) <==> SameTop(a, b, keep)
  {
    var x, y := a & Mask(keep), b & Mask(keep);
    forall j | 0 <= j < 8
      ensures Bit(x, j) == (j < keep && Bit(a, j))
      ensures Bit(y, j) == (j < keep && Bit(b, j))
    {
      MaskKeepsBits(a, keep, j);
      MaskKeepsBits(b, keep, j);
    }
    if SameTop(a, b, keep) {
      forall j | 0 <= j < 8 ensures Bit(x, j) == Bit(y, j) {}
      SameBitsSameByte(x, y);
    }
  }

  lemma WholeByte(a: bv8, b: bv8)
    ensures a == b <==> SameTop(a, b, 8)
  {
    if SameTop(a, b, 8) { SameBitsSameByte(a, b); }
  }

  /** One byte of the comparison: whole, not at all, or under a mask. */
  predicate SameByte(a: bv8, b: bv8, keep: nat)
    requires keep <= 8
  {
    if keep == 8 then a == b else if keep == 0 then true else MaskedSame(a, b, keep)
  }

  lemma SameByteIsSameTop(a: bv8, b: bv8, keep: nat)
    requires keep <= 8
    ensures SameByte(a, b, keep) <==> SameTop(a, b, keep)
  {
    if keep == 8 {
      WholeByte(a, b);
    } else if keep > 0 {
      MaskedEqual(a, b, keep);
    }
  }

  method TestInNet(addr: Ip, net: Ip) returns (yes: bool)
    requires |addr.bytes| == 16 && |net.bytes| == 16
    ensures yes == InNet(addr, net)
  {
    if addr.fam != net.fam { return false; }
    var i := 0;
    while i < Width(net.fam)
      invariant 0 <= i <= Width(net.fam)
      invariant forall k :: 0 <= k < i ==> SameTop(addr.bytes[k], net.bytes[k], Keep(net.prefix, k))
    {
      var keep := Keep(net.prefix, i);
      SameByteIsSameTop(addr.bytes[i], net.bytes[i], keep);
      if !SameByte(addr.bytes[i], net.bytes[i], keep) { return false; }
      i := i + 1;
      if net.prefix <= i * 8 { break; }   // only host bits are left
    }
    return true;
  }

  /** Clears the host bits of an address's bytes in place. */
  method MaskBytes(b: array<bv8>, width: nat, prefix: nat)
    requires b.Length == 16 && width <= 16
    modifies b
    ensures forall i, j :: 0 <= i < width && 0 <= j < 8 ==>
              Bit(b[i], j) == (8 * i + j < prefix && Bit(old(b[i]), j))
    ensures forall i :: width <= i < 16 ==> b[i] == old(b[i])
  {
    var i := 0;
    while i < width
      invariant 0 <= i <= width
      invariant forall k, j :: 0 <= k < i && 0 <= j < 8 ==>
                  Bit(b[k], j) == (8 * k + j < prefix && Bit(old(b[k]), j))
      invariant forall k :: i <= k < 16 ==> b[k] == old(b[k])
    {
      var lo := i * 8;
      if prefix >= lo + 8 {
      } else if prefix <= lo {
        b[i] := 0;
        forall j | 0 <= j < 8 ensures !Bit(0, j) { assert One(j) & 0 == 0; }
      } else {
        forall j | 0 <= j < 8
          ensures Bit(b[i] & Mask(prefix - lo), j) == (j < prefix - lo && Bit(b[i], j))
        {
          MaskKeepsBits(b[i], prefix - lo, j);
        }
        b[i] := b[i] & Mask(prefix - lo);
      }
      i := i + 1;
    }
  }

  /** A full address is in a full network exactly when they are the same address. */
  lemma FullNetIsAddress(addr: Ip, net: Ip)
    requires Canonical(addr) && Canonical(net) && Full(addr) && Full(net)
    ensures InNet(addr, net) <==> addr == net
  {
    if InNet(addr, net) {
      forall i | 0 <= i < 16 ensures addr.bytes[i] == net.bytes[i] {
        if i < Width(net.fam) {
          WholeByte(addr.bytes[i], net.bytes[i]);
        }
      }
      assert addr.bytes == net.bytes;
    }
  }

  /** Masking a network's bytes changes nothing about which addresses it holds. */
  lemma MaskingKeepsMembers(addr: Ip, net: Ip, masked: Ip)
    requires |addr.bytes| == 16 && |net.bytes| == 16 && |masked.bytes| == 16
    requires masked.fam == net.fam && masked.prefix == net.prefix
    requires forall i, j :: 0 <= i < Width(net.fam) && 0 <= j < 8 ==>
               Bit(masked.bytes[i], j) == (8 * i + j < net.prefix && Bit(net.bytes[i], j))
    ensures InNet(addr, masked) <==> InNet(addr, net)
  {
  }

  /** Membership bit by bit: the address agrees on each of the first `prefix` bits. */
  lemma InNetIsBitPrefix(addr: Ip, net: Ip)
    requires |addr.bytes| == 16 && |net.bytes| == 16
    ensures InNet(addr, net) <==>
              && addr.fam == net.fam
              && forall i, j :: 0 <= i < Width(net.fam) && 0 <= j < 8 && 8 * i + j < net.prefix ==>
                   Bit(addr.bytes[i], j) == Bit(net.bytes[i], j)
  {
    if InNet(addr, net) {
      forall i, j | 0 <= i < Width(net.fam) && 0 <= j < 8 && 8 * i + j < net.prefix
        ensures Bit(addr.bytes[i], j) == Bit(net.bytes[i], j)
      {
        assert SameTop(addr.bytes[i], net.bytes[i], Keep(net.prefix, i));
      }
    }
  }
}
