/** IP addresses and prefixes as `net/netip` has them, on big-endian bytes. */
module Addresses {

  type Byte = x: int | 0 <= x < 256
  type Bytes4 = s: seq<Byte> | |s| == 4 witness [0, 0, 0, 0]
  type Bytes16 = s: seq<Byte> | |s| == 16 witness [0, 0, 0, 0, 0, 0, 0, 0, 0, 0, 0, 0, 0, 0, 0, 0]

  datatype Option<+T> = None | Some(value: T)

  datatype Family = Inet4 | Inet6

  /** `NoAddr` is the zero `netip.Addr`, which is neither IPv4 nor IPv6. */
  datatype Addr = NoAddr | V4(b4: Bytes4) | V6(b6: Bytes16)
  {
    function Bytes(): (s: seq<Byte>)
      ensures |s| * 8 == BitLen()
    {
      match this
      case NoAddr => []
      case V4(b) => b
      case V6(b) => b
    }

    function BitLen(): nat {
      match this
      case NoAddr => 0
      case V4(_) => 32
      case V6(_) => 128
    }

    /** The netlink family: the source tests `Is6` and takes IPv4 otherwise. */
    function Family(): Family { if V6? then Inet6 else Inet4 }

    /** IPv4-mapped IPv6 address, section 2.5.5.2 of RFC 4291. */
    predicate Is4In6() { V6? && Mapped4(b6) }
  }

  predicate Mapped4(ip: seq<Byte>) {
    |ip| == 16 && (forall i | 0 <= i < 10 :: ip[i] == 0) && ip[10] == 255 && ip[11] == 255
  }

  /** An address of the same family with other bytes. */
  function WithBytes(a: Addr, s: seq<Byte>): (r: Addr)
    requires |s| == |a.Bytes()|
    ensures r.Bytes() == s && r.Family() == a.Family() && r.BitLen() == a.BitLen()
  {
    match a
    case NoAddr => NoAddr
    case V4(_) => V4(s)
    case V6(_) => V6(s)
  }

  lemma BytesDetermineAddr(a: Addr, b: Addr)
    requires a.Bytes() == b.Bytes()
    ensures a == b
  {}

  datatype Prefix = Prefix(addr: Addr, bits: int)

  /** `netip.PrefixFrom`: a length out of range gives the invalid length -1. */
  function PrefixFrom(a: Addr, bits: int): Prefix {
    if a != NoAddr && 0 <= bits <= a.BitLen() then Prefix(a, bits) else Prefix(a, -1)
  }

  predicate ValidPrefix(p: Prefix) {
    p.addr != NoAddr && 0 <= p.bits <= p.addr.BitLen()
  }

  function HostPrefix(a: Addr): Prefix { Prefix(a, a.BitLen()) }

  /** Keep the `k` leading bits of a byte. */
  function Top(b: Byte, k: int): (r: Byte)
    ensures r <= b
  {
    if k <= 0 then 0
    else if k == 1 then b / 128 * 128
    else if k == 2 then b / 64 * 64
    else if k == 3 then b / 32 * 32
    else if k == 4 then b / 16 * 16
    else if k == 5 then b / 8 * 8
    else if k == 6 then b / 4 * 4
    else if k == 7 then b / 2 * 2
    else b
  }

  lemma {:induction false} TimesThenDivide(q: nat, m: nat)
    requires m > 0
    ensures q * m / m == q
  {
    if q > 0 {
      TimesThenDivide(q - 1, m);
      assert q * m == (q - 1) * m + m;
      assert ((q - 1) * m + m) / m == (q - 1) * m / m + 1;
    }
  }

  lemma TopTwice(b: Byte, k: int)
    ensures Top(Top(b, k), k) == Top(b, k)
  {
    if k == 1 { TimesThenDivide(b / 128, 128); }
    else if k == 2 { TimesThenDivide(b / 64, 64); }
    else if k == 3 { TimesThenDivide(b / 32, 32); }
    else if k == 4 { TimesThenDivide(b / 16, 16); }
    else if k == 5 { TimesThenDivide(b / 8, 8); }
    else if k == 6 { TimesThenDivide(b / 4, 4); }
    else if k == 7 { TimesThenDivide(b / 2, 2); }
  }

  /** Clear every bit of `s` past the first `bits`. */
  function MaskBytes(s: seq<Byte>, bits: int): (r: seq<Byte>)
    ensures |r| == |s|
  {
    seq(|s|, i requires 0 <= i < |s| => Top(s[i], bits - 8 * i))
  }

  /** `netip.Prefix.Masked`. */
  function Masked(p: Prefix): (r: Prefix)
    ensures r.bits == p.bits && r.addr.Family() == p.addr.Family()
    ensures ValidPrefix(p) ==> ValidPrefix(r)
  {
    Prefix(WithBytes(p.addr, MaskBytes(p.addr.Bytes(), p.bits)), p.bits)
  }

  predicate IsMasked(p: Prefix) { Masked(p) == p }

  /** `netip.Prefix.Contains`: same family and equal in the leading bits. */
  predicate Contains(p: Prefix, a: Addr) {
    && ValidPrefix(p)
    && a.BitLen() == p.addr.BitLen()
    && MaskBytes(a.Bytes(), p.bits) == MaskBytes(p.addr.Bytes(), p.bits)
  }

  lemma MaskTwice(s: seq<Byte>, bits: int)
    ensures MaskBytes(MaskBytes(s, bits), bits) == MaskBytes(s, bits)
  {
    forall i | 0 <= i < |s|
      ensures MaskBytes(MaskBytes(s, bits), bits)[i] == MaskBytes(s, bits)[i]
    {
      TopTwice(s[i], bits - 8 * i);
    }
  }

  lemma MaskedIsMasked(p: Prefix)
    ensures IsMasked(Masked(p))
  {
    MaskTwice(p.addr.Bytes(), p.bits);
    BytesDetermineAddr(Masked(Masked(p)).addr, Masked(p).addr);
  }

  lemma HostPrefixMasked(a: Addr)
    ensures IsMasked(HostPrefix(a))
  {}

  /** Masking a prefix does not change which addresses it contains. */
  lemma MaskedContainsSame(p: Prefix, a: Addr)
    requires ValidPrefix(p)
    ensures Contains(Masked(p), a) <==> Contains(p, a)
  {
    MaskTwice(p.addr.Bytes(), p.bits);
  }

  /** Two masked prefixes of one length that share an address are one prefix. */
  lemma SameLengthSamePrefix(p: Prefix, q: Prefix, a: Addr)
    requires IsMasked(p) && IsMasked(q) && p.bits == q.bits
    requires Contains(p, a) && Contains(q, a)
    ensures p == q
  {}

  /** Masking cannot turn an address into an IPv4-mapped one. */
  lemma MaskedStaysPlain(p: Prefix)
    requires !p.addr.Is4In6()
    ensures !Masked(p).addr.Is4In6()
  {
    if p.addr.V6? {
      var m := MaskBytes(p.addr.b6, p.bits);
      if p.bits >= 96 {
        assert forall i | 0 <= i < 12 :: m[i] == p.addr.b6[i];
      } else {
        assert m[11] == Top(p.addr.b6[11], p.bits - 88) != 255;
      }
    }
  }

  // ---- the same by bits ----

  function Pow2(n: nat): (r: nat)
    requires n <= 8
    ensures 1 <= r <= 256
  {
    if n == 0 then 1 else if n == 1 then 2 else if n == 2 then 4 else if n == 3 then 8
    else if n == 4 then 16 else if n == 5 then 32 else if n == 6 then 64
    else if n == 7 then 128 else 256
  }

  /** Bit `j` of a byte, the highest first. */
  function BitOf(b: Byte, j: nat): int
    requires j < 8
  {
    b / Pow2(7 - j) % 2
  }

  /** Bit `i` of a byte sequence, the highest of the first byte first. */
  function Bit(s: seq<Byte>, i: nat): int
    requires i < 8 * |s|
  {
    BitOf(s[i / 8], i % 8)
  }

  /** The number that eight bits make. */
  function OfBits(x: seq<int>): int
    requires |x| == 8
  {
    128 * x[0] + 64 * x[1] + 32 * x[2] + 16 * x[3] + 8 * x[4] + 4 * x[5] + 2 * x[6] + x[7]
  }

  lemma Halves(b: Byte)
    ensures b / 4 == b / 2 / 2 && b / 8 == b / 4 / 2 && b / 16 == b / 8 / 2 && b / 32 == b / 16 / 2
    ensures b / 64 == b / 32 / 2 && b / 128 == b / 64 / 2 && 0 <= b / 128 < 2
  {}

  lemma ByteFromBits(b: Byte)
    ensures b == OfBits(seq(8, j requires 0 <= j < 8 => BitOf(b, j)))
  {
    Halves(b);
    assert BitOf(b, 0) == b / 128 % 2 && BitOf(b, 1) == b / 64 % 2 && BitOf(b, 2) == b / 32 % 2;
    assert BitOf(b, 3) == b / 16 % 2 && BitOf(b, 4) == b / 8 % 2 && BitOf(b, 5) == b / 4 % 2;
    assert BitOf(b, 6) == b / 2 % 2 && BitOf(b, 7) == b % 2;
  }

  lemma BitsDetermineBytes(s: seq<Byte>, t: seq<Byte>)
    requires |s| == |t| && forall i | 0 <= i < 8 * |s| :: Bit(s, i) == Bit(t, i)
    ensures s == t
  {
    forall n | 0 <= n < |s|
      ensures s[n] == t[n]
    {
      forall j | 0 <= j < 8
        ensures BitOf(s[n], j) == BitOf(t[n], j)
      {
        var i := 8 * n + j;
        assert i / 8 == n && i % 8 == j;
        assert Bit(s, i) == Bit(t, i);
      }
      ByteFromBits(s[n]);
      ByteFromBits(t[n]);
    }
  }

  /** Halving moves every bit one place down. */
  lemma HalfBits(b: Byte, j: nat)
    requires j < 7
    ensures BitOf(b, j) == BitOf(b / 2, j + 1)
  {
    if j == 0 { assert b / 128 == b / 2 / 64; }
    else if j == 1 { assert b / 64 == b / 2 / 32; }
    else if j == 2 { assert b / 32 == b / 2 / 16; }
    else if j == 3 { assert b / 16 == b / 2 / 8; }
    else if j == 4 { assert b / 8 == b / 2 / 4; }
    else if j == 5 { assert b / 4 == b / 2 / 2; }
  }

  /** Cutting a byte down to a multiple of a power of two clears the bits below that power. */
  lemma {:induction false} CutBits(b: Byte, e: nat, j: nat)
    requires e < 8 && j < 8
    ensures 0 <= b / Pow2(e) * Pow2(e) < 256
    ensures BitOf(b / Pow2(e) * Pow2(e), j) == if j < 8 - e then BitOf(b, j) else 0
  {
    if e > 0 {
      var c := b / 2 / Pow2(e - 1) * Pow2(e - 1);
      CutBits(b / 2, e - 1, if j < 7 then j + 1 else 7);
      CutHalves(b, e);
      if j < 7 {
        HalfBits(2 * c, j);
        HalfBits(b, j);
      }
    }
  }

  lemma CutHalves(b: Byte, e: nat)
    requires 0 < e < 8
    ensures b / Pow2(e) * Pow2(e) == 2 * (b / 2 / Pow2(e - 1) * Pow2(e - 1))
  {
    if e == 1 {} else if e == 2 { assert b / 4 == b / 2 / 2; }
    else if e == 3 { assert b / 8 == b / 2 / 4; }
    else if e == 4 { assert b / 16 == b / 2 / 8; }
    else if e == 5 { assert b / 32 == b / 2 / 16; }
    else if e == 6 { assert b / 64 == b / 2 / 32; }
    else { assert b / 128 == b / 2 / 64; }
  }

  lemma TopBits(b: Byte, k: int, j: nat)
    requires j < 8
    ensures BitOf(Top(b, k), j) == if j < k then BitOf(b, j) else 0
  {
    if k <= 0 {
      assert BitOf(0, j) == 0;
    } else if k < 8 {
      CutBits(b, 8 - k, j);
    }
  }

  lemma MaskBytesBits(s: seq<Byte>, bits: int, i: nat)
    requires i < 8 * |s|
    ensures Bit(MaskBytes(s, bits), i) == if i < bits then Bit(s, i) else 0
  {
    TopBits(s[i / 8], bits - 8 * (i / 8), i % 8);
  }

  /** A masked prefix has the prefix's leading bits and no others. */
  lemma MaskedByBits(p: Prefix, i: nat)
    requires i < p.addr.BitLen()
    ensures Bit(Masked(p).addr.Bytes(), i) == if i < p.bits then Bit(p.addr.Bytes(), i) else 0
  {
    MaskBytesBits(p.addr.Bytes(), p.bits, i);
  }

  /** A prefix contains the addresses of its width that have its leading bits. */
  lemma ContainsByBits(p: Prefix, a: Addr)
    requires ValidPrefix(p)
    ensures Contains(p, a) <==>
      && a.BitLen() == p.addr.BitLen()
      && forall i | 0 <= i < p.bits :: Bit(a.Bytes(), i) == Bit(p.addr.Bytes(), i)
  {
    if a.BitLen() == p.addr.BitLen() {
      var s, t := a.Bytes(), p.addr.Bytes();
      var x, y := MaskBytes(s, p.bits), MaskBytes(t, p.bits);
      forall i | 0 <= i < 8 * |s|
        ensures Bit(x, i) == if i < p.bits then Bit(s, i) else 0
        ensures Bit(y, i) == if i < p.bits then Bit(t, i) else 0
      {
        MaskBytesBits(s, p.bits, i);
        MaskBytesBits(t, p.bits, i);
      }
      if forall i | 0 <= i < p.bits :: Bit(s, i) == Bit(t, i) {
        BitsDetermineBytes(x, y);
      } else {
        var i :| 0 <= i < p.bits && Bit(s, i) != Bit(t, i);
        assert Bit(x, i) != Bit(y, i);
      }
    }
  }

  /** A prefix is masked exactly if it has no bit past its length. */
  lemma IsMaskedByBits(p: Prefix)
    requires ValidPrefix(p)
    ensures IsMasked(p) <==> forall i | p.bits <= i < p.addr.BitLen() :: Bit(p.addr.Bytes(), i) == 0
  {
    forall i | 0 <= i < p.addr.BitLen()
      ensures Bit(Masked(p).addr.Bytes(), i) == if i < p.bits then Bit(p.addr.Bytes(), i) else 0
    {
      MaskedByBits(p, i);
    }
    if forall i | p.bits <= i < p.addr.BitLen() :: Bit(p.addr.Bytes(), i) == 0 {
      BitsDetermineBytes(Masked(p).addr.Bytes(), p.addr.Bytes());
      BytesDetermineAddr(Masked(p).addr, p.addr);
    }
  }

  /** The prefix of a single host contains that host alone. */
  lemma HostPrefixAlone(a: Addr, b: Addr)
    requires a != NoAddr
    ensures Contains(HostPrefix(a), b) <==> a == b
  {
    ContainsByBits(HostPrefix(a), b);
    if Contains(HostPrefix(a), b) {
      BitsDetermineBytes(b.Bytes(), a.Bytes());
      BytesDetermineAddr(b, a);
    }
  }
}
