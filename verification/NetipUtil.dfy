/** Conversions between `net/netip` and `net` values. */
module NetipUtil {
  import opened Addresses

  /** `net.IPNet`: an address slice and a mask, either of which may be nil (empty). */
  datatype IPNet = IPNet(ip: seq<Byte>, mask: seq<Byte>)

  function FromAddr(a: Addr): seq<Byte> { a.Bytes() }

  /** `ToAddr`: `To4` first, so an IPv4-mapped slice comes back as IPv4. */
  function ToAddr(ip: seq<Byte>): (r: Option<Addr>)
    ensures r.Some? ==> r.value != NoAddr
  {
    if |ip| == 4 then Some(V4(ip))
    else if Mapped4(ip) then Some(V4(ip[12..]))
    else if |ip| == 16 then Some(V6(ip))
    else None
  }

  /** The byte loop of `net.CIDRMask`. */
  function MaskOf(len: nat, ones: nat): (m: seq<Byte>)
    ensures |m| == len
  {
    if len == 0 then []
    else if ones >= 8 then [255] + MaskOf(len - 1, ones - 8)
    else [255 - 255 / Pow2(ones)] + MaskOf(len - 1, 0)
  }

  function CIDRMask(ones: int, bits: int): seq<Byte> {
    if (bits != 32 && bits != 128) || ones < 0 || ones > bits then [] else MaskOf(bits / 8, ones)
  }

  /** Shift a byte left while its top bit is set: the count and what is left. */
  function LeadingOnes(v: Byte): nat {
    if v >= 128 then 1 + LeadingOnes(2 * v - 256) else 0
  }

  function AfterOnes(v: Byte): Byte {
    if v >= 128 then AfterOnes(2 * v - 256) else v
  }

  /** `simpleMaskLength`: `None` stands for -1. */
  function MaskLength(m: seq<Byte>): Option<nat> {
    if m == [] then Some(0)
    else if m[0] == 255 then
      match MaskLength(m[1..]) { case None => None case Some(n) => Some(8 + n) }
    else if AfterOnes(m[0]) != 0 || exists i | 1 <= i < |m| :: m[i] != 0 then None
    else Some(LeadingOnes(m[0]))
  }

  /** First result of `net.IPMask.Size`: 0 for a mask that is not canonical. */
  function MaskOnes(m: seq<Byte>): nat {
    match MaskLength(m) { case None => 0 case Some(n) => n }
  }

  function ToIPNet(p: Prefix): IPNet {
    IPNet(FromAddr(p.addr), CIDRMask(p.bits, p.addr.BitLen()))
  }

  function FromIPNet(n: IPNet): Option<Prefix> {
    match ToAddr(n.ip)
    case None => None
    case Some(a) => Some(PrefixFrom(a, MaskOnes(n.mask)))
  }

  lemma {:induction false} ZeroMask(len: nat)
    ensures forall i | 0 <= i < len :: MaskOf(len, 0)[i] == 0
  {
    if len > 0 { ZeroMask(len - 1); }
  }

  lemma PartialByte(n: nat)
    requires n < 8
    ensures 255 - 255 / Pow2(n) != 255
    ensures LeadingOnes(255 - 255 / Pow2(n)) == n && AfterOnes(255 - 255 / Pow2(n)) == 0
  {
    assert LeadingOnes(0) == 0 && AfterOnes(0) == 0;
    assert LeadingOnes(128) == 1 && AfterOnes(128) == 0;
    assert LeadingOnes(192) == 2 && AfterOnes(192) == 0;
    assert LeadingOnes(224) == 3 && AfterOnes(224) == 0;
    assert LeadingOnes(240) == 4 && AfterOnes(240) == 0;
    assert LeadingOnes(248) == 5 && AfterOnes(248) == 0;
    assert LeadingOnes(252) == 6 && AfterOnes(252) == 0;
    assert LeadingOnes(254) == 7 && AfterOnes(254) == 0;
  }

  /** Measuring a built mask gives back the length it was built from. */
  lemma {:induction false} MaskRoundTrip(len: nat, ones: nat)
    requires ones <= 8 * len
    ensures MaskLength(MaskOf(len, ones)) == Some(ones)
  {
    if len > 0 {
      var m := MaskOf(len, ones);
      if ones >= 8 {
        MaskRoundTrip(len - 1, ones - 8);
        assert m[1..] == MaskOf(len - 1, ones - 8);
      } else {
        PartialByte(ones);
        ZeroMask(len - 1);
        assert forall i | 1 <= i < |m| :: m[i] == MaskOf(len - 1, 0)[i - 1];
      }
    }
  }

  /** The conversion the route diff relies on, with its exact domain. */
  lemma PrefixRoundTrip(p: Prefix)
    requires ValidPrefix(p)
    ensures FromIPNet(ToIPNet(p)) == Some(p) <==> !p.addr.Is4In6()
  {
    MaskRoundTrip(p.addr.BitLen() / 8, p.bits);
    if p.addr.Is4In6() {
      assert ToAddr(FromAddr(p.addr)).value.V4?;
    }
  }

  /** An IPv4-mapped prefix comes back as IPv4, and as an invalid prefix once it is longer than 32 bits. */
  lemma MappedPrefixLost(p: Prefix)
    requires ValidPrefix(p) && p.addr.Is4In6()
    ensures FromIPNet(ToIPNet(p)) == Some(PrefixFrom(V4(p.addr.b6[12..]), p.bits))
    ensures p.bits > 32 ==> !ValidPrefix(FromIPNet(ToIPNet(p)).value)
  {
    MaskRoundTrip(16, p.bits);
  }

  /** What a conversion yields is never an IPv4-mapped address. */
  lemma FromIPNetPlain(n: IPNet)
    ensures FromIPNet(n).Some? ==> !FromIPNet(n).value.addr.Is4In6()
  {}

  lemma AddrRoundTrip(a: Addr)
    requires a != NoAddr
    ensures ToAddr(FromAddr(a)) == Some(a) <==> !a.Is4In6()
  {}

  // ---- masks by their bits ----

  lemma AllOnes(j: nat)
    requires j < 8
    ensures BitOf(255, j) == 1 && BitOf(0, j) == 0
  {}

  /** The byte that starts with `n` ones. */
  lemma PartialByteBits(n: nat, j: nat)
    requires n < 8 && j < 8
    ensures BitOf(255 - 255 / Pow2(n), j) == if j < n then 1 else 0
  {
    AllOnes(j);
    if n > 0 {
      PartialByteCut(n);
      CutBits(255, 8 - n, j);
    }
  }

  lemma PartialByteCut(n: nat)
    requires 0 < n < 8
    ensures 255 - 255 / Pow2(n) == 255 / Pow2(8 - n) * Pow2(8 - n)
  {}

  lemma BitPastFirst(s: seq<Byte>, i: nat)
    requires 8 <= i < 8 * |s|
    ensures Bit(s, i) == Bit(s[1..], i - 8)
  {
    assert (i - 8) / 8 == i / 8 - 1 && (i - 8) % 8 == i % 8;
  }

  /** A built mask is its ones, then zeros. */
  lemma {:induction false} MaskBits(len: nat, ones: nat, i: nat)
    requires ones <= 8 * len && i < 8 * len
    ensures Bit(MaskOf(len, ones), i) == if i < ones then 1 else 0
  {
    var m := MaskOf(len, ones);
    var rest := if ones >= 8 then ones - 8 else 0;
    assert m[1..] == MaskOf(len - 1, rest);
    if i >= 8 {
      BitPastFirst(m, i);
      MaskBits(len - 1, rest, i - 8);
    } else {
      assert Bit(m, i) == BitOf(m[0], i);
      if ones < 8 { PartialByteBits(ones, i); } else { AllOnes(i); }
    }
  }

  /** Masking a prefix is what its mask says, bit by bit: mask and masking are one thing. */
  lemma MaskedByMask(p: Prefix, i: nat)
    requires ValidPrefix(p) && i < p.addr.BitLen()
    ensures |ToIPNet(p).mask| == |p.addr.Bytes()|
    ensures Bit(Masked(p).addr.Bytes(), i) == Bit(p.addr.Bytes(), i) * Bit(ToIPNet(p).mask, i)
  {
    MaskedByBits(p, i);
    MaskBits(p.addr.BitLen() / 8, p.bits, i);
  }

  /** A byte that `simpleMaskLength` accepts is some ones, then zeros. */
  lemma {:induction false} OnesByte(v: Byte)
    requires AfterOnes(v) == 0
    ensures LeadingOnes(v) <= 8 && v == 256 - Pow2(8 - LeadingOnes(v))
  {
    if v >= 128 { OnesByte(2 * v - 256); }
  }

  /** `simpleMaskLength` finds a length exactly for masks that are that many ones, then zeros. */
  lemma {:induction false} MaskLengthBuilt(m: seq<Byte>, n: nat)
    ensures MaskLength(m) == Some(n) <==> n <= 8 * |m| && m == MaskOf(|m|, n)
  {
    if n <= 8 * |m| && m == MaskOf(|m|, n) {
      MaskRoundTrip(|m|, n);
    }
    if MaskLength(m) == Some(n) && m != [] {
      if m[0] == 255 {
        MaskLengthBuilt(m[1..], n - 8);
        assert m == [m[0]] + m[1..];
      } else {
        OnesByte(m[0]);
        ZeroMask(|m| - 1);
        assert m[1..] == MaskOf(|m| - 1, 0);
        assert m == [m[0]] + m[1..];
        assert m[0] == 255 - 255 / Pow2(n);
      }
    }
  }

  lemma MaskLengthExactly(m: seq<Byte>, n: nat)
    ensures MaskLength(m) == Some(n) <==>
      n <= 8 * |m| && forall i | 0 <= i < 8 * |m| :: Bit(m, i) == if i < n then 1 else 0
  {
    MaskLengthBuilt(m, n);
    if n <= 8 * |m| {
      forall i | 0 <= i < 8 * |m|
        ensures Bit(MaskOf(|m|, n), i) == if i < n then 1 else 0
      {
        MaskBits(|m|, n, i);
      }
      if forall i | 0 <= i < 8 * |m| :: Bit(m, i) == if i < n then 1 else 0 {
        BitsDetermineBytes(m, MaskOf(|m|, n));
      }
    }
  }
}
