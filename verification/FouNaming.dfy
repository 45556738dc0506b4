/** Names of FoU tunnel links. */
module FouNaming {
  import opened Addresses

  const FOU4_LINK_PREFIX := "fou4_"
  const FOU6_LINK_PREFIX := "fou6_"

  /** Longest interface name that fits the kernel's IFNAMSIZ (16 with the terminating zero). */
  const MAX_LINK_NAME := 15

  /** First four bytes of SHA-1 over the sixteen address bytes; SHA-1 itself is a parameter. */
  type Digest = Bytes16 -> Bytes4

  function HexDigit(n: nat): (c: char)
    requires n < 16
  {
    if n < 10 then '0' + n as char else 'a' + (n - 10) as char
  }

  lemma HexDigitInjective(m: nat, n: nat)
    requires m < 16 && n < 16 && HexDigit(m) == HexDigit(n)
    ensures m == n
  {
    assert (HexDigit(m) as int) == if m < 10 then 48 + m else 87 + m;
    assert (HexDigit(n) as int) == if n < 10 then 48 + n else 87 + n;
  }

  /** `%x` of a byte slice. */
  function Hex(s: seq<Byte>): (h: string)
    ensures |h| == 2 * |s|
    ensures forall i | 0 <= i < |s| :: h[2 * i] == HexDigit(s[i] / 16) && h[2 * i + 1] == HexDigit(s[i] % 16)
  {
    if s == [] then [] else
      var h := Hex(s[..|s| - 1]) + [HexDigit(s[|s| - 1] / 16), HexDigit(s[|s| - 1] % 16)];
      h
  }

  lemma HexInjective(s: seq<Byte>, t: seq<Byte>)
    requires Hex(s) == Hex(t)
    ensures s == t
  {
    assert |s| == |t|;
    forall i | 0 <= i < |s|
      ensures s[i] == t[i]
    {
      assert Hex(s)[2 * i] == Hex(t)[2 * i] && Hex(s)[2 * i + 1] == Hex(t)[2 * i + 1];
      HexDigitInjective(s[i] / 16, t[i] / 16);
      HexDigitInjective(s[i] % 16, t[i] % 16);
    }
  }

  /** `fouName`; `None` is its error for an address of neither family. */
  function FouName(d: Digest, a: Addr): Option<string> {
    match a
    case V4(b) => Some(FOU4_LINK_PREFIX + Hex(b))
    case V6(b) => Some(FOU6_LINK_PREFIX + Hex(d(b)))
    case NoAddr => None
  }

  /** The name of a tunnel whose address is known to be IPv4 or IPv6. */
  function LinkName(d: Digest, a: Addr): string
    requires a != NoAddr
  {
    FouName(d, a).value
  }

  /** No two IPv6 addresses of `u` share the four digest bytes. */
  ghost predicate CollisionFree(d: Digest, u: set<Addr>) {
    forall a, b | a in u && b in u && a.V6? && b.V6? && d(a.b6) == d(b.b6) :: a == b
  }

  /** Two addresses share a link name only if they are the same address, or IPv6 with colliding digests. */
  lemma LinkNameInjective(d: Digest, a: Addr, b: Addr)
    requires a != NoAddr && b != NoAddr
    ensures LinkName(d, a) == LinkName(d, b) <==> a == b || (a.V6? && b.V6? && d(a.b6) == d(b.b6))
  {
    var m, n := LinkName(d, a), LinkName(d, b);
    if m == n {
      assert m[3] == n[3];
      assert m[5..] == n[5..];
      assert m[5..] == if a.V4? then Hex(a.b4) else Hex(d(a.b6));
      assert n[5..] == if b.V4? then Hex(b.b4) else Hex(d(b.b6));
      if a.V4? {
        HexInjective(a.b4, b.b4);
      } else {
        HexInjective(d(a.b6), d(b.b6));
      }
    }
  }

  /** The value of a hexadecimal digit, lower case. */
  function HexValue(c: char): int {
    if '0' <= c <= '9' then c as int - '0' as int else if 'a' <= c <= 'f' then c as int - 'a' as int + 10 else -1
  }

  lemma HexDigitValue(n: nat)
    requires n < 16
    ensures HexValue(HexDigit(n)) == n
  {}

  lemma HexDecodes(s: seq<Byte>, i: nat)
    requires i < |s|
    ensures 16 * HexValue(Hex(s)[2 * i]) + HexValue(Hex(s)[2 * i + 1]) == s[i]
  {
    HexDigitValue(s[i] / 16);
    HexDigitValue(s[i] % 16);
  }

  /** A name can be read back: the family, then the address or the digest, two digits a byte. */
  lemma LinkNameDecodes(d: Digest, a: Addr, i: nat)
    requires a != NoAddr && i < 4
    ensures var n := LinkName(d, a); var b := if a.V4? then a.b4 else d(a.b6);
      && |n| == 13 && n[..5] == (if a.V4? then "fou4_" else "fou6_")
      && 16 * HexValue(n[5..][2 * i]) + HexValue(n[5..][2 * i + 1]) == b[i]
  {
    var b := if a.V4? then a.b4 else d(a.b6);
    assert LinkName(d, a)[5..] == Hex(b);
    HexDecodes(b, i);
  }

  lemma LinkNameFits(d: Digest, a: Addr)
    requires a != NoAddr
    ensures |LinkName(d, a)| <= MAX_LINK_NAME
    ensures LinkName(d, a)[0] == 'f' && LinkName(d, a)[3] in {'4', '6'}
  {}

  /** IPv4 names need no assumption on the digest. */
  lemma V4NamesDistinct(d: Digest, u: set<Addr>)
    requires forall a | a in u :: a.V4?
    ensures CollisionFree(d, u)
  {}
}
