/**
 What table 117 means to a packet: longest match first (section 5.2.4.3 of RFC 1812), then the
 lower metric. A throw route ends the table's say, so the packet goes on to the main table.
 */
module Lookup {
  import opened Addresses
  import opened NetipUtil
  import opened KernelModel
  import opened ClientTable

  ghost predicate Candidate(routes: set<Route>, table: nat, a: Addr, r: Route) {
    r in routes && r.table == table && Contains(r.dst, a)
  }

  ghost predicate Before(r: Route, s: Route) {
    r.dst.bits > s.dst.bits || (r.dst.bits == s.dst.bits && r.metric <= s.metric)
  }

  ghost predicate Wins(routes: set<Route>, table: nat, a: Addr, r: Route) {
    Candidate(routes, table, a, r) && forall s | Candidate(routes, table, a, s) :: Before(r, s)
  }

  /** The route that table 117 gives for an address. */
  ghost function Find(routes: set<Route>, table: nat, a: Addr): (o: Option<Route>)
    ensures o.Some? ==> Wins(routes, table, a, o.value)
    ensures o.None? <==> !exists r :: Candidate(routes, table, a, r)
  {
    if r :| Candidate(routes, table, a, r) then
      WinnerExists(routes, table, a, set s | s in routes && Candidate(routes, table, a, s));
      var w :| Wins(routes, table, a, w);
      Some(w)
    else None
  }

  lemma {:induction false} FirstOf(cs: set<Route>) returns (w: Route)
    requires cs != {}
    ensures w in cs && forall s | s in cs :: Before(w, s)
    decreases |cs|
  {
    var r :| r in cs;
    if cs == {r} {
      w := r;
    } else {
      assert cs - {r} != {} by { assert cs == {r} + (cs - {r}); }
      var v := FirstOf(cs - {r});
      w := if Before(r, v) then r else v;
      assert forall s | s in cs :: s == r || s in cs - {r};
    }
  }

  lemma WinnerExists(routes: set<Route>, table: nat, a: Addr, cs: set<Route>)
    requires forall s :: s in cs <==> Candidate(routes, table, a, s)
    requires cs != {}
    ensures exists w :: Wins(routes, table, a, w)
  {
    var w := FirstOf(cs);
    assert Wins(routes, table, a, w);
  }

  /** On a table with one route per destination and metric the lookup has one answer. */
  lemma FindIsUnique(routes: set<Route>, table: nat, a: Addr, r: Route)
    requires KeysUnique(routes) && RoutesWf(routes) && Wins(routes, table, a, r)
    ensures Find(routes, table, a) == Some(r)
  {
    var w := Find(routes, table, a).value;
    assert Before(w, r) && Before(r, w);
    SameLengthSamePrefix(w.dst, r.dst, a);
  }

  // ---- policy rules ----

  /** A rule for the packets that the namespace itself sends to `a`. */
  ghost predicate Applies(k: Kernel, q: Rule, a: Addr) {
    q in k.rules && q.family == a.Family() && q.iif == ""
  }

  /** The rule's table has a route that ends the search. */
  ghost predicate Settles(k: Kernel, q: Rule, a: Addr) {
    Applies(k, q, a) && var o := Find(k.routes, q.table, a); o.Some? && o.value.hop.Via?
  }

  /** The packet leaves by `hop`: rules are asked by rising priority until one settles it. */
  ghost predicate LeavesBy(k: Kernel, a: Addr, q: Rule, hop: Hop) {
    && Settles(k, q, a) && Find(k.routes, q.table, a).value.hop == hop
    && forall p | Settles(k, p, a) :: q.prio <= p.prio
  }

  /** A destination containing `a` is at least as long as every private or link-local range containing it. */
  ghost predicate ToTunnel(ps: seq<Prefix>, a: Addr) {
    exists n :: n in ps && Contains(n, a) && forall s | s in Special() && Contains(s, a) :: s.bits <= n.bits
  }

  /** A private or link-local range containing `a` is longer than every destination containing it. */
  ghost predicate ToThrow(ps: seq<Prefix>, a: Addr) {
    exists s :: s in Special() && Contains(s, a) && forall n | n in ps && Contains(n, a) :: n.bits < s.bits
  }

  /** After an update of a table with no route of the family, that family's routes are throws and requests. */
  lemma FreshTable(was: set<Route>, now: set<Route>, index: nat, ps: seq<Prefix>, family: Family, r: Route)
    requires Updated(was, now, index, ps)
    requires forall x | x in was && x.table == NC_TABLE :: x.dst.addr.Family() != family
    requires r.table == NC_TABLE && r.dst.addr.Family() == family
    ensures r in now <==> r in Throws() || r in TunnelRoutes(index, ps)
  {}

  /** A destination that is stored answers for the same addresses, at the same length. */
  lemma StoredAnswersSame(n: Prefix, a: Addr)
    requires ValidPrefix(n) && !n.addr.Is4In6() && StoredDst(ToIPNet(n)).Some?
    ensures var d := StoredDst(ToIPNet(n)).value; d.bits == n.bits && (Contains(d, a) <==> Contains(n, a))
  {
    StoredIsMasked(n);
    MaskedContainsSame(n, a);
  }

  /**
   The meaning of table 117. After `Init` and one successful update, for every address of an enabled
   family: the lookup takes the tunnel, or throws, exactly as the destination and range lengths say;
   on equal prefixes the tunnel wins.
   */
  lemma LookupFollowsLengths(was: set<Route>, now: set<Route>, index: nat, ps: seq<Prefix>, a: Addr)
    requires Updated(was, now, index, ps) && a != NoAddr
    requires forall x | x in was && x.table == NC_TABLE :: x.dst.addr.Family() != a.Family()
    requires forall n | n in ps :: ValidPrefix(n) && !n.addr.Is4In6()
    ensures Find(now, NC_TABLE, a).Some? && Find(now, NC_TABLE, a).value.hop == Via(index) <==> ToTunnel(ps, a)
    ensures Find(now, NC_TABLE, a).Some? && Find(now, NC_TABLE, a).value.hop == Throw <==> ToThrow(ps, a)
    ensures Find(now, NC_TABLE, a).None? <==> !ToTunnel(ps, a) && !ToThrow(ps, a)
  {
    forall s | s in Special() && Contains(s, a)
      ensures Candidate(now, NC_TABLE, a, ThrowRoute(s))
    {
      assert ThrowRoute(s) in Throws();
    }
    forall n | n in ps && Contains(n, a)
      ensures StoredDst(ToIPNet(n)).Some?
      ensures var t := TunnelRoute(StoredDst(ToIPNet(n)).value, index);
        Candidate(now, NC_TABLE, a, t) && t.dst.bits == n.bits
    {
      StoredAnswersSame(n, a);
      var t := TunnelRoute(StoredDst(ToIPNet(n)).value, index);
      assert t in TunnelRoutes(index, ps);
      FreshTable(was, now, index, ps, a.Family(), t);
    }
    var o := Find(now, NC_TABLE, a);
    if o.Some? {
      WinnerSource(was, now, index, ps, a, o.value);
      if o.value.hop == Throw {
        assert ToThrow(ps, a);
        assert !ToTunnel(ps, a);
      } else {
        assert ToTunnel(ps, a);
        assert !ToThrow(ps, a);
      }
    }
  }

  /**
   During an update, too, nothing private slips out: an address that is to be thrown takes the link in no state that
   the update passes through, finished or not.
   */
  lemma UpdateNeverLeaks(was: set<Route>, now: set<Route>, index: nat, ps: seq<Prefix>, a: Addr)
    requires MidUpdate(was, now, index, ps) && a != NoAddr && ToThrow(ps, a)
    requires forall x | x in was && x.table == NC_TABLE :: x.dst.addr.Family() != a.Family()
    requires forall n | n in ps :: ValidPrefix(n) && !n.addr.Is4In6()
    ensures Find(now, NC_TABLE, a).Some? ==> Find(now, NC_TABLE, a).value.hop == Throw
  {
    var o := Find(now, NC_TABLE, a);
    if o.Some? && o.value.hop != Throw {
      var n := NewTunnelRoute(was, now, index, ps, a, o.value);
      NoLongerThrow(now, a, o.value, ps, n);
    }
  }

  lemma NoLongerThrow(now: set<Route>, a: Addr, x: Route, ps: seq<Prefix>, n: Prefix)
    requires Throws() <= now && Wins(now, NC_TABLE, a, x) && n in ps && Contains(n, a) && n.bits == x.dst.bits
    ensures !ToThrow(ps, a)
  {
    forall s | s in Special() && Contains(s, a)
      ensures s.bits <= n.bits
    {
      assert ThrowRoute(s) in Throws();
      assert Candidate(now, NC_TABLE, a, ThrowRoute(s));
    }
  }

  /** A route through the link that answers for `a` comes from a request, and the throw routes are there already. */
  lemma NewTunnelRoute(was: set<Route>, now: set<Route>, index: nat, ps: seq<Prefix>, a: Addr, x: Route)
      returns (n: Prefix)
    requires MidUpdate(was, now, index, ps) && Candidate(now, NC_TABLE, a, x) && x.hop != Throw
    requires forall y | y in was && y.table == NC_TABLE :: y.dst.addr.Family() != a.Family()
    requires forall m | m in ps :: ValidPrefix(m) && !m.addr.Is4In6()
    ensures Throws() <= now && n in ps && Contains(n, a) && n.bits == x.dst.bits
  {
    assert x !in was;
    assert x !in Throws();
    assert x in TunnelRoutes(index, ps);
    n :| n in ps && StoredDst(ToIPNet(n)).Some? && x == TunnelRoute(StoredDst(ToIPNet(n)).value, index);
    StoredAnswersSame(n, a);
  }

  /** Where a winning route comes from. */
  lemma WinnerSource(was: set<Route>, now: set<Route>, index: nat, ps: seq<Prefix>, a: Addr, r: Route)
    requires Updated(was, now, index, ps) && a != NoAddr && Candidate(now, NC_TABLE, a, r)
    requires forall x | x in was && x.table == NC_TABLE :: x.dst.addr.Family() != a.Family()
    requires forall n | n in ps :: ValidPrefix(n) && !n.addr.Is4In6()
    ensures r.hop == Throw || r.hop == Via(index)
    ensures r.hop == Throw ==> r.metric == THROW_METRIC && r.dst in Special()
    ensures r.hop == Via(index) ==>
      r.metric == ROUTE_METRIC && exists n :: n in ps && Contains(n, a) && n.bits == r.dst.bits
  {
    FreshTable(was, now, index, ps, a.Family(), r);
    if r in TunnelRoutes(index, ps) {
      var n :| n in ps && StoredDst(ToIPNet(n)).Some? && r == TunnelRoute(StoredDst(ToIPNet(n)).value, index);
      StoredAnswersSame(n, a);
      assert n in ps && Contains(n, a) && n.bits == r.dst.bits;
    }
  }

  // ---- the ranges by their octets ----

  /** Section 3 of RFC 1918 and section 2.1 of RFC 3927. */
  predicate Private4(b: Bytes4) {
    || b[0] == 10
    || (b[0] == 172 && 16 <= b[1] <= 31)
    || (b[0] == 192 && b[1] == 168)
    || (b[0] == 169 && b[1] == 254)
  }

  /** Section 3.1 of RFC 4193 and section 2.5.6 of RFC 4291. */
  predicate Private6(b: Bytes16) {
    || 0xfc <= b[0] <= 0xfd
    || (b[0] == 0xfe && 0x80 <= b[1] <= 0xbf)
  }

  predicate PrivateOrLinkLocal(a: Addr) {
    match a
    case V4(b) => Private4(b)
    case V6(b) => Private6(b)
    case NoAddr => false
  }

  ghost predicate InSpecial(a: Addr) {
    exists s :: s in Special() && Contains(s, a)
  }

  /** A prefix of at most sixteen bits looks at two octets. */
  lemma ShortPrefix(p: Prefix, a: Addr)
    requires ValidPrefix(p) && p.bits <= 16 && a.BitLen() == p.addr.BitLen()
    ensures Contains(p, a) <==>
      && Top(a.Bytes()[0], p.bits) == Top(p.addr.Bytes()[0], p.bits)
      && Top(a.Bytes()[1], p.bits - 8) == Top(p.addr.Bytes()[1], p.bits - 8)
  {
    var x, y := MaskBytes(a.Bytes(), p.bits), MaskBytes(p.addr.Bytes(), p.bits);
    assert x[0] == Top(a.Bytes()[0], p.bits) && y[0] == Top(p.addr.Bytes()[0], p.bits);
    assert x[1] == Top(a.Bytes()[1], p.bits - 8) && y[1] == Top(p.addr.Bytes()[1], p.bits - 8);
    assert forall i | 2 <= i < |x| :: x[i] == 0 && y[i] == 0;
    if x[0] == y[0] && x[1] == y[1] {
      assert x == y;
    }
  }

  lemma Special4(b: Bytes4)
    ensures InSpecial(V4(b)) <==> Private4(b)
  {
    var a := V4(b);
    SpecialMembers();
    ShortPrefix(V4_PRIVATE_LIST[0], a);
    ShortPrefix(V4_PRIVATE_LIST[1], a);
    ShortPrefix(V4_PRIVATE_LIST[2], a);
    ShortPrefix(V4_LINK_LOCAL, a);
    assert Private4(b) <==>
      || Contains(V4_PRIVATE_LIST[0], a) || Contains(V4_PRIVATE_LIST[1], a)
      || Contains(V4_PRIVATE_LIST[2], a) || Contains(V4_LINK_LOCAL, a);
  }

  lemma UniqueLocal(b: Bytes16)
    ensures Contains(V6_PRIVATE_LIST[0], V6(b)) <==> 0xfc <= b[0] <= 0xfd
  {
    ShortPrefix(V6_PRIVATE_LIST[0], V6(b));
  }

  lemma LinkLocal6(b: Bytes16)
    ensures Contains(V6_LINK_LOCAL, V6(b)) <==> b[0] == 0xfe && 0x80 <= b[1] <= 0xbf
  {
    ShortPrefix(V6_LINK_LOCAL, V6(b));
  }

  lemma Special6(b: Bytes16)
    ensures InSpecial(V6(b)) <==> Private6(b)
  {
    SpecialMembers();
    UniqueLocal(b);
    LinkLocal6(b);
  }

  lemma SpecialMembers()
    ensures forall s :: s in Special() <==> s in {V4_PRIVATE_LIST[0], V4_PRIVATE_LIST[1], V4_PRIVATE_LIST[2],
      V6_PRIVATE_LIST[0], V4_LINK_LOCAL, V6_LINK_LOCAL}
  {}

  /** The listed ranges are exactly the private and link-local addresses. */
  lemma SpecialIsPrivate(a: Addr)
    ensures InSpecial(a) <==> PrivateOrLinkLocal(a)
  {
    match a
    case NoAddr => SpecialMembers();
    case V4(b) => Special4(b);
    case V6(b) => Special6(b);
  }

  lemma ZeroBitsContainAll(d: Prefix, a: Addr)
    requires ValidPrefix(d) && d.bits == 0 && a.BitLen() == d.addr.BitLen()
    ensures Contains(d, a)
  {}

  lemma SpecialLengths()
    ensures forall s | s in Special() :: 0 < s.bits <= 16
  {}

  lemma DefaultRouteLengths(d: Prefix, a: Addr)
    requires ValidPrefix(d) && d.bits == 0 && a.BitLen() == d.addr.BitLen()
    ensures ToThrow([d], a) <==> InSpecial(a)
    ensures ToTunnel([d], a) <==> !InSpecial(a)
  {
    ZeroBitsContainAll(d, a);
    assert d in [d];
    SpecialLengths();
  }

  /** A default-route egress takes every public address and leaves every private or link-local one alone. */
  lemma DefaultRouteSparesPrivate(was: set<Route>, now: set<Route>, index: nat, d: Prefix, a: Addr)
    requires ValidPrefix(d) && d.bits == 0 && a.BitLen() == d.addr.BitLen() && !d.addr.Is4In6()
    requires Updated(was, now, index, [d])
    requires forall x | x in was && x.table == NC_TABLE :: x.dst.addr.Family() != a.Family()
    ensures Find(now, NC_TABLE, a).Some?
    ensures Find(now, NC_TABLE, a).value.hop == if PrivateOrLinkLocal(a) then Throw else Via(index)
  {
    LookupFollowsLengths(was, now, index, [d], a);
    SpecialIsPrivate(a);
    DefaultRouteLengths(d, a);
  }
}
