/** Route table 117 of a NAT client: what it holds before, during and after an update. */
module ClientTable {
  import opened Sequences
  import opened Addresses
  import opened NetipUtil
  import opened KernelModel

  const NC_TABLE := 117
  const THROW_METRIC := 500
  const ROUTE_METRIC := 100
  const NC_PRIO := 1900

  const V4_PRIVATE_LIST := [
    Prefix(V4([10, 0, 0, 0]), 8), Prefix(V4([172, 16, 0, 0]), 12), Prefix(V4([192, 168, 0, 0]), 16)]
  const V6_PRIVATE_LIST := [Prefix(V6([0xfc, 0, 0, 0, 0, 0, 0, 0, 0, 0, 0, 0, 0, 0, 0, 0]), 7)]
  const V4_LINK_LOCAL := Prefix(V4([169, 254, 0, 0]), 16)
  const V6_LINK_LOCAL := Prefix(V6([0xfe, 0x80, 0, 0, 0, 0, 0, 0, 0, 0, 0, 0, 0, 0, 0, 0]), 10)

  /** The ranges that stay off the tunnel, in the order they are added. */
  function Special(): seq<Prefix> {
    V4_PRIVATE_LIST + V6_PRIVATE_LIST + [V4_LINK_LOCAL, V6_LINK_LOCAL]
  }

  function NatRule(family: Family): Rule { Rule(family, NC_TABLE, NC_PRIO, "") }

  function ThrowRoute(p: Prefix): Route { Route(NC_TABLE, p, Throw, THROW_METRIC) }

  function TunnelRoute(p: Prefix, index: nat): Route { Route(NC_TABLE, p, Via(index), ROUTE_METRIC) }

  function ThrowRoutes(ps: seq<Prefix>): set<Route> { set s | s in ps :: ThrowRoute(s) }

  function Throws(): set<Route> { ThrowRoutes(Special()) }

  /** The routes that adding `ps` through link `index` installs. */
  function TunnelRoutes(index: nat, ps: seq<Prefix>): set<Route> {
    set n | n in ps && StoredDst(ToIPNet(n)).Some? :: TunnelRoute(StoredDst(ToIPNet(n)).value, index)
  }

  predicate OnLink(r: Route, index: nat) { r.table == NC_TABLE && r.hop == Via(index) }

  /** The destinations as the kernel stores them. */
  ghost predicate Requested(ps: seq<Prefix>, d: Prefix) {
    exists n :: n in ps && StoredDst(ToIPNet(n)) == Some(d)
  }

  /** The prefixes that a link has. */
  ghost function PrefixesOn(routes: set<Route>, index: nat): set<Prefix> {
    set r | r in routes && OnLink(r, index) :: r.dst
  }

  ghost predicate Installed(routes: set<Route>, index: nat, d: Prefix) {
    d in PrefixesOn(routes, index)
  }

  ghost predicate AllInstalled(routes: set<Route>, index: nat, ps: seq<Prefix>) {
    forall n | n in ps :: StoredDst(ToIPNet(n)).Some? && Installed(routes, index, StoredDst(ToIPNet(n)).value)
  }

  /** Kernel routes are valid and masked, and no destination of table 117 is IPv4-mapped. */
  ghost predicate TableWf(routes: set<Route>) {
    && RoutesWf(routes)
    && (forall r | r in routes && r.table == NC_TABLE :: !r.dst.addr.Is4In6())
  }

  lemma SpecialStored(p: Prefix)
    requires p in Special()
    ensures ValidPrefix(p) && StoredDst(ToIPNet(p)) == Some(p) && IsMasked(p) && !p.addr.Is4In6()
  {
    SpecialMasked(p);
    StoredDstPlain(p);
  }

  lemma SpecialMasked(p: Prefix)
    requires p in Special()
    ensures ValidPrefix(p) && IsMasked(p) && !p.addr.Is4In6()
  {}

  lemma StoredDstWf(n: IPNet)
    ensures StoredDst(n).Some? ==>
      var d := StoredDst(n).value; ValidPrefix(d) && IsMasked(d) && !d.addr.Is4In6()
  {
    if StoredDst(n).Some? {
      FromIPNetPlain(n);
      MaskedIsMasked(FromIPNet(n).value);
      MaskedStaysPlain(FromIPNet(n).value);
    }
  }

  /** A destination taken from the table converts back to itself. */
  lemma TableRoundTrip(routes: set<Route>, r: Route)
    requires TableWf(routes) && r in routes && r.table == NC_TABLE
    ensures FromIPNet(ToIPNet(r.dst)) == Some(r.dst) && StoredDst(ToIPNet(r.dst)) == Some(r.dst)
  {
    PrefixRoundTrip(r.dst);
    StoredDstPlain(r.dst);
  }

  /** A destination that is valid and not IPv4-mapped is stored masked; unmasked IPv4 is refused. */
  lemma StoredIsMasked(n: Prefix)
    requires ValidPrefix(n) && !n.addr.Is4In6() && StoredDst(ToIPNet(n)).Some?
    ensures StoredDst(ToIPNet(n)) == Some(Masked(n))
  {
    PrefixRoundTrip(n);
  }

  // ---- when an update is possible ----

  ghost predicate ThrowsFree(routes: set<Route>, ps: seq<Prefix>) {
    forall p | p in ps :: !KeyTaken(routes, NC_TABLE, p, THROW_METRIC)
  }

  /** Every prefix can be stored, at a place that is free, and no two at the same place. */
  ghost predicate Addable(routes: set<Route>, ps: seq<Prefix>) {
    && (forall n | n in ps ::
          var d := StoredDst(ToIPNet(n)); d.Some? && !KeyTaken(routes, NC_TABLE, d.value, ROUTE_METRIC))
    && (forall i, j | 0 <= i < j < |ps| :: StoredDst(ToIPNet(ps[i])) != StoredDst(ToIPNet(ps[j])))
  }

  /** The prefixes of `ps` that are not in `have`, repetitions included. */
  ghost function Lacking(have: set<Prefix>, ps: seq<Prefix>): seq<Prefix> {
    if ps == [] then []
    else
      var n := ps[|ps| - 1];
      Lacking(have, ps[..|ps| - 1]) + if n in have then [] else [n]
  }

  ghost predicate CanUpdate(routes: set<Route>, index: nat, ps: seq<Prefix>) {
    ThrowsFree(routes, Special()) && Addable(routes, Lacking(PrefixesOn(routes, index), ps))
  }

  /** No two members outside `have` go to the same place. */
  ghost predicate AllApart(place: Prefix -> Option<Prefix>, have: set<Prefix>, ps: seq<Prefix>) {
    forall i, j | 0 <= i < j < |ps| && ps[i] !in have && ps[j] !in have :: place(ps[i]) != place(ps[j])
  }

  lemma AllApartSnoc(place: Prefix -> Option<Prefix>, have: set<Prefix>, ps: seq<Prefix>, n: Prefix)
    ensures AllApart(place, have, ps + [n]) <==>
      AllApart(place, have, ps) && (n !in have ==> forall m | m in ps && m !in have :: place(m) != place(n))
  {
    var qs := ps + [n];
    assert forall i | 0 <= i < |ps| :: qs[i] == ps[i];
    if AllApart(place, have, qs) && n !in have {
      forall m | m in ps && m !in have
        ensures place(m) != place(n)
      {
        var i :| 0 <= i < |ps| && ps[i] == m;
        assert place(qs[i]) != place(qs[|ps|]);
      }
    }
  }

  /** The list of those to add, and the places they go to, from the request itself. */
  lemma {:induction false} LackingMembers(place: Prefix -> Option<Prefix>, have: set<Prefix>, ps: seq<Prefix>)
    ensures forall n :: n in Lacking(have, ps) <==> n in ps && n !in have
    ensures AllApart(place, {}, Lacking(have, ps)) <==> AllApart(place, have, ps)
  {
    if ps != [] {
      var front, n := ps[..|ps| - 1], ps[|ps| - 1];
      LackingMembers(place, have, front);
      assert ps == front + [n];
      AllApartSnoc(place, have, front, n);
      var xs := Lacking(have, front);
      if n in have {
        assert Lacking(have, ps) == xs;
      } else {
        assert Lacking(have, ps) == xs + [n];
        AllApartSnoc(place, {}, xs, n);
        assert (forall m | m in xs && m !in {} :: place(m) != place(n)) <==>
               (forall m | m in front && m !in have :: place(m) != place(n));
      }
    }
  }

  /**
   When an update is possible, from the request itself: the throw routes are not there, and every requested prefix
   that the link lacks can be stored at a free place, no two at the same one. So one that is listed twice makes it fail.
   */
  lemma CanUpdateExactly(routes: set<Route>, index: nat, ps: seq<Prefix>)
    ensures CanUpdate(routes, index, ps) <==>
      && ThrowsFree(routes, Special())
      && (forall n | n in ps && !Installed(routes, index, n) ::
            var d := StoredDst(ToIPNet(n)); d.Some? && !KeyTaken(routes, 117, d.value, 100))
      && AllApart(n => StoredDst(ToIPNet(n)), PrefixesOn(routes, index), ps)
  {
    var place := n => StoredDst(ToIPNet(n));
    LackingMembers(place, PrefixesOn(routes, index), ps);
    AddableApart(routes, Lacking(PrefixesOn(routes, index), ps));
  }

  lemma AddableApart(routes: set<Route>, ps: seq<Prefix>)
    ensures Addable(routes, ps) <==>
      && (forall n | n in ps :: var d := StoredDst(ToIPNet(n)); d.Some? && !KeyTaken(routes, 117, d.value, 100))
      && AllApart(n => StoredDst(ToIPNet(n)), {}, ps)
  {}

  /** A list of destinations, its routes, and whether they can be added one after the other. */
  function Dsts(ps: seq<Prefix>): seq<Option<Prefix>> {
    seq(|ps|, i requires 0 <= i < |ps| => StoredDst(ToIPNet(ps[i])))
  }

  function RoutesTo(ds: seq<Option<Prefix>>, hop: Hop, metric: nat): set<Route> {
    set d | d in ds && d.Some? :: Route(NC_TABLE, d.value, hop, metric)
  }

  ghost predicate Free(routes: set<Route>, ds: seq<Option<Prefix>>, metric: nat) {
    && (forall d | d in ds :: d.Some? && !KeyTaken(routes, NC_TABLE, d.value, metric))
    && NoRepeats(ds)
  }

  /** After the first `i` routes the next can be added exactly if the first `i + 1` are free. */
  lemma FreeNext(routes: set<Route>, ds: seq<Option<Prefix>>, hop: Hop, metric: nat, i: nat)
    requires i < |ds| && Free(routes, ds[..i], metric)
    ensures Free(routes, ds[..i + 1], metric) <==>
      ds[i].Some? && !KeyTaken(routes + RoutesTo(ds[..i], hop, metric), NC_TABLE, ds[i].value, metric)
    ensures ds[i].Some? ==>
      RoutesTo(ds[..i + 1], hop, metric) == RoutesTo(ds[..i], hop, metric) + {Route(NC_TABLE, ds[i].value, hop, metric)}
    ensures RoutesTo(ds[..i + 1], hop, metric) <= RoutesTo(ds, hop, metric)
    ensures Free(routes, ds, metric) ==> Free(routes, ds[..i + 1], metric)
  {
    var d := ds[i];
    assert ds[..i + 1] == ds[..i] + [d];
    if d.Some? {
      var now := routes + RoutesTo(ds[..i], hop, metric);
      if d in ds[..i] { assert Route(NC_TABLE, d.value, hop, metric) in now; }
      if r :| r in routes && r.table == NC_TABLE && r.dst == d.value && r.metric == metric { assert r in now; }
      if r :| r in RoutesTo(ds[..i], hop, metric) && r.dst == d.value { assert d in ds[..i]; }
    }
  }

  lemma DstsMembers(ps: seq<Prefix>)
    ensures forall n | n in ps :: StoredDst(ToIPNet(n)) in Dsts(ps)
    ensures forall d | d in Dsts(ps) :: exists n :: n in ps && StoredDst(ToIPNet(n)) == d
  {
    forall n | n in ps
      ensures StoredDst(ToIPNet(n)) in Dsts(ps)
    {
      var i :| 0 <= i < |ps| && ps[i] == n;
      assert Dsts(ps)[i] == StoredDst(ToIPNet(n));
    }
    forall d | d in Dsts(ps)
      ensures exists n :: n in ps && StoredDst(ToIPNet(n)) == d
    {
      var i :| 0 <= i < |ps| && Dsts(ps)[i] == d;
      assert ps[i] in ps;
    }
  }

  lemma TunnelRoutesByDst(index: nat, ps: seq<Prefix>)
    ensures TunnelRoutes(index, ps) == RoutesTo(Dsts(ps), Via(index), ROUTE_METRIC)
  {
    DstsMembers(ps);
  }

  lemma AddableByDst(routes: set<Route>, ps: seq<Prefix>)
    ensures Addable(routes, ps) <==> Free(routes, Dsts(ps), ROUTE_METRIC)
  {
    DstsMembers(ps);
    assert forall i | 0 <= i < |ps| :: Dsts(ps)[i] == StoredDst(ToIPNet(ps[i]));
  }

  lemma ThrowsByDst(routes: set<Route>, ps: seq<Prefix>, ds: seq<Option<Prefix>>)
    requires None !in ds && NoRepeats(ds) && forall p :: p in ps <==> Some(p) in ds
    ensures ThrowRoutes(ps) == RoutesTo(ds, Throw, THROW_METRIC)
    ensures ThrowsFree(routes, ps) <==> Free(routes, ds, THROW_METRIC)
  {
    forall r
      ensures r in ThrowRoutes(ps) <==> r in RoutesTo(ds, Throw, THROW_METRIC)
    {
      if r in ThrowRoutes(ps) { assert Some(r.dst) in ds; }
    }
    if ThrowsFree(routes, ps) {
      forall d | d in ds
        ensures d.Some? && !KeyTaken(routes, NC_TABLE, d.value, THROW_METRIC)
      {
        assert Some(d.value) in ds;
      }
    }
  }

  /** The special ranges are stored as they are, each once. */
  lemma SpecialDsts()
    ensures None !in Dsts(Special()) && forall p :: p in Special() <==> Some(p) in Dsts(Special())
    ensures NoRepeats(Dsts(Special()))
  {
    SpecialDistinct();
    forall i | 0 <= i < |Special()|
      ensures Dsts(Special())[i] == Some(Special()[i])
    {
      SpecialStored(Special()[i]);
    }
  }

  lemma SpecialDistinct()
    ensures NoRepeats(Special())
  {
    assert Special()[0].addr.b4[0] == 10 && Special()[1].addr.b4[0] == 172 && Special()[2].addr.b4[0] == 192;
    assert Special()[3].bits == 7 && Special()[4].addr.b4[0] == 169 && Special()[5].bits == 10;
  }

  /** Throw routes and link routes do not get in each other's way. */
  lemma ThrowsDoNotBlock(routes: set<Route>, ps: seq<Prefix>)
    ensures Addable(routes + Throws(), ps) <==> Addable(routes, ps)
  {
    forall d
      ensures KeyTaken(routes + Throws(), NC_TABLE, d, ROUTE_METRIC) <==> KeyTaken(routes, NC_TABLE, d, ROUTE_METRIC)
    {
      if r :| r in routes && r.table == NC_TABLE && r.dst == d && r.metric == ROUTE_METRIC {
        assert r in routes + Throws();
      }
    }
  }

  // ---- an update in progress ----

  /**
   `now` is a state that an update of link `index` to `ps` may pass through from `was`:
   routes of other links and tables are all there, joined by throw routes at most; a route
   of the link whose prefix is requested is still there; no prefix is on the link that was not there
   or requested; no route of the link has gone before every requested prefix was in; and none has come before
   every throw route was in.
   */
  ghost predicate MidUpdate(was: set<Route>, now: set<Route>, index: nat, ps: seq<Prefix>) {
    && (forall r | r in was && !OnLink(r, index) :: r in now)
    && (forall r | r in now && !OnLink(r, index) :: r in was || r in Throws())
    && (forall r | r in was && OnLink(r, index) && r.dst in ps :: r in now)
    && (forall r | r in now && OnLink(r, index) :: r in was || r in TunnelRoutes(index, ps))
    && ((forall r | r in was && OnLink(r, index) :: r in now) || AllInstalled(now, index, ps))
    && (now <= was + Throws() || Throws() <= now)
  }

  /** What an update, finished or not, has added: routes of table 117 through the link, and throw routes behind them. */
  lemma AddedRoutes(was: set<Route>, now: set<Route>, index: nat, ps: seq<Prefix>, r: Route)
    requires MidUpdate(was, now, index, ps) && r in now && r !in was
    ensures r.table == 117
    ensures if r.hop == Throw then r.metric == 500 && r.dst in Special() else r.hop == Via(index) && r.metric == 100
  {}

  /** Whatever an update installs is as well-formed as what it found. */
  lemma MidUpdateKeepsWf(was: set<Route>, now: set<Route>, index: nat, ps: seq<Prefix>)
    requires TableWf(was) && MidUpdate(was, now, index, ps)
    ensures TableWf(now)
  {
    forall r | r in now
      ensures ValidPrefix(r.dst) && IsMasked(r.dst) && (r.table == NC_TABLE ==> !r.dst.addr.Is4In6())
    {
      if r in Throws() {
        SpecialMasked(r.dst);
      } else if r !in was {
        var n :| n in ps && StoredDst(ToIPNet(n)).Some? && r == TunnelRoute(StoredDst(ToIPNet(n)).value, index);
        StoredDstWf(ToIPNet(n));
      }
    }
  }

  /** `now` is where a successful update ends. */
  ghost predicate Updated(was: set<Route>, now: set<Route>, index: nat, ps: seq<Prefix>) {
    && MidUpdate(was, now, index, ps)
    && AllInstalled(now, index, ps)
    && Throws() <= now && Throws() !! was
    // the only route of an unrequested prefix is gone
    && (forall r | r in was && OnLink(r, index) && r.dst !in ps
          && (forall s | s in was && OnLink(s, index) && s.dst == r.dst :: s == r) :: r !in now)
    // but of two routes of one prefix at most one is
    && (forall r, s | r in was && s in was && OnLink(r, index) && OnLink(s, index) && r.dst == s.dst && r != s ::
          r in now || s in now)
  }

  /**
   Exact reconciliation: the link ends with exactly the requested prefixes, unless the table held an
   unrequested prefix on that link at two metrics, of which only one is found and deleted.
   */
  lemma ReconcilesExactly(was: set<Route>, now: set<Route>, index: nat, ps: seq<Prefix>)
    requires TableWf(was) && Updated(was, now, index, ps)
    ensures (forall d :: Installed(now, index, d) <==> Requested(ps, d)) <==>
      (forall r, s | r in was && s in was && OnLink(r, index) && OnLink(s, index) && r.dst == s.dst && r != s ::
         Requested(ps, r.dst))
  {
    if r, s :| r in was && s in was && OnLink(r, index) && OnLink(s, index) && r.dst == s.dst && r != s
               && !Requested(ps, r.dst) {
      assert Installed(now, index, r.dst);
    } else {
      forall d
        ensures Installed(now, index, d) <==> Requested(ps, d)
      {
        if Installed(now, index, d) && !Requested(ps, d) {
          var r :| r in now && OnLink(r, index) && r.dst == d;
          if r in was { TableRoundTrip(was, r); }
          assert false;
        }
      }
    }
  }

  /** A second update finds the throw routes of the first and cannot succeed. */
  lemma SecondUpdateImpossible(
      was: set<Route>, mid: set<Route>, now: set<Route>, i: nat, j: nat, ps: seq<Prefix>, qs: seq<Prefix>)
    requires Updated(was, mid, i, ps)
    ensures !Updated(mid, now, j, qs)
  {
    assert V4_LINK_LOCAL in Special();
    assert ThrowRoute(V4_LINK_LOCAL) in Throws();
  }
}
