/** The daemon that sets a NAT client pod up: the namespace part of `Add` in `internal/ponad/server.go`. */
module Ponad {
  import opened Addresses
  import opened NetipUtil
  import opened FouNaming
  import opened KernelModel
  import S = Sentinel
  import opened NetlinkSocket
  import opened Fou
  import opened Annotations
  import opened ClientTable
  import opened Lookup
  import opened FouController
  import opened NatClientController

  /** The API server's answers; `None` marks a string that does not parse. */
  datatype Api = Api(
    destinations: map<EgressKey, seq<Option<Prefix>>>,
    clusterIP: map<EgressKey, Option<Addr>>)

  /** What the parsers of `net/netip` guarantee of a parsed value. */
  ghost predicate Parses(api: Api) {
    && (forall k | k in api.destinations ::
          forall d | d in api.destinations[k] && d.Some? :: ValidPrefix(d.value))
    && (forall k | k in api.clusterIP && api.clusterIP[k].Some? :: api.clusterIP[k].value != NoAddr)
  }

  /** The parsed prefixes of one family, in order. */
  function OfFamily(ds: seq<Option<Prefix>>, family: Family): seq<Prefix> {
    if ds == [] then []
    else
      var front := OfFamily(ds[..|ds| - 1], family);
      var d := ds[|ds| - 1];
      if d.Some? && d.value.addr.Family() == family then front + [d.value] else front
  }

  lemma {:induction false} OfFamilyMembers(ds: seq<Option<Prefix>>, family: Family, p: Prefix)
    ensures p in OfFamily(ds, family) <==> Some(p) in ds && p.addr.Family() == family
  {
    if ds != [] {
      OfFamilyMembers(ds[..|ds| - 1], family, p);
      assert ds == ds[..|ds| - 1] + [ds[|ds| - 1]];
    }
  }

  /** In order and with repetitions: entry by entry, those of the family that parse. */
  lemma {:induction false} OfFamilyAppend(xs: seq<Option<Prefix>>, ys: seq<Option<Prefix>>, family: Family)
    ensures OfFamily(xs + ys, family) == OfFamily(xs, family) + OfFamily(ys, family)
    ensures |xs| == 1 ==>
      OfFamily(xs, family) == if xs[0].Some? && xs[0].value.addr.Family() == family then [xs[0].value] else []
    decreases |ys|
  {
    if ys == [] {
      assert xs + ys == xs;
    } else {
      var front := ys[..|ys| - 1];
      OfFamilyAppend(xs, front, family);
      assert (xs + ys)[..|xs + ys| - 1] == xs + front;
    }
    if |xs| == 1 { assert OfFamily(xs[..0], family) == []; }
  }

  method CollectDestinationsForEgress(api: Api, key: EgressKey) returns (r: Result<(Addr, seq<Prefix>)>)
    requires Parses(api)
    ensures r.Ok? <==>
      && key in api.destinations && key in api.clusterIP && api.clusterIP[key].Some?
      && None !in api.destinations[key]
    ensures r.Ok? ==>
      && r.value.0 == api.clusterIP[key].value
      && r.value.1 == OfFamily(api.destinations[key], r.value.0.Family())
  {
    if key !in api.destinations { return Err(BadInput); }
    if key !in api.clusterIP { return Err(BadInput); }
    if api.clusterIP[key].None? { return Err(BadInput); }
    var svcIP := api.clusterIP[key].value;
    if svcIP == NoAddr { return Err(BadInput); }
    var ds := api.destinations[key];
    var subnets: seq<Prefix> := [];
    for i := 0 to |ds|
      invariant None !in ds[..i]
      invariant subnets == OfFamily(ds[..i], svcIP.Family())
    {
      assert ds[..i + 1][..i] == ds[..i];
      if ds[i].None? { return Err(BadInput); }
      if ds[i].value.addr.Family() == svcIP.Family() {
        subnets := subnets + [ds[i].value];
      }
    }
    assert ds[..|ds|] == ds;
    r := Ok((svcIP, subnets));
  }

  /** No route of an enabled family is in table 117. */
  ghost predicate Clean(c: Config, routes: set<Route>) {
    forall x | x in routes && x.table == NC_TABLE :: !Enabled(c.ip4.Some?, c.ip6.Some?, x.dst.addr.Family())
  }

  /** The routes that the client's `Init` leaves. */
  ghost function Kept(c: Config, routes: set<Route>): set<Route> {
    set r | r in routes && !(r.table == NC_TABLE && Enabled(c.ip4.Some?, c.ip6.Some?, r.dst.addr.Family()))
  }

  /** The egress, its service and all its destinations are known and parse. */
  ghost predicate Resolves(api: Api, key: EgressKey) {
    && key in api.destinations && key in api.clusterIP && api.clusterIP[key].Some?
    && None !in api.destinations[key]
  }

  ghost function ServiceOf(api: Api, key: EgressKey): Addr
    requires Resolves(api, key)
  {
    api.clusterIP[key].value
  }

  ghost function SubnetsOf(api: Api, key: EgressKey): seq<Prefix>
    requires Resolves(api, key)
  {
    OfFamily(api.destinations[key], ServiceOf(api, key).Family())
  }

  /** What setting one egress up takes, once the table is cleared. */
  ghost predicate ServableNow(c: Config, routes: set<Route>, api: Api, key: EgressKey) {
    && Resolves(api, key) && Supported(c, ServiceOf(api, key))
    && ThrowsFree(routes, Special())
    && Addable(routes, SubnetsOf(api, key))
  }

  /** What setting one egress up in a namespace with these routes takes. */
  ghost predicate Servable(c: Config, routes: set<Route>, api: Api, key: EgressKey) {
    ServableNow(c, Kept(c, routes), api, key)
  }

  /** What setting it up takes in this kernel, when nothing is refused. */
  ghost predicate Attachable(c: Config, k: Kernel, api: Api, key: EgressKey) {
    Servable(c, k.routes, api, key) && Reachable(c, k, ServiceOf(api, key))
  }

  /** The pod's namespace after one egress with service address `g` and destinations `ds` was set up. */
  ghost predicate Served(c: Config, k: Kernel, g: Addr, ds: seq<Prefix>) {
    && Supported(c, g) && HasTunnel(c, k, g) && k.links[LinkName(c.digest, g)].up
    && exists was :: TableWf(was) && Clean(c, was) && Updated(was, k.routes, k.links[LinkName(c.digest, g)].index, ds)
  }

  lemma {:induction false} NothingInstalledYet(have: set<Prefix>, ps: seq<Prefix>)
    requires forall n | n in ps :: n !in have
    ensures Lacking(have, ps) == ps
  {
    if ps != [] {
      var front := ps[..|ps| - 1];
      assert forall n | n in front :: n in ps;
      assert ps[|ps| - 1] in ps;
      NothingInstalledYet(have, front);
    }
  }

  /** On a table without the family's routes an update is possible exactly if all prefixes are addable. */
  lemma CleanUpdate(c: Config, was: set<Route>, index: nat, dests: seq<Option<Prefix>>, g: Addr)
    requires Clean(c, was) && Supported(c, g)
    ensures var ds := OfFamily(dests, g.Family());
      CanUpdate(was, index, ds) <==> ThrowsFree(was, Special()) && Addable(was, ds)
  {
    var ds := OfFamily(dests, g.Family());
    forall n | n in ds
      ensures n !in PrefixesOn(was, index)
    {
      OfFamilyMembers(dests, g.Family(), n);
    }
    NothingInstalledYet(PrefixesOn(was, index), ds);
  }

  /** One round of the loop in `Add`. */
  method ServeOne(ft: FouTunnelController, nt: NatClient, api: Api, key: EgressKey)
      returns (r: Result<()>, ghost index: nat)
    requires ft.nl == nt.nl && TableWf(ft.nl.st.routes) && Parses(api)
    modifies ft.nl
    ensures TableWf(ft.nl.st.routes)
    ensures KeysUnique(old(ft.nl.st).routes) ==> KeysUnique(ft.nl.st.routes)
    ensures FOU_DUMMY in old(ft.nl.st).links ==> FOU_DUMMY in ft.nl.st.links
    ensures ft.nl.st.rules == old(ft.nl.st).rules && ft.nl.st.settings == old(ft.nl.st).settings
    ensures r.Ok? ==>
      && Resolves(api, key) && Supported(ft.c, ServiceOf(api, key))
      && CanUpdate(old(ft.nl.st).routes, index, SubnetsOf(api, key))
      && Updated(old(ft.nl.st).routes, ft.nl.st.routes, index, SubnetsOf(api, key))
      && HasTunnel(ft.c, ft.nl.st, ServiceOf(api, key))
      && ft.nl.st.links[LinkName(ft.c.digest, ServiceOf(api, key))] == Link(index, true)
    ensures Quiet(ft.nl.faults) && Resolves(api, key) && Supported(ft.c, ServiceOf(api, key)) ==>
      (r.Ok? <==>
       && Reachable(ft.c, old(ft.nl.st), ServiceOf(api, key))
       && CanUpdate(old(ft.nl.st).routes, index, SubnetsOf(api, key)))
  {
    index := 0;
    var gd := CollectDestinationsForEgress(api, key);
    if gd.Err? { return Err(gd.error), 0; }
    var g, ds := gd.value.0, gd.value.1;
    PeerPossible(ft.c, ft.nl.faults, ft.nl.st, g);
    var link := ft.AddPeer(g);
    if link.Err? { return Err(link.error), 0; }
    index := link.value.index;
    ghost var mid := ft.nl.st.routes;
    r := nt.UpdateRoutes(link.value, ds);
    MidUpdateKeepsWf(mid, ft.nl.st.routes, link.value.index, ds);
  }

  /** What `ServeOne` needs of `AddPeer`. */
  lemma PeerPossible(c: Config, f: Faults, k: Kernel, g: Addr)
    requires g != NoAddr
    ensures var o := AddPeer(c, f, k, g);
      && o.k.routes == k.routes && o.k.rules == k.rules && o.k.settings == k.settings
      && (FOU_DUMMY in k.links ==> FOU_DUMMY in o.k.links)
      && (o.r.Ok? ==> Supported(c, g) && Live(o.k, o.r.value) && o.r.value.name == LinkName(c.digest, g))
      && (Quiet(f) && Supported(c, g) ==> (o.r.Ok? <==> Reachable(c, k, g)))
  {
    AddPeerEffect(c, f, k, g);
    if Quiet(f) { AddPeerSucceeds(c, f, k, g); }
  }

  /**
   What a success leaves beside routes and links: per enabled family one rule to table 117, all other rules as they
   were, and a host that is ready for tunnels if the dummy link did not lie before.
   */
  ghost predicate InNamespace(c: Config, k: Kernel, k': Kernel) {
    && ClientRules(k.rules, k'.rules, c.ip4.Some?, c.ip6.Some?)
    && "fou-dummy" in k'.links
    && (("fou-dummy" in k.links ==> FouReady(c, k)) ==> FouReady(c, k'))
  }

  /** The two initialisations that come before the loop. */
  method Prepare(ft: FouTunnelController, nt: NatClient) returns (r: Result<()>)
    requires ft.nl == nt.nl && TableWf(ft.nl.st.routes)
    requires nt.useipv4 == ft.c.ip4.Some? && nt.useipv6 == ft.c.ip6.Some?
    modifies ft.nl
    ensures TableWf(ft.nl.st.routes) && (KeysUnique(old(ft.nl.st).routes) ==> KeysUnique(ft.nl.st.routes))
    ensures r.Ok? ==>
      && FOU_DUMMY in ft.nl.st.links && ft.nl.st.routes == Kept(ft.c, old(ft.nl.st).routes)
      && InNamespace(ft.c, old(ft.nl.st), ft.nl.st)
      && forall g :: Reachable(ft.c, ft.nl.st, g) <==> Reachable(ft.c, old(ft.nl.st), g)
    ensures Quiet(ft.nl.faults) ==> (r.Ok? <==> InitOpen(ft.c, old(ft.nl.st)))
  {
    r := ft.Init();
    InitKeepsTunnels(ft.c, ft.nl.faults, old(ft.nl.st));
    if r.Err? { return; }
    r := nt.Init();
  }

  /**
   The part of `Add` that runs inside the pod's namespace. Without refusals it succeeds exactly if the
   tunnel controller's `Init` can get through and the pod names no egress or one that is `Attachable`. A pod that
   names more than one is never set up: the second update finds the first one's throw routes.
   */
  method SetUpNamespace(nl: Netlink, c: Config, api: Api, egNames: seq<EgressKey>) returns (r: Result<()>)
    requires TableWf(nl.st.routes) && Parses(api)
    modifies nl
    ensures TableWf(nl.st.routes) && (KeysUnique(old(nl.st).routes) ==> KeysUnique(nl.st.routes))
    ensures r.Ok? ==> NewFoUTunnelController(c).Ok? && InNamespace(c, old(nl.st), nl.st) && |egNames| <= 1
    ensures r.Ok? && |egNames| == 1 ==>
      && Servable(c, old(nl.st).routes, api, egNames[0])
      && Served(c, nl.st, ServiceOf(api, egNames[0]), SubnetsOf(api, egNames[0]))
    ensures Quiet(nl.faults) && NewFoUTunnelController(c).Ok? ==>
      (r.Ok? <==>
       && InitOpen(c, old(nl.st))
       && (egNames == [] || (|egNames| == 1 && Attachable(c, old(nl.st), api, egNames[0]))))
  {
    var cfg := NewFoUTunnelController(c);
    if cfg.Err? { return Err(cfg.error); }
    var ft := new FouTunnelController(c, nl);
    var nt := new NatClient(c.ip4.Some?, c.ip6.Some?, nl);
    r := Prepare(ft, nt);
    if r.Err? { return; }
    r := ServeAll(ft, nt, api, egNames);
  }

  /** The loop over the named egresses, on a table without routes of an enabled family. */
  method ServeAll(ft: FouTunnelController, nt: NatClient, api: Api, egNames: seq<EgressKey>) returns (r: Result<()>)
    requires ft.nl == nt.nl && TableWf(ft.nl.st.routes) && Clean(ft.c, ft.nl.st.routes) && Parses(api)
    modifies ft.nl
    ensures TableWf(ft.nl.st.routes) && (KeysUnique(old(ft.nl.st).routes) ==> KeysUnique(ft.nl.st.routes))
    ensures FOU_DUMMY in old(ft.nl.st).links ==> FOU_DUMMY in ft.nl.st.links
    ensures ft.nl.st.rules == old(ft.nl.st).rules && ft.nl.st.settings == old(ft.nl.st).settings
    ensures r.Ok? ==> |egNames| <= 1
    ensures r.Ok? && |egNames| == 1 ==>
      && ServableNow(ft.c, old(ft.nl.st).routes, api, egNames[0])
      && Served(ft.c, ft.nl.st, ServiceOf(api, egNames[0]), SubnetsOf(api, egNames[0]))
    ensures Quiet(ft.nl.faults) ==>
      (r.Ok? <==>
       || egNames == []
       || (|egNames| == 1 && ServableNow(ft.c, old(ft.nl.st).routes, api, egNames[0])
           && Reachable(ft.c, old(ft.nl.st), ServiceOf(api, egNames[0]))))
  {
    ghost var was, index := ft.nl.st.routes, 0;
    for i := 0 to |egNames|
      invariant TableWf(ft.nl.st.routes)
      invariant KeysUnique(was) ==> KeysUnique(ft.nl.st.routes)
      invariant FOU_DUMMY in old(ft.nl.st).links ==> FOU_DUMMY in ft.nl.st.links
      invariant ft.nl.st.rules == old(ft.nl.st).rules && ft.nl.st.settings == old(ft.nl.st).settings
      invariant i <= 1
      invariant i == 0 ==> ft.nl.st == old(ft.nl.st)
      invariant i == 1 ==>
        && ServableNow(ft.c, was, api, egNames[0])
        && (Quiet(ft.nl.faults) ==> Reachable(ft.c, old(ft.nl.st), ServiceOf(api, egNames[0])))
        && Served(ft.c, ft.nl.st, ServiceOf(api, egNames[0]), SubnetsOf(api, egNames[0]))
        && Updated(was, ft.nl.st.routes, index, SubnetsOf(api, egNames[0]))
    {
      ghost var mid, j := ft.nl.st.routes, 0;
      r, j := ServeOne(ft, nt, api, egNames[i]);
      if Resolves(api, egNames[i]) && Supported(ft.c, ServiceOf(api, egNames[i])) {
        CleanUpdate(ft.c, was, j, api.destinations[egNames[i]], ServiceOf(api, egNames[i]));
      }
      if r.Err? { return; }
      if i == 1 {
        SecondUpdateImpossible(
          was, mid, ft.nl.st.routes, index, j, SubnetsOf(api, egNames[0]), SubnetsOf(api, egNames[1]));
        assert false;
      }
      index := j;
    }
    r := Ok(());
  }

  /** The tunnel controller's `Init` touches no route and gets in the way of no tunnel. */
  lemma InitKeepsTunnels(c: Config, f: Faults, k: Kernel)
    ensures var o := Fou.Init(c, f, k);
      && o.k.routes == k.routes && o.k.rules == k.rules
      && (o.r.Ok? ==> FOU_DUMMY in o.k.links && ((FOU_DUMMY in k.links ==> FouReady(c, k)) ==> FouReady(c, o.k)))
      && (forall g :: Reachable(c, o.k, g) <==> Reachable(c, k, g))
      && (o.r.Ok? && Quiet(f) ==> InitOpen(c, k))
      && (Quiet(f) && InitOpen(c, k) ==> o.r.Ok?)
  {
    S.GuardedInitEffect(f, k, FOU_DUMMY, InitSteps(c));
    InitStepsMeaning(c, k);
    InitStepsMeaning(c, Fou.Init(c, f, k).k);
    InitKeepsRules(c, f, k);
    InitStepsOnce(c);
    if Quiet(f) { S.InitSucceedsExactly(f, k, FOU_DUMMY, InitSteps(c)); }
    var o := Fou.Init(c, f, k);
    forall g
      ensures Reachable(c, o.k, g) <==> Reachable(c, k, g)
    {
      if g != NoAddr { TunnelNamesApart(c, g, g); }
      assert forall n | n != FOU_DUMMY :: n in o.k.links <==> n in k.links;
    }
  }

  // ---- the whole of `Add` ----

  /** The first address of a family among the pod's own, as the previous plugin reports them. */
  function FirstLocal(ips: seq<seq<Byte>>, family: Family): (r: Option<Addr>)
    ensures r.Some? ==>
      && r.value.Family() == family
      && (exists i :: 0 <= i < |ips| && ToAddr(ips[i]) == r
            && forall j | 0 <= j < i && ToAddr(ips[j]).Some? :: ToAddr(ips[j]).value.Family() != family)
    ensures r.None? ==> forall i | 0 <= i < |ips| && ToAddr(ips[i]).Some? :: ToAddr(ips[i]).value.Family() != family
  {
    if ips == [] then None
    else
      var r, last := FirstLocal(ips[..|ips| - 1], family), ToAddr(ips[|ips| - 1]);
      if r.Some? then r
      else if last.Some? && last.value.Family() == family then last
      else None
  }

  function WithLocals(base: Config, ips: seq<seq<Byte>>): Config {
    base.(ip4 := FirstLocal(ips, Inet4), ip6 := FirstLocal(ips, Inet6))
  }

  predicate AllParse(ips: seq<seq<Byte>>) { forall ip | ip in ips :: ToAddr(ip).Some? }

  /** The loop over the previous result's addresses. */
  method LocalAddresses(base: Config, ips: seq<seq<Byte>>) returns (r: Result<Config>)
    ensures r.Ok? <==> AllParse(ips)
    ensures r.Ok? ==> r.value == WithLocals(base, ips)
    ensures r.Ok? ==> r.value.port == base.port && r.value.iface == base.iface && r.value.digest == base.digest
    ensures r.Ok? ==> (NewFoUTunnelController(r.value).Ok? <==> ips != [])
  {
    var local4: Option<Addr>, local6: Option<Addr> := None, None;
    for i := 0 to |ips|
      invariant AllParse(ips[..i])
      invariant local4 == FirstLocal(ips[..i], Inet4) && local6 == FirstLocal(ips[..i], Inet6)
    {
      assert ips[..i + 1][..i] == ips[..i];
      var ip := ToAddr(ips[i]);
      if ip.None? { assert ips[i] in ips; return Err(BadInput); }
      if local4.None? && ip.value.V4? { local4 := ip; }
      if local6.None? && ip.value.V6? { local6 := ip; }
    }
    assert ips[..|ips|] == ips;
    assert ips != [] ==> ips[0] in ips;
    r := Ok(base.(ip4 := local4, ip6 := local6));
  }

  /**
   `Add` for a pod with these annotations and own addresses: nothing is touched when no egress is named.
   Otherwise success means that exactly one is, and without refusals that, parsed addresses and an attachable
   egress are enough.
   */
  method Add(nl: Netlink, base: Config, api: Api, hostNetwork: bool, ann: map<string, string>, ips: seq<seq<Byte>>)
      returns (r: Result<()>)
    requires TableWf(nl.st.routes) && Parses(api)
    modifies nl
    ensures TableWf(nl.st.routes) && (KeysUnique(old(nl.st).routes) ==> KeysUnique(nl.st.routes))
    ensures NamesNone(hostNetwork, ann) ==> r.Ok? && nl.st == old(nl.st)
    ensures r.Ok? && !NamesNone(hostNetwork, ann) ==>
      && AllParse(ips) && ips != [] && InNamespace(WithLocals(base, ips), old(nl.st), nl.st)
      && exists eg ::
        && NamesOne(hostNetwork, ann, eg)
        && Servable(WithLocals(base, ips), old(nl.st).routes, api, eg)
        && Served(WithLocals(base, ips), nl.st, ServiceOf(api, eg), SubnetsOf(api, eg))
    ensures Quiet(nl.faults) && !NamesNone(hostNetwork, ann) ==>
      (r.Ok? <==>
       && AllParse(ips) && ips != [] && InitOpen(WithLocals(base, ips), old(nl.st))
       && exists eg :: NamesOne(hostNetwork, ann, eg) && Attachable(WithLocals(base, ips), old(nl.st), api, eg))
  {
    var egNames := ListEgress(hostNetwork, ann);
    NoEgressExactly(hostNetwork, ann, egNames);
    if |egNames| == 0 { return Ok(()); }
    forall eg { OneEgressExactly(hostNetwork, ann, egNames, eg); }
    var c := LocalAddresses(base, ips);
    if c.Err? { return Err(c.error); }
    r := SetUpNamespace(nl, c.value, api, egNames);
    if |egNames| == 1 {
      assert egNames == [egNames[0]];
      assert NamesOne(hostNetwork, ann, egNames[0]);
    }
  }

  // ---- a second `Add` ----

  /** On a namespace that was set up, `Init` takes the throw routes away exactly if both families are enabled. */
  lemma ThrowsFreeAgain(c: Config, k: Kernel, g: Addr, ds: seq<Prefix>)
    requires Served(c, k, g, ds)
    ensures ThrowsFree(Kept(c, k.routes), Special()) <==> c.ip4.Some? && c.ip6.Some?
  {
    var was :| TableWf(was) && Clean(c, was) && Updated(was, k.routes, k.links[LinkName(c.digest, g)].index, ds);
    assert V4_LINK_LOCAL in Special() && V6_LINK_LOCAL in Special();
    assert ThrowRoute(V4_LINK_LOCAL) in Throws() && ThrowRoute(V6_LINK_LOCAL) in Throws();
    if c.ip4.None? { assert ThrowRoute(V4_LINK_LOCAL) in Kept(c, k.routes); }
    if c.ip6.None? { assert ThrowRoute(V6_LINK_LOCAL) in Kept(c, k.routes); }
  }

  /** With both families enabled nothing of table 117 survives `Init`, so what could be added once still can. */
  lemma AddableAgain(c: Config, was: set<Route>, now: set<Route>, ps: seq<Prefix>)
    requires c.ip4.Some? && c.ip6.Some? && Addable(Kept(c, was), ps)
    ensures Addable(Kept(c, now), ps)
  {
    assert forall r | r in Kept(c, now) :: r.table != NC_TABLE;
  }

  /** The same egress can be attached again exactly if the pod is dual-stack. */
  lemma AttachableAgain(c: Config, was: set<Route>, k: Kernel, api: Api, key: EgressKey)
    requires Servable(c, was, api, key) && Served(c, k, ServiceOf(api, key), SubnetsOf(api, key))
    ensures Attachable(c, k, api, key) <==> c.ip4.Some? && c.ip6.Some?
  {
    ThrowsFreeAgain(c, k, ServiceOf(api, key), SubnetsOf(api, key));
    if c.ip4.Some? && c.ip6.Some? {
      AddableAgain(c, was, k.routes, SubnetsOf(api, key));
    }
  }

  /** Two `Add`s of one pod: after a success the second succeeds exactly if the pod has addresses of both families. */
  method AddTwice(nl: Netlink, base: Config, api: Api, hostNetwork: bool, ann: map<string, string>, ips: seq<seq<Byte>>)
      returns (first: Result<()>, second: Result<()>)
    requires TableWf(nl.st.routes) && Parses(api)
    modifies nl
    ensures Quiet(nl.faults) && first.Ok? && !NamesNone(hostNetwork, ann) ==>
      (second.Ok? <==> FirstLocal(ips, Inet4).Some? && FirstLocal(ips, Inet6).Some?)
  {
    first := Add(nl, base, api, hostNetwork, ann, ips);
    ghost var mid := nl.st;
    second := Add(nl, base, api, hostNetwork, ann, ips);
    if first.Ok? && !NamesNone(hostNetwork, ann) {
      ghost var c := WithLocals(base, ips);
      ghost var eg :|
        && NamesOne(hostNetwork, ann, eg)
        && Servable(c, old(nl.st).routes, api, eg) && Served(c, mid, ServiceOf(api, eg), SubnetsOf(api, eg));
      AttachableAgain(c, old(nl.st).routes, mid, api, eg);
      assert forall x | NamesOne(hostNetwork, ann, x) :: x == eg;
    }
  }

  /**
   What a set-up pod has: every tunnel route of an enabled family leaves by the tunnel to the egress's
   service address and has its family, and the prefixes of that family are exactly the requested ones.
   */
  lemma ServedRoutes(c: Config, k: Kernel, g: Addr, ds: seq<Prefix>)
    requires Served(c, k, g, ds)
    requires forall d | d in ds :: ValidPrefix(d) && d.addr.Family() == g.Family() && !d.addr.Is4In6()
    ensures var i := k.links[LinkName(c.digest, g)].index;
      && (forall x | x in k.routes && x.table == NC_TABLE && x.hop.Via?
            && Enabled(c.ip4.Some?, c.ip6.Some?, x.dst.addr.Family()) ::
            x.hop == Via(i) && x.dst.addr.Family() == g.Family())
      && (forall p: Prefix | p.addr.Family() == g.Family() ::
            Installed(k.routes, i, p) <==> exists d :: d in ds && p == Masked(d))
  {
    var i := k.links[LinkName(c.digest, g)].index;
    var was :| TableWf(was) && Clean(c, was) && Updated(was, k.routes, i, ds);
    forall x | x in k.routes && x.table == NC_TABLE && x.hop.Via?
               && Enabled(c.ip4.Some?, c.ip6.Some?, x.dst.addr.Family())
      ensures x.hop == Via(i) && x.dst.addr.Family() == g.Family()
    {
      FreshTable(was, k.routes, i, ds, x.dst.addr.Family(), x);
      var n :| n in ds && StoredDst(ToIPNet(n)).Some? && x == TunnelRoute(StoredDst(ToIPNet(n)).value, i);
      StoredIsMasked(n);
    }
    forall p: Prefix | p.addr.Family() == g.Family()
      ensures Installed(k.routes, i, p) <==> exists d :: d in ds && p == Masked(d)
    {
      if Installed(k.routes, i, p) {
        var x :| x in k.routes && OnLink(x, i) && x.dst == p;
        FreshTable(was, k.routes, i, ds, g.Family(), x);
        var n :| n in ds && StoredDst(ToIPNet(n)).Some? && x == TunnelRoute(StoredDst(ToIPNet(n)).value, i);
        StoredIsMasked(n);
      }
      if d :| d in ds && p == Masked(d) {
        StoredIsMasked(d);
      }
    }
  }

  /** `ToTunnel` over the destinations as listed in the egress, of whichever family. */
  ghost predicate ListedToTunnel(dests: seq<Option<Prefix>>, a: Addr) {
    exists n :: Some(n) in dests && Contains(n, a) && forall s | s in Special() && Contains(s, a) :: s.bits <= n.bits
  }

  ghost predicate ListedToThrow(dests: seq<Option<Prefix>>, a: Addr) {
    exists s :: s in Special() && Contains(s, a) && forall n | Some(n) in dests && Contains(n, a) :: n.bits < s.bits
  }

  lemma FamilyFilterKeepsVerdict(dests: seq<Option<Prefix>>, a: Addr)
    requires a != NoAddr
    ensures ToTunnel(OfFamily(dests, a.Family()), a) <==> ListedToTunnel(dests, a)
    ensures ToThrow(OfFamily(dests, a.Family()), a) <==> ListedToThrow(dests, a)
  {
    var ds := OfFamily(dests, a.Family());
    forall n
      ensures n in ds && Contains(n, a) <==> Some(n) in dests && Contains(n, a)
    {
      OfFamilyMembers(dests, a.Family(), n);
    }
  }

  /**
   Where a set-up pod's packets go: for every address of the egress's family the verdict of table 117
   depends only on the lengths of the egress's destinations and of the private and link-local ranges.
   */
  lemma ServedLookup(c: Config, k: Kernel, g: Addr, dests: seq<Option<Prefix>>, a: Addr)
    requires Served(c, k, g, OfFamily(dests, g.Family())) && a != NoAddr && a.Family() == g.Family()
    requires forall d | d in dests && d.Some? :: ValidPrefix(d.value) && !d.value.addr.Is4In6()
    ensures var i := k.links[LinkName(c.digest, g)].index; var o := Find(k.routes, NC_TABLE, a);
      && (o.Some? && o.value.hop == Via(i) <==> ListedToTunnel(dests, a))
      && (o.Some? && o.value.hop == Throw <==> ListedToThrow(dests, a))
  {
    var ds := OfFamily(dests, g.Family());
    forall n | n in ds
      ensures Some(n) in dests
    {
      OfFamilyMembers(dests, g.Family(), n);
    }
    var i := k.links[LinkName(c.digest, g)].index;
    var was :| TableWf(was) && Clean(c, was) && Updated(was, k.routes, i, ds);
    LookupFollowsLengths(was, k.routes, i, ds, a);
    FamilyFilterKeepsVerdict(dests, a);
  }

  /**
   Where they really go: the rule that `Add` leaves settles exactly the addresses that belong in the tunnel, and a
   packet to one of them leaves by the tunnel unless a rule of a priority below 1900 settles it first. A rule that
   comes later never settles such a packet, and all others are left to the other rules.
   */
  lemma ServedPackets(c: Config, was: multiset<Rule>, k: Kernel, g: Addr, dests: seq<Option<Prefix>>, a: Addr)
    requires Served(c, k, g, OfFamily(dests, g.Family())) && a != NoAddr && a.Family() == g.Family()
    requires ClientRules(was, k.rules, c.ip4.Some?, c.ip6.Some?)
    requires forall d | d in dests && d.Some? :: ValidPrefix(d.value) && !d.value.addr.Is4In6()
    ensures var rule := Rule(a.Family(), 117, 1900, ""); var i := k.links[LinkName(c.digest, g)].index;
      && (Settles(k, rule, a) <==> ListedToTunnel(dests, a))
      && (LeavesBy(k, a, rule, Via(i)) <==>
            ListedToTunnel(dests, a) && forall q | Settles(k, q, a) :: q.prio >= 1900)
      && (forall q, hop | LeavesBy(k, a, q, hop) && q.prio == 1900 :: q == rule && hop == Via(i))
      && (forall q, hop | LeavesBy(k, a, q, hop) && q.prio > 1900 :: !ListedToTunnel(dests, a))
  {
    var rule := Rule(a.Family(), 117, 1900, "");
    ServedLookup(c, k, g, dests, a);
    assert Enabled(c.ip4.Some?, c.ip6.Some?, a.Family());
    assert k.rules[rule] == 1 && Applies(k, rule, a);
    var i, o := k.links[LinkName(c.digest, g)].index, Find(k.routes, NC_TABLE, a);
    if o.Some? && o.value.hop.Via? {
      ServedHop(c, k, g, dests, a);
    }
    forall q | Settles(k, q, a) && q.prio == 1900
      ensures q == rule
    {
      assert k.rules[q] > 0;
    }
  }

  /** Whatever leaves by table 117 leaves by the tunnel to the service. */
  lemma ServedHop(c: Config, k: Kernel, g: Addr, dests: seq<Option<Prefix>>, a: Addr)
    requires Served(c, k, g, OfFamily(dests, g.Family())) && a != NoAddr && a.Family() == g.Family()
    requires forall d | d in dests && d.Some? :: ValidPrefix(d.value) && !d.value.addr.Is4In6()
    requires Find(k.routes, NC_TABLE, a).Some? && Find(k.routes, NC_TABLE, a).value.hop.Via?
    ensures Find(k.routes, NC_TABLE, a).value.hop == Via(k.links[LinkName(c.digest, g)].index)
  {
    var ds, x := OfFamily(dests, g.Family()), Find(k.routes, NC_TABLE, a).value;
    forall d | d in ds
      ensures ValidPrefix(d) && d.addr.Family() == g.Family() && !d.addr.Is4In6()
    {
      OfFamilyMembers(dests, g.Family(), d);
      assert Some(d) in dests;
    }
    ServedRoutes(c, k, g, ds);
    assert Wins(k.routes, NC_TABLE, a, x) && x.dst.addr.Family() == a.Family();
    assert Enabled(c.ip4.Some?, c.ip6.Some?, x.dst.addr.Family());
  }
}
