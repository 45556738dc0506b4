/** The NAT side of a gateway: `pkg/nat/gateway.go`. */
module NatGateway {
  import opened Addresses
  import opened NetipUtil
  import opened FouNaming
  import opened KernelModel
  import opened Sentinel
  import opened Fou

  const EGRESS_TABLE := 118
  const EGRESS_RULE_PRIO := 2000
  const EGRESS_DUMMY := "nat-dummy"

  function EgressRule(c: Config, family: Family): Rule {
    Rule(family, EGRESS_TABLE, EGRESS_RULE_PRIO, c.iface)
  }

  function GatewaySteps(c: Config): seq<SetUpStep> {
    (if c.ip4.Some?
     then [OpenIPTables, Set(Masquerade(Inet4, c.ip4.value, c.iface)), AddRule(EgressRule(c, Inet4))] else []) +
    (if c.ip6.Some?
     then [OpenIPTables, Set(Masquerade(Inet6, c.ip6.value, c.iface)), AddRule(EgressRule(c, Inet6))] else [])
  }

  function InitGateway(c: Config, f: Faults, k: Kernel): Out<()> {
    GuardedInit(f, k, EGRESS_DUMMY, GatewaySteps(c))
  }

  /** What the steps of the gateway's `Init` come to, family by family. */
  lemma GatewayStepsMeaning(c: Config, k: Kernel)
    requires AllDone(k, GatewaySteps(c))
    ensures c.ip4.Some? ==>
      Masquerade(Inet4, c.ip4.value, c.iface) in k.settings && Rule(Inet4, 118, 2000, c.iface) in k.rules
    ensures c.ip6.Some? ==>
      Masquerade(Inet6, c.ip6.value, c.iface) in k.settings && Rule(Inet6, 118, 2000, c.iface) in k.rules
  {
    var ss := GatewaySteps(c);
    assert forall s | s in ss :: Done(k, s);
    if c.ip4.Some? {
      assert Set(Masquerade(Inet4, c.ip4.value, c.iface)) in ss && AddRule(EgressRule(c, Inet4)) in ss;
    }
    if c.ip6.Some? {
      assert Set(Masquerade(Inet6, c.ip6.value, c.iface)) in ss && AddRule(EgressRule(c, Inet6)) in ss;
    }
  }

  lemma GatewayStepsOnce(c: Config)
    ensures ExclusiveOnce(GatewaySteps(c))
  {}

  /** The gateway's `Init` can get through: done already, or none of its rules is there yet. */
  ghost predicate GatewayInitOpen(c: Config, k: Kernel) {
    EGRESS_DUMMY in k.links || Open(k, GatewaySteps(c))
  }

  /** The route of one client: its address alone, through its tunnel link. */
  function ClientRoute(a: Addr, index: nat): Route {
    Route(EGRESS_TABLE, HostPrefix(a), Via(index), 0)
  }

  /** The existence test of `AddClient` compares addresses and not prefix lengths. */
  predicate HasRoute(k: Kernel, a: Addr) {
    exists r | r in k.routes :: r.table == EGRESS_TABLE && r.dst.addr == a
  }

  function AddClient(c: Config, f: Faults, k: Kernel, a: Addr, l: LinkRef): Out<()> {
    if (a.V4? && c.ip4.None?) || (a.V6? && c.ip6.None?) then Out(k, Err(FamilyMismatch))
    else
      var listed := List(f, k);
      if listed.r.Err? || HasRoute(k, a) then listed
      else
        var up := LinkSetUp(f, listed.k, l);
        if up.r.Err? then up
        else RouteAdd(f, up.k, EGRESS_TABLE, StoredDst(ToIPNet(HostPrefix(a))), Via(l.index), 0)
  }

  /** The addresses a gateway deals with: parsed, not IPv4-mapped, and with distinct link names. */
  ghost predicate Universe(c: Config, u: set<Addr>) {
    (forall a | a in u :: a != NoAddr && !a.Is4In6()) && CollisionFree(c.digest, u)
  }

  ghost predicate CoupledRoute(c: Config, u: set<Addr>, k: Kernel, r: Route) {
    && r.dst.addr in u && r.dst.addr != NoAddr
    && HasTunnel(c, k, r.dst.addr)
    && k.links[LinkName(c.digest, r.dst.addr)].up
    && r == ClientRoute(r.dst.addr, k.links[LinkName(c.digest, r.dst.addr)].index)
  }

  /** Every route of table 118 is the route of one client through that client's live link. */
  ghost predicate Coupled(c: Config, u: set<Addr>, k: Kernel) {
    forall r | r in k.routes && r.table == EGRESS_TABLE :: CoupledRoute(c, u, k, r)
  }

  lemma NamesDistinct(c: Config, u: set<Addr>, a: Addr, b: Addr)
    requires Universe(c, u) && a in u && b in u
    ensures LinkName(c.digest, a) == LinkName(c.digest, b) <==> a == b
  {
    LinkNameInjective(c.digest, a, b);
  }

  /** At most one route per client. */
  lemma OneRoutePerClient(c: Config, u: set<Addr>, k: Kernel, r: Route, s: Route)
    requires Coupled(c, u, k) && r in k.routes && s in k.routes
    requires r.table == EGRESS_TABLE && s.table == EGRESS_TABLE && r.dst.addr == s.dst.addr
    ensures r == s
  {}

  /** A route of table 118 serves one address, by a link that is up. */
  lemma CoupledRouteServesOne(c: Config, u: set<Addr>, k: Kernel, r: Route, b: Addr)
    requires Coupled(c, u, k) && r in k.routes && r.table == 118
    ensures Contains(r.dst, b) <==> b == r.dst.addr
    ensures r.hop.Via? && UpIndex(k, r.hop.index) && r.metric == 0
  {
    assert CoupledRoute(c, u, k, r);
    HostPrefixAlone(r.dst.addr, b);
    assert k.links[LinkName(c.digest, r.dst.addr)] == Link(r.hop.index, true);
  }

  lemma GrowsKeepsCoupled(c: Config, u: set<Addr>, k: Kernel, k': Kernel, added: set<string>)
    requires Coupled(c, u, k) && Grows(k, k', added)
    ensures Coupled(c, u, k')
    ensures forall a :: HasRoute(k', a) <==> HasRoute(k, a)
  {}

  /** Adding the route of a client that has none, through its link once that is up. */
  lemma ClientRouteAdd(c: Config, u: set<Addr>, f: Faults, k: Kernel, a: Addr, l: LinkRef)
    requires Universe(c, u) && a in u && !HasRoute(k, a)
    requires Live(k, l) && k.links[l.name].up
    ensures var o := RouteAdd(f, k, EGRESS_TABLE, StoredDst(ToIPNet(HostPrefix(a))), Via(l.index), 0);
      && (o.r.Ok? <==> !f(k.clock)) && (o.r.Err? ==> o.r.error == Refused)
      && o.k == k.(clock := o.k.clock, routes := if o.r.Ok? then k.routes + {ClientRoute(a, l.index)} else k.routes)
  {
    HostPrefixMasked(a);
    StoredDstPlain(HostPrefix(a));
    assert k.links[l.name] == Link(l.index, true);
  }

  lemma NewRouteKeepsCoupled(c: Config, u: set<Addr>, k: Kernel, k': Kernel, a: Addr, l: LinkRef)
    requires Universe(c, u) && a in u && Coupled(c, u, k) && l.name == LinkName(c.digest, a)
    requires Live(k, l) && k.links[l.name].up
    requires k'.links == k.links && k'.routes == k.routes + {ClientRoute(a, l.index)}
    ensures Coupled(c, u, k') && HasRoute(k', a)
    ensures forall b | b != a :: HasRoute(k', b) <==> HasRoute(k, b)
  {}

  lemma AddClientEffect(c: Config, u: set<Addr>, f: Faults, k: Kernel, a: Addr, l: LinkRef)
    requires Universe(c, u) && a in u && Supported(c, a)
    requires Coupled(c, u, k) && Live(k, l) && l.name == LinkName(c.digest, a)
    ensures var o := AddClient(c, f, k, a, l);
      && Coupled(c, u, o.k) && Extends(k, o.k) && o.k.links.Keys == k.links.Keys
      && (LinksWf(k.links, k.next) ==> LinksWf(o.k.links, o.k.next))
      && (o.r.Ok? ==> HasRoute(o.k, a) && ClientRoute(a, l.index) in o.k.routes)
      && (o.r.Err? ==> o.r.error == Refused && o.k.routes == k.routes)
      && (forall b | b != a :: HasRoute(o.k, b) <==> HasRoute(k, b))
      && (HasRoute(k, a) ==> HasRoute(o.k, a))
  {
    var o := AddClient(c, f, k, a, l);
    var listed := List(f, k);
    if HasRoute(k, a) {
      var r :| r in k.routes && r.table == EGRESS_TABLE && r.dst.addr == a;
      assert CoupledRoute(c, u, k, r);
    } else if listed.r.Ok? {
      var up := LinkSetUp(f, listed.k, l);
      LinkSetUpEffect(f, listed.k, l);
      GrowsKeepsCoupled(c, u, k, up.k, {});
      if up.r.Ok? {
        ClientRouteAdd(c, u, f, up.k, a, l);
        if o.r.Ok? { NewRouteKeepsCoupled(c, u, up.k, o.k, a, l); }
      }
    }
  }

  /** With nothing refused, `AddClient` succeeds on any live link. */
  lemma AddClientSucceeds(c: Config, u: set<Addr>, f: Faults, k: Kernel, a: Addr, l: LinkRef)
    requires Universe(c, u) && a in u && Supported(c, a) && Live(k, l)
    requires Quiet(f)
    ensures AddClient(c, f, k, a, l).r.Ok?
  {
    if !HasRoute(k, a) {
      var up := LinkSetUp(f, List(f, k).k, l);
      assert up.k.routes == k.routes;
      ClientRouteAdd(c, u, f, up.k, a, l);
    }
  }

  lemma DelPeerKeepsCoupled(c: Config, u: set<Addr>, f: Faults, k: Kernel, a: Addr)
    requires Universe(c, u) && a in u && Coupled(c, u, k) && LinksWf(k.links, k.next)
    ensures var o := DelPeer(c, f, k, a);
      && Coupled(c, u, o.k)
      && (forall b | b in u && b != a :: HasRoute(o.k, b) <==> HasRoute(k, b))
      && (o.r.Ok? ==> !HasRoute(o.k, a))
      && (HasRoute(o.k, a) ==> HasRoute(k, a))
  {
    var o := DelPeer(c, f, k, a);
    var name := LinkName(c.digest, a);
    DelPeerEffect(c, f, k, a);
    if o.r.Ok? {
      forall r | r in k.routes && r.table == EGRESS_TABLE
        ensures r in o.k.routes <==> r.dst.addr != a
        ensures r.dst.addr != a ==> CoupledRoute(c, u, o.k, r)
      {
        assert CoupledRoute(c, u, k, r);
        NamesDistinct(c, u, a, r.dst.addr);
      }
    }
  }

  /**
   Deleting an address and adding it again ends with exactly one route, through a link that did
   not exist before.
   */
  lemma ReaddedClientGetsNewLink(c: Config, u: set<Addr>, f: Faults, k: Kernel, a: Addr)
    requires Universe(c, u) && a in u && Coupled(c, u, k) && LinksWf(k.links, k.next)
    requires HasTunnel(c, k, a)
    requires DelPeer(c, f, k, a).r.Ok?
    requires AddPeer(c, f, DelPeer(c, f, k, a).k, a).r.Ok?
    ensures var added := AddPeer(c, f, DelPeer(c, f, k, a).k, a); var o := AddClient(c, f, added.k, a, added.r.value);
      o.r.Ok? ==>
        && ClientRoute(a, added.r.value.index) in o.k.routes
        && added.r.value.index != k.links[LinkName(c.digest, a)].index
        && (forall r | r in o.k.routes && r.table == EGRESS_TABLE && r.dst.addr == a ::
              r == ClientRoute(a, added.r.value.index))
  {
    var gone := DelPeer(c, f, k, a);
    var added := AddPeer(c, f, gone.k, a);
    DelPeerEffect(c, f, k, a);
    DelPeerKeepsCoupled(c, u, f, k, a);
    AddPeerEffect(c, f, gone.k, a);
    GrowsKeepsCoupled(c, u, gone.k, added.k, PeerLinks(c, a));
    AddClientEffect(c, u, f, added.k, a, added.r.value);
    var o := AddClient(c, f, added.k, a, added.r.value);
    if o.r.Ok? {
      forall r | r in o.k.routes && r.table == EGRESS_TABLE && r.dst.addr == a
        ensures r == ClientRoute(a, added.r.value.index)
      {
        OneRoutePerClient(c, u, o.k, r, ClientRoute(a, added.r.value.index));
      }
    }
  }

  /** The family test of `AddClient` never fires after a successful `AddPeer`. */
  lemma FamilyCheckRedundant(c: Config, f: Faults, g: Faults, k: Kernel, k': Kernel, a: Addr, l: LinkRef)
    requires AddPeer(c, f, k, a).r.Ok?
    ensures AddClient(c, g, k', a, l).r != Err(FamilyMismatch)
  {}
}

/** The gateway as it drives netlink, step by step. */
module GatewayController {
  import opened Addresses
  import opened NetipUtil
  import opened KernelModel
  import opened NetlinkSocket
  import opened Sentinel
  import opened SetUp
  import opened Fou
  import opened NatGateway

  /** `NewGateway`: unlike the tunnel controller it accepts having no address at all. */
  function NewGateway(c: Config): (r: Result<Config>)
    ensures r.Ok? <==> (c.ip4.Some? ==> c.ip4.value.V4?) && (c.ip6.Some? ==> c.ip6.value.V6?)
    ensures r.Ok? ==> r.value == c
    ensures NewFoUTunnelController(c).Ok? ==> r.Ok?
  {
    if c.ip4.Some? && !c.ip4.value.V4? then Err(BadInput)
    else if c.ip6.Some? && !c.ip6.value.V6? then Err(BadInput)
    else Ok(c)
  }

  class Gateway {
    const c: Config
    const nl: Netlink

    constructor (c: Config, nl: Netlink)
      ensures this.c == c && this.nl == nl
    {
      this.c := c;
      this.nl := nl;
    }

    method Init() returns (r: Result<()>)
      modifies nl
      ensures Out(nl.st, r) == InitGateway(c, nl.faults, old(nl.st))
    {
      var found := nl.LinkByName(EGRESS_DUMMY);
      if found.Err? { return Err(found.error); }
      if found.value.Some? { return Ok(()); }
      ghost var todo := GatewaySteps(c);
      if c.ip4.Some? {
        r := Next(nl, OpenIPTables, todo);
        if r.Err? { return; }
        r := Next(nl, Set(Masquerade(Inet4, c.ip4.value, c.iface)), todo[1..]);
        if r.Err? { return; }
        r := Next(nl, AddRule(EgressRule(c, Inet4)), todo[2..]);
        if r.Err? { return; }
        todo := todo[3..];
      }
      if c.ip6.Some? {
        r := Next(nl, OpenIPTables, todo);
        if r.Err? { return; }
        r := Next(nl, Set(Masquerade(Inet6, c.ip6.value, c.iface)), todo[1..]);
        if r.Err? { return; }
        r := Next(nl, AddRule(EgressRule(c, Inet6)), todo[2..]);
        if r.Err? { return; }
        todo := todo[3..];
      }
      assert todo == [];
      var added := nl.LinkAdd(EGRESS_DUMMY);
      r := if added.Ok? then Ok(()) else Err(added.error);
    }

    method AddClient(a: Addr, l: LinkRef) returns (r: Result<()>)
      modifies nl
      ensures Out(nl.st, r) == NatGateway.AddClient(c, nl.faults, old(nl.st), a, l)
    {
      if a.V4? && c.ip4.None? { return Err(FamilyMismatch); }
      if a.V6? && c.ip6.None? { return Err(FamilyMismatch); }
      var routes := nl.RouteList(a.Family(), EGRESS_TABLE);
      if routes.Err? { return Err(routes.error); }
      for i := 0 to |routes.value|
        invariant nl.st == List(nl.faults, old(nl.st)).k
        invariant forall j | 0 <= j < i :: routes.value[j].dst.addr != a
      {
        if FromAddr(routes.value[i].dst.addr) == FromAddr(a) {
          BytesDetermineAddr(routes.value[i].dst.addr, a);
          assert routes.value[i] in routes.value;
          return Ok(());
        }
      }
      assert !HasRoute(old(nl.st), a);
      r := nl.LinkSetUp(l);
      if r.Err? { return; }
      r := nl.RouteAdd(EGRESS_TABLE, StoredDst(ToIPNet(HostPrefix(a))), Via(l.index), 0);
    }
  }
}
