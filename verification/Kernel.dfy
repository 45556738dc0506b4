/**
 The part of the Linux kernel that the repository drives, as far as its calls depend on it.
 Every call may be refused: call number `n` is refused when `f(n)`.
 */
module KernelModel {
  import opened Addresses
  import opened NetipUtil

  type Faults = nat -> bool

  /** Nothing is refused. */
  ghost predicate Quiet(f: Faults) { forall n :: !f(n) }

  /** The same calls are refused before time `t`. */
  ghost predicate SameBefore(f: Faults, g: Faults, t: nat) { forall n: nat | n < t :: f(n) == g(n) }

  datatype Link = Link(index: nat, up: bool)

  /** What `netlink.Link` carries out of a call: attributes copied at that moment. */
  datatype LinkRef = LinkRef(name: string, index: nat)

  datatype Hop = Via(index: nat) | Throw

  datatype Route = Route(table: nat, dst: Prefix, hop: Hop, metric: nat)

  datatype Rule = Rule(family: Family, table: nat, prio: nat, iif: string)

  /** Host settings made once: sysctl, module, UDP listener and iptables rules. */
  datatype Setting =
    | DefaultRPFilterOff
    | AllRPFilterOff
    | Forwarding(family: Family)
    | Module(name: string)
    | FouListener(family: Family, proto: nat, port: nat)
    | ChecksumFill(family: Family, port: nat)
    | Masquerade(family: Family, except: Addr, oif: string)

  datatype Kernel = Kernel(
    links: map<string, Link>,
    next: nat,
    routes: set<Route>,
    rules: multiset<Rule>,
    settings: set<Setting>,
    clock: nat)

  datatype Error =
    | FamilyMismatch
    | NoIPProvided
    | UnknownFamily
    | BadInput
    | ApiFailed
    | Refused
    | KeyNotInReverse
    | AddrNotInReverse

  datatype Result<+T> = Ok(value: T) | Err(error: Error)

  datatype Out<+T> = Out(k: Kernel, r: Result<T>)

  /** Link indexes are unique and below the next one. */
  ghost predicate LinksWf(links: map<string, Link>, next: nat) {
    && (forall n | n in links :: links[n].index < next)
    && (forall m, n | m in links && n in links && links[m].index == links[n].index :: m == n)
  }

  /** Stored destinations are valid and masked. */
  ghost predicate RoutesWf(routes: set<Route>) {
    forall r | r in routes :: ValidPrefix(r.dst) && IsMasked(r.dst)
  }

  function Tick(k: Kernel): Kernel { k.(clock := k.clock + 1) }

  predicate Live(k: Kernel, l: LinkRef) {
    l.name in k.links && k.links[l.name].index == l.index
  }

  predicate UpIndex(k: Kernel, i: nat) {
    exists n | n in k.links :: k.links[n] == Link(i, true)
  }

  function LinkByName(f: Faults, k: Kernel, name: string): Out<Option<LinkRef>> {
    if f(k.clock) then Out(Tick(k), Err(Refused))
    else if name in k.links then Out(Tick(k), Ok(Some(LinkRef(name, k.links[name].index))))
    else Out(Tick(k), Ok(None))
  }

  function LinkAdd(f: Faults, k: Kernel, name: string): Out<LinkRef> {
    if f(k.clock) || name in k.links then Out(Tick(k), Err(Refused))
    else Out(Tick(k).(links := k.links[name := Link(k.next, false)], next := k.next + 1),
             Ok(LinkRef(name, k.next)))
  }

  /** Deleting a link takes every route through it along. */
  function LinkDel(f: Faults, k: Kernel, l: LinkRef): Out<()> {
    if f(k.clock) || !Live(k, l) then Out(Tick(k), Err(Refused))
    else Out(Tick(k).(links := k.links - {l.name},
                      routes := set r | r in k.routes && r.hop != Via(l.index)),
             Ok(()))
  }

  function LinkSetUp(f: Faults, k: Kernel, l: LinkRef): Out<()> {
    if f(k.clock) || !Live(k, l) then Out(Tick(k), Err(Refused))
    else Out(Tick(k).(links := k.links[l.name := Link(l.index, true)]), Ok(()))
  }

  function LinkSetName(f: Faults, k: Kernel, l: LinkRef, to: string): Out<()> {
    if f(k.clock) || !Live(k, l) || to in k.links then Out(Tick(k), Err(Refused))
    else Out(Tick(k).(links := (k.links - {l.name})[to := k.links[l.name]]), Ok(()))
  }

  /**
   The destination the kernel stores for a netlink request: the library sends the family and
   length of the decoded network; IPv4 must be masked already, IPv6 is masked on the way in.
   */
  function StoredDst(n: IPNet): (r: Option<Prefix>)
    ensures r.Some? ==> ValidPrefix(r.value)
  {
    match FromIPNet(n)
    case None => None
    case Some(p) =>
      if !ValidPrefix(p) || (p.addr.V4? && !IsMasked(p)) then None else Some(Masked(p))
  }

  predicate KeyTaken(routes: set<Route>, table: nat, dst: Prefix, metric: nat) {
    exists r | r in routes :: r.table == table && r.dst == dst && r.metric == metric
  }

  /** What exclusive create keeps: one route per table, destination and metric. */
  ghost predicate KeysUnique(routes: set<Route>) {
    forall r, s | r in routes && s in routes && r.table == s.table && r.dst == s.dst && r.metric == s.metric :: r == s
  }

  /** Exclusive create: (table, destination, metric) must be free, and a device must be up. */
  function RouteAdd(f: Faults, k: Kernel, table: nat, d: Option<Prefix>, hop: Hop, metric: nat): Out<()> {
    if f(k.clock) || d.None? || KeyTaken(k.routes, table, d.value, metric) || (hop.Via? && !UpIndex(k, hop.index))
    then Out(Tick(k), Err(Refused))
    else Out(Tick(k).(routes := k.routes + {Route(table, d.value, hop, metric)}), Ok(()))
  }

  function RouteDel(f: Faults, k: Kernel, r: Route): Out<()> {
    if f(k.clock) || r !in k.routes then Out(Tick(k), Err(Refused))
    else Out(Tick(k).(routes := k.routes - {r}), Ok(()))
  }

  /** Exclusive create as well. */
  function RuleAdd(f: Faults, k: Kernel, r: Rule): Out<()> {
    if f(k.clock) || r in k.rules then Out(Tick(k), Err(Refused))
    else Out(Tick(k).(rules := k.rules + multiset{r}), Ok(()))
  }

  function RuleDel(f: Faults, k: Kernel, r: Rule): Out<()> {
    if f(k.clock) || r !in k.rules then Out(Tick(k), Err(Refused))
    else Out(Tick(k).(rules := k.rules - multiset{r}), Ok(()))
  }

  /** Make a setting. A second listener on one port is an error; everything else may be set again. */
  function Apply(f: Faults, k: Kernel, s: Setting): Out<()> {
    if f(k.clock) || (s.FouListener? && s in k.settings) then Out(Tick(k), Err(Refused))
    else Out(Tick(k).(settings := k.settings + {s}), Ok(()))
  }

  /** A list request changes nothing but can be refused; what it lists is a filter of the state. */
  function List(f: Faults, k: Kernel): Out<()> {
    if f(k.clock) then Out(Tick(k), Err(Refused)) else Out(Tick(k), Ok(()))
  }

  /** The tunnel devices that the kernel makes by itself and the tunnel controller renames. */
  predicate IsFallback(n: string) { n == "tunl0" || n == "ip6tnl0" }

  /** Every link but a fallback device survives with its name and index, and none goes down. */
  ghost predicate Extends(k: Kernel, k': Kernel) {
    forall n | n in k.links && !IsFallback(n) ::
      n in k'.links && k'.links[n].index == k.links[n].index && (k.links[n].up ==> k'.links[n].up)
  }

  /** Only links may have changed, and they only grew, by names in `added`. */
  ghost predicate Grows(k: Kernel, k': Kernel, added: set<string>) {
    && Extends(k, k')
    && k'.routes == k.routes && k'.rules == k.rules && k'.settings == k.settings
    && (forall n | n in k'.links && n !in k.links :: n in added)
    && (LinksWf(k.links, k.next) ==> LinksWf(k'.links, k'.next))
  }

  lemma LinkByNameEffect(f: Faults, k: Kernel, name: string)
    ensures var o := LinkByName(f, k, name);
      && Grows(k, o.k, {}) && o.k.links == k.links
      && (o.r.Err? ==> o.r.error == Refused)
      && (o.r.Ok? && o.r.value.Some? ==> o.r.value.value.name == name && Live(k, o.r.value.value))
      && (o.r.Ok? ==> (o.r.value.Some? <==> name in k.links))
  {}

  lemma LinkAddEffect(f: Faults, k: Kernel, name: string)
    ensures var o := LinkAdd(f, k, name);
      && Grows(k, o.k, {name})
      && (o.r.Ok? ==> name !in k.links && o.r.value.name == name && Live(o.k, o.r.value))
      && (o.r.Err? ==> o.r.error == Refused && o.k.links == k.links)
  {}

  lemma LinkSetUpEffect(f: Faults, k: Kernel, l: LinkRef)
    ensures var o := LinkSetUp(f, k, l);
      && Grows(k, o.k, {}) && o.k.links.Keys == k.links.Keys
      && (o.r.Ok? ==> Live(o.k, l) && o.k.links[l.name].up)
      && (o.r.Err? ==> o.r.error == Refused && o.k.links == k.links)
  {}

  lemma LinkSetNameEffect(f: Faults, k: Kernel, l: LinkRef, to: string)
    requires IsFallback(l.name) && !IsFallback(to)
    ensures var o := LinkSetName(f, k, l, to);
      && Grows(k, o.k, {to})
      && (o.r.Ok? ==> l.name !in o.k.links && l.name in k.links)
      && (o.r.Err? ==> o.r.error == Refused && o.k.links == k.links)
  {}

  lemma GrowsTrans(k: Kernel, k1: Kernel, k2: Kernel, s1: set<string>, s2: set<string>)
    requires Grows(k, k1, s1) && Grows(k1, k2, s2)
    ensures Grows(k, k2, s1 + s2)
  {}

  /** An IPv4 prefix with a bit past its length is refused; everything else that is not IPv4-mapped is stored. */
  lemma StoredDstByBits(p: Prefix)
    requires ValidPrefix(p) && !p.addr.Is4In6()
    ensures StoredDst(ToIPNet(p)).Some? <==>
      p.addr.V6? || forall i | p.bits <= i < p.addr.BitLen() :: Bit(p.addr.Bytes(), i) == 0
  {
    PrefixRoundTrip(p);
    IsMaskedByBits(p);
  }

  lemma StoredDstPlain(p: Prefix)
    requires ValidPrefix(p) && IsMasked(p) && !p.addr.Is4In6()
    ensures StoredDst(ToIPNet(p)) == Some(p)
  {
    PrefixRoundTrip(p);
  }
}
