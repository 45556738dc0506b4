/** The NAT client as it drives netlink: `pkg/nat/client.go`. */
module NatClientController {
  import opened Sequences
  import opened Addresses
  import opened NetipUtil
  import opened KernelModel
  import opened NetlinkSocket
  import opened ClientTable

  predicate ClearedRule(x: Rule, family: Family) { x.family == family && x.prio == NC_PRIO }

  predicate ClearedRoute(r: Route, family: Family) { r.table == NC_TABLE && r.dst.addr.Family() == family }

  /** Only rules of the client's priority and routes of its table have changed, in that family, by deletion. */
  ghost predicate Clearing(k: Kernel, k': Kernel, family: Family) {
    && k'.links == k.links && k'.next == k.next && k'.settings == k.settings
    && (forall x :: k'.rules[x] <= k.rules[x] && (!ClearedRule(x, family) ==> k'.rules[x] == k.rules[x]))
    && k'.routes <= k.routes
    && (forall r | r in k.routes && !ClearedRoute(r, family) :: r in k'.routes)
  }

  ghost predicate Cleared(k: Kernel, k': Kernel, family: Family) {
    && Clearing(k, k', family)
    && (forall x | ClearedRule(x, family) :: k'.rules[x] == 0)
    && (forall r | r in k'.routes :: !ClearedRoute(r, family))
  }

  /** Of each enabled family exactly one rule of priority 1900, to table 117; all other rules are as before. */
  ghost predicate ClientRules(was: multiset<Rule>, now: multiset<Rule>, use4: bool, use6: bool) {
    forall x: Rule :: now[x] ==
      if Enabled(use4, use6, x.family) && x.prio == 1900
      then (if x == Rule(x.family, 117, 1900, "") then 1 else 0) else was[x]
  }

  /** What `Init` makes of a kernel: the rules, and an empty table 117 per enabled family. */
  ghost predicate AfterInit(k: Kernel, k': Kernel, use4: bool, use6: bool) {
    && k'.links == k.links && k'.next == k.next && k'.settings == k.settings
    && ClientRules(k.rules, k'.rules, use4, use6)
    && (forall r :: r in k'.routes <==>
          r in k.routes && !(r.table == 117 && Enabled(use4, use6, r.dst.addr.Family())))
  }

  /** Whether it succeeds or not, `Init` touches only rules of its priority and routes of its table. */
  ghost predicate Confined(k: Kernel, k': Kernel, use4: bool, use6: bool) {
    && k'.links == k.links && k'.next == k.next && k'.settings == k.settings && k'.routes <= k.routes
    && (forall x: Rule | !(Enabled(use4, use6, x.family) && x.prio == NC_PRIO) :: k'.rules[x] == k.rules[x])
    && (forall r | r in k.routes && !(r.table == NC_TABLE && Enabled(use4, use6, r.dst.addr.Family())) ::
          r in k'.routes)
  }

  predicate Enabled(use4: bool, use6: bool, family: Family) {
    if family == Inet4 then use4 else use6
  }

  /** Exactly one rule of the family names table 117. */
  ghost predicate OneRule(k: Kernel, family: Family) {
    exists x: Rule :: Listed(x, family, Some(NC_TABLE)) && k.rules[x] == 1 &&
      forall y: Rule | Listed(y, family, Some(NC_TABLE)) && y != x :: k.rules[y] == 0
  }

  /** `Init` a second time changes no rule and no route. */
  lemma InitIdempotent(k: Kernel, k1: Kernel, k2: Kernel, use4: bool, use6: bool)
    requires AfterInit(k, k1, use4, use6) && AfterInit(k1, k2, use4, use6)
    ensures k2.rules == k1.rules && k2.routes == k1.routes && k2.links == k1.links && k2.settings == k1.settings
  {}

  /** After `Init` the one-rule test holds exactly when no rule of another priority names the table. */
  lemma InitializedAfterInit(k: Kernel, k': Kernel, use4: bool, use6: bool, family: Family)
    requires AfterInit(k, k', use4, use6) && Enabled(use4, use6, family)
    ensures OneRule(k', family) <==>
      forall x: Rule | x.family == family && x.table == NC_TABLE && x.prio != NC_PRIO :: k.rules[x] == 0
  {
    assert k'.rules[NatRule(family)] == 1 && Listed(NatRule(family), family, Some(NC_TABLE));
    if OneRule(k', family) {
      var x: Rule :| Listed(x, family, Some(NC_TABLE)) && k'.rules[x] == 1 &&
        forall y: Rule | Listed(y, family, Some(NC_TABLE)) && y != x :: k'.rules[y] == 0;
      assert x == NatRule(family);
      forall y: Rule | y.family == family && y.table == NC_TABLE && y.prio != NC_PRIO
        ensures k.rules[y] == 0
      {
        assert Listed(y, family, Some(NC_TABLE)) && y != x;
      }
    }
  }

  /** What `IsInitialized` answers when the kernel does: the first enabled family decides. */
  ghost predicate SaysInitialized(k: Kernel, use4: bool, use6: bool) {
    if use4 then OneRule(k, Inet4) else if use6 then OneRule(k, Inet6) else true
  }

  /** What it should answer. */
  ghost predicate AllInitialized(k: Kernel, use4: bool, use6: bool) {
    forall family | Enabled(use4, use6, family) :: OneRule(k, family)
  }

  /** It answers right exactly if not both families are enabled, or IPv6 is set up whenever IPv4 is. */
  lemma IsInitializedExactly(k: Kernel, use4: bool, use6: bool)
    ensures (SaysInitialized(k, use4, use6) <==> AllInitialized(k, use4, use6)) <==>
      !(use4 && use6) || (OneRule(k, Inet4) ==> OneRule(k, Inet6))
  {
    assert Enabled(use4, use6, Inet4) == use4 && Enabled(use4, use6, Inet6) == use6;
  }

  /**
   It answers wrong for a dual-stack `Init` that was cut off after its IPv4 half, on a host where no rule named
   the table before.
   */
  lemma HalfInitSaysInitialized(k: Kernel, k': Kernel)
    requires AfterInit(k, k', true, false) && forall x: Rule | x.table == NC_TABLE :: k.rules[x] == 0
    ensures SaysInitialized(k', true, true) && !AllInitialized(k', true, true)
  {
    InitializedAfterInit(k, k', true, false, Inet4);
    forall x: Rule | Listed(x, Inet6, Some(NC_TABLE))
      ensures k'.rules[x] == 0
    {
      assert !Enabled(true, false, x.family);
    }
    assert Enabled(true, true, Inet6) && !OneRule(k', Inet6);
  }

  /** After a complete `Init` it answers right, exactly if no foreign rule names the table in IPv6 alone. */
  lemma InitAnswersExactly(k: Kernel, k': Kernel)
    requires AfterInit(k, k', true, true)
    ensures (SaysInitialized(k', true, true) <==> AllInitialized(k', true, true)) <==>
      ((forall x: Rule | x.family == Inet4 && x.table == NC_TABLE && x.prio != NC_PRIO :: k.rules[x] == 0) ==>
       (forall x: Rule | x.family == Inet6 && x.table == NC_TABLE && x.prio != NC_PRIO :: k.rules[x] == 0))
  {
    InitializedAfterInit(k, k', true, true, Inet4);
    InitializedAfterInit(k, k', true, true, Inet6);
    IsInitializedExactly(k', true, true);
  }

  /** What collecting the routes of a link gives: per prefix one of its routes on that link. */
  ghost predicate Collected(routes: set<Route>, index: nat, m: map<Prefix, Route>) {
    && (forall p | p in m :: m[p] in routes && OnLink(m[p], index) && m[p].dst == p)
    && (forall r | r in routes && OnLink(r, index) :: r.dst in m)
  }

  /**
   A state between starting to add and having deleted: throw routes come first; either no route has gone yet, or all
   routes to add are in, were not there before, and only routes to delete have gone.
   */
  ghost predicate MidInstall(was: set<Route>, now: set<Route>, index: nat, adds: seq<Prefix>, dels: seq<Route>) {
    var full := was + Throws() + TunnelRoutes(index, adds);
    && now <= full
    && (was <= now || (Added(was, index, adds) && forall r | r in full && r !in dels :: r in now))
    && (now <= was + Throws() || forall t | t in Throws() && t !in dels :: t in now)
  }

  ghost predicate Added(was: set<Route>, index: nat, adds: seq<Prefix>) {
    (forall n | n in adds :: StoredDst(ToIPNet(n)).Some?) && TunnelRoutes(index, adds) !! was
  }

  /** `adds` and `dels` are the difference between what a link has and what is requested. */
  ghost predicate IsDiff(current: map<Prefix, Route>, ps: seq<Prefix>, adds: seq<Prefix>, dels: seq<Route>) {
    && (forall n :: n in adds <==> n in ps && n !in current)
    && (forall r :: r in dels <==> r.dst in current && r.dst !in ps && current[r.dst] == r)
  }

  /** With everything added and unrequested routes of the link going, every requested prefix is on the link. */
  lemma AllIn(
      was: set<Route>, now: set<Route>, index: nat, ps: seq<Prefix>,
      current: map<Prefix, Route>, adds: seq<Prefix>, dels: seq<Route>)
    requires TableWf(was) && Collected(was, index, current) && IsDiff(current, ps, adds, dels)
    requires Added(was, index, adds)
    requires forall r | r in was + TunnelRoutes(index, adds) && r !in dels :: r in now
    ensures AllInstalled(now, index, ps)
  {
    forall n | n in ps
      ensures StoredDst(ToIPNet(n)).Some? && Installed(now, index, StoredDst(ToIPNet(n)).value)
    {
      if n in adds {
        var r := TunnelRoute(StoredDst(ToIPNet(n)).value, index);
        assert r in TunnelRoutes(index, adds) && r !in was;
        assert r in now && OnLink(r, index);
      } else {
        var r := current[n];
        TableRoundTrip(was, r);
        assert r in now && OnLink(r, index);
      }
    }
  }

  lemma InstallIsUpdate(
      was: set<Route>, now: set<Route>, index: nat, ps: seq<Prefix>,
      current: map<Prefix, Route>, adds: seq<Prefix>, dels: seq<Route>)
    requires TableWf(was) && Collected(was, index, current) && IsDiff(current, ps, adds, dels)
    requires MidInstall(was, now, index, adds, dels)
    ensures MidUpdate(was, now, index, ps)
  {
    assert TunnelRoutes(index, adds) <= TunnelRoutes(index, ps);
    if !(was <= now) {
      AllIn(was, now, index, ps, current, adds, dels);
    }
  }

  lemma InstallCompletes(
      was: set<Route>, now: set<Route>, index: nat, ps: seq<Prefix>,
      current: map<Prefix, Route>, adds: seq<Prefix>, dels: seq<Route>)
    requires TableWf(was) && Collected(was, index, current) && IsDiff(current, ps, adds, dels)
    requires Added(was, index, adds) && Throws() !! was
    requires forall r :: r in now <==> r in was + Throws() + TunnelRoutes(index, adds) && r !in dels
    ensures Updated(was, now, index, ps)
  {
    InstallIsUpdate(was, now, index, ps, current, adds, dels);
    AllIn(was, now, index, ps, current, adds, dels);
  }

  /** The listed rules that have the client's priority. */
  ghost function Doomed(rs: seq<Rule>): multiset<Rule> {
    if rs == [] then multiset{}
    else
      var last := rs[|rs| - 1];
      Doomed(rs[..|rs| - 1]) + if last.prio == NC_PRIO then multiset{last} else multiset{}
  }

  lemma {:induction false} DoomedCounts(rs: seq<Rule>)
    ensures forall x :: Doomed(rs)[x] == if x.prio == NC_PRIO then multiset(rs)[x] else 0
    ensures forall x | x in Doomed(rs) :: x in rs
  {
    if rs != [] {
      DoomedCounts(rs[..|rs| - 1]);
      assert rs == rs[..|rs| - 1] + [rs[|rs| - 1]];
    }
  }

  /** A listed rule whose turn has not come is still installed. */
  lemma DoomedRemains(was: multiset<Rule>, now: multiset<Rule>, rs: seq<Rule>, i: nat)
    requires i < |rs| && multiset(rs) <= was && now + Doomed(rs[..i]) == was
    ensures rs[i] in now
  {
    DoomedCounts(rs[..i]);
    assert rs == rs[..i] + ([rs[i]] + rs[i + 1..]);
    assert multiset(rs)[rs[i]] >= multiset(rs[..i])[rs[i]] + 1;
    assert was[rs[i]] == now[rs[i]] + Doomed(rs[..i])[rs[i]];
  }

  lemma DoomedAreCleared(was: multiset<Rule>, now: multiset<Rule>, rs: seq<Rule>, n: nat, family: Family, x: Rule)
    requires n <= |rs| && now + Doomed(rs[..n]) == was
    requires multiset(rs)[x] == if Listed(x, family, None) then was[x] else 0
    ensures now[x] <= was[x] && (!ClearedRule(x, family) ==> now[x] == was[x])
    ensures n == |rs| && ClearedRule(x, family) ==> now[x] == 0
  {
    DoomedCounts(rs[..n]);
    assert was[x] == now[x] + Doomed(rs[..n])[x];
    assert rs == rs[..n] + rs[n..];
    assert multiset(rs)[x] == multiset(rs[..n])[x] + multiset(rs[n..])[x];
  }

  class NatClient {
    const useipv4: bool
    const useipv6: bool
    const nl: Netlink

    constructor (useipv4: bool, useipv6: bool, nl: Netlink)
      ensures this.useipv4 == useipv4 && this.useipv6 == useipv6 && this.nl == nl
    {
      this.useipv4, this.useipv6, this.nl := useipv4, useipv6, nl;
    }

    method Clear(family: Family) returns (r: Result<()>)
      modifies nl
      ensures Clearing(old(nl.st), nl.st, family)
      ensures r.Ok? ==> Cleared(old(nl.st), nl.st, family)
      ensures Quiet(nl.faults) ==> r.Ok?
    {
      r := ClearRules(family);
      if r.Err? { return; }
      ghost var mid := nl.st;
      var routes := nl.RouteList(family, NC_TABLE);
      if routes.Err? { return Err(routes.error); }
      for i := 0 to |routes.value|
        invariant nl.st == mid.(routes := nl.st.routes, clock := nl.st.clock)
        invariant forall x :: x in nl.st.routes <==> x in mid.routes && x !in routes.value[..i]
      {
        assert routes.value[i] in routes.value && routes.value[i] !in routes.value[..i];
        r := nl.RouteDel(routes.value[i]);
        if r.Err? { return; }
      }
      r := Ok(());
    }

    method ClearRules(family: Family) returns (r: Result<()>)
      modifies nl
      ensures Clearing(old(nl.st), nl.st, family) && nl.st.routes == old(nl.st).routes
      ensures r.Ok? ==> forall x | ClearedRule(x, family) :: nl.st.rules[x] == 0
      ensures Quiet(nl.faults) ==> r.Ok?
    {
      var rules := nl.RuleList(family, None);
      if rules.Err? { return Err(rules.error); }
      ghost var n;
      assert multiset(rules.value) <= nl.st.rules;
      r, n := DelDoomed(rules.value);
      forall x: Rule
        ensures nl.st.rules[x] <= old(nl.st).rules[x]
        ensures !ClearedRule(x, family) ==> nl.st.rules[x] == old(nl.st).rules[x]
        ensures r.Ok? && ClearedRule(x, family) ==> nl.st.rules[x] == 0
      {
        DoomedAreCleared(old(nl.st).rules, nl.st.rules, rules.value, n, family, x);
      }
    }

    /** Delete the rules of `rs` that have the client's priority, up to the first refusal. */
    method DelDoomed(rs: seq<Rule>) returns (r: Result<()>, ghost n: nat)
      requires multiset(rs) <= nl.st.rules
      modifies nl
      ensures Quiet(nl.faults) ==> r.Ok?
      ensures nl.st == old(nl.st).(rules := nl.st.rules, clock := nl.st.clock)
      ensures n <= |rs| && nl.st.rules + Doomed(rs[..n]) == old(nl.st).rules
      ensures r.Ok? ==> n == |rs|
    {
      n := 0;
      for i := 0 to |rs|
        invariant n == i
        invariant nl.st == old(nl.st).(rules := nl.st.rules, clock := nl.st.clock)
        invariant nl.st.rules + Doomed(rs[..i]) == old(nl.st).rules
      {
        assert rs[..i + 1][..i] == rs[..i];
        if rs[i].prio == NC_PRIO {
          DoomedRemains(old(nl.st).rules, nl.st.rules, rs, i);
          r := nl.RuleDel(rs[i]);
          if r.Err? { return; }
        }
        n := n + 1;
      }
      r := Ok(());
    }

    method Init() returns (r: Result<()>)
      modifies nl
      ensures r.Ok? ==> AfterInit(old(nl.st), nl.st, useipv4, useipv6)
      ensures Quiet(nl.faults) ==> r.Ok?
      ensures Confined(old(nl.st), nl.st, useipv4, useipv6)
    {
      if useipv4 {
        r := InitFamily(Inet4);
        if r.Err? { return; }
      }
      if useipv6 {
        r := InitFamily(Inet6);
        if r.Err? { return; }
      }
      r := Ok(());
    }

    method InitFamily(family: Family) returns (r: Result<()>)
      modifies nl
      ensures r.Ok? ==> AfterInit(old(nl.st), nl.st, family == Inet4, family == Inet6)
      ensures Quiet(nl.faults) ==> r.Ok?
      ensures Confined(old(nl.st), nl.st, family == Inet4, family == Inet6)
    {
      r := Clear(family);
      if r.Err? { return; }
      r := nl.RuleAdd(NatRule(family));
    }

    /** With IPv4 enabled the IPv6 rule is never looked at. */
    method IsInitialized() returns (r: Result<bool>)
      modifies nl
      ensures nl.st == old(nl.st).(clock := nl.st.clock)
      ensures Quiet(nl.faults) ==> r.Ok?
      ensures r.Ok? ==> (r.value <==> SaysInitialized(nl.st, useipv4, useipv6))
    {
      if useipv4 {
        r := HasOneRule(Inet4);
        return;
      }
      if useipv6 {
        r := HasOneRule(Inet6);
        return;
      }
      r := Ok(true);
    }

    method HasOneRule(family: Family) returns (r: Result<bool>)
      modifies nl
      ensures nl.st == old(nl.st).(clock := nl.st.clock)
      ensures Quiet(nl.faults) ==> r.Ok?
      ensures r.Ok? ==> (r.value <==> OneRule(nl.st, family))
    {
      var rules := nl.RuleList(family, Some(NC_TABLE));
      if rules.Err? { return Err(rules.error); }
      var rs := rules.value;
      if |rs| == 1 {
        assert rs == [rs[0]] && multiset(rs)[rs[0]] == 1;
        assert forall y: Rule | y != rs[0] :: multiset(rs)[y] == 0;
      }
      if OneRule(nl.st, family) {
        var x: Rule :| Listed(x, family, Some(NC_TABLE)) && nl.st.rules[x] == 1 &&
          forall y: Rule | Listed(y, family, Some(NC_TABLE)) && y != x :: nl.st.rules[y] == 0;
        assert multiset(rs) == multiset{x};
        assert |multiset(rs)| == 1;
      }
      r := Ok(|rs| == 1);
    }

    method UpdateRoutes(link: LinkRef, subnets: seq<Prefix>) returns (r: Result<()>)
      requires TableWf(nl.st.routes)
      modifies nl
      ensures KeysUnique(old(nl.st).routes) ==> KeysUnique(nl.st.routes)
      ensures r.Ok? ==> Updated(old(nl.st).routes, nl.st.routes, link.index, subnets)
      ensures r.Ok? ==> Live(old(nl.st), link) && CanUpdate(old(nl.st).routes, link.index, subnets)
      ensures Quiet(nl.faults) && Live(old(nl.st), link) && CanUpdate(old(nl.st).routes, link.index, subnets) ==> r.Ok?
      ensures nl.st.rules == old(nl.st).rules && nl.st.settings == old(nl.st).settings
      ensures Extends(old(nl.st), nl.st) && nl.st.links.Keys == old(nl.st).links.Keys
      ensures r.Ok? ==> Live(nl.st, link) && nl.st.links[link.name].up
      ensures MidUpdate(old(nl.st).routes, nl.st.routes, link.index, subnets)
      ensures old(nl.trace) <= nl.trace
      ensures forall j | |old(nl.trace)| <= j < |nl.trace| ::
        MidUpdate(old(nl.st).routes, nl.trace[j].routes, link.index, subnets)
    {
      ghost var was, i := nl.st.routes, link.index;
      var current := CollectRoutes(link.index);
      if current.Err? { return Err(current.error); }
      var adds, dels := Diff(current.value, subnets);
      assert IsDiff(current.value, subnets, adds, dels);
      assert current.value.Keys == PrefixesOn(was, i);
      ghost var t0 := |nl.trace|;
      r := Install(link, adds, dels);
      forall j | t0 <= j < |nl.trace|
        ensures MidUpdate(was, nl.trace[j].routes, i, subnets)
      {
        InstallIsUpdate(was, nl.trace[j].routes, i, subnets, current.value, adds, dels);
      }
      InstallIsUpdate(was, nl.st.routes, i, subnets, current.value, adds, dels);
      if r.Ok? {
        InstallCompletes(was, nl.st.routes, i, subnets, current.value, adds, dels);
      }
    }

    /** The part of `UpdateRoutes` that changes the kernel: link up, throws, additions, then deletions. */
    method Install(link: LinkRef, adds: seq<Prefix>, dels: seq<Route>) returns (r: Result<()>)
      modifies nl
      ensures KeysUnique(old(nl.st).routes) ==> KeysUnique(nl.st.routes)
      ensures nl.st.rules == old(nl.st).rules && nl.st.settings == old(nl.st).settings
      ensures Extends(old(nl.st), nl.st) && nl.st.links.Keys == old(nl.st).links.Keys
      ensures MidInstall(old(nl.st).routes, nl.st.routes, link.index, adds, dels)
      ensures old(nl.trace) <= nl.trace
      ensures forall j | |old(nl.trace)| <= j < |nl.trace| ::
        MidInstall(old(nl.st).routes, nl.trace[j].routes, link.index, adds, dels)
      ensures r.Ok? ==>
        && Live(nl.st, link) && Live(old(nl.st), link) && nl.st.links[link.name].up
        && ThrowsFree(old(nl.st).routes, Special()) && Addable(old(nl.st).routes, adds)
        && Added(old(nl.st).routes, link.index, adds) && Throws() !! old(nl.st).routes
        && (forall x :: x in nl.st.routes <==>
              x in old(nl.st).routes + Throws() + TunnelRoutes(link.index, adds) && x !in dels)
      ensures
        (&& Quiet(nl.faults) && Live(old(nl.st), link) && ThrowsFree(old(nl.st).routes, Special())
         && Addable(old(nl.st).routes, adds) && NoRepeats(dels) && forall x | x in dels :: x in old(nl.st).routes)
        ==> r.Ok?
    {
      r := nl.LinkSetUp(link);
      if r.Err? { return; }
      assert nl.st.links[link.name] == Link(link.index, true);
      r := AddThrows();
      if r.Err? { return; }
      ThrowsDoNotBlock(old(nl.st).routes, adds);
      r := AddRoutes(link, adds);
      if r.Err? { return; }
      r := DelRoutes(dels);
    }

    method CollectRoutes(index: nat) returns (r: Result<map<Prefix, Route>>)
      requires TableWf(nl.st.routes)
      modifies nl
      ensures nl.st == old(nl.st).(clock := nl.st.clock)
      ensures old(nl.trace) <= nl.trace
      ensures forall j | |old(nl.trace)| <= j < |nl.trace| :: nl.trace[j].routes == old(nl.st).routes
      ensures r.Ok? ==> Collected(nl.st.routes, index, r.value)
      ensures Quiet(nl.faults) ==> r.Ok?
    {
      var r4 := CollectRoute1(index, Inet4);
      if r4.Err? { return r4; }
      var r6 := CollectRoute1(index, Inet6);
      if r6.Err? { return r6; }
      r := Ok(r4.value + r6.value);
    }

    method CollectRoute1(index: nat, family: Family) returns (r: Result<map<Prefix, Route>>)
      requires TableWf(nl.st.routes)
      modifies nl
      ensures nl.st == old(nl.st).(clock := nl.st.clock) && nl.trace == old(nl.trace) + [nl.st]
      ensures r.Ok? ==>
        && (forall p | p in r.value ::
              && r.value[p] in nl.st.routes && OnLink(r.value[p], index)
              && r.value[p].dst == p && p.addr.Family() == family)
        && (forall x | x in nl.st.routes && OnLink(x, index) && x.dst.addr.Family() == family :: x.dst in r.value)
      ensures Quiet(nl.faults) ==> r.Ok?
    {
      var ro := nl.RouteList(family, NC_TABLE);
      if ro.Err? { return Err(ro.error); }
      var routes: map<Prefix, Route> := map[];
      for i := 0 to |ro.value|
        invariant nl.st == old(nl.st).(clock := nl.st.clock) && nl.trace == old(nl.trace) + [nl.st]
        invariant forall p | p in routes ::
          routes[p] in ro.value && OnLink(routes[p], index) && routes[p].dst == p
        invariant forall j | 0 <= j < i && OnLink(ro.value[j], index) :: ro.value[j].dst in routes
      {
        var x := ro.value[i];
        assert x in ro.value;
        if x.hop == Via(index) {
          TableRoundTrip(nl.st.routes, x);
          var d := FromIPNet(ToIPNet(x.dst));
          if d.None? { return Err(BadInput); }
          routes := routes[d.value := x];
        }
      }
      r := Ok(routes);
    }

    /** What to add and what to delete; a prefix listed twice is added twice. */
    static method Diff(current: map<Prefix, Route>, subnets: seq<Prefix>) returns (adds: seq<Prefix>, dels: seq<Route>)
      requires forall p | p in current :: current[p].dst == p
      ensures adds == Lacking(current.Keys, subnets)
      ensures forall n :: n in adds <==> n in subnets && n !in current
      ensures NoRepeats(dels)
      ensures forall r :: r in dels <==> r.dst in current && r.dst !in subnets && current[r.dst] == r
    {
      adds, dels := [], [];
      var wanted: set<Prefix> := {};
      for i := 0 to |subnets|
        invariant adds == Lacking(current.Keys, subnets[..i])
        invariant forall n :: n in adds <==> n in subnets[..i] && n !in current
        invariant forall n :: n in wanted <==> n in subnets[..i]
      {
        assert subnets[..i + 1][..i] == subnets[..i];
        if subnets[i] !in current {
          adds := adds + [subnets[i]];
        }
        wanted := wanted + {subnets[i]};
      }
      assert subnets[..|subnets|] == subnets;
      var rest := current.Keys;
      while rest != {}
        invariant rest <= current.Keys
        invariant NoRepeats(dels)
        invariant forall r :: r in dels <==>
          r.dst in current && r.dst !in rest && r.dst !in subnets && current[r.dst] == r
        decreases |rest|
      {
        var p :| p in rest;
        rest := rest - {p};
        if p !in wanted {
          dels := dels + [current[p]];
        }
      }
    }

    method AddThrows() returns (r: Result<()>)
      modifies nl
      ensures KeysUnique(old(nl.st).routes) ==> KeysUnique(nl.st.routes)
      ensures nl.st == old(nl.st).(routes := nl.st.routes, clock := nl.st.clock)
      ensures old(nl.st).routes <= nl.st.routes <= old(nl.st).routes + Throws()
      ensures old(nl.trace) <= nl.trace
      ensures forall j | |old(nl.trace)| <= j < |nl.trace| ::
        old(nl.st).routes <= nl.trace[j].routes <= old(nl.st).routes + Throws()
      ensures r.Ok? ==> nl.st.routes == old(nl.st).routes + Throws() && Throws() !! old(nl.st).routes
      ensures r.Ok? ==> ThrowsFree(old(nl.st).routes, Special())
      ensures Quiet(nl.faults) && ThrowsFree(old(nl.st).routes, Special()) ==> r.Ok?
    {
      SpecialDsts();
      ThrowsByDst(nl.st.routes, Special(), Dsts(Special()));
      r := AddAll(Dsts(Special()), Throw, THROW_METRIC);
    }

    method AddRoutes(link: LinkRef, ps: seq<Prefix>) returns (r: Result<()>)
      modifies nl
      ensures KeysUnique(old(nl.st).routes) ==> KeysUnique(nl.st.routes)
      ensures nl.st == old(nl.st).(routes := nl.st.routes, clock := nl.st.clock)
      ensures old(nl.st).routes <= nl.st.routes <= old(nl.st).routes + TunnelRoutes(link.index, ps)
      ensures old(nl.trace) <= nl.trace
      ensures forall j | |old(nl.trace)| <= j < |nl.trace| ::
        old(nl.st).routes <= nl.trace[j].routes <= old(nl.st).routes + TunnelRoutes(link.index, ps)
      ensures r.Ok? ==>
        && nl.st.routes == old(nl.st).routes + TunnelRoutes(link.index, ps)
        && TunnelRoutes(link.index, ps) !! old(nl.st).routes
        && Addable(old(nl.st).routes, ps)
      ensures Quiet(nl.faults) && Addable(old(nl.st).routes, ps) && UpIndex(old(nl.st), link.index) ==> r.Ok?
    {
      TunnelRoutesByDst(link.index, ps);
      AddableByDst(nl.st.routes, ps);
      r := AddAll(Dsts(ps), Via(link.index), ROUTE_METRIC);
    }

    /** Add a route to each destination in turn; `Dsts` has made the conversions of `addThrow` and `addRoute`. */
    method AddAll(ds: seq<Option<Prefix>>, hop: Hop, metric: nat) returns (r: Result<()>)
      modifies nl
      ensures KeysUnique(old(nl.st).routes) ==> KeysUnique(nl.st.routes)
      ensures nl.st == old(nl.st).(routes := nl.st.routes, clock := nl.st.clock)
      ensures old(nl.st).routes <= nl.st.routes <= old(nl.st).routes + RoutesTo(ds, hop, metric)
      ensures old(nl.trace) <= nl.trace
      ensures forall j | |old(nl.trace)| <= j < |nl.trace| ::
        old(nl.st).routes <= nl.trace[j].routes <= old(nl.st).routes + RoutesTo(ds, hop, metric)
      ensures r.Ok? ==>
        && nl.st.routes == old(nl.st).routes + RoutesTo(ds, hop, metric)
        && RoutesTo(ds, hop, metric) !! old(nl.st).routes
        && Free(old(nl.st).routes, ds, metric)
      ensures Quiet(nl.faults) && Free(old(nl.st).routes, ds, metric) ==>
        ((hop.Via? ==> UpIndex(old(nl.st), hop.index)) ==> r.Ok?)
    {
      for i := 0 to |ds|
        invariant nl.st == old(nl.st).(routes := nl.st.routes, clock := nl.st.clock)
        invariant old(nl.trace) <= nl.trace
        invariant forall j | |old(nl.trace)| <= j < |nl.trace| ::
          old(nl.st).routes <= nl.trace[j].routes <= nl.st.routes
        invariant nl.st.routes == old(nl.st).routes + RoutesTo(ds[..i], hop, metric)
        invariant KeysUnique(old(nl.st).routes) ==> KeysUnique(nl.st.routes)
        invariant RoutesTo(ds[..i], hop, metric) <= RoutesTo(ds, hop, metric)
        invariant RoutesTo(ds[..i], hop, metric) !! old(nl.st).routes
        invariant Free(old(nl.st).routes, ds[..i], metric)
        invariant hop.Via? ==> UpIndex(nl.st, hop.index) == UpIndex(old(nl.st), hop.index)
      {
        FreeNext(old(nl.st).routes, ds, hop, metric, i);
        r := nl.RouteAdd(NC_TABLE, ds[i], hop, metric);
        if r.Err? { return; }
      }
      assert ds[..|ds|] == ds;
      r := Ok(());
    }

    method DelRoutes(dels: seq<Route>) returns (r: Result<()>)
      modifies nl
      ensures KeysUnique(old(nl.st).routes) ==> KeysUnique(nl.st.routes)
      ensures nl.st == old(nl.st).(routes := nl.st.routes, clock := nl.st.clock)
      ensures nl.st.routes <= old(nl.st).routes && forall x | x in old(nl.st).routes && x !in dels :: x in nl.st.routes
      ensures old(nl.trace) <= nl.trace
      ensures forall j | |old(nl.trace)| <= j < |nl.trace| ::
        && nl.trace[j].routes <= old(nl.st).routes
        && forall x | x in old(nl.st).routes && x !in dels :: x in nl.trace[j].routes
      ensures r.Ok? ==> forall x :: x in nl.st.routes <==> x in old(nl.st).routes && x !in dels
      ensures Quiet(nl.faults) && NoRepeats(dels) && (forall x | x in dels :: x in old(nl.st).routes) ==> r.Ok?
    {
      for i := 0 to |dels|
        invariant nl.st == old(nl.st).(routes := nl.st.routes, clock := nl.st.clock)
        invariant old(nl.trace) <= nl.trace
        invariant forall j | |old(nl.trace)| <= j < |nl.trace| ::
          && nl.trace[j].routes <= old(nl.st).routes
          && forall x | x in old(nl.st).routes && x !in dels :: x in nl.trace[j].routes
        invariant forall x :: x in nl.st.routes <==> x in old(nl.st).routes && x !in dels[..i]
      {
        r := nl.RouteDel(dels[i]);
        if r.Err? { return; }
      }
      r := Ok(());
    }
  }
}
