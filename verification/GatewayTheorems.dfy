/** Availability, refinement and convergence of the gateway. */
module GatewayTheorems {
  import opened Addresses
  import opened FouNaming
  import opened KernelModel
  import S = Sentinel
  import opened Fou
  import opened NatGateway
  import opened PodWatching
  import opened WatchLemmas
  import opened GatewayRuns

  // ---- tunnel availability ----

  /** Every tracked address of a supported family has its tunnel. */
  ghost predicate Available(c: Config, w: Watch) {
    forall p, a | p in w.fwd && a in w.fwd[p] && Supported(c, a) :: HasTunnel(c, w.k, a)
  }

  /**
   A successful report keeps every tunnel available exactly when no other tracked pod lists a
   supported address that it drops: the handler deletes dropped tunnels without asking.
   */
  lemma RunningKeepsAvailable(c: Config, u: set<Addr>, f: Faults, w: Watch, pod: PodKey, ips: seq<Addr>)
    requires Universe(c, u) && Tracks(w, u) && Within(ips, u) && Available(c, w)
    requires HandlePodRunning(c, f, w, pod, ips).r.Ok?
    ensures Available(c, HandlePodRunning(c, f, w, pod, ips).w) <==>
      forall a | Dropped(Existing(w.fwd, pod), ips, a) && Supported(c, a) :: !ListedByOther(w.fwd, pod, a)
  {
    var w' := HandlePodRunning(c, f, w, pod, ips).w;
    var ex := Existing(w.fwd, pod);
    TracksExisting(w, u, pod);
    RunningIndexes(c, f, w, pod, ips);
    if a :| Dropped(ex, ips, a) && Supported(c, a) && ListedByOther(w.fwd, pod, a) {
      var q :| q != pod && q in w.fwd && a in w.fwd[q];
      RunningTunnels(c, u, f, w, pod, ips, a);
      assert a in w'.fwd[q] && !HasTunnel(c, w'.k, a);
    } else {
      forall p, a | p in w'.fwd && a in w'.fwd[p] && Supported(c, a)
        ensures HasTunnel(c, w'.k, a)
      {
        assert a in u by { if p == pod { assert a in ips; } else { assert a in w.fwd[p]; } }
        RunningTunnels(c, u, f, w, pod, ips, a);
        if p != pod {
          assert Dropped(ex, ips, a) ==> ListedByOther(w.fwd, pod, a);
        }
      }
    }
  }

  /** A report that fails, while it adds or at its first deletion, leaves every tunnel in place. */
  lemma FailedReportKeepsAvailable(c: Config, u: set<Addr>, f: Faults, w: Watch, pod: PodKey, ips: seq<Addr>)
    requires Universe(c, u) && Tracks(w, u) && Within(ips, u) && Available(c, w)
    requires HandlePodRunning(c, f, w, pod, ips).r.Err? && DropsCleanly(c, f, w, pod, ips)
    ensures Available(c, HandlePodRunning(c, f, w, pod, ips).w)
  {
    var w' := HandlePodRunning(c, f, w, pod, ips).w;
    forall p, a | p in w'.fwd && a in w'.fwd[p] && Supported(c, a)
      ensures HasTunnel(c, w'.k, a)
    {
      assert a in w.fwd[p];
      AddNewTunnels(c, u, f, w.k, Existing(w.fwd, pod), ips, a);
    }
  }

  lemma DeletionKeepsAvailable(c: Config, u: set<Addr>, f: Faults, w: Watch, pod: PodKey)
    requires Universe(c, u) && Tracks(w, u) && Covers(w) && Available(c, w)
    requires DeletesCleanly(c, f, w, pod)
    ensures Available(c, HandlePodDeletion(c, f, w, pod).w)
  {
    var w' := HandlePodDeletion(c, f, w, pod).w;
    DeletionIndexes(c, u, f, w, pod);
    TracksExisting(w, u, pod);
    if HandlePodDeletion(c, f, w, pod).r.Err? {
      CleanFailureKeepsKernel(c, f, w, pod, Existing(w.fwd, pod));
      return;
    }
    forall p, a | p in w'.fwd && a in w'.fwd[p] && Supported(c, a)
      ensures HasTunnel(c, w'.k, a)
    {
      assert p != pod && a in w.fwd[p] && In(w.rev, a, p);
      ReleaseTunnels(c, u, f, w, pod, Existing(w.fwd, pod), a);
    }
  }

  /**
   Tunnel availability over runs, restarts included, from any kernel state: additions may fail
   anywhere and deletions at their start; a dropped address must have been the pod's alone.
   */
  lemma {:induction false} TunnelsStayAvailable(c: Config, u: set<Addr>, f: Faults, k: Kernel, es: seq<Event>)
    requires Universe(c, u)
    requires RunMeets(AVAILABLE_TERMS, c, u, f, Watch(k, map[], map[]), es)
    ensures var v := Run(c, f, Watch(k, map[], map[]), es); Available(c, v) && Covers(v) && Tracks(v, u)
    decreases |es|
  {
    var w := Watch(k, map[], map[]);
    if es != [] {
      var front, e := es[..|es| - 1], es[|es| - 1];
      TunnelsStayAvailable(c, u, f, k, front);
      var v := Run(c, f, w, front);
      DoKeepsCovers(c, u, f, v, e);
      DoTracks(c, u, f, v, e);
      match e
      case Running(pod, ips) =>
        if HandlePodRunning(c, f, v, pod, ips).r.Err? {
          FailedReportKeepsAvailable(c, u, f, v, pod, ips);
        } else {
          RunningKeepsAvailable(c, u, f, v, pod, ips);
        }
      case Deleted(pod) => DeletionKeepsAvailable(c, u, f, v, pod);
      case Restart =>
    }
  }

  // ---- return traffic ----

  /** A client gets its packets back: a route for its address through its own link, which is up. */
  ghost predicate Connected(c: Config, k: Kernel, a: Addr) {
    && HasTunnel(c, k, a)
    && k.links[LinkName(c.digest, a)].up
    && ClientRoute(a, k.links[LinkName(c.digest, a)].index) in k.routes
  }

  ghost predicate Routed(c: Config, w: Watch) {
    forall p, a | p in w.fwd && a in w.fwd[p] && Supported(c, a) :: HasRoute(w.k, a)
  }

  lemma RouteConnects(c: Config, u: set<Addr>, k: Kernel, a: Addr)
    requires Coupled(c, u, k) && HasRoute(k, a)
    ensures Connected(c, k, a)
  {}

  lemma RunningKeepsRouted(c: Config, u: set<Addr>, f: Faults, w: Watch, pod: PodKey, ips: seq<Addr>)
    requires Universe(c, u) && Tracks(w, u) && Within(ips, u) && KernelInv(c, u, w.k) && Routed(c, w)
    requires Meets(AVAILABLE_TERMS, c, u, f, w, Running(pod, ips))
    ensures Routed(c, HandlePodRunning(c, f, w, pod, ips).w)
  {
    var s := HandlePodRunning(c, f, w, pod, ips);
    var ex := Existing(w.fwd, pod);
    TracksExisting(w, u, pod);
    RunningIndexes(c, f, w, pod, ips);
    if s.r.Err? {
      FailedReportKeepsRoutes(c, u, f, w, pod, ips);
      return;
    }
    RunningRoutes(c, u, f, w, pod, ips);
    forall p, a | p in s.w.fwd && a in s.w.fwd[p] && Supported(c, a)
      ensures HasRoute(s.w.k, a)
    {
      if p == pod {
        assert a in ips && a in u;
        assert a in ex ==> pod in w.fwd && a in w.fwd[pod];
      } else {
        assert a in w.fwd[p] && a in u;
        if Dropped(ex, ips, a) { assert ListedByOther(w.fwd, pod, a); }
      }
    }
  }

  lemma FailedReportKeepsRoutes(c: Config, u: set<Addr>, f: Faults, w: Watch, pod: PodKey, ips: seq<Addr>)
    requires Universe(c, u) && Within(ips, u) && KernelInv(c, u, w.k)
    requires HandlePodRunning(c, f, w, pod, ips).r.Err? && DropsCleanly(c, f, w, pod, ips)
    ensures forall a | HasRoute(w.k, a) :: HasRoute(HandlePodRunning(c, f, w, pod, ips).w.k, a)
  {
    AddNewRoutes(c, u, f, w.k, Existing(w.fwd, pod), ips);
  }

  lemma DeletionKeepsRouted(c: Config, u: set<Addr>, f: Faults, w: Watch, pod: PodKey)
    requires Universe(c, u) && Tracks(w, u) && Covers(w) && KernelInv(c, u, w.k) && Routed(c, w)
    requires DeletesCleanly(c, f, w, pod)
    ensures Routed(c, HandlePodDeletion(c, f, w, pod).w)
  {
    var w' := HandlePodDeletion(c, f, w, pod).w;
    DeletionIndexes(c, u, f, w, pod);
    TracksExisting(w, u, pod);
    if HandlePodDeletion(c, f, w, pod).r.Err? {
      CleanFailureKeepsKernel(c, f, w, pod, Existing(w.fwd, pod));
      return;
    }
    ReleaseRoutes(c, u, f, w, pod, Existing(w.fwd, pod));
    forall p, a | p in w'.fwd && a in w'.fwd[p] && Supported(c, a)
      ensures HasRoute(w'.k, a)
    {
      assert p != pod && a in w.fwd[p] && In(w.rev, a, p) && a in u;
    }
  }

  /**
   The same over runs for the whole return path: if table 118 was coupled at the start, every tracked
   address of a supported family has its route through its own live link after every event.
   */
  lemma {:induction false} ClientsStayConnected(c: Config, u: set<Addr>, f: Faults, k: Kernel, es: seq<Event>)
    requires Universe(c, u) && KernelInv(c, u, k)
    requires RunMeets(AVAILABLE_TERMS, c, u, f, Watch(k, map[], map[]), es)
    ensures var v := Run(c, f, Watch(k, map[], map[]), es);
      && Routed(c, v) && KernelInv(c, u, v.k)
      && forall p, a | p in v.fwd && a in v.fwd[p] && Supported(c, a) :: Connected(c, v.k, a)
    decreases |es|
  {
    var w := Watch(k, map[], map[]);
    if es != [] {
      var front, e := es[..|es| - 1], es[|es| - 1];
      ClientsStayConnected(c, u, f, k, front);
      TunnelsStayAvailable(c, u, f, k, front);
      var v := Run(c, f, w, front);
      DoKeepsCoupled(c, u, f, v, e);
      match e
      case Running(pod, ips) => RunningKeepsRouted(c, u, f, v, pod, ips);
      case Deleted(pod) => DeletionKeepsRouted(c, u, f, v, pod);
      case Restart =>
    }
    var v := Run(c, f, w, es);
    forall p, a | p in v.fwd && a in v.fwd[p] && Supported(c, a)
      ensures Connected(c, v.k, a)
    {
      RouteConnects(c, u, v.k, a);
    }
  }

  // ---- refinement of the simple map ----

  /** The simple specification: each pod's last reported addresses. */
  function Spec(es: seq<Event>): map<PodKey, seq<Addr>>
    decreases |es|
  {
    if es == [] then map[]
    else
      var m := Spec(es[..|es| - 1]);
      match es[|es| - 1]
      case Running(pod, ips) => m[pod := ips]
      case Deleted(pod) => m - {pod}
      case Restart => map[]
  }

  ghost predicate Held(fwd: map<PodKey, seq<Addr>>, a: Addr) {
    exists p :: p in fwd && a in fwd[p]
  }

  /** Tunnels and routes are exactly those of the supported addresses that some pod holds. */
  ghost predicate Exact(c: Config, u: set<Addr>, w: Watch) {
    forall a | a in u ::
      && (HasTunnel(c, w.k, a) <==> Supported(c, a) && Held(w.fwd, a))
      && (HasRoute(w.k, a) <==> Supported(c, a) && Held(w.fwd, a))
  }

  const QUIET_TERMS := INVERSE_TERMS.(noRestart := true)

  /** Without refusals, one round of the adding loop: it fails exactly if the address is unreachable. */
  lemma AddOneSucceeds(c: Config, u: set<Addr>, f: Faults, k: Kernel, a: Addr)
    requires Universe(c, u) && a in u && KernelInv(c, u, k) && Quiet(f)
    ensures var link := AddPeer(c, f, k, a);
      && (link.r == Err(FamilyMismatch) <==> !Supported(c, a)) && (!Supported(c, a) ==> link.k == k)
      && (link.r.Ok? <==> Supported(c, a) && Reachable(c, k, a))
      && (link.r.Ok? ==>
            var client := AddClient(c, f, link.k, a, link.r.value);
            && client.r.Ok? && KernelInv(c, u, client.k)
            && (forall b | b in u :: Reachable(c, client.k, b) <==> b == a || Reachable(c, k, b)))
  {
    var link := AddPeer(c, f, k, a);
    AddPeerEffect(c, f, k, a);
    AddPeerSucceeds(c, f, k, a);
    AddOneKeeps(c, u, f, k, a);
    if link.r.Ok? {
      AddClientSucceeds(c, u, f, link.k, a, link.r.value);
      forall b | b in u { AddedIsReachable(c, u, f, k, a, b); }
    }
  }

  lemma {:induction false} AddNewSucceeds(
      c: Config, u: set<Addr>, f: Faults, k: Kernel, existing: seq<Addr>, ips: seq<Addr>)
    requires Universe(c, u) && Within(ips, u) && KernelInv(c, u, k) && Quiet(f)
    ensures AddNew(c, f, k, existing, ips).r.Ok? <==> forall a | Fresh(c, existing, ips, a) :: Reachable(c, k, a)
    decreases |ips|
  {
    if ips != [] {
      var a, rest := ips[0], ips[1..];
      assert a in ips && forall b :: b in ips <==> b == a || b in rest;
      if a in existing || !Supported(c, a) {
        AddOneSucceeds(c, u, f, k, a);
        AddNewSucceeds(c, u, f, k, existing, rest);
        assert forall b :: Fresh(c, existing, ips, b) <==> Fresh(c, existing, rest, b);
      } else {
        AddOneSucceeds(c, u, f, k, a);
        assert forall b :: Fresh(c, existing, ips, b) <==> b == a || Fresh(c, existing, rest, b);
        var link := AddPeer(c, f, k, a);
        if link.r.Ok? {
          AddNewSucceeds(c, u, f, AddClient(c, f, link.k, a, link.r.value).k, existing, rest);
        }
      }
    }
  }

  /** Adding one client makes it reachable and nothing more or less so. */
  lemma AddedIsReachable(c: Config, u: set<Addr>, f: Faults, k: Kernel, a: Addr, b: Addr)
    requires Universe(c, u) && a in u && b in u && AddPeer(c, f, k, a).r.Ok?
    ensures var link := AddPeer(c, f, k, a); var k' := AddClient(c, f, link.k, a, link.r.value).k;
      Reachable(c, k', b) <==> b == a || Reachable(c, k, b)
  {
    var link := AddPeer(c, f, k, a);
    AddPeerEffect(c, f, k, a);
    AddPeerTunnels(c, u, f, k, a, b);
    FollowingKeepsFree(k, link.k, a);
    AddClientKeepsLinks(c, f, link.k, a, link.r.value);
  }

  lemma {:induction false} DelOldSucceeds(c: Config, f: Faults, k: Kernel, existing: seq<Addr>, ips: seq<Addr>)
    requires (forall a | a in existing :: a != NoAddr) && Quiet(f)
    ensures DelOld(c, f, k, existing, ips).r.Ok?
    decreases |existing|
  {
    if existing != [] {
      assert existing[0] in existing && forall a | a in existing[1..] :: a in existing;
      DelOldSucceeds(c, f, if existing[0] in ips then k else DelPeer(c, f, k, existing[0]).k, existing[1..], ips);
    }
  }

  /** Without refusals a report succeeds, from any coupled state, exactly if every address to set up is reachable. */
  lemma RunningSucceeds(c: Config, u: set<Addr>, f: Faults, w: Watch, pod: PodKey, ips: seq<Addr>)
    requires Universe(c, u) && Tracks(w, u) && Within(ips, u) && KernelInv(c, u, w.k) && Quiet(f)
    ensures HandlePodRunning(c, f, w, pod, ips).r.Ok? <==>
      forall a | Fresh(c, Existing(w.fwd, pod), ips, a) :: Reachable(c, w.k, a)
    ensures FallbacksFree(w.k) ==> HandlePodRunning(c, f, w, pod, ips).r.Ok?
  {
    TracksExisting(w, u, pod);
    AddNewSucceeds(c, u, f, w.k, Existing(w.fwd, pod), ips);
    DelOldSucceeds(c, f, AddNew(c, f, w.k, Existing(w.fwd, pod), ips).k, Existing(w.fwd, pod), ips);
  }

  lemma RunningKeepsExact(c: Config, u: set<Addr>, f: Faults, w: Watch, pod: PodKey, ips: seq<Addr>)
    requires Universe(c, u) && Tracks(w, u) && Within(ips, u) && KernelInv(c, u, w.k) && Exact(c, u, w)
    requires (forall a | a in Existing(w.fwd, pod) :: a in ips) && HandlePodRunning(c, f, w, pod, ips).r.Ok?
    ensures Exact(c, u, HandlePodRunning(c, f, w, pod, ips).w)
  {
    var w' := HandlePodRunning(c, f, w, pod, ips).w;
    TracksExisting(w, u, pod);
    RunningRoutes(c, u, f, w, pod, ips);
    forall a | a in u
      ensures HasTunnel(c, w'.k, a) <==> Supported(c, a) && Held(w'.fwd, a)
      ensures HasRoute(w'.k, a) <==> Supported(c, a) && Held(w'.fwd, a)
    {
      RunningTunnels(c, u, f, w, pod, ips, a);
      HeldAfterReport(w.fwd, pod, ips, a);
    }
  }

  lemma HeldAfterReport(fwd: map<PodKey, seq<Addr>>, pod: PodKey, ips: seq<Addr>, a: Addr)
    requires forall b | b in Existing(fwd, pod) :: b in ips
    ensures Held(fwd[pod := ips], a) <==> Held(fwd, a) || a in ips
  {
    var m := fwd[pod := ips];
    if a in ips { assert pod in m && a in m[pod]; }
    if Held(fwd, a) {
      var p :| p in fwd && a in fwd[p];
      assert p in m && a in m[p];
    }
  }

  lemma DeletionKeepsExact(c: Config, u: set<Addr>, f: Faults, w: Watch, pod: PodKey)
    requires Universe(c, u) && Tracks(w, u) && KernelInv(c, u, w.k) && Exact(c, u, w)
    requires Covers(w) && Inverse(w) && HandlePodDeletion(c, f, w, pod).r.Ok?
    ensures Exact(c, u, HandlePodDeletion(c, f, w, pod).w)
  {
    var w' := HandlePodDeletion(c, f, w, pod).w;
    var ips := Existing(w.fwd, pod);
    TracksExisting(w, u, pod);
    DeletionIndexes(c, u, f, w, pod);
    ReleaseRoutes(c, u, f, w, pod, ips);
    forall a | a in u
      ensures HasTunnel(c, w'.k, a) <==> Supported(c, a) && Held(w'.fwd, a)
      ensures HasRoute(w'.k, a) <==> Supported(c, a) && Held(w'.fwd, a)
    {
      ReleaseTunnels(c, u, f, w, pod, ips, a);
      HeldAfterDeletion(w, pod, a);
      if HasRoute(w'.k, a) { RouteConnects(c, u, w'.k, a); }
    }
  }

  lemma HeldAfterDeletion(w: Watch, pod: PodKey, a: Addr)
    requires Inverse(w)
    ensures Held(w.fwd - {pod}, a) <==> Shared(w.rev, pod, a)
    ensures Held(w.fwd, a) <==> a in Existing(w.fwd, pod) || Shared(w.rev, pod, a)
  {
    if Held(w.fwd - {pod}, a) {
      var p :| p in w.fwd - {pod} && a in (w.fwd - {pod})[p];
      assert In(w.rev, a, p);
    }
    if Shared(w.rev, pod, a) {
      var q :| q != pod && In(w.rev, a, q);
      assert q in w.fwd - {pod} && a in (w.fwd - {pod})[q];
    }
    if Held(w.fwd, a) {
      var p :| p in w.fwd && a in w.fwd[p];
      assert In(w.rev, a, p);
    }
    if a in Existing(w.fwd, pod) { assert pod in w.fwd && a in w.fwd[pod]; }
  }

  lemma RestartKeepsFallbacks(c: Config, f: Faults, k: Kernel)
    ensures FallbacksFree(k) ==> FallbacksFree(Restarted(c, f, k).w.k)
  {
    S.GuardedInitEffect(f, k, FOU_DUMMY, InitSteps(c));
    S.GuardedInitEffect(f, Init(c, f, k).k, EGRESS_DUMMY, GatewaySteps(c));
  }

  /**
   The map half of the refinement. With no refusals, drops and repeated addresses, restarts included and whatever
   tunnels the kernel has, the forward index is the simple map of last reports and the reverse index its inverse.
   */
  lemma {:induction false} MapsRefineSpec(c: Config, u: set<Addr>, f: Faults, k: Kernel, es: seq<Event>)
    requires Universe(c, u) && KernelInv(c, u, k) && FallbacksFree(k)
    requires Quiet(f) && RunMeets(INVERSE_TERMS, c, u, f, Watch(k, map[], map[]), es)
    ensures var v := Run(c, f, Watch(k, map[], map[]), es);
      && v.fwd == Spec(es) && Inverse(v) && Covers(v)
      && Tracks(v, u) && KernelInv(c, u, v.k) && FallbacksFree(v.k)
    decreases |es|
  {
    if es != [] {
      var front, e := es[..|es| - 1], es[|es| - 1];
      MapsRefineSpec(c, u, f, k, front);
      var v := Run(c, f, Watch(k, map[], map[]), front);
      DoTracks(c, u, f, v, e);
      DoKeepsCoupled(c, u, f, v, e);
      DoKeepsCovers(c, u, f, v, e);
      match e
      case Running(pod, ips) =>
        HandlersKeepSetUp(c, u, f, v, e);
        RunningSucceeds(c, u, f, v, pod, ips);
        RunningIndexes(c, f, v, pod, ips);
        RunningKeepsInverse(c, f, v, pod, ips);
      case Deleted(pod) =>
        HandlersKeepSetUp(c, u, f, v, e);
        DeletionIndexes(c, u, f, v, pod);
      case Restart => RestartKeepsFallbacks(c, f, v.k);
    }
  }

  lemma {:induction false} QuietMeetsInverse(c: Config, u: set<Addr>, f: Faults, w: Watch, es: seq<Event>)
    requires RunMeets(QUIET_TERMS, c, u, f, w, es)
    ensures RunMeets(INVERSE_TERMS, c, u, f, w, es)
    decreases |es|
  {
    if es != [] { QuietMeetsInverse(c, u, f, w, es[..|es| - 1]); }
  }

  /**
   Refinement. Without restarts too, from a kernel with no tunnel and no client route, tunnels and client routes
   are exactly those of the supported addresses that the map of last reports holds.
   */
  lemma {:induction false} GatewayRefinesSpec(c: Config, u: set<Addr>, f: Faults, k: Kernel, es: seq<Event>)
    requires Universe(c, u) && KernelInv(c, u, k) && FallbacksFree(k) && Exact(c, u, Watch(k, map[], map[]))
    requires Quiet(f) && RunMeets(QUIET_TERMS, c, u, f, Watch(k, map[], map[]), es)
    ensures var v := Run(c, f, Watch(k, map[], map[]), es);
      && v.fwd == Spec(es) && Inverse(v) && Covers(v) && Exact(c, u, v)
      && Tracks(v, u) && KernelInv(c, u, v.k) && FallbacksFree(v.k)
    decreases |es|
  {
    var w := Watch(k, map[], map[]);
    QuietMeetsInverse(c, u, f, w, es);
    MapsRefineSpec(c, u, f, k, es);
    if es != [] {
      var front, e := es[..|es| - 1], es[|es| - 1];
      GatewayRefinesSpec(c, u, f, k, front);
      QuietMeetsInverse(c, u, f, w, front);
      MapsRefineSpec(c, u, f, k, front);
      var v := Run(c, f, w, front);
      match e
      case Running(pod, ips) =>
        RunningSucceeds(c, u, f, v, pod, ips);
        RunningKeepsExact(c, u, f, v, pod, ips);
      case Deleted(pod) =>
        DeletionIndexes(c, u, f, v, pod);
        DeletionKeepsExact(c, u, f, v, pod);
    }
  }

  // ---- what drops do ----

  /** A kernel that knows none of the addresses yet. */
  ghost predicate Untouched(c: Config, u: set<Addr>, k: Kernel) {
    KernelInv(c, u, k) && FallbacksFree(k) && forall a | a in u :: !HasTunnel(c, k, a) && !HasRoute(k, a)
  }

  /**
   Two pods share an address and one of them moves to another: with nothing failing at all, the pod that
   kept the address has lost its tunnel.
   */
  lemma SharedDropCutsTunnel(c: Config, u: set<Addr>, f: Faults, k: Kernel, p: PodKey, q: PodKey, a: Addr, b: Addr)
    requires Universe(c, u) && Untouched(c, u, k) && Quiet(f)
    requires p != q && a != b && a in u && b in u && Supported(c, a)
    ensures var v := Run(c, f, Watch(k, map[], map[]), [Running(p, [a]), Running(q, [a]), Running(p, [b])]);
      q in v.fwd && v.fwd[q] == [a] && !HasTunnel(c, v.k, a)
  {
    var w0 := Watch(k, map[], map[]);
    var w1 := HandlePodRunning(c, f, w0, p, [a]).w;
    var w2 := HandlePodRunning(c, f, w1, q, [a]).w;
    Runs3(c, f, w0, Running(p, [a]), Running(q, [a]), Running(p, [b]));
    QuietReport(c, u, f, w0, p, [a]);
    QuietReport(c, u, f, w1, q, [a]);
    QuietReport(c, u, f, w2, p, [b]);
    RunningTunnels(c, u, f, w2, p, [b], a);
    assert Dropped(Existing(w2.fwd, p), [b], a);
  }

  /**
   A deletion from a covered state deletes a listed address's tunnel exactly as intended, that is unless
   another tracked pod lists it, exactly if the address has no reverse entry left over from a drop.
   */
  lemma DeletionReleasesExactly(c: Config, u: set<Addr>, f: Faults, w: Watch, pod: PodKey, a: Addr)
    requires Universe(c, u) && Tracks(w, u) && Covers(w) && HandlePodDeletion(c, f, w, pod).r.Ok?
    requires a in Existing(w.fwd, pod) && HasTunnel(c, w.k, a)
    ensures var w' := HandlePodDeletion(c, f, w, pod).w;
      (HasTunnel(c, w'.k, a) <==> ListedByOther(w.fwd, pod, a)) <==>
      (Shared(w.rev, pod, a) ==> ListedByOther(w.fwd, pod, a))
  {
    TracksExisting(w, u, pod);
    ReleaseTunnels(c, u, f, w, pod, Existing(w.fwd, pod), a);
    if ListedByOther(w.fwd, pod, a) {
      var q :| q != pod && q in w.fwd && a in w.fwd[q];
      assert In(w.rev, a, q);
    }
  }

  /**
   Such an entry comes from a drop: with nothing failing at all, a pod moves away from an address, another
   takes it and is deleted, and the tunnel is still there though no pod lists the address.
   */
  lemma DropLeaksTunnel(c: Config, u: set<Addr>, f: Faults, k: Kernel, p: PodKey, q: PodKey, a: Addr, b: Addr)
    requires Universe(c, u) && Untouched(c, u, k) && Quiet(f)
    requires p != q && a != b && a in u && b in u && Supported(c, a)
    ensures var es := [Running(p, [a]), Running(p, [b]), Running(q, [a]), Deleted(q)];
      var v := Run(c, f, Watch(k, map[], map[]), es);
      v.fwd == map[p := [b]] && HasTunnel(c, v.k, a)
  {
    var es := [Running(p, [a]), Running(p, [b]), Running(q, [a])];
    RunSnoc(c, f, Watch(k, map[], map[]), es, Deleted(q));
    assert es + [Deleted(q)] == [Running(p, [a]), Running(p, [b]), Running(q, [a]), Deleted(q)];
    var w := Run(c, f, Watch(k, map[], map[]), es);
    AddressMovesOn(c, u, f, k, p, q, a, b);
    LeftoverKeepsTunnel(c, u, f, w, p, q, a);
    assert w.fwd - {q} == map[p := [b]];
  }

  /** A pod left in an address's entry keeps its tunnel through the deletion of the one pod that lists it. */
  lemma LeftoverKeepsTunnel(c: Config, u: set<Addr>, f: Faults, w: Watch, p: PodKey, q: PodKey, a: Addr)
    requires Universe(c, u) && Quiet(f) && a in u && p != q && q in w.fwd && w.fwd[q] == [a]
    requires In(w.rev, a, p) && In(w.rev, a, q) && HasTunnel(c, w.k, a)
    ensures var v := HandlePodDeletion(c, f, w, q).w; v.fwd == w.fwd - {q} && HasTunnel(c, v.k, a)
  {
    ReleaseIndexes(c, f, w, q, [a]);
    DeletionSucceedsExactly(c, f, w, q);
    ReleaseTunnels(c, u, f, w, q, [a], a);
  }

  /** The three reports before that deletion. */
  lemma AddressMovesOn(c: Config, u: set<Addr>, f: Faults, k: Kernel, p: PodKey, q: PodKey, a: Addr, b: Addr)
    requires Universe(c, u) && Untouched(c, u, k) && Quiet(f)
    requires p != q && a != b && a in u && b in u && Supported(c, a)
    ensures var w := Run(c, f, Watch(k, map[], map[]), [Running(p, [a]), Running(p, [b]), Running(q, [a])]);
      w.fwd == map[p := [b], q := [a]] && In(w.rev, a, p) && In(w.rev, a, q) && HasTunnel(c, w.k, a)
  {
    var w0 := Watch(k, map[], map[]);
    var w1 := HandlePodRunning(c, f, w0, p, [a]).w;
    var w2 := HandlePodRunning(c, f, w1, p, [b]).w;
    Runs3(c, f, w0, Running(p, [a]), Running(p, [b]), Running(q, [a]));
    MovesAway(c, u, f, w0, p, a, b);
    FirstHolder(c, u, f, w2, q, a);
  }

  /** A pod that moves from one address to another keeps standing in the reverse entry of the first. */
  lemma MovesAway(c: Config, u: set<Addr>, f: Faults, w: Watch, p: PodKey, a: Addr, b: Addr)
    requires Universe(c, u) && Tracks(w, u) && KernelInv(c, u, w.k) && FallbacksFree(w.k) && Quiet(f)
    requires a in u && b in u
    ensures var v := HandlePodRunning(c, f, HandlePodRunning(c, f, w, p, [a]).w, p, [b]).w;
      && v.fwd == w.fwd[p := [b]] && In(v.rev, a, p)
      && Tracks(v, u) && KernelInv(c, u, v.k) && FallbacksFree(v.k)
  {
    QuietReport(c, u, f, w, p, [a]);
    assert In(HandlePodRunning(c, f, w, p, [a]).w.rev, a, p);
    QuietReport(c, u, f, HandlePodRunning(c, f, w, p, [a]).w, p, [b]);
  }

  /** A pod that takes an address it did not list before gets its tunnel. */
  lemma FirstHolder(c: Config, u: set<Addr>, f: Faults, w: Watch, q: PodKey, a: Addr)
    requires Universe(c, u) && Tracks(w, u) && KernelInv(c, u, w.k) && FallbacksFree(w.k) && Quiet(f)
    requires a in u && Supported(c, a) && q !in w.fwd
    ensures var v := HandlePodRunning(c, f, w, q, [a]).w;
      && v.fwd == w.fwd[q := [a]] && In(v.rev, a, q) && HasTunnel(c, v.k, a)
      && forall p | In(w.rev, a, p) :: In(v.rev, a, p)
  {
    QuietReport(c, u, f, w, q, [a]);
    RunningTunnels(c, u, f, w, q, [a], a);
  }

  lemma {:induction false} EnlistKeepsKeys(rev: map<Addr, set<PodKey>>, pod: PodKey, ips: seq<Addr>)
    ensures forall a :: a in Enlist(rev, pod, ips) <==> a in rev || a in ips
    decreases |ips|
  {
    if ips != [] {
      EnlistKeepsKeys(AddToSet(rev, ips[0], pod), pod, ips[1..]);
    }
  }

  lemma QuietReport(c: Config, u: set<Addr>, f: Faults, w: Watch, pod: PodKey, ips: seq<Addr>)
    requires Universe(c, u) && Tracks(w, u) && Within(ips, u) && KernelInv(c, u, w.k) && FallbacksFree(w.k) && Quiet(f)
    ensures var s := HandlePodRunning(c, f, w, pod, ips);
      && s.r.Ok? && s.w.fwd == w.fwd[pod := ips] && Tracks(s.w, u) && KernelInv(c, u, s.w.k) && FallbacksFree(s.w.k)
      && (forall a, p :: In(s.w.rev, a, p) <==> In(w.rev, a, p) || (a in ips && p == pod))
  {
    RunningSucceeds(c, u, f, w, pod, ips);
    RunningIndexes(c, f, w, pod, ips);
    TracksExisting(w, u, pod);
    RunningRoutes(c, u, f, w, pod, ips);
    HandlersKeepSetUp(c, u, f, w, Running(pod, ips));
  }

  lemma Runs3(c: Config, f: Faults, w: Watch, e1: Event, e2: Event, e3: Event)
    ensures Run(c, f, w, [e1, e2, e3]) == Do(c, f, Do(c, f, Do(c, f, w, e1).w, e2).w, e3).w
  {
    assert [e1, e2, e3][..2] == [e1, e2] && [e1, e2][..1] == [e1] && [e1][..0] == [];
    assert Run(c, f, w, [e1]) == Do(c, f, w, e1).w;
    assert Run(c, f, w, [e1, e2]) == Do(c, f, Do(c, f, w, e1).w, e2).w;
  }

  // ---- retries ----

  /** `n` reports of the same pod and addresses, one after the other. */
  function Attempts(c: Config, f: Faults, w: Watch, pod: PodKey, ips: seq<Addr>, n: nat): Watch {
    if n == 0 then w else HandlePodRunning(c, f, Attempts(c, f, w, pod, ips, n - 1), pod, ips).w
  }

  ghost predicate AllFail(c: Config, f: Faults, w: Watch, pod: PodKey, ips: seq<Addr>, n: nat) {
    n == 0 ||
    (AllFail(c, f, w, pod, ips, n - 1) && HandlePodRunning(c, f, Attempts(c, f, w, pod, ips, n - 1), pod, ips).r.Err?)
  }

  /** The addresses that a report still has to give a tunnel. */
  ghost function Unserved(c: Config, k: Kernel, existing: seq<Addr>, ips: seq<Addr>): set<Addr> {
    set a | a in ips && Fresh(c, existing, ips, a) && !HasTunnel(c, k, a)
  }

  /** Without refusals a failing addition leaves one more address with its link. */
  lemma {:induction false} FailureAddsLink(
      c: Config, u: set<Addr>, f: Faults, k: Kernel, existing: seq<Addr>, ips: seq<Addr>) returns (a: Addr)
    requires Universe(c, u) && Within(ips, u) && KernelInv(c, u, k) && Quiet(f)
    requires AddNew(c, f, k, existing, ips).r.Err?
    ensures Fresh(c, existing, ips, a) && !HasTunnel(c, k, a) && HasTunnel(c, AddNew(c, f, k, existing, ips).k, a)
    decreases |ips|
  {
    assert ips[0] in ips;
    if ips[0] in existing {
      a := FailureAddsLink(c, u, f, k, existing, ips[1..]);
    } else {
      var link := AddPeer(c, f, k, ips[0]);
      AddPeerEffect(c, f, k, ips[0]);
      AddPeerSucceeds(c, f, k, ips[0]);
      AddOneKeeps(c, u, f, k, ips[0]);
      if link.r == Err(FamilyMismatch) {
        a := FailureAddsLink(c, u, f, link.k, existing, ips[1..]);
      } else if link.r.Ok? {
        AddClientSucceeds(c, u, f, link.k, ips[0], link.r.value);
        AddClientKeepsLinks(c, f, link.k, ips[0], link.r.value);
        a := FailureAddsLink(c, u, f, AddClient(c, f, link.k, ips[0], link.r.value).k, existing, ips[1..]);
        AddPeerTunnels(c, u, f, k, ips[0], a);
      } else {
        a := ips[0];
        SecondAddPeerSucceeds(c, f, k, a);
      }
    }
  }

  lemma FailureServesMore(c: Config, u: set<Addr>, f: Faults, w: Watch, pod: PodKey, ips: seq<Addr>)
    requires Universe(c, u) && Tracks(w, u) && Within(ips, u) && KernelInv(c, u, w.k) && Quiet(f)
    requires HandlePodRunning(c, f, w, pod, ips).r.Err?
    ensures var ex := Existing(w.fwd, pod);
      |Unserved(c, HandlePodRunning(c, f, w, pod, ips).w.k, ex, ips)| < |Unserved(c, w.k, ex, ips)|
  {
    var ex := Existing(w.fwd, pod);
    var added := AddNew(c, f, w.k, ex, ips);
    TracksExisting(w, u, pod);
    DelOldSucceeds(c, f, added.k, ex, ips);
    var a := FailureAddsLink(c, u, f, w.k, ex, ips);
    var before, after := Unserved(c, w.k, ex, ips), Unserved(c, added.k, ex, ips);
    forall b | b in after
      ensures b in before - {a}
    {
      AddNewTunnels(c, u, f, w.k, ex, ips, b);
    }
    SubsetSize(after, before - {a});
  }

  lemma SubsetSize<T>(s: set<T>, t: set<T>)
    requires s <= t
    ensures |s| <= |t|
  {
    assert t == s + (t - s);
  }

  /**
   A device that cannot be renamed only delays a report: without refusals no more attempts in a row
   fail than addresses lack their tunnel.
   */
  lemma {:induction false} QuietFailuresBounded(
      c: Config, u: set<Addr>, f: Faults, w: Watch, pod: PodKey, ips: seq<Addr>, n: nat)
    requires Universe(c, u) && Tracks(w, u) && Within(ips, u) && KernelInv(c, u, w.k) && Quiet(f)
    requires AllFail(c, f, w, pod, ips, n)
    ensures var v := Attempts(c, f, w, pod, ips, n); var ex := Existing(w.fwd, pod);
      && v.fwd == w.fwd && KernelInv(c, u, v.k)
      && |Unserved(c, v.k, ex, ips)| + n <= |Unserved(c, w.k, ex, ips)|
  {
    if n > 0 {
      QuietFailuresBounded(c, u, f, w, pod, ips, n - 1);
      var v := Attempts(c, f, w, pod, ips, n - 1);
      assert Attempts(c, f, w, pod, ips, n) == HandlePodRunning(c, f, v, pod, ips).w;
      RunningIndexes(c, f, v, pod, ips);
      DoKeepsCoupled(c, u, f, v, Running(pod, ips));
      FailureServesMore(c, u, f, v, pod, ips);
    }
  }

  /** It does delay one: with both names taken, a first report of an address fails and the second succeeds. */
  lemma SecondReportSucceeds(c: Config, u: set<Addr>, f: Faults, w: Watch, pod: PodKey, a: Addr)
    requires Universe(c, u) && Tracks(w, u) && KernelInv(c, u, w.k) && Quiet(f)
    requires a in u && Supported(c, a) && a !in Existing(w.fwd, pod) && !Reachable(c, w.k, a)
    ensures var first := HandlePodRunning(c, f, w, pod, [a]);
      first.r.Err? && HandlePodRunning(c, f, first.w, pod, [a]).r.Ok?
  {
    RunningSucceeds(c, u, f, w, pod, [a]);
    assert Fresh(c, Existing(w.fwd, pod), [a], a);
    var first := HandlePodRunning(c, f, w, pod, [a]);
    RunningIndexes(c, f, w, pod, [a]);
    DoKeepsCoupled(c, u, f, w, Running(pod, [a]));
    RunningSucceeds(c, u, f, first.w, pod, [a]);
    TracksExisting(w, u, pod);
    DelOldSucceeds(c, f, AddNew(c, f, w.k, Existing(w.fwd, pod), [a]).k, Existing(w.fwd, pod), [a]);
    var b := FailureAddsLink(c, u, f, w.k, Existing(w.fwd, pod), [a]);
    assert b == a;
  }

  /** `v` lies between `w` and a success from `w`, as far as `b` is concerned. */
  ghost predicate Between(c: Config, w: Watch, v: Watch, pod: PodKey, ips: seq<Addr>, b: Addr) {
    var ex := Existing(w.fwd, pod);
    && (!Dropped(ex, ips, b) ==>
          (HasTunnel(c, w.k, b) ==> HasTunnel(c, v.k, b)) && (HasRoute(w.k, b) ==> HasRoute(v.k, b)))
    && (!Fresh(c, ex, ips, b) ==>
          (HasTunnel(c, v.k, b) ==> HasTunnel(c, w.k, b)) && (HasRoute(v.k, b) ==> HasRoute(w.k, b)))
  }

  lemma ReportStaysBetween(c: Config, u: set<Addr>, f: Faults, w: Watch, pod: PodKey, ips: seq<Addr>, b: Addr)
    requires Universe(c, u) && Tracks(w, u) && Within(ips, u) && KernelInv(c, u, w.k) && b in u
    ensures Between(c, w, HandlePodRunning(c, f, w, pod, ips).w, pod, ips, b)
  {
    TracksExisting(w, u, pod);
    RunningTunnels(c, u, f, w, pod, ips, b);
    RunningRoutes(c, u, f, w, pod, ips);
  }

  lemma FailedAttempt(c: Config, u: set<Addr>, f: Faults, w: Watch, v: Watch, pod: PodKey, ips: seq<Addr>, b: Addr)
    requires Universe(c, u) && Tracks(w, u) && Within(ips, u) && KernelInv(c, u, v.k) && b in u
    requires v.fwd == w.fwd && v.rev == w.rev && Between(c, w, v, pod, ips, b)
    requires HandlePodRunning(c, f, v, pod, ips).r.Err?
    ensures var v' := HandlePodRunning(c, f, v, pod, ips).w;
      v'.fwd == w.fwd && v'.rev == w.rev && KernelInv(c, u, v'.k) && Between(c, w, v', pod, ips, b)
  {
    RunningIndexes(c, f, v, pod, ips);
    DoKeepsCoupled(c, u, f, v, Running(pod, ips));
    ReportStaysBetween(c, u, f, v, pod, ips, b);
  }

  /** Failed attempts leave the maps alone and touch only addresses that a success would touch, in its direction. */
  lemma {:induction false} FailuresStayBetween(
      c: Config, u: set<Addr>, f: Faults, w: Watch, pod: PodKey, ips: seq<Addr>, n: nat, b: Addr)
    requires Universe(c, u) && Tracks(w, u) && Within(ips, u) && KernelInv(c, u, w.k) && b in u
    requires AllFail(c, f, w, pod, ips, n)
    ensures var v := Attempts(c, f, w, pod, ips, n);
      v.fwd == w.fwd && v.rev == w.rev && KernelInv(c, u, v.k) && Between(c, w, v, pod, ips, b)
  {
    if n > 0 {
      FailuresStayBetween(c, u, f, w, pod, ips, n - 1, b);
      var v := Attempts(c, f, w, pod, ips, n - 1);
      FailedAttempt(c, u, f, w, v, pod, ips, b);
      assert Attempts(c, f, w, pod, ips, n) == HandlePodRunning(c, f, v, pod, ips).w;
    }
  }

  /**
   Retry convergence: a success after any number of failed attempts, each cut off anywhere,
   reaches the same maps, tunnels and client routes as a success at the first attempt.
   */
  lemma RetryConverges(
      c: Config, u: set<Addr>, f: Faults, g: Faults, h: Faults, w: Watch, pod: PodKey, ips: seq<Addr>, n: nat)
    requires Universe(c, u) && Tracks(w, u) && Within(ips, u) && KernelInv(c, u, w.k)
    requires AllFail(c, f, w, pod, ips, n)
    requires HandlePodRunning(c, g, Attempts(c, f, w, pod, ips, n), pod, ips).r.Ok?
    requires HandlePodRunning(c, h, w, pod, ips).r.Ok?
    ensures var late := HandlePodRunning(c, g, Attempts(c, f, w, pod, ips, n), pod, ips).w;
      var once := HandlePodRunning(c, h, w, pod, ips).w;
      && late.fwd == once.fwd && late.rev == once.rev
      && (forall b | b in u ::
            && (HasTunnel(c, late.k, b) <==> HasTunnel(c, once.k, b))
            && (HasRoute(late.k, b) <==> HasRoute(once.k, b)))
  {
    var v := Attempts(c, f, w, pod, ips, n);
    AttemptsKeepMaps(c, f, w, pod, ips, n);
    forall b | b in u
      ensures HasTunnel(c, HandlePodRunning(c, g, v, pod, ips).w.k, b) <==>
              HasTunnel(c, HandlePodRunning(c, h, w, pod, ips).w.k, b)
      ensures HasRoute(HandlePodRunning(c, g, v, pod, ips).w.k, b) <==>
              HasRoute(HandlePodRunning(c, h, w, pod, ips).w.k, b)
    {
      FailuresStayBetween(c, u, f, w, pod, ips, n, b);
      TracksExisting(w, u, pod);
      RunningTunnels(c, u, g, v, pod, ips, b);
      RunningTunnels(c, u, h, w, pod, ips, b);
      RunningRoutes(c, u, g, v, pod, ips);
      RunningRoutes(c, u, h, w, pod, ips);
    }
  }

  lemma {:induction false} AttemptsKeepMaps(c: Config, f: Faults, w: Watch, pod: PodKey, ips: seq<Addr>, n: nat)
    requires AllFail(c, f, w, pod, ips, n)
    ensures Attempts(c, f, w, pod, ips, n).fwd == w.fwd && Attempts(c, f, w, pod, ips, n).rev == w.rev
  {
    if n > 0 {
      AttemptsKeepMaps(c, f, w, pod, ips, n - 1);
      var v := Attempts(c, f, w, pod, ips, n - 1);
      RunningIndexes(c, f, v, pod, ips);
      assert Attempts(c, f, w, pod, ips, n) == HandlePodRunning(c, f, v, pod, ips).w;
    }
  }

  /**
   Why availability needs distinct reports: a pod that lists one address twice and holds it alone
   loses the tunnel to its own failed deletion and stays tracked.
   */
  lemma RepeatedAddressLosesTunnel(c: Config, f: Faults, w: Watch, pod: PodKey, a: Addr)
    requires pod in w.fwd && w.fwd[pod] == [a, a] && a in w.rev && w.rev[a] == {pod}
    requires a != NoAddr && DelPeer(c, f, w.k, a).r.Ok?
    ensures var s := HandlePodDeletion(c, f, w, pod);
      s.r == Err(AddrNotInReverse) && s.w.fwd == w.fwd && !HasTunnel(c, s.w.k, a)
  {
    DelPeerEffect(c, f, w.k, a);
    var w1 := Watch(DelPeer(c, f, w.k, a).k, w.fwd, RemoveFromSet(w.rev, a, pod));
    assert [a, a][1..] == [a];
    assert Release(c, f, w1, pod, [a]) == Step(w1, Err(AddrNotInReverse));
  }

  // ---- the set-up sentinels over whole runs ----

  /** Same settings and rules, dummy links neither added nor deleted, fallback devices as renamable as before. */
  ghost predicate SameSetUp(k: Kernel, k': Kernel) {
    && k'.settings == k.settings && k'.rules == k.rules
    && (FOU_DUMMY in k'.links <==> FOU_DUMMY in k.links)
    && (EGRESS_DUMMY in k'.links <==> EGRESS_DUMMY in k.links)
    && (FallbacksFree(k) ==> FallbacksFree(k'))
  }

  lemma PeerKeepsSetUp(c: Config, f: Faults, k: Kernel, a: Addr)
    requires a != NoAddr
    ensures SameSetUp(k, AddPeer(c, f, k, a).k) && SameSetUp(k, DelPeer(c, f, k, a).k)
  {
    AddPeerEffect(c, f, k, a);
    GrownSetUp(c, k, AddPeer(c, f, k, a).k, a);
    DelPeerEffect(c, f, k, a);
    TunnelNamesApart(c, a, a);
  }

  lemma GrownSetUp(c: Config, k: Kernel, k': Kernel, a: Addr)
    requires a != NoAddr && Grows(k, k', PeerLinks(c, a)) && (FallbacksFree(k) ==> FallbacksFree(k'))
    ensures SameSetUp(k, k')
  {
    TunnelNamesApart(c, a, a);
    assert FlowDevice(a)[0] == 'p' && Renamed(a)[0] == 'p' && FOU_DUMMY[0] == 'f' && EGRESS_DUMMY[0] == 'n';
    assert !IsFallback(FOU_DUMMY) && !IsFallback(EGRESS_DUMMY);
  }

  lemma ClientKeepsSetUp(c: Config, f: Faults, k: Kernel, a: Addr, l: LinkRef)
    ensures SameSetUp(k, AddClient(c, f, k, a, l).k)
  {
    AddClientKeepsLinks(c, f, k, a, l);
  }

  lemma {:induction false} AddNewKeepsSetUp(c: Config, f: Faults, k: Kernel, existing: seq<Addr>, ips: seq<Addr>)
    requires NoAddr !in ips
    ensures SameSetUp(k, AddNew(c, f, k, existing, ips).k)
    decreases |ips|
  {
    if ips != [] {
      if ips[0] in existing {
        AddNewKeepsSetUp(c, f, k, existing, ips[1..]);
      } else {
        var link := AddPeer(c, f, k, ips[0]);
        PeerKeepsSetUp(c, f, k, ips[0]);
        if link.r == Err(FamilyMismatch) {
          AddNewKeepsSetUp(c, f, link.k, existing, ips[1..]);
        } else if link.r.Ok? {
          var client := AddClient(c, f, link.k, ips[0], link.r.value);
          ClientKeepsSetUp(c, f, link.k, ips[0], link.r.value);
          if client.r.Ok? { AddNewKeepsSetUp(c, f, client.k, existing, ips[1..]); }
        }
      }
    }
  }

  lemma {:induction false} DelOldKeepsSetUp(c: Config, f: Faults, k: Kernel, existing: seq<Addr>, ips: seq<Addr>)
    requires NoAddr !in existing
    ensures SameSetUp(k, DelOld(c, f, k, existing, ips).k)
    decreases |existing|
  {
    if existing != [] {
      PeerKeepsSetUp(c, f, k, existing[0]);
      DelOldKeepsSetUp(c, f, if existing[0] in ips then k else DelPeer(c, f, k, existing[0]).k, existing[1..], ips);
    }
  }

  lemma {:induction false} ReleaseKeepsSetUp(c: Config, f: Faults, w: Watch, pod: PodKey, ips: seq<Addr>)
    requires NoAddr !in ips
    ensures SameSetUp(w.k, Release(c, f, w, pod, ips).w.k)
    decreases |ips|
  {
    if ips != [] {
      var shared := ExistsOtherLiveTunnels(w.rev, pod, ips[0]);
      PeerKeepsSetUp(c, f, w.k, ips[0]);
      if shared.Ok? {
        var gone := if shared.value then Out(w.k, Ok(())) else DelPeer(c, f, w.k, ips[0]);
        ReleaseKeepsSetUp(c, f, Watch(gone.k, w.fwd, RemoveFromSet(w.rev, ips[0], pod)), pod, ips[1..]);
      }
    }
  }

  lemma HandlersKeepSetUp(c: Config, u: set<Addr>, f: Faults, w: Watch, e: Event)
    requires Universe(c, u) && Tracks(w, u) && !e.Restart? && (e.Running? ==> Within(e.ips, u))
    ensures SameSetUp(w.k, Do(c, f, w, e).w.k)
  {
    TracksExisting(w, u, e.pod);
    var ex := Existing(w.fwd, e.pod);
    match e
    case Running(pod, ips) =>
      AddNewKeepsSetUp(c, f, w.k, ex, ips);
      DelOldKeepsSetUp(c, f, AddNew(c, f, w.k, ex, ips).k, ex, ips);
    case Deleted(pod) => ReleaseKeepsSetUp(c, f, w, pod, ex);
  }

  ghost predicate SetUpVouched(c: Config, k: Kernel) {
    S.SentinelHolds(k, FOU_DUMMY, InitSteps(c)) && S.SentinelHolds(k, EGRESS_DUMMY, GatewaySteps(c))
  }

  lemma RestartVouches(c: Config, f: Faults, k: Kernel)
    requires SetUpVouched(c, k)
    ensures SetUpVouched(c, Restarted(c, f, k).w.k)
    ensures Restarted(c, f, k).r.Ok? ==>
      var k' := Restarted(c, f, k).w.k; S.AllDone(k', InitSteps(c)) && S.AllDone(k', GatewaySteps(c))
  {
    S.GuardedInitEffect(f, k, FOU_DUMMY, InitSteps(c));
    S.GuardedInitEffect(f, Init(c, f, k).k, EGRESS_DUMMY, GatewaySteps(c));
  }

  /** Over whole gateway runs, restarts cut off anywhere included, a dummy link vouches for its set-up. */
  lemma {:induction false} SentinelsHoldOverRuns(c: Config, u: set<Addr>, f: Faults, w: Watch, es: seq<Event>)
    requires Universe(c, u) && Tracks(w, u) && SetUpVouched(c, w.k)
    requires RunMeets(ANY_TERMS, c, u, f, w, es)
    ensures SetUpVouched(c, Run(c, f, w, es).k) && Tracks(Run(c, f, w, es), u)
    decreases |es|
  {
    if es != [] {
      var front, e := es[..|es| - 1], es[|es| - 1];
      SentinelsHoldOverRuns(c, u, f, w, front);
      var v := Run(c, f, w, front);
      DoTracks(c, u, f, v, e);
      if e.Restart? {
        RestartVouches(c, f, v.k);
      } else {
        HandlersKeepSetUp(c, u, f, v, e);
      }
    }
  }
}
