/** Runs of a gateway: every sequence of pod events and restarts, with any call refused. */
module GatewayRuns {
  import opened Sequences
  import opened Addresses
  import opened KernelModel
  import Sentinel
  import opened Fou
  import opened NatGateway
  import opened Annotations
  import opened PodWatching
  import opened WatchLemmas

  datatype Event =
    | Running(pod: PodKey, ips: seq<Addr>)
    | Deleted(pod: PodKey)
    | Restart

  /** A restarted process has empty indexes and sets the host up again. */
  function Restarted(c: Config, f: Faults, k: Kernel): Step {
    var tun := Init(c, f, k);
    if tun.r.Err? then Step(Watch(tun.k, map[], map[]), tun.r)
    else
      var gw := InitGateway(c, f, tun.k);
      Step(Watch(gw.k, map[], map[]), gw.r)
  }

  function Do(c: Config, f: Faults, w: Watch, e: Event): Step {
    match e
    case Running(pod, ips) => HandlePodRunning(c, f, w, pod, ips)
    case Deleted(pod) => HandlePodDeletion(c, f, w, pod)
    case Restart => Restarted(c, f, w.k)
  }

  function Run(c: Config, f: Faults, w: Watch, es: seq<Event>): Watch
    decreases |es|
  {
    if es == [] then w else Do(c, f, Run(c, f, w, es[..|es| - 1]), es[|es| - 1]).w
  }

  lemma RunSnoc(c: Config, f: Faults, w: Watch, es: seq<Event>, e: Event)
    ensures Run(c, f, w, es + [e]) == Do(c, f, Run(c, f, w, es), e).w
  {
    assert (es + [e])[..|es|] == es;
  }

  /** What a theorem asks of the events; every field is one assumption it may need. */
  datatype Terms = Terms(
    distinct: bool,     // a report lists no address twice
    noDrops: bool,      // a report keeps every address of the one before
    soleDrops: bool,    // no other tracked pod lists an address that a report drops
    cleanDrops: bool,   // a report that fails while it drops has deleted nothing
    cleanDeletes: bool, // a pod's deletion that fails has released nothing
    noRestart: bool)

  const ANY_TERMS := Terms(false, false, false, false, false, false)

  const SAFE_TERMS := ANY_TERMS.(distinct := true, cleanDeletes := true)

  const INVERSE_TERMS := SAFE_TERMS.(noDrops := true)

  const AVAILABLE_TERMS := SAFE_TERMS.(soleDrops := true, cleanDrops := true)

  ghost predicate ListedByOther(fwd: map<PodKey, seq<Addr>>, pod: PodKey, a: Addr) {
    exists q :: q != pod && q in fwd && a in fwd[q]
  }

  /** Dropping succeeds, or fails before it has deleted anything. */
  ghost predicate DropsCleanly(c: Config, f: Faults, w: Watch, pod: PodKey, ips: seq<Addr>) {
    var ex := Existing(w.fwd, pod);
    var added := AddNew(c, f, w.k, ex, ips);
    added.r.Ok? ==>
      var gone := DelOld(c, f, added.k, ex, ips);
      gone.r.Ok? || (gone.k.links == added.k.links && gone.k.routes == added.k.routes)
  }

  /** A deletion is not refused, or is refused before anything was released. */
  ghost predicate DeletesCleanly(c: Config, f: Faults, w: Watch, pod: PodKey) {
    var s := HandlePodDeletion(c, f, w, pod);
    s.r == Err(Refused) ==> s.w.rev == w.rev
  }

  ghost predicate Meets(t: Terms, c: Config, u: set<Addr>, f: Faults, w: Watch, e: Event) {
    match e
    case Running(pod, ips) =>
      && Within(ips, u)
      && (t.distinct ==> NoRepeats(ips))
      && (t.noDrops ==> forall a | a in Existing(w.fwd, pod) :: a in ips)
      && (t.soleDrops ==> forall a | Dropped(Existing(w.fwd, pod), ips, a) :: !ListedByOther(w.fwd, pod, a))
      && (t.cleanDrops ==> DropsCleanly(c, f, w, pod, ips))
    case Deleted(pod) => t.cleanDeletes ==> DeletesCleanly(c, f, w, pod)
    case Restart => !t.noRestart
  }

  ghost predicate RunMeets(t: Terms, c: Config, u: set<Addr>, f: Faults, w: Watch, es: seq<Event>)
    decreases |es|
  {
    es == [] ||
    (var front := es[..|es| - 1];
     RunMeets(t, c, u, f, w, front) && Meets(t, c, u, f, Run(c, f, w, front), es[|es| - 1]))
  }

  ghost predicate Tracks(w: Watch, u: set<Addr>) {
    forall p | p in w.fwd :: Within(w.fwd[p], u)
  }

  lemma TracksExisting(w: Watch, u: set<Addr>, pod: PodKey)
    requires Tracks(w, u)
    ensures Within(Existing(w.fwd, pod), u)
  {}

  lemma DoTracks(c: Config, u: set<Addr>, f: Faults, w: Watch, e: Event)
    requires Tracks(w, u) && (e.Running? ==> Within(e.ips, u))
    ensures Tracks(Do(c, f, w, e).w, u)
  {
    if e.Deleted? {
      ReleaseIndexes(c, f, w, e.pod, Existing(w.fwd, e.pod));
    }
  }

  // ---- route and link coupling ----

  lemma RestartEffect(c: Config, f: Faults, k: Kernel)
    ensures var s := Restarted(c, f, k);
      && s.w.k.routes == k.routes && Extends(k, s.w.k)
      && (forall n | n in s.w.k.links && n !in k.links :: n in {FOU_DUMMY, EGRESS_DUMMY})
      && (LinksWf(k.links, k.next) ==> LinksWf(s.w.k.links, s.w.k.next))
  {
    Sentinel.GuardedInitEffect(f, k, FOU_DUMMY, InitSteps(c));
    var tun := Init(c, f, k);
    Sentinel.GuardedInitEffect(f, tun.k, EGRESS_DUMMY, GatewaySteps(c));
  }

  /** Without refusals a restart succeeds exactly if neither `Init` was cut off after an exclusive step. */
  lemma RestartSucceedsExactly(c: Config, f: Faults, k: Kernel)
    requires Quiet(f)
    ensures Restarted(c, f, k).r.Ok? <==> InitOpen(c, k) && GatewayInitOpen(c, k)
  {
    InitStepsOnce(c);
    GatewayStepsOnce(c);
    Sentinel.InitSucceedsExactly(f, k, FOU_DUMMY, InitSteps(c));
    var tun := Init(c, f, k).k;
    Sentinel.InitSucceedsExactly(f, tun, EGRESS_DUMMY, GatewaySteps(c));
    InitKeepsRules(c, f, k);
    Sentinel.GuardedInitEffect(f, k, FOU_DUMMY, InitSteps(c));
    OpenByRules(c, k, tun);
  }

  /** Whether the gateway's `Init` can get through depends on its dummy link and on rules. */
  lemma OpenByRules(c: Config, k: Kernel, k': Kernel)
    requires k'.rules == k.rules && (EGRESS_DUMMY in k'.links <==> EGRESS_DUMMY in k.links)
    ensures GatewayInitOpen(c, k') <==> GatewayInitOpen(c, k)
  {
    forall s | s in GatewaySteps(c) && Sentinel.IsExclusive(s)
      ensures Sentinel.Done(k', s) <==> Sentinel.Done(k, s)
    {
      assert s.AddRule?;
    }
  }

  lemma RestartKeepsCoupled(c: Config, u: set<Addr>, f: Faults, k: Kernel)
    requires KernelInv(c, u, k)
    ensures KernelInv(c, u, Restarted(c, f, k).w.k)
  {
    RestartEffect(c, f, k);
    var k' := Restarted(c, f, k).w.k;
    forall r | r in k'.routes && r.table == EGRESS_TABLE
      ensures CoupledRoute(c, u, k', r)
    {
      assert CoupledRoute(c, u, k, r);
    }
  }

  lemma DoKeepsCoupled(c: Config, u: set<Addr>, f: Faults, w: Watch, e: Event)
    requires Universe(c, u) && Tracks(w, u) && (e.Running? ==> Within(e.ips, u))
    requires KernelInv(c, u, w.k)
    ensures KernelInv(c, u, Do(c, f, w, e).w.k)
  {
    match e
    case Running(pod, ips) =>
      TracksExisting(w, u, pod);
      RunningRoutes(c, u, f, w, pod, ips);
    case Deleted(pod) =>
      TracksExisting(w, u, pod);
      ReleaseRoutes(c, u, f, w, pod, Existing(w.fwd, pod));
    case Restart =>
      RestartKeepsCoupled(c, u, f, w.k);
  }

  /**
   In every reachable state each route of table 118 is the route of one client through that
   client's live link, whatever fails and whatever pods do.
   */
  lemma {:induction false} RoutesStayCoupled(c: Config, u: set<Addr>, f: Faults, w: Watch, es: seq<Event>)
    requires Universe(c, u) && Tracks(w, u) && KernelInv(c, u, w.k)
    requires RunMeets(ANY_TERMS, c, u, f, w, es)
    ensures KernelInv(c, u, Run(c, f, w, es).k) && Tracks(Run(c, f, w, es), u)
    decreases |es|
  {
    if es != [] {
      var front, e := es[..|es| - 1], es[|es| - 1];
      RoutesStayCoupled(c, u, f, w, front);
      DoKeepsCoupled(c, u, f, Run(c, f, w, front), e);
      DoTracks(c, u, f, Run(c, f, w, front), e);
    }
  }

  // ---- the two indexes ----

  /** The reverse index knows every tracked address; it may know more. */
  ghost predicate Covers(w: Watch) {
    && (forall p, a | p in w.fwd && a in w.fwd[p] :: In(w.rev, a, p))
    && (forall p | p in w.fwd :: NoRepeats(w.fwd[p]))
    && NoEmpty(w.rev)
  }

  /** The reverse index is the forward index turned round, and holds no empty set. */
  ghost predicate Inverse(w: Watch) {
    && (forall a, p :: In(w.rev, a, p) <==> p in w.fwd && a in w.fwd[p])
    && NoEmpty(w.rev)
  }

  /** The maps after a report, failed or not. */
  lemma RunningIndexes(c: Config, f: Faults, w: Watch, pod: PodKey, ips: seq<Addr>)
    ensures var s := HandlePodRunning(c, f, w, pod, ips);
      if s.r.Ok? then
        && s.w.fwd == w.fwd[pod := ips]
        && (forall a, p :: In(s.w.rev, a, p) <==> In(w.rev, a, p) || (a in ips && p == pod))
        && (NoEmpty(w.rev) ==> NoEmpty(s.w.rev))
      else s.w.fwd == w.fwd && s.w.rev == w.rev
  {
    EnlistEffect(w.rev, pod, ips);
  }

  /** A successful report keeps the inverse exactly when it drops no address. */
  lemma RunningKeepsInverse(c: Config, f: Faults, w: Watch, pod: PodKey, ips: seq<Addr>)
    requires Inverse(w) && HandlePodRunning(c, f, w, pod, ips).r.Ok?
    ensures Inverse(HandlePodRunning(c, f, w, pod, ips).w) <==> forall a | a in Existing(w.fwd, pod) :: a in ips
  {
    RunningIndexes(c, f, w, pod, ips);
    var w' := HandlePodRunning(c, f, w, pod, ips).w;
    if a :| a in Existing(w.fwd, pod) && a !in ips {
      assert In(w.rev, a, pod);
      assert In(w'.rev, a, pod);
    } else {
      forall a, p
        ensures In(w'.rev, a, p) <==> p in w'.fwd && a in w'.fwd[p]
      {
        assert In(w.rev, a, p) <==> p in w.fwd && a in w.fwd[p];
      }
    }
  }

  /** A deletion that succeeds forgets the pod and nothing else; one that releases nothing changes no map. */
  lemma DeletionIndexes(c: Config, u: set<Addr>, f: Faults, w: Watch, pod: PodKey)
    requires Universe(c, u) && Tracks(w, u) && Covers(w)
    ensures var s := HandlePodDeletion(c, f, w, pod);
      && (s.r.Err? ==> s.r.error == Refused)
      && (Quiet(f) ==> s.r.Ok?)
      && (s.r.Ok? ==> s.w.fwd == w.fwd - {pod})
      && (s.r.Ok? || s.w.rev == w.rev ==> Covers(s.w) && (Inverse(w) ==> Inverse(s.w)))
  {
    var ips := Existing(w.fwd, pod);
    TracksExisting(w, u, pod);
    assert forall a | a in ips :: a in u && In(w.rev, a, pod);
    ReleaseErrors(c, f, w, pod, ips);
    ReleaseIndexes(c, f, w, pod, ips);
    var s := HandlePodDeletion(c, f, w, pod);
    if s.r.Ok? && Inverse(w) {
      forall a, p
        ensures In(s.w.rev, a, p) <==> p in s.w.fwd && a in s.w.fwd[p]
      {
        assert In(w.rev, a, p) <==> p in w.fwd && a in w.fwd[p];
      }
    }
  }

  lemma DoKeepsCovers(c: Config, u: set<Addr>, f: Faults, w: Watch, e: Event)
    requires Universe(c, u) && Tracks(w, u) && Covers(w)
    requires Meets(SAFE_TERMS, c, u, f, w, e)
    ensures Covers(Do(c, f, w, e).w)
  {
    match e
    case Running(pod, ips) => RunningIndexes(c, f, w, pod, ips);
    case Deleted(pod) => DeletionIndexes(c, u, f, w, pod);
    case Restart =>
  }

  /** Every later deletion still finds what it looks for, address drops included. */
  lemma {:induction false} ReverseIndexCovers(c: Config, u: set<Addr>, f: Faults, w: Watch, es: seq<Event>)
    requires Universe(c, u) && Tracks(w, u) && Covers(w)
    requires RunMeets(SAFE_TERMS, c, u, f, w, es)
    ensures Covers(Run(c, f, w, es)) && Tracks(Run(c, f, w, es), u)
    decreases |es|
  {
    if es != [] {
      var front, e := es[..|es| - 1], es[|es| - 1];
      ReverseIndexCovers(c, u, f, w, front);
      DoKeepsCovers(c, u, f, Run(c, f, w, front), e);
      DoTracks(c, u, f, Run(c, f, w, front), e);
    }
  }

  /**
   Deletion safety. After any run with distinct reports and no deletion failing part way, deleting a pod
   never trips over the indexes and never takes away the tunnel of an address that another
   tracked pod lists, even if the deletion itself fails part way.
   */
  lemma DeletionIsSafe(c: Config, u: set<Addr>, f: Faults, w: Watch, es: seq<Event>, pod: PodKey)
    requires Universe(c, u) && Tracks(w, u) && Covers(w)
    requires RunMeets(SAFE_TERMS, c, u, f, w, es)
    ensures var v := Run(c, f, w, es); var s := HandlePodDeletion(c, f, v, pod);
      && (s.r.Err? ==> s.r.error == Refused)
      && (forall a | a in u && ListedByOther(v.fwd, pod, a) && HasTunnel(c, v.k, a) :: HasTunnel(c, s.w.k, a))
  {
    ReverseIndexCovers(c, u, f, w, es);
    var v := Run(c, f, w, es);
    DeletionIndexes(c, u, f, v, pod);
    var s := HandlePodDeletion(c, f, v, pod);
    TracksExisting(v, u, pod);
    forall a | a in u && ListedByOther(v.fwd, pod, a) && HasTunnel(c, v.k, a)
      ensures HasTunnel(c, s.w.k, a)
    {
      var q :| q != pod && q in v.fwd && a in v.fwd[q];
      assert In(v.rev, a, q);
      ReleaseTunnels(c, u, f, v, pod, Existing(v.fwd, pod), a);
    }
  }

  /** Over every run without drops the reverse index is exactly the inverse, whichever additions fail. */
  lemma {:induction false} IndexesStayInverse(c: Config, u: set<Addr>, f: Faults, w: Watch, es: seq<Event>)
    requires Universe(c, u) && Tracks(w, u) && Covers(w) && Inverse(w)
    requires RunMeets(INVERSE_TERMS, c, u, f, w, es)
    ensures var v := Run(c, f, w, es); Inverse(v) && Covers(v) && Tracks(v, u)
    decreases |es|
  {
    if es != [] {
      var front, e := es[..|es| - 1], es[|es| - 1];
      IndexesStayInverse(c, u, f, w, front);
      var v := Run(c, f, w, front);
      DoKeepsCovers(c, u, f, v, e);
      DoTracks(c, u, f, v, e);
      match e
      case Running(pod, ips) =>
        RunningIndexes(c, f, v, pod, ips);
        if HandlePodRunning(c, f, v, pod, ips).r.Ok? { RunningKeepsInverse(c, f, v, pod, ips); }
      case Deleted(pod) => DeletionIndexes(c, u, f, v, pod);
      case Restart =>
    }
  }

  /** The pod's first address is out of step: the pod no longer stands in its reverse entry. */
  ghost predicate Stuck(w: Watch, pod: PodKey) {
    pod in w.fwd && w.fwd[pod] != [] && !In(w.rev, w.fwd[pod][0], pod)
  }

  lemma DeletionStuck(c: Config, f: Faults, w: Watch, pod: PodKey)
    requires Stuck(w, pod)
    ensures HandlePodDeletion(c, f, w, pod).w == w
    ensures HandlePodDeletion(c, f, w, pod).r.Err?
    ensures HandlePodDeletion(c, f, w, pod).r.error in {KeyNotInReverse, AddrNotInReverse}
  {}

  /** A deletion that fails leaves the maps as they were or, if it has released an address, the pod stuck. */
  lemma FailedDeletionSticks(c: Config, f: Faults, w: Watch, pod: PodKey)
    requires HandlePodDeletion(c, f, w, pod).r.Err?
    ensures var v := HandlePodDeletion(c, f, w, pod).w;
      v.fwd == w.fwd && (v.rev == w.rev || Stuck(v, pod))
  {
    var ips := Existing(w.fwd, pod);
    ReleaseIndexes(c, f, w, pod, ips);
    if HandlePodDeletion(c, f, w, pod).w.rev != w.rev {
      var gone := if |w.rev[ips[0]]| > 1 then Out(w.k, Ok(())) else DelPeer(c, f, w.k, ips[0]);
      RemoveFromSetEffect(w.rev, ips[0], pod);
      ReleaseIndexes(c, f, Watch(gone.k, w.fwd, RemoveFromSet(w.rev, ips[0], pod)), pod, ips[1..]);
    }
  }

  /** An event ends it exactly if it is a restart or a successful report of the pod itself. */
  lemma StuckStep(c: Config, f: Faults, w: Watch, e: Event, pod: PodKey)
    requires Stuck(w, pod)
    ensures Stuck(Do(c, f, w, e).w, pod) <==> !e.Restart? && !(e.Running? && e.pod == pod && Do(c, f, w, e).r.Ok?)
  {
    match e
    case Running(q, ips) =>
      RunningIndexes(c, f, w, q, ips);
    case Deleted(q) =>
      if q == pod { DeletionStuck(c, f, w, q); } else { ReleaseIndexes(c, f, w, q, Existing(w.fwd, q)); }
    case Restart =>
  }

  /** No restart in the run, and no report of the pod succeeds. */
  ghost predicate Unreported(c: Config, f: Faults, w: Watch, es: seq<Event>, pod: PodKey)
    decreases |es|
  {
    es == [] ||
    (var front, e := es[..|es| - 1], es[|es| - 1];
     && Unreported(c, f, w, front, pod)
     && !e.Restart?
     && !(e.Running? && e.pod == pod && Do(c, f, Run(c, f, w, front), e).r.Ok?))
  }

  /**
   Over every run without these, whatever happens to other pods, the pod's deletion fails at every attempt,
   under any refusals, and changes nothing.
   */
  lemma {:induction false} StuckOverRuns(c: Config, f: Faults, g: Faults, w: Watch, es: seq<Event>, pod: PodKey)
    requires Stuck(w, pod) && Unreported(c, f, w, es, pod)
    ensures var v := Run(c, f, w, es);
      Stuck(v, pod) && HandlePodDeletion(c, g, v, pod).r.Err? && HandlePodDeletion(c, g, v, pod).w == v
    decreases |es|
  {
    if es != [] {
      var front, e := es[..|es| - 1], es[|es| - 1];
      StuckOverRuns(c, f, g, w, front, pod);
      StuckStep(c, f, Run(c, f, w, front), e, pod);
    }
    DeletionStuck(c, g, Run(c, f, w, es), pod);
  }

  /**
   Without refusals a deletion succeeds exactly if the pod lists no address twice and stands in the reverse
   entry of each: from any state, before anything is called.
   */
  lemma DeletionSucceedsExactly(c: Config, f: Faults, w: Watch, pod: PodKey)
    requires Quiet(f) && NoAddr !in Existing(w.fwd, pod)
    ensures var ips := Existing(w.fwd, pod);
      HandlePodDeletion(c, f, w, pod).r.Ok? <==> NoRepeats(ips) && forall a | a in ips :: In(w.rev, a, pod)
  {
    var ips := Existing(w.fwd, pod);
    if NoRepeats(ips) && forall a | a in ips :: In(w.rev, a, pod) {
      ReleaseErrors(c, f, w, pod, ips);
    } else {
      RepeatedAddressStops(c, f, w, pod, ips);
    }
  }

  /** A report puts the indexes right, from any state: the next deletion succeeds exactly if it repeated nothing. */
  lemma ReportRepairsIndexes(c: Config, f: Faults, g: Faults, w: Watch, pod: PodKey, ips: seq<Addr>)
    requires HandlePodRunning(c, f, w, pod, ips).r.Ok? && NoAddr !in ips && Quiet(g)
    ensures HandlePodDeletion(c, g, HandlePodRunning(c, f, w, pod, ips).w, pod).r.Ok? <==> NoRepeats(ips)
  {
    RunningIndexes(c, f, w, pod, ips);
    DeletionSucceedsExactly(c, g, HandlePodRunning(c, f, w, pod, ips).w, pod);
  }

  /**
   But it does not put the tunnels right: an address that the pod listed before and lists again is taken as
   set up, so after a successful report its addresses have their tunnels exactly if those had them before.
   */
  lemma ReportRestoresNoTunnel(c: Config, u: set<Addr>, f: Faults, w: Watch, pod: PodKey, ips: seq<Addr>)
    requires Universe(c, u) && Tracks(w, u) && Within(ips, u)
    ensures var s := HandlePodRunning(c, f, w, pod, ips); var ex := Existing(w.fwd, pod);
      && (forall a | a in ips && a in ex && !HasTunnel(c, w.k, a) :: !HasTunnel(c, s.w.k, a))
      && (s.r.Ok? ==>
            ((forall a | a in ips && Supported(c, a) :: HasTunnel(c, s.w.k, a)) <==>
             (forall a | a in ips && a in ex && Supported(c, a) :: HasTunnel(c, w.k, a))))
  {
    TracksExisting(w, u, pod);
    forall a | a in ips { RunningTunnels(c, u, f, w, pod, ips, a); }
  }

  /** A pod that lists an address twice cannot be deleted until it reports another list. */
  lemma RepeatedAddressNotDeleted(c: Config, f: Faults, w: Watch, pod: PodKey)
    requires pod in w.fwd && !NoRepeats(w.fwd[pod])
    ensures HandlePodDeletion(c, f, w, pod).r.Err?
  {
    RepeatedAddressStops(c, f, w, pod, w.fwd[pod]);
  }

  lemma {:induction false} RepeatedAddressStops(c: Config, f: Faults, w: Watch, pod: PodKey, ips: seq<Addr>)
    requires !NoRepeats(ips) || exists a :: a in ips && !In(w.rev, a, pod)
    ensures Release(c, f, w, pod, ips).r.Err?
    decreases |ips|
  {
    var shared := ExistsOtherLiveTunnels(w.rev, pod, ips[0]);
    if shared.Ok? {
      var gone := if shared.value then Out(w.k, Ok(())) else DelPeer(c, f, w.k, ips[0]);
      if gone.r.Ok? {
        var w1 := Watch(gone.k, w.fwd, RemoveFromSet(w.rev, ips[0], pod));
        RemoveFromSetEffect(w.rev, ips[0], pod);
        assert In(w.rev, ips[0], pod) && !In(w1.rev, ips[0], pod);
        if NoRepeats(ips[1..]) {
          if !NoRepeats(ips) {
            var i, j :| 0 <= i < j < |ips| && ips[i] == ips[j];
            assert ips[j] == ips[1..][j - 1];
            assert i == 0;
          } else {
            var a :| a in ips && !In(w.rev, a, pod);
            assert a in ips[1..] && !In(w1.rev, a, pod);
          }
        }
        RepeatedAddressStops(c, f, w1, pod, ips[1..]);
      }
    }
  }

  // ---- reconciles are events ----

  function EventOf(key: PodKey, v: Verdict): seq<Event> {
    match v
    case Forget => [Deleted(key)]
    case Report(ips) => [Running(key, ips)]
    case _ => []
  }

  /** The events that a sequence of reconciles amounts to. */
  function EventsOf(self: EgressKey, os: seq<(PodKey, Fetched)>): seq<Event> {
    if os == [] then []
    else
      var o := os[|os| - 1];
      EventsOf(self, os[..|os| - 1]) + EventOf(o.0, Judge(self, o.1))
  }

  function Reconciles(c: Config, f: Faults, w: Watch, self: EgressKey, os: seq<(PodKey, Fetched)>): Watch {
    if os == [] then w
    else
      var o := os[|os| - 1];
      Obey(c, f, Reconciles(c, f, w, self, os[..|os| - 1]), o.0, Judge(self, o.1)).w
  }

  /** A sequence of reconciles, of any pods and with any answers of the API server, is a run. */
  lemma {:induction false} ReconcilesAreRuns(
      c: Config, f: Faults, w: Watch, self: EgressKey, os: seq<(PodKey, Fetched)>)
    ensures Reconciles(c, f, w, self, os) == Run(c, f, w, EventsOf(self, os))
  {
    if os != [] {
      var front, o := os[..|os| - 1], os[|os| - 1];
      ReconcilesAreRuns(c, f, w, self, front);
      var es := EventsOf(self, front);
      match Judge(self, o.1)
      case Forget => RunSnoc(c, f, w, es, Deleted(o.0));
      case Report(ips) => RunSnoc(c, f, w, es, Running(o.0, ips));
      case Ignore => assert es + [] == es;
      case Reject(_) => assert es + [] == es;
    }
  }

  /**
   A tracked pod that loses its annotation is not forgotten, not even when it terminates: whatever else is reconciled,
   its entry stays as it was until the API server no longer finds the pod or it is selected again.
   */
  lemma {:induction false} UnselectedPodStaysTracked(
      c: Config, f: Faults, w: Watch, self: EgressKey, os: seq<(PodKey, Fetched)>, p: PodKey)
    requires forall o | o in os && o.0 == p ::
      o.1.Found? && !Selected(self, o.1.pod)
    ensures var v := Reconciles(c, f, w, self, os);
      (p in v.fwd <==> p in w.fwd) && (p in w.fwd ==> v.fwd[p] == w.fwd[p])
  {
    if os != [] {
      var front, o := os[..|os| - 1], os[|os| - 1];
      assert o in os && forall x | x in front :: x in os;
      UnselectedPodStaysTracked(c, f, w, self, front, p);
      var v := Reconciles(c, f, w, self, front);
      if o.0 != p {
        match Judge(self, o.1)
        case Forget => ReleaseIndexes(c, f, v, o.0, Existing(v.fwd, o.0));
        case Report(ips) => RunningIndexes(c, f, v, o.0, ips);
        case _ =>
      }
    }
  }

  /** An answer that makes the gateway forget the pod. */
  ghost predicate Ends(self: EgressKey, got: Fetched) {
    got.NotFound? || (got.Found? && Selected(self, got.pod) && Leaving(got.pod))
  }

  /** An answer that makes it record these addresses for the pod. */
  ghost predicate Tells(self: EgressKey, got: Fetched, ips: seq<Addr>) {
    got.Found? && Selected(self, got.pod) && !Leaving(got.pod) && ParsesTo(got.pod.ips, ips)
  }

  /** One reconcile changes at most the entry of its own pod, and only as the answer says. */
  lemma ReconcileEntry(c: Config, f: Faults, w: Watch, self: EgressKey, o: (PodKey, Fetched), p: PodKey)
    ensures var v := Obey(c, f, w, o.0, Judge(self, o.1)).w;
      || (p in v.fwd && p in w.fwd && v.fwd[p] == w.fwd[p]) || (p !in v.fwd && p !in w.fwd)
      || (p == o.0 && p !in v.fwd && Ends(self, o.1))
      || (p == o.0 && p in v.fwd && Tells(self, o.1, v.fwd[p]))
  {
    match Judge(self, o.1)
    case Forget => ReleaseIndexes(c, f, w, o.0, Existing(w.fwd, o.0));
    case Report(ips) =>
      RunningIndexes(c, f, w, o.0, ips);
      ParsedExactly(o.1.pod.ips, ips);
    case _ =>
  }

  /**
   Over any sequence of reconciles a tracked pod stops being tracked only after an answer for it that it is gone, or is
   selected and leaving: no API error, no lost annotation and no bad address does it.
   */
  lemma {:induction false} ForgottenForCause(
      c: Config, f: Faults, w: Watch, self: EgressKey, os: seq<(PodKey, Fetched)>, p: PodKey)
    requires p in w.fwd && p !in Reconciles(c, f, w, self, os).fwd
    ensures exists i :: 0 <= i < |os| && os[i].0 == p && Ends(self, os[i].1)
  {
    if os != [] {
      var front := os[..|os| - 1];
      var v := Reconciles(c, f, w, self, front);
      if p !in v.fwd {
        ForgottenForCause(c, f, w, self, front, p);
        var i :| 0 <= i < |front| && front[i].0 == p && Ends(self, front[i].1);
        assert os[i] == front[i];
      } else {
        ReconcileEntry(c, f, v, self, os[|os| - 1], p);
        assert os[|os| - 1].0 == p && Ends(self, os[|os| - 1].1);
      }
    }
  }

  /** And what is recorded for it is what it was, or exactly the addresses of some answer for it, in order. */
  lemma {:induction false} EntryHasSource(
      c: Config, f: Faults, w: Watch, self: EgressKey, os: seq<(PodKey, Fetched)>, p: PodKey)
    requires p in Reconciles(c, f, w, self, os).fwd
    ensures var ips := Reconciles(c, f, w, self, os).fwd[p];
      || (p in w.fwd && ips == w.fwd[p])
      || exists i :: 0 <= i < |os| && os[i].0 == p && Tells(self, os[i].1, ips)
  {
    if os != [] {
      var front, n := os[..|os| - 1], |os| - 1;
      var v, ips := Reconciles(c, f, w, self, front), Reconciles(c, f, w, self, os).fwd[p];
      ReconcileEntry(c, f, v, self, os[n], p);
      if p in v.fwd && v.fwd[p] == ips {
        EntryHasSource(c, f, w, self, front, p);
        if i :| 0 <= i < |front| && front[i].0 == p && Tells(self, front[i].1, ips) {
          assert os[i] == front[i];
        }
      } else {
        assert os[n].0 == p && Tells(self, os[n].1, ips);
      }
    }
  }
}
