/** Tunnels that no index knows: how they arise, how long they stay, and what ends them. */
module Orphans {
  import opened Addresses
  import opened KernelModel
  import opened Fou
  import opened NatGateway
  import opened Locality
  import opened PodWatching
  import opened WatchLemmas
  import opened GatewayRuns
  import opened GatewayTheorems

  /** The kernel has the tunnel and the watcher has no entry that would ever lead to it. */
  ghost predicate Orphan(c: Config, w: Watch, a: Addr) {
    HasTunnel(c, w.k, a) && a !in w.rev
  }

  // ---- one event ----

  lemma {:induction false} ReleaseOrphans(
      c: Config, u: set<Addr>, f: Faults, w: Watch, pod: PodKey, ips: seq<Addr>, b: Addr)
    requires Universe(c, u) && Within(ips, u) && b in u
    ensures Orphan(c, Release(c, f, w, pod, ips).w, b) <==> Orphan(c, w, b)
    decreases |ips|
  {
    if ips != [] {
      var a := ips[0];
      assert a in ips;
      var shared := ExistsOtherLiveTunnels(w.rev, pod, a);
      if shared.Ok? {
        MoreThanOne(w.rev[a], pod);
        var gone := if shared.value then Out(w.k, Ok(())) else DelPeer(c, f, w.k, a);
        DelPeerEffect(c, f, w.k, a);
        NamesDistinct(c, u, a, b);
        if gone.r.Ok? {
          var w1 := Watch(gone.k, w.fwd, RemoveFromSet(w.rev, a, pod));
          if shared.value {
            var q :| q in w.rev[a] && q != pod;
            assert q in w.rev[a] - {pod};
          }
          ReleaseOrphans(c, u, f, w1, pod, ips[1..], b);
        }
      }
    }
  }

  /** A deletion, failed or not, makes no orphan and ends none. */
  lemma DeletionOrphans(c: Config, u: set<Addr>, f: Faults, w: Watch, pod: PodKey, a: Addr)
    requires Universe(c, u) && Tracks(w, u) && a in u
    ensures Orphan(c, HandlePodDeletion(c, f, w, pod).w, a) <==> Orphan(c, w, a)
  {
    TracksExisting(w, u, pod);
    ReleaseOrphans(c, u, f, w, pod, Existing(w.fwd, pod), a);
  }

  /**
   A successful report makes none and ends exactly those that the pod lists or listed. A failed one makes orphans of
   addresses it was to set up only, and ends none but those it was dropping.
   */
  lemma ReportOrphans(c: Config, u: set<Addr>, f: Faults, w: Watch, pod: PodKey, ips: seq<Addr>, a: Addr)
    requires Universe(c, u) && Tracks(w, u) && Within(ips, u) && a in u
    ensures var s := HandlePodRunning(c, f, w, pod, ips); var ex := Existing(w.fwd, pod);
      && (s.r.Ok? ==> (Orphan(c, s.w, a) <==> Orphan(c, w, a) && a !in ips && a !in ex))
      && (s.r.Err? && Orphan(c, s.w, a) ==> Orphan(c, w, a) || Fresh(c, ex, ips, a))
      && (s.r.Err? && Orphan(c, w, a) && !Dropped(ex, ips, a) ==> Orphan(c, s.w, a))
  {
    TracksExisting(w, u, pod);
    RunningTunnels(c, u, f, w, pod, ips, a);
    RunningIndexes(c, f, w, pod, ips);
    EnlistKeepsKeys(w.rev, pod, ips);
  }

  /** A restart, cut off anywhere or not at all, makes every tunnel an orphan. */
  lemma RestartOrphans(c: Config, f: Faults, k: Kernel, a: Addr)
    requires a != NoAddr
    ensures Orphan(c, Restarted(c, f, k).w, a) <==> HasTunnel(c, k, a)
  {
    RestartEffect(c, f, k);
    TunnelNamesApart(c, a, a);
  }

  // ---- over runs ----

  /** The events that make an orphan of `a`. */
  ghost predicate MakesOrphan(c: Config, f: Faults, w: Watch, e: Event, a: Addr) {
    match e
    case Running(pod, ips) => Fresh(c, Existing(w.fwd, pod), ips, a) && HandlePodRunning(c, f, w, pod, ips).r.Err?
    case Deleted(_) => false
    case Restart => HasTunnel(c, w.k, a)
  }

  lemma OrphanStep(c: Config, u: set<Addr>, f: Faults, w: Watch, e: Event, a: Addr)
    requires Universe(c, u) && Tracks(w, u) && a in u && (e.Running? ==> Within(e.ips, u))
    ensures Orphan(c, Do(c, f, w, e).w, a) ==> Orphan(c, w, a) || MakesOrphan(c, f, w, e, a)
  {
    match e
    case Running(pod, ips) => ReportOrphans(c, u, f, w, pod, ips, a);
    case Deleted(pod) => DeletionOrphans(c, u, f, w, pod, a);
    case Restart => RestartOrphans(c, f, w.k, a);
  }

  ghost predicate Made(c: Config, f: Faults, w: Watch, es: seq<Event>, a: Addr) {
    exists i :: 0 <= i < |es| && MakesOrphan(c, f, Run(c, f, w, es[..i]), es[i], a)
  }

  /**
   Every orphan has a cause: over every run, with any refusals, it was there before, or a failed report was to set the
   address up, or the process restarted while the tunnel was there.
   */
  lemma {:induction false} OrphansHaveCause(c: Config, u: set<Addr>, f: Faults, w: Watch, es: seq<Event>, a: Addr)
    requires Universe(c, u) && Tracks(w, u) && a in u && RunMeets(ANY_TERMS, c, u, f, w, es)
    requires Orphan(c, Run(c, f, w, es), a)
    ensures Orphan(c, w, a) || Made(c, f, w, es, a)
    decreases |es|
  {
    if es != [] {
      var n := |es| - 1;
      var front, e := es[..n], es[n];
      var v := Run(c, f, w, front);
      RunTracks(c, u, f, w, front);
      OrphanStep(c, u, f, v, e, a);
      if !MakesOrphan(c, f, v, e, a) {
        OrphansHaveCause(c, u, f, w, front, a);
        if Made(c, f, w, front, a) {
          var i :| 0 <= i < n && MakesOrphan(c, f, Run(c, f, w, front[..i]), front[i], a);
          assert front[..i] == es[..i];
        }
      }
    }
  }

  lemma {:induction false} RunTracks(c: Config, u: set<Addr>, f: Faults, w: Watch, es: seq<Event>)
    requires Tracks(w, u) && RunMeets(ANY_TERMS, c, u, f, w, es)
    ensures Tracks(Run(c, f, w, es), u)
    decreases |es|
  {
    if es != [] {
      RunTracks(c, u, f, w, es[..|es| - 1]);
      DoTracks(c, u, f, Run(c, f, w, es[..|es| - 1]), es[|es| - 1]);
    }
  }

  /** And it stays: over every run, restarts and refusals included, until some pod reports the address. */
  lemma {:induction false} OrphansStay(c: Config, u: set<Addr>, f: Faults, w: Watch, es: seq<Event>, a: Addr)
    requires Universe(c, u) && Tracks(w, u) && a in u && RunMeets(ANY_TERMS, c, u, f, w, es)
    requires Orphan(c, w, a) && !Held(w.fwd, a)
    requires forall e | e in es && e.Running? :: a !in e.ips
    ensures var v := Run(c, f, w, es); Orphan(c, v, a) && !Held(v.fwd, a)
    decreases |es|
  {
    if es != [] {
      var front, e := es[..|es| - 1], es[|es| - 1];
      assert e in es && forall x | x in front :: x in es;
      OrphansStay(c, u, f, w, front, a);
      RunTracks(c, u, f, w, front);
      var v := Run(c, f, w, front);
      match e {
        case Running(pod, ips) =>
          assert a !in Existing(v.fwd, pod);
          ReportOrphans(c, u, f, v, pod, ips, a);
          RunningIndexes(c, f, v, pod, ips);
        case Deleted(pod) =>
          DeletionOrphans(c, u, f, v, pod, a);
          ReleaseIndexes(c, f, v, pod, Existing(v.fwd, pod));
        case Restart => RestartOrphans(c, f, v.k, a);
      }
    }
  }

  /** Without refusals and restarts there is none, drops and failed deletions included. */
  lemma {:induction false} TunnelsStayIndexed(c: Config, u: set<Addr>, f: Faults, k: Kernel, es: seq<Event>)
    requires Universe(c, u) && Untouched(c, u, k) && Quiet(f)
    requires RunMeets(ANY_TERMS.(noRestart := true), c, u, f, Watch(k, map[], map[]), es)
    ensures var v := Run(c, f, Watch(k, map[], map[]), es);
      (forall a | a in u :: !Orphan(c, v, a)) && Tracks(v, u) && KernelInv(c, u, v.k) && FallbacksFree(v.k)
    decreases |es|
  {
    if es != [] {
      var front, e := es[..|es| - 1], es[|es| - 1];
      TunnelsStayIndexed(c, u, f, k, front);
      var v := Run(c, f, Watch(k, map[], map[]), front);
      DoTracks(c, u, f, v, e);
      DoKeepsCoupled(c, u, f, v, e);
      HandlersKeepSetUp(c, u, f, v, e);
      forall a | a in u
        ensures !Orphan(c, Do(c, f, v, e).w, a)
      {
        match e
        case Running(pod, ips) =>
          QuietReport(c, u, f, v, pod, ips);
          ReportOrphans(c, u, f, v, pod, ips, a);
        case Deleted(pod) => DeletionOrphans(c, u, f, v, pod, a);
      }
    }
  }

  // ---- two runs that make one ----

  /** Nothing is refused: the process restarts and the pod is gone by the time its deletion is handled. */
  lemma RestartLeaksTunnel(c: Config, u: set<Addr>, f: Faults, k: Kernel, p: PodKey, a: Addr)
    requires Universe(c, u) && Untouched(c, u, k) && Quiet(f) && a in u && Supported(c, a)
    ensures var v := Run(c, f, Watch(k, map[], map[]), [Running(p, [a]), Restart, Deleted(p)]);
      v.fwd == map[] && v.rev == map[] && HasTunnel(c, v.k, a) && HasRoute(v.k, a)
  {
    var w := Watch(k, map[], map[]);
    var w1 := HandlePodRunning(c, f, w, p, [a]).w;
    Runs3(c, f, w, Running(p, [a]), Restart, Deleted(p));
    QuietReport(c, u, f, w, p, [a]);
    RunningTunnels(c, u, f, w, p, [a], a);
    RunningRoutes(c, u, f, w, p, [a]);
    RestartOrphans(c, f, w1.k, a);
    RestartEffect(c, f, w1.k);
    assert Restarted(c, f, w1.k).w.fwd - {p} == map[];
  }

  /** One call is refused: the first report of a pod fails after its link was added, and the pod is deleted. */
  lemma RefusedRouteLeaksTunnel(c: Config, u: set<Addr>, k: Kernel, p: PodKey, a: Addr) returns (t: nat)
    requires Universe(c, u) && Untouched(c, u, k) && a in u && Supported(c, a)
    ensures var f := n => n == t; var v := Run(c, f, Watch(k, map[], map[]), [Running(p, [a]), Deleted(p)]);
      v.fwd == map[] && v.rev == map[] && HasTunnel(c, v.k, a)
  {
    var g: Faults := n => false;
    t := AddPeer(c, g, k, a).k.clock;
    var f: Faults := n => n == t;
    AddPeerLocal(c, f, g, t, k, a);
    AddPeerSucceeds(c, g, k, a);
    FailedFirstReport(c, u, f, k, p, a);
    var w, es := Watch(k, map[], map[]), [Running(p, [a]), Deleted(p)];
    var w1 := HandlePodRunning(c, f, w, p, [a]).w;
    assert es[..1] == [es[0]] && es[..1][..0] == [];
    assert Run(c, f, w, es[..1]) == Do(c, f, w, es[0]).w;
    assert Run(c, f, w, es) == Do(c, f, w1, es[1]).w;
    assert w1.fwd - {p} == map[];
  }

  lemma FailedFirstReport(c: Config, u: set<Addr>, f: Faults, k: Kernel, p: PodKey, a: Addr)
    requires Universe(c, u) && a in u && Supported(c, a)
    requires AddPeer(c, f, k, a).r.Ok? && f(AddPeer(c, f, k, a).k.clock)
    ensures var w1 := HandlePodRunning(c, f, Watch(k, map[], map[]), p, [a]).w;
      w1.fwd == map[] && w1.rev == map[] && HasTunnel(c, w1.k, a)
  {
    var link := AddPeer(c, f, k, a);
    AddPeerTunnels(c, u, f, k, a, a);
    AddClientKeepsLinks(c, f, link.k, a, link.r.value);
    assert [a][0] == a && a !in [];
    assert AddClient(c, f, link.k, a, link.r.value) == Out(Tick(link.k), Err(Refused));
    assert AddNew(c, f, k, [], [a]) == Out(Tick(link.k), Err(Refused));
  }
}
