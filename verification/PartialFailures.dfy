/** A deletion, or a report that drops addresses, fails part way: what is left after the pod has been reported again. */
module PartialFailures {
  import opened Sequences
  import opened Addresses
  import opened KernelModel
  import opened Fou
  import opened NatGateway
  import opened Locality
  import opened PodWatching
  import opened WatchLemmas
  import opened GatewayRuns
  import opened GatewayTheorems

  // ---- the failure ----

  /**
   A pod holds two addresses alone; its deletion releases the first and the kernel refuses to look the second
   one's link up: the pod stays tracked with both addresses, the first without reverse entry and tunnel.
   */
  lemma PartWayFailure(c: Config, f: Faults, w: Watch, p: PodKey, a: Addr, b: Addr)
    requires p in w.fwd && w.fwd[p] == [a, b] && a != b && a != NoAddr && b != NoAddr
    requires a in w.rev && w.rev[a] == {p} && b in w.rev && w.rev[b] == {p}
    requires DelPeer(c, f, w.k, a).r.Ok? && f(DelPeer(c, f, w.k, a).k.clock)
    ensures var s := HandlePodDeletion(c, f, w, p);
      s.r == Err(Refused) && s.w.fwd == w.fwd && s.w.rev == w.rev - {a} && !HasTunnel(c, s.w.k, a)
  {
    DelPeerEffect(c, f, w.k, a);
    var gone := DelPeer(c, f, w.k, a);
    var w1 := Watch(gone.k, w.fwd, RemoveFromSet(w.rev, a, p));
    assert w1.rev == w.rev - {a};
    assert [a, b][1..] == [b] && [b][1..] == [];
    assert Release(c, f, w1, p, [b]) == Step(w1.(k := Tick(gone.k)), Err(Refused));
  }

  /** The first report of a pod, with the call at time `t` refused, is as if nothing were refused if it ends by `t`. */
  lemma FirstReport(c: Config, u: set<Addr>, f: Faults, g: Faults, t: nat, w: Watch, pod: PodKey, ips: seq<Addr>)
    requires Universe(c, u) && Tracks(w, u) && Within(ips, u) && KernelInv(c, u, w.k) && FallbacksFree(w.k)
    requires Quiet(g) && SameBefore(f, g, t) && pod !in w.fwd
    requires HandlePodRunning(c, g, w, pod, ips).w.k.clock <= t
    ensures HandlePodRunning(c, f, w, pod, ips) == HandlePodRunning(c, g, w, pod, ips)
  {
    AddNewLocal(c, f, g, t, w.k, [], ips);
  }

  /** Reporting the same addresses again succeeds without a single call to the kernel. */
  lemma {:induction false} SameReport(c: Config, f: Faults, k: Kernel, existing: seq<Addr>, ips: seq<Addr>)
    requires forall a | a in ips :: a in existing
    ensures AddNew(c, f, k, existing, ips) == Out(k, Ok(()))
    ensures DelOld(c, f, k, ips, existing) == Out(k, Ok(()))
    decreases |ips|
  {
    if ips != [] {
      assert ips[0] in ips;
      SameReport(c, f, k, existing, ips[1..]);
    }
  }

  /** After the first report of a pod: it holds its addresses alone, and the first of them has its tunnel. */
  ghost predicate Reported(c: Config, w: Watch, p: PodKey, ips: seq<Addr>, a: Addr) {
    w.fwd == map[p := ips] && HasTunnel(c, w.k, a) && forall b | b in ips :: b in w.rev && w.rev[b] == {p}
  }

  lemma ReportedAtFirst(c: Config, u: set<Addr>, g: Faults, k: Kernel, p: PodKey, ips: seq<Addr>, a: Addr)
    requires Universe(c, u) && KernelInv(c, u, k) && FallbacksFree(k) && Quiet(g)
    requires Within(ips, u) && a in ips && Supported(c, a)
    ensures Reported(c, HandlePodRunning(c, g, Watch(k, map[], map[]), p, ips).w, p, ips, a)
  {
    var w := Watch(k, map[], map[]);
    QuietReport(c, u, g, w, p, ips);
    RunningTunnels(c, u, g, w, p, ips, a);
    SoleHolder(HandlePodRunning(c, g, w, p, ips).w.rev, p, ips);
  }

  lemma SoleHolder(rev: map<Addr, set<PodKey>>, p: PodKey, ips: seq<Addr>)
    requires forall b, q :: In(rev, b, q) <==> b in ips && q == p
    ensures forall b | b in ips :: b in rev && rev[b] == {p}
  {
    forall b | b in ips
      ensures b in rev && rev[b] == {p}
    {
      assert In(rev, b, p);
      assert forall q | q in rev[b] :: In(rev, b, q);
    }
  }

  /** One refusal that lets the first report through and hits the deletion part way. */
  lemma OneRefusal(c: Config, u: set<Addr>, k: Kernel, p: PodKey, a: Addr, b: Addr) returns (t: nat)
    requires Universe(c, u) && KernelInv(c, u, k) && FallbacksFree(k)
    requires a != b && a in u && b in u && Supported(c, a)
    ensures var f := n => n == t; var s := HandlePodRunning(c, f, Watch(k, map[], map[]), p, [a, b]);
      && s.r.Ok? && Reported(c, s.w, p, [a, b], a)
      && DelPeer(c, f, s.w.k, a).r.Ok? && f(DelPeer(c, f, s.w.k, a).k.clock)
  {
    var g: Faults := n => false;
    var w := Watch(k, map[], map[]);
    var s := HandlePodRunning(c, g, w, p, [a, b]);
    QuietReport(c, u, g, w, p, [a, b]);
    ReportedAtFirst(c, u, g, k, p, [a, b], a);
    t := DelPeer(c, g, s.w.k, a).k.clock;
    var f: Faults := n => n == t;
    DelPeerLocal(c, f, g, t, s.w.k, a);
    FirstReport(c, u, f, g, t, w, p, [a, b]);
  }

  lemma AfterTheFailure(c: Config, f: Faults, w: Watch, p: PodKey, a: Addr, b: Addr)
    requires Reported(c, w, p, [a, b], a) && a != b && a != NoAddr && b != NoAddr
    requires DelPeer(c, f, w.k, a).r.Ok? && f(DelPeer(c, f, w.k, a).k.clock)
    ensures var v := HandlePodDeletion(c, f, w, p).w; var s := HandlePodRunning(c, f, v, p, [a, b]);
      && HandlePodDeletion(c, f, w, p).r == Err(Refused) && v.fwd == w.fwd
      && s.r.Ok? && s.w.fwd == w.fwd && In(s.w.rev, a, p) && In(s.w.rev, b, p) && !HasTunnel(c, s.w.k, a)
  {
    assert a in [a, b] && b in [a, b];
    PartWayFailure(c, f, w, p, a, b);
    var v := HandlePodDeletion(c, f, w, p).w;
    SameReport(c, f, v.k, [a, b], [a, b]);
    RunningIndexes(c, f, v, p, [a, b]);
  }

  const UNCLEAN_TERMS := AVAILABLE_TERMS.(cleanDeletes := false)

  /**
   A live pod cut off by one refused call: it is reported, its deletion fails part way, and it is
   reported again, as a pod recreated under its name is. All reports succeed and the indexes are right, yet the
   first address has no tunnel. The run meets every term of `TunnelsStayAvailable` but `cleanDeletes`.
   */
  lemma FailedDeletionCutsOff(c: Config, u: set<Addr>, k: Kernel, p: PodKey, a: Addr, b: Addr) returns (t: nat)
    requires Universe(c, u) && KernelInv(c, u, k) && FallbacksFree(k)
    requires a != b && a in u && b in u && Supported(c, a)
    ensures var w, es := Watch(k, map[], map[]), [Running(p, [a, b]), Deleted(p), Running(p, [a, b])];
      var f := n => n == t; var v := Run(c, f, w, es);
      && RunMeets(UNCLEAN_TERMS, c, u, f, w, es)
      && v.fwd == map[p := [a, b]] && In(v.rev, a, p) && In(v.rev, b, p)
      && HasTunnel(c, Run(c, f, w, es[..1]).k, a) && !HasTunnel(c, v.k, a)
  {
    t := OneRefusal(c, u, k, p, a, b);
    var f: Faults := n => n == t;
    var w0 := Watch(k, map[], map[]);
    var w1 := HandlePodRunning(c, f, w0, p, [a, b]).w;
    AfterTheFailure(c, f, w1, p, a, b);
    Runs3(c, f, w0, Running(p, [a, b]), Deleted(p), Running(p, [a, b]));
    ReportsMeet(c, u, f, w0, p, [a, b]);
  }

  lemma ReportsMeet(c: Config, u: set<Addr>, f: Faults, w: Watch, p: PodKey, ips: seq<Addr>)
    requires Within(ips, u) && NoRepeats(ips) && w.fwd == map[]
    requires HandlePodRunning(c, f, w, p, ips).r.Ok?
    requires HandlePodDeletion(c, f, HandlePodRunning(c, f, w, p, ips).w, p).w.fwd == map[p := ips]
    ensures var es := [Running(p, ips), Deleted(p), Running(p, ips)];
      RunMeets(UNCLEAN_TERMS, c, u, f, w, es) && Run(c, f, w, es[..1]) == HandlePodRunning(c, f, w, p, ips).w
  {
    var es := [Running(p, ips), Deleted(p), Running(p, ips)];
    var w2 := HandlePodDeletion(c, f, HandlePodRunning(c, f, w, p, ips).w, p).w;
    assert es[..2][..1] == es[..1] && es[..1][..0] == [] && es[..1] == [es[0]] && es[..2] == [es[0], es[1]];
    assert Run(c, f, w, es[..1]) == Do(c, f, w, es[0]).w;
    assert Run(c, f, w, es[..2]) == w2;
    SameReport(c, f, w2.k, ips, ips);
    assert Meets(UNCLEAN_TERMS, c, u, f, w, es[0]);
    assert Meets(UNCLEAN_TERMS, c, u, f, w2, es[2]);
    assert RunMeets(UNCLEAN_TERMS, c, u, f, w, []);
    assert RunMeets(UNCLEAN_TERMS, c, u, f, w, es[..1]);
    assert RunMeets(UNCLEAN_TERMS, c, u, f, w, es[..2]);
  }

  // ---- the same for a report ----

  /** A report of no address deletes the tunnel of the first it drops and is refused the lookup of the second. */
  lemma PartWayDrop(c: Config, f: Faults, w: Watch, p: PodKey, a: Addr, b: Addr)
    requires p in w.fwd && w.fwd[p] == [a, b] && a != NoAddr && b != NoAddr
    requires DelPeer(c, f, w.k, a).r.Ok? && f(DelPeer(c, f, w.k, a).k.clock)
    ensures var s := HandlePodRunning(c, f, w, p, []);
      s.r == Err(Refused) && s.w.fwd == w.fwd && s.w.rev == w.rev && !HasTunnel(c, s.w.k, a)
  {
    DelPeerEffect(c, f, w.k, a);
    var gone := DelPeer(c, f, w.k, a);
    assert [a, b][1..] == [b] && [b][1..] == [];
    assert DelOld(c, f, gone.k, [b], []) == Out(Tick(gone.k), Err(Refused));
    assert DelOld(c, f, w.k, [a, b], []) == DelOld(c, f, gone.k, [b], []);
  }

  const UNCLEAN_DROP_TERMS := AVAILABLE_TERMS.(cleanDrops := false)

  lemma AfterTheDrop(c: Config, f: Faults, w: Watch, p: PodKey, a: Addr, b: Addr)
    requires Reported(c, w, p, [a, b], a) && a != NoAddr && b != NoAddr
    requires DelPeer(c, f, w.k, a).r.Ok? && f(DelPeer(c, f, w.k, a).k.clock)
    ensures var v := HandlePodRunning(c, f, w, p, []).w; var s := HandlePodRunning(c, f, v, p, [a, b]);
      v.fwd == w.fwd && s.r.Ok? && s.w.fwd == w.fwd && !HasTunnel(c, s.w.k, a)
  {
    PartWayDrop(c, f, w, p, a, b);
    SameReport(c, f, HandlePodRunning(c, f, w, p, []).w.k, [a, b], [a, b]);
  }

  /** The same outcome without any deletion of a pod: the run meets every term but `cleanDrops`. */
  lemma FailedDropCutsOff(c: Config, u: set<Addr>, k: Kernel, p: PodKey, a: Addr, b: Addr) returns (t: nat)
    requires Universe(c, u) && KernelInv(c, u, k) && FallbacksFree(k)
    requires a != b && a in u && b in u && Supported(c, a)
    ensures var w, es := Watch(k, map[], map[]), [Running(p, [a, b]), Running(p, []), Running(p, [a, b])];
      var f := n => n == t; var v := Run(c, f, w, es);
      RunMeets(UNCLEAN_DROP_TERMS, c, u, f, w, es) && v.fwd == map[p := [a, b]] && !HasTunnel(c, v.k, a)
  {
    t := OneRefusal(c, u, k, p, a, b);
    var f: Faults := n => n == t;
    var w0 := Watch(k, map[], map[]);
    var w1 := HandlePodRunning(c, f, w0, p, [a, b]).w;
    AfterTheDrop(c, f, w1, p, a, b);
    Runs3(c, f, w0, Running(p, [a, b]), Running(p, []), Running(p, [a, b]));
    DropsMeet(c, u, f, w0, p, [a, b]);
  }

  lemma DropsMeet(c: Config, u: set<Addr>, f: Faults, w: Watch, p: PodKey, ips: seq<Addr>)
    requires Within(ips, u) && NoRepeats(ips) && w.fwd == map[]
    requires HandlePodRunning(c, f, w, p, ips).r.Ok?
    requires HandlePodRunning(c, f, HandlePodRunning(c, f, w, p, ips).w, p, []).w.fwd == map[p := ips]
    ensures RunMeets(UNCLEAN_DROP_TERMS, c, u, f, w, [Running(p, ips), Running(p, []), Running(p, ips)])
  {
    var es := [Running(p, ips), Running(p, []), Running(p, ips)];
    var w1 := HandlePodRunning(c, f, w, p, ips).w;
    var w2 := HandlePodRunning(c, f, w1, p, []).w;
    assert es[..2][..1] == es[..1] && es[..1][..0] == [] && es[..1] == [es[0]] && es[..2] == [es[0], es[1]];
    assert Run(c, f, w, es[..1]) == w1;
    assert Run(c, f, w, es[..2]) == w2;
    assert Meets(UNCLEAN_DROP_TERMS, c, u, f, w, es[0]);
    assert Meets(UNCLEAN_DROP_TERMS, c, u, f, w1, es[1]);
    assert Meets(UNCLEAN_DROP_TERMS, c, u, f, w2, es[2]);
    assert RunMeets(UNCLEAN_DROP_TERMS, c, u, f, w, []);
    assert RunMeets(UNCLEAN_DROP_TERMS, c, u, f, w, es[..1]);
    assert RunMeets(UNCLEAN_DROP_TERMS, c, u, f, w, es[..2]);
  }

  // ---- a repeated address ----

  /**
   A pod that reports one address twice and is deleted: with nothing refused the deletion fails, the pod stays
   tracked, and the tunnel it had is gone.
   */
  lemma RepeatedAddressRun(c: Config, u: set<Addr>, f: Faults, k: Kernel, p: PodKey, a: Addr)
    requires Universe(c, u) && KernelInv(c, u, k) && FallbacksFree(k) && Quiet(f) && a in u && Supported(c, a)
    ensures var w, es := Watch(k, map[], map[]), [Running(p, [a, a]), Deleted(p)];
      var v := Run(c, f, w, es);
      && HasTunnel(c, Run(c, f, w, es[..1]).k, a)
      && v.fwd == map[p := [a, a]] && !HasTunnel(c, v.k, a)
  {
    var w, es := Watch(k, map[], map[]), [Running(p, [a, a]), Deleted(p)];
    var w1 := HandlePodRunning(c, f, w, p, [a, a]).w;
    ReportedAtFirst(c, u, f, k, p, [a, a], a);
    assert a in [a, a];
    RepeatedAddressLosesTunnel(c, f, w1, p, a);
    assert es[..1] == [es[0]] && es[..1][..0] == [];
    assert Run(c, f, w, es[..1]) == Do(c, f, w, es[0]).w;
    assert Run(c, f, w, es) == Do(c, f, w1, es[1]).w;
  }
}
