/** What each loop of the pod watcher does, stated one address at a time. */
module WatchLemmas {
  import opened Sequences
  import opened Addresses
  import opened KernelModel
  import opened Fou
  import opened NatGateway
  import opened PodWatching

  ghost predicate Within(s: seq<Addr>, u: set<Addr>) { forall a | a in s :: a in u }

  /** `p` stands in the reverse entry of `a`. */
  ghost predicate In(rev: map<Addr, set<PodKey>>, a: Addr, p: PodKey) { a in rev && p in rev[a] }

  ghost predicate NoEmpty(rev: map<Addr, set<PodKey>>) { forall a | a in rev :: rev[a] != {} }

  /** A reported address that the handler has to set up. */
  ghost predicate Fresh(c: Config, existing: seq<Addr>, ips: seq<Addr>, b: Addr) {
    b in ips && b !in existing && Supported(c, b)
  }

  ghost predicate Dropped(existing: seq<Addr>, ips: seq<Addr>, b: Addr) {
    b in existing && b !in ips
  }

  // ---- tunnels: no assumption on the kernel ----

  lemma AddClientKeepsLinks(c: Config, f: Faults, k: Kernel, a: Addr, l: LinkRef)
    ensures AddClient(c, f, k, a, l).k.links.Keys == k.links.Keys
  {}

  /** Adding one peer touches no other address's tunnel. */
  lemma AddPeerTunnels(c: Config, u: set<Addr>, f: Faults, k: Kernel, a: Addr, b: Addr)
    requires Universe(c, u) && a in u && b in u
    ensures var o := AddPeer(c, f, k, a);
      && (HasTunnel(c, k, b) ==> HasTunnel(c, o.k, b))
      && (a != b || !Supported(c, a) ==> (HasTunnel(c, o.k, b) <==> HasTunnel(c, k, b)))
      && (o.r.Ok? ==> HasTunnel(c, o.k, a))
      && (o.r == Err(FamilyMismatch) <==> !Supported(c, a))
  {
    AddPeerEffect(c, f, k, a);
    GrownTunnels(c, u, k, AddPeer(c, f, k, a).k, a, b);
  }

  lemma GrownTunnels(c: Config, u: set<Addr>, k: Kernel, k': Kernel, a: Addr, b: Addr)
    requires Universe(c, u) && a in u && b in u && Grows(k, k', PeerLinks(c, a))
    ensures HasTunnel(c, k, b) ==> HasTunnel(c, k', b)
    ensures a != b || !Supported(c, a) ==> (HasTunnel(c, k', b) <==> HasTunnel(c, k, b))
  {
    NamesDistinct(c, u, a, b);
    TunnelNamesApart(c, b, a);
  }

  lemma {:induction false} AddNewTunnels(
      c: Config, u: set<Addr>, f: Faults, k: Kernel, existing: seq<Addr>, ips: seq<Addr>, b: Addr)
    requires Universe(c, u) && Within(ips, u) && b in u
    ensures var o := AddNew(c, f, k, existing, ips);
      && (HasTunnel(c, k, b) ==> HasTunnel(c, o.k, b))
      && (!Fresh(c, existing, ips, b) ==> (HasTunnel(c, o.k, b) <==> HasTunnel(c, k, b)))
      && (o.r.Ok? && Fresh(c, existing, ips, b) ==> HasTunnel(c, o.k, b))
    decreases |ips|
  {
    if ips != [] {
      var a := ips[0];
      assert a in ips;
      if a in existing {
        AddNewTunnels(c, u, f, k, existing, ips[1..], b);
      } else {
        var link := AddPeer(c, f, k, a);
        AddPeerTunnels(c, u, f, k, a, b);
        if link.r == Err(FamilyMismatch) {
          AddNewTunnels(c, u, f, link.k, existing, ips[1..], b);
        } else if link.r.Ok? {
          var client := AddClient(c, f, link.k, a, link.r.value);
          AddClientKeepsLinks(c, f, link.k, a, link.r.value);
          if client.r.Ok? {
            AddNewTunnels(c, u, f, client.k, existing, ips[1..], b);
          }
        }
      }
    }
  }

  lemma {:induction false} DelOldTunnels(
      c: Config, u: set<Addr>, f: Faults, k: Kernel, existing: seq<Addr>, ips: seq<Addr>, b: Addr)
    requires Universe(c, u) && Within(existing, u) && b in u
    ensures var o := DelOld(c, f, k, existing, ips);
      && (HasTunnel(c, o.k, b) ==> HasTunnel(c, k, b))
      && (!Dropped(existing, ips, b) ==> (HasTunnel(c, o.k, b) <==> HasTunnel(c, k, b)))
      && (o.r.Ok? && Dropped(existing, ips, b) ==> !HasTunnel(c, o.k, b))
    decreases |existing|
  {
    if existing != [] {
      var a := existing[0];
      assert a in existing;
      if a in ips {
        DelOldTunnels(c, u, f, k, existing[1..], ips, b);
      } else {
        var gone := DelPeer(c, f, k, a);
        DelPeerEffect(c, f, k, a);
        NamesDistinct(c, u, a, b);
        if gone.r.Ok? {
          DelOldTunnels(c, u, f, gone.k, existing[1..], ips, b);
        }
      }
    }
  }

  /** A running pod's handler, seen from one address: success fixes its tunnel, failure only moves towards that. */
  lemma RunningTunnels(c: Config, u: set<Addr>, f: Faults, w: Watch, pod: PodKey, ips: seq<Addr>, b: Addr)
    requires Universe(c, u) && Within(ips, u) && Within(Existing(w.fwd, pod), u) && b in u
    ensures var s := HandlePodRunning(c, f, w, pod, ips); var ex := Existing(w.fwd, pod);
      && (s.r.Ok? ==> (HasTunnel(c, s.w.k, b) <==>
            !Dropped(ex, ips, b) && (HasTunnel(c, w.k, b) || Fresh(c, ex, ips, b))))
      && (!Dropped(ex, ips, b) && HasTunnel(c, w.k, b) ==> HasTunnel(c, s.w.k, b))
      && (!Fresh(c, ex, ips, b) && HasTunnel(c, s.w.k, b) ==> HasTunnel(c, w.k, b))
  {
    var ex := Existing(w.fwd, pod);
    var added := AddNew(c, f, w.k, ex, ips);
    AddNewTunnels(c, u, f, w.k, ex, ips, b);
    if added.r.Ok? {
      DelOldTunnels(c, u, f, added.k, ex, ips, b);
    }
  }

  // ---- routes: coupling ----

  ghost predicate KernelInv(c: Config, u: set<Addr>, k: Kernel) {
    Coupled(c, u, k) && LinksWf(k.links, k.next)
  }

  lemma AddOneKeeps(c: Config, u: set<Addr>, f: Faults, k: Kernel, a: Addr)
    requires Universe(c, u) && a in u && KernelInv(c, u, k)
    ensures var link := AddPeer(c, f, k, a);
      && KernelInv(c, u, link.k)
      && (forall b :: HasRoute(link.k, b) <==> HasRoute(k, b))
      && (link.r.Ok? ==>
            var client := AddClient(c, f, link.k, a, link.r.value);
            && KernelInv(c, u, client.k)
            && (client.r.Ok? ==> HasRoute(client.k, a))
            && (client.r.Err? ==> client.r.error == Refused)
            && (forall b | b != a :: HasRoute(client.k, b) <==> HasRoute(k, b))
            && (HasRoute(k, a) ==> HasRoute(client.k, a)))
      && (link.r.Ok? ==> Supported(c, a))
  {
    var link := AddPeer(c, f, k, a);
    AddPeerEffect(c, f, k, a);
    GrowsKeepsCoupled(c, u, k, link.k, PeerLinks(c, a));
    if link.r.Ok? {
      AddClientEffect(c, u, f, link.k, a, link.r.value);
    }
  }

  lemma {:induction false} AddNewRoutes(
      c: Config, u: set<Addr>, f: Faults, k: Kernel, existing: seq<Addr>, ips: seq<Addr>)
    requires Universe(c, u) && Within(ips, u) && KernelInv(c, u, k)
    ensures var o := AddNew(c, f, k, existing, ips);
      && KernelInv(c, u, o.k)
      && (o.r.Err? ==> o.r.error == Refused)
      && (forall b :: HasRoute(k, b) ==> HasRoute(o.k, b))
      && (forall b :: !Fresh(c, existing, ips, b) ==> (HasRoute(o.k, b) <==> HasRoute(k, b)))
      && (o.r.Ok? ==> forall b | Fresh(c, existing, ips, b) :: HasRoute(o.k, b))
    decreases |ips|
  {
    if ips != [] {
      var a := ips[0];
      assert a in ips;
      if a in existing {
        AddNewRoutes(c, u, f, k, existing, ips[1..]);
      } else {
        var link := AddPeer(c, f, k, a);
        AddPeerEffect(c, f, k, a);
        AddOneKeeps(c, u, f, k, a);
        if link.r == Err(FamilyMismatch) {
          AddNewRoutes(c, u, f, link.k, existing, ips[1..]);
        } else if link.r.Ok? {
          var client := AddClient(c, f, link.k, a, link.r.value);
          if client.r.Ok? {
            AddNewRoutes(c, u, f, client.k, existing, ips[1..]);
          }
        }
      }
    }
  }

  lemma {:induction false} DelOldRoutes(
      c: Config, u: set<Addr>, f: Faults, k: Kernel, existing: seq<Addr>, ips: seq<Addr>)
    requires Universe(c, u) && Within(existing, u) && KernelInv(c, u, k)
    ensures var o := DelOld(c, f, k, existing, ips);
      && KernelInv(c, u, o.k)
      && (o.r.Err? ==> o.r.error == Refused)
      && (forall b | b in u :: HasRoute(o.k, b) ==> HasRoute(k, b))
      && (forall b | b in u :: !Dropped(existing, ips, b) ==> (HasRoute(o.k, b) <==> HasRoute(k, b)))
      && (o.r.Ok? ==> forall b | b in u && Dropped(existing, ips, b) :: !HasRoute(o.k, b))
    decreases |existing|
  {
    if existing != [] {
      var a := existing[0];
      assert a in existing;
      if a in ips {
        DelOldRoutes(c, u, f, k, existing[1..], ips);
      } else {
        var gone := DelPeer(c, f, k, a);
        DelPeerEffect(c, f, k, a);
        DelPeerKeepsCoupled(c, u, f, k, a);
        if gone.r.Ok? {
          DelOldRoutes(c, u, f, gone.k, existing[1..], ips);
        }
      }
    }
  }

  lemma RunningRoutes(c: Config, u: set<Addr>, f: Faults, w: Watch, pod: PodKey, ips: seq<Addr>)
    requires Universe(c, u) && Within(ips, u) && Within(Existing(w.fwd, pod), u) && KernelInv(c, u, w.k)
    ensures var s := HandlePodRunning(c, f, w, pod, ips); var ex := Existing(w.fwd, pod);
      && KernelInv(c, u, s.w.k)
      && (s.r.Err? ==> s.r.error == Refused)
      && (s.r.Ok? ==> forall b | b in u ::
            HasRoute(s.w.k, b) <==> !Dropped(ex, ips, b) && (HasRoute(w.k, b) || Fresh(c, ex, ips, b)))
      && (forall b | b in u && !Dropped(ex, ips, b) && HasRoute(w.k, b) :: HasRoute(s.w.k, b))
      && (forall b | b in u && !Fresh(c, ex, ips, b) && HasRoute(s.w.k, b) :: HasRoute(w.k, b))
  {
    var ex := Existing(w.fwd, pod);
    var added := AddNew(c, f, w.k, ex, ips);
    AddNewRoutes(c, u, f, w.k, ex, ips);
    if added.r.Ok? {
      DelOldRoutes(c, u, f, added.k, ex, ips);
    }
  }

  // ---- the reverse index ----

  lemma {:induction false} EnlistEffect(rev: map<Addr, set<PodKey>>, pod: PodKey, ips: seq<Addr>)
    ensures forall a, p :: In(Enlist(rev, pod, ips), a, p) <==> In(rev, a, p) || (a in ips && p == pod)
    ensures NoEmpty(rev) ==> NoEmpty(Enlist(rev, pod, ips))
    decreases |ips|
  {
    if ips != [] {
      var rev1 := AddToSet(rev, ips[0], pod);
      EnlistEffect(rev1, pod, ips[1..]);
      assert forall a, p :: In(rev1, a, p) <==> In(rev, a, p) || (a == ips[0] && p == pod);
    }
  }

  lemma RemoveFromSetEffect(rev: map<Addr, set<PodKey>>, ip: Addr, pod: PodKey)
    ensures forall a, p :: In(RemoveFromSet(rev, ip, pod), a, p) <==> In(rev, a, p) && !(a == ip && p == pod)
    ensures NoEmpty(rev) ==> NoEmpty(RemoveFromSet(rev, ip, pod))
  {
    if ip in rev && rev[ip] - {pod} == {} {
      assert forall p | p in rev[ip] && p != pod :: p in rev[ip] - {pod};
    }
  }

  /** A set that holds `pod` has a second member exactly when some other key stands in it. */
  lemma MoreThanOne(s: set<PodKey>, pod: PodKey)
    requires pod in s
    ensures |s| > 1 <==> exists q :: q in s && q != pod
  {
    assert s == {pod} + (s - {pod});
    if s - {pod} != {} {
      var q :| q in s - {pod};
      assert q in s && q != pod;
    }
  }

  /** Some other pod stands in the reverse entry of `b`. */
  ghost predicate Shared(rev: map<Addr, set<PodKey>>, pod: PodKey, b: Addr) {
    exists q :: q != pod && In(rev, b, q)
  }

  lemma {:induction false} ReleaseIndexes(c: Config, f: Faults, w: Watch, pod: PodKey, ips: seq<Addr>)
    ensures var s := Release(c, f, w, pod, ips);
      && s.w.fwd == w.fwd
      && (forall a, p | p != pod :: In(s.w.rev, a, p) <==> In(w.rev, a, p))
      && (forall a | In(s.w.rev, a, pod) :: In(w.rev, a, pod))
      && (forall a | a !in ips && In(w.rev, a, pod) :: In(s.w.rev, a, pod))
      && (s.r.Ok? ==> forall a | a in ips :: !In(s.w.rev, a, pod))
      && (NoEmpty(w.rev) ==> NoEmpty(s.w.rev))
    decreases |ips|
  {
    if ips != [] {
      var shared := ExistsOtherLiveTunnels(w.rev, pod, ips[0]);
      if shared.Ok? {
        var gone := if shared.value then Out(w.k, Ok(())) else DelPeer(c, f, w.k, ips[0]);
        if gone.r.Ok? {
          RemoveFromSetEffect(w.rev, ips[0], pod);
          ReleaseIndexes(c, f, Watch(gone.k, w.fwd, RemoveFromSet(w.rev, ips[0], pod)), pod, ips[1..]);
        }
      }
    }
  }

  /** On a distinct list that the reverse index knows, only the kernel can make the loop fail. */
  lemma {:induction false} ReleaseErrors(c: Config, f: Faults, w: Watch, pod: PodKey, ips: seq<Addr>)
    requires NoRepeats(ips) && (forall a | a in ips :: a != NoAddr && In(w.rev, a, pod))
    ensures var s := Release(c, f, w, pod, ips); s.r.Err? ==> s.r.error == Refused
    ensures Quiet(f) ==> Release(c, f, w, pod, ips).r.Ok?
    decreases |ips|
  {
    if ips != [] {
      assert In(w.rev, ips[0], pod);
      DelPeerEffect(c, f, w.k, ips[0]);
      RemoveFromSetEffect(w.rev, ips[0], pod);
      var gone := if |w.rev[ips[0]]| > 1 then Out(w.k, Ok(())) else DelPeer(c, f, w.k, ips[0]);
      if gone.r.Ok? {
        var rev1 := RemoveFromSet(w.rev, ips[0], pod);
        forall a | a in ips[1..]
          ensures a != NoAddr && In(rev1, a, pod)
        {
          assert a in ips && a != ips[0] && In(w.rev, a, pod);
        }
        ReleaseErrors(c, f, Watch(gone.k, w.fwd, rev1), pod, ips[1..]);
      }
    }
  }

  /** The loop deletes the tunnel of a listed address exactly when no other pod stands in its entry. */
  lemma {:induction false} ReleaseTunnels(
      c: Config, u: set<Addr>, f: Faults, w: Watch, pod: PodKey, ips: seq<Addr>, b: Addr)
    requires Universe(c, u) && Within(ips, u) && b in u
    ensures var s := Release(c, f, w, pod, ips);
      && (HasTunnel(c, s.w.k, b) ==> HasTunnel(c, w.k, b))
      && (b !in ips || Shared(w.rev, pod, b) ==> (HasTunnel(c, s.w.k, b) <==> HasTunnel(c, w.k, b)))
      && (s.r.Ok? && b in ips && !Shared(w.rev, pod, b) ==> !HasTunnel(c, s.w.k, b))
    decreases |ips|
  {
    if ips != [] {
      var a := ips[0];
      assert a in ips;
      var shared := ExistsOtherLiveTunnels(w.rev, pod, a);
      if shared.Ok? {
        MoreThanOne(w.rev[a], pod);
        assert shared.value <==> Shared(w.rev, pod, a) by {
          if shared.value {
            var q :| q in w.rev[a] && q != pod;
            assert In(w.rev, a, q);
          }
        }
        var gone := if shared.value then Out(w.k, Ok(())) else DelPeer(c, f, w.k, a);
        DelPeerEffect(c, f, w.k, a);
        NamesDistinct(c, u, a, b);
        if gone.r.Ok? {
          RemoveFromSetEffect(w.rev, a, pod);
          var w1 := Watch(gone.k, w.fwd, RemoveFromSet(w.rev, a, pod));
          assert Shared(w1.rev, pod, b) <==> Shared(w.rev, pod, b);
          ReleaseTunnels(c, u, f, w1, pod, ips[1..], b);
        }
      }
    }
  }

  lemma {:induction false} ReleaseRoutes(c: Config, u: set<Addr>, f: Faults, w: Watch, pod: PodKey, ips: seq<Addr>)
    requires Universe(c, u) && Within(ips, u) && KernelInv(c, u, w.k)
    ensures KernelInv(c, u, Release(c, f, w, pod, ips).w.k)
    ensures var s := Release(c, f, w, pod, ips);
      forall b | b in u :: (b !in ips || Shared(w.rev, pod, b)) && HasRoute(w.k, b) ==> HasRoute(s.w.k, b)
    decreases |ips|
  {
    if ips != [] {
      var a := ips[0];
      assert a in ips;
      var shared := ExistsOtherLiveTunnels(w.rev, pod, a);
      if shared.Ok? {
        MoreThanOne(w.rev[a], pod);
        assert Shared(w.rev, pod, a) ==> shared.value;
        var gone := if shared.value then Out(w.k, Ok(())) else DelPeer(c, f, w.k, a);
        DelPeerEffect(c, f, w.k, a);
        DelPeerKeepsCoupled(c, u, f, w.k, a);
        if gone.r.Ok? {
          RemoveFromSetEffect(w.rev, a, pod);
          var w1 := Watch(gone.k, w.fwd, RemoveFromSet(w.rev, a, pod));
          assert forall b :: Shared(w1.rev, pod, b) <==> Shared(w.rev, pod, b);
          ReleaseRoutes(c, u, f, w1, pod, ips[1..]);
        }
      }
    }
  }

  /** A loop that fails and leaves the reverse index as it was has released nothing. */
  lemma CleanFailureKeepsKernel(c: Config, f: Faults, w: Watch, pod: PodKey, ips: seq<Addr>)
    requires NoAddr !in ips
    requires Release(c, f, w, pod, ips).r.Err? && Release(c, f, w, pod, ips).w.rev == w.rev
    ensures var s := Release(c, f, w, pod, ips);
      s.w.fwd == w.fwd && s.w.k.links == w.k.links && s.w.k.routes == w.k.routes
  {
    var shared := ExistsOtherLiveTunnels(w.rev, pod, ips[0]);
    if shared.Ok? {
      var gone := if shared.value then Out(w.k, Ok(())) else DelPeer(c, f, w.k, ips[0]);
      DelPeerEffect(c, f, w.k, ips[0]);
      if gone.r.Ok? {
        RemoveFromSetEffect(w.rev, ips[0], pod);
        ReleaseIndexes(c, f, Watch(gone.k, w.fwd, RemoveFromSet(w.rev, ips[0], pod)), pod, ips[1..]);
        assert In(w.rev, ips[0], pod);
        assert false;
      }
    }
  }
}
