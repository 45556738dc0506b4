/** What the pod watcher does to its two indexes and to the kernel, handler by handler. */
module PodWatching {
  import opened Addresses
  import opened KernelModel
  import opened Fou
  import opened NatGateway
  import opened Annotations

  datatype PodKey = PodKey(namespace: string, name: string)

  /** `podToPodIPs`, `podIPToPod` and the kernel they drive. */
  datatype Watch = Watch(k: Kernel, fwd: map<PodKey, seq<Addr>>, rev: map<Addr, set<PodKey>>)

  datatype Step = Step(w: Watch, r: Result<()>)

  function Existing(fwd: map<PodKey, seq<Addr>>, pod: PodKey): seq<Addr> {
    if pod in fwd then fwd[pod] else []
  }

  /** Give every reported address that is not known yet a tunnel and a route. */
  function AddNew(c: Config, f: Faults, k: Kernel, existing: seq<Addr>, ips: seq<Addr>): Out<()>
    decreases |ips|
  {
    if ips == [] then Out(k, Ok(()))
    else if ips[0] in existing then AddNew(c, f, k, existing, ips[1..])
    else
      var link := AddPeer(c, f, k, ips[0]);
      if link.r == Err(FamilyMismatch) then AddNew(c, f, link.k, existing, ips[1..])
      else if link.r.Err? then Out(link.k, Err(link.r.error))
      else
        var client := AddClient(c, f, link.k, ips[0], link.r.value);
        if client.r.Err? then client else AddNew(c, f, client.k, existing, ips[1..])
  }

  /** Delete the tunnel of every known address that is no longer reported. */
  function DelOld(c: Config, f: Faults, k: Kernel, existing: seq<Addr>, ips: seq<Addr>): Out<()>
    decreases |existing|
  {
    if existing == [] then Out(k, Ok(()))
    else if existing[0] in ips then DelOld(c, f, k, existing[1..], ips)
    else
      var gone := DelPeer(c, f, k, existing[0]);
      if gone.r.Err? then gone else DelOld(c, f, gone.k, existing[1..], ips)
  }

  function AddToSet(rev: map<Addr, set<PodKey>>, ip: Addr, pod: PodKey): map<Addr, set<PodKey>> {
    rev[ip := (if ip in rev then rev[ip] else {}) + {pod}]
  }

  function Enlist(rev: map<Addr, set<PodKey>>, pod: PodKey, ips: seq<Addr>): map<Addr, set<PodKey>>
    decreases |ips|
  {
    if ips == [] then rev else Enlist(AddToSet(rev, ips[0], pod), pod, ips[1..])
  }

  function HandlePodRunning(c: Config, f: Faults, w: Watch, pod: PodKey, ips: seq<Addr>): Step {
    var existing := Existing(w.fwd, pod);
    var added := AddNew(c, f, w.k, existing, ips);
    if added.r.Err? then Step(w.(k := added.k), added.r)
    else
      var gone := DelOld(c, f, added.k, existing, ips);
      if gone.r.Err? then Step(w.(k := gone.k), gone.r)
      else Step(Watch(gone.k, w.fwd[pod := ips], Enlist(w.rev, pod, ips)), Ok(()))
  }

  /** `existsOtherLiveTunnels`: its two errors say that the indexes are out of step. */
  function ExistsOtherLiveTunnels(rev: map<Addr, set<PodKey>>, pod: PodKey, ip: Addr): Result<bool> {
    if ip !in rev then Err(AddrNotInReverse)
    else if pod !in rev[ip] then Err(KeyNotInReverse)
    else Ok(|rev[ip]| > 1)
  }

  function RemoveFromSet(rev: map<Addr, set<PodKey>>, ip: Addr, pod: PodKey): map<Addr, set<PodKey>> {
    if ip !in rev then rev
    else if rev[ip] - {pod} == {} then rev - {ip}
    else rev[ip := rev[ip] - {pod}]
  }

  /** The loop of `handlePodDeletion` over the addresses still to be released. */
  function Release(c: Config, f: Faults, w: Watch, pod: PodKey, ips: seq<Addr>): Step
    decreases |ips|
  {
    if ips == [] then Step(w, Ok(()))
    else
      var shared := ExistsOtherLiveTunnels(w.rev, pod, ips[0]);
      if shared.Err? then Step(w, Err(shared.error))
      else
        var gone := if shared.value then Out(w.k, Ok(())) else DelPeer(c, f, w.k, ips[0]);
        if gone.r.Err? then Step(w.(k := gone.k), gone.r)
        else Release(c, f, Watch(gone.k, w.fwd, RemoveFromSet(w.rev, ips[0], pod)), pod, ips[1..])
  }

  function HandlePodDeletion(c: Config, f: Faults, w: Watch, pod: PodKey): Step {
    var s := Release(c, f, w, pod, Existing(w.fwd, pod));
    if s.r.Err? then s else Step(s.w.(fwd := s.w.fwd - {pod}), Ok(()))
  }

  // ---- one `Reconcile` ----

  /** What `Reconcile` reads of a pod; `None` in `ips` is an entry that does not parse. */
  datatype Pod = Pod(
    key: PodKey, hostNetwork: bool, annotations: map<string, string>,
    terminated: bool, deleting: bool, ips: seq<Option<Addr>>)

  /** The API server's answer. */
  datatype Fetched = Unavailable | NotFound | Found(pod: Pod)

  function Parsed(ips: seq<Option<Addr>>): Option<seq<Addr>> {
    if exists i | 0 <= i < |ips| :: ips[i].None? then None
    else Some(seq(|ips|, i requires 0 <= i < |ips| => ips[i].value))
  }

  /** `ips` is what the entries parse to, all of them and in order. */
  ghost predicate ParsesTo(entries: seq<Option<Addr>>, ips: seq<Addr>) {
    |ips| == |entries| && forall i | 0 <= i < |ips| :: entries[i] == Some(ips[i])
  }

  lemma ParsedExactly(entries: seq<Option<Addr>>, ips: seq<Addr>)
    ensures Parsed(entries) == Some(ips) <==> ParsesTo(entries, ips)
    ensures Parsed(entries) == None <==> None in entries
  {
    if ParsesTo(entries, ips) {
      assert Parsed(entries).value == ips;
    }
  }

  /** The pod uses this gateway. */
  ghost predicate Selected(self: EgressKey, pod: Pod) {
    && !pod.hostNetwork
    && exists k | k in pod.annotations ::
      && k == "egress.pona.cybozu.com/" + self.namespace
      && (pod.annotations[k] == self.name || self.namespace in Split(pod.annotations[k]))
  }

  /** The pod is on its way out. */
  ghost predicate Leaving(pod: Pod) { pod.terminated || pod.deleting }

  datatype Verdict = Forget | Ignore | Reject(e: Error) | Report(ips: seq<Addr>)

  /** What the gateway `self` makes of an answer. */
  function Judge(self: EgressKey, got: Fetched): Verdict {
    match got
    case Unavailable => Reject(ApiFailed)
    case NotFound => Forget
    case Found(pod) =>
      if pod.hostNetwork || !GatewayHandles(pod.annotations, self.namespace, self.name) then Ignore
      else if pod.terminated || pod.deleting then Forget
      else
        match Parsed(pod.ips)
        case None => Reject(BadInput)
        case Some(ips) => Report(ips)
  }

  function Obey(c: Config, f: Faults, w: Watch, key: PodKey, v: Verdict): Step {
    match v
    case Forget => HandlePodDeletion(c, f, w, key)
    case Ignore => Step(w, Ok(()))
    case Reject(e) => Step(w, Err(e))
    case Report(ips) => HandlePodRunning(c, f, w, key, ips)
  }
}

/** The pod watcher with its fields, handlers and locks: each handler runs under `linkMutex`. */
module PodWatcherController {
  import opened Addresses
  import opened KernelModel
  import opened NetlinkSocket
  import opened Fou
  import opened FouController
  import opened GatewayController
  import opened PodWatching
  import opened Annotations

  class PodWatcher {
    var podToPodIPs: map<PodKey, seq<Addr>>
    var podIPToPod: map<Addr, set<PodKey>>
    const nl: Netlink
    const tun: FouTunnelController
    const gw: Gateway
    const self: EgressKey

    ghost predicate Valid()
    {
      tun.nl == nl && gw.nl == nl && tun.c == gw.c
    }

    ghost function View(): Watch
      reads this, nl
    {
      Watch(nl.st, podToPodIPs, podIPToPod)
    }

    constructor (nl: Netlink, tun: FouTunnelController, gw: Gateway, self: EgressKey)
      requires tun.nl == nl && gw.nl == nl && tun.c == gw.c
      ensures Valid() && View() == Watch(nl.st, map[], map[])
      ensures this.nl == nl && this.tun == tun && this.gw == gw && this.self == self
    {
      this.nl, this.tun, this.gw, this.self := nl, tun, gw, self;
      podToPodIPs, podIPToPod := map[], map[];
    }

    method Reconcile(key: PodKey, got: Fetched) returns (r: Result<()>)
      requires Valid() && (got.Found? ==> got.pod.key == key)
      modifies this, nl
      ensures Step(View(), r) == Obey(tun.c, nl.faults, old(View()), key, Judge(self, got))
      // an error of the API server is passed on, and nothing is touched
      ensures got.Unavailable? ==> r == Err(ApiFailed) && View() == old(View())
      // a pod that is gone is deleted
      ensures got.NotFound? ==> Step(View(), r) == PodWatching.HandlePodDeletion(tun.c, nl.faults, old(View()), key)
      // a pod of others is left alone
      ensures got.Found? && !Selected(self, got.pod) ==> r == Ok(()) && View() == old(View())
      // a pod that leaves is deleted
      ensures got.Found? && Selected(self, got.pod) && Leaving(got.pod) ==>
        Step(View(), r) == PodWatching.HandlePodDeletion(tun.c, nl.faults, old(View()), key)
      // a live one is reported with its addresses, unless one of them does not parse
      ensures got.Found? && Selected(self, got.pod) && !Leaving(got.pod) && None in got.pod.ips ==>
        r == Err(BadInput) && View() == old(View())
      ensures got.Found? && Selected(self, got.pod) && !Leaving(got.pod) ==>
        forall ips | ParsesTo(got.pod.ips, ips) ::
          Step(View(), r) == PodWatching.HandlePodRunning(tun.c, nl.faults, old(View()), key, ips)
    {
      forall ips: seq<Addr> | got.Found? { ParsedExactly(got.pod.ips, ips); }
      if got.Unavailable? { return Err(ApiFailed); }
      if got.NotFound? {
        r := HandlePodDeletion(key);
        return;
      }
      var selected := ShouldHandle(got.pod.hostNetwork, got.pod.annotations, self.namespace, self.name);
      if !selected { return Ok(()); }
      if got.pod.terminated || got.pod.deleting {
        r := HandlePodDeletion(key);
        return;
      }
      r := HandlePodRunning(got.pod);
    }

    method HandlePodRunning(pod: Pod) returns (r: Result<()>)
      requires Valid()
      modifies this, nl
      ensures Step(View(), r) ==
        match Parsed(pod.ips) {
          case None => Step(old(View()), Err(BadInput))
          case Some(ips) => PodWatching.HandlePodRunning(tun.c, nl.faults, old(View()), pod.key, ips)
        }
    {
      var existing := if pod.key in podToPodIPs then podToPodIPs[pod.key] else [];
      var ips: seq<Addr> := [];
      for i := 0 to |pod.ips|
        invariant |ips| == i && forall j | 0 <= j < i :: pod.ips[j] == Some(ips[j])
        invariant View() == old(View())
      {
        if pod.ips[i].None? { return Err(BadInput); }
        ips := ips + [pod.ips[i].value];
      }
      assert Parsed(pod.ips).Some? && Parsed(pod.ips).value == ips;
      r := AddNewPeers(existing, ips);
      if r.Err? { return; }
      r := DelOldPeers(existing, ips);
      if r.Err? { return; }
      podToPodIPs := podToPodIPs[pod.key := ips];
      ghost var rev0, done := podIPToPod, nl.st;
      for i := 0 to |ips|
        invariant nl.st == done
        invariant podToPodIPs == old(podToPodIPs)[pod.key := ips]
        invariant Enlist(podIPToPod, pod.key, ips[i..]) == Enlist(rev0, pod.key, ips)
      {
        var ip := ips[i];
        assert ips[i..][1..] == ips[i + 1..];
        podIPToPod := podIPToPod[ip := (if ip in podIPToPod then podIPToPod[ip] else {}) + {pod.key}];
      }
      r := Ok(());
    }

    method AddNewPeers(existing: seq<Addr>, ips: seq<Addr>) returns (r: Result<()>)
      requires Valid()
      modifies nl
      ensures Out(nl.st, r) == AddNew(tun.c, nl.faults, old(nl.st), existing, ips)
    {
      for i := 0 to |ips|
        invariant AddNew(tun.c, nl.faults, nl.st, existing, ips[i..]) ==
                  AddNew(tun.c, nl.faults, old(nl.st), existing, ips)
      {
        assert ips[i..][1..] == ips[i + 1..];
        if ips[i] in existing { continue; }
        var link := tun.AddPeer(ips[i]);
        if link.Err? {
          if link.error == FamilyMismatch { continue; }
          return Err(link.error);
        }
        r := gw.AddClient(ips[i], link.value);
        if r.Err? { return; }
      }
      r := Ok(());
    }

    method DelOldPeers(existing: seq<Addr>, ips: seq<Addr>) returns (r: Result<()>)
      requires Valid()
      modifies nl
      ensures Out(nl.st, r) == DelOld(tun.c, nl.faults, old(nl.st), existing, ips)
    {
      for i := 0 to |existing|
        invariant DelOld(tun.c, nl.faults, nl.st, existing[i..], ips) ==
                  DelOld(tun.c, nl.faults, old(nl.st), existing, ips)
      {
        assert existing[i..][1..] == existing[i + 1..];
        if existing[i] in ips { continue; }
        r := tun.DelPeer(existing[i]);
        if r.Err? { return; }
      }
      r := Ok(());
    }

    method HandlePodDeletion(key: PodKey) returns (r: Result<()>)
      requires Valid()
      modifies this, nl
      ensures Step(View(), r) == PodWatching.HandlePodDeletion(tun.c, nl.faults, old(View()), key)
    {
      var ips := if key in podToPodIPs then podToPodIPs[key] else [];
      for i := 0 to |ips|
        invariant podToPodIPs == old(podToPodIPs)
        invariant Release(tun.c, nl.faults, View(), key, ips[i..]) ==
                  Release(tun.c, nl.faults, old(View()), key, ips)
      {
        var ip := ips[i];
        assert ips[i..][1..] == ips[i + 1..];
        var shared := ExistsOtherLiveTunnels(podIPToPod, key, ip);
        if shared.Err? { return Err(shared.error); }
        if !shared.value {
          r := tun.DelPeer(ip);
          if r.Err? { return; }
        }
        if ip in podIPToPod {
          var keySet := podIPToPod[ip] - {key};
          podIPToPod := if keySet == {} then podIPToPod - {ip} else podIPToPod[ip := keySet];
        }
      }
      podToPodIPs := podToPodIPs - {key};
      r := Ok(());
    }
  }
}
