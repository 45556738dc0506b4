/** The FoU tunnel controller: `pkg/tunnel/fou`. */
module Fou {
  import opened Addresses
  import opened FouNaming
  import opened KernelModel
  import opened Sentinel

  const FOU_DUMMY := "fou-dummy"

  /** What a controller is built from; the gateway of the same process gets the same addresses. */
  datatype Config = Config(port: nat, iface: string, ip4: Option<Addr>, ip6: Option<Addr>, digest: Digest)

  function NewFoUTunnelController(c: Config): (r: Result<Config>)
    ensures r.Ok? <==>
      && (c.ip4.Some? || c.ip6.Some?)
      && (c.ip4.Some? ==> c.ip4.value.V4?)
      && (c.ip6.Some? ==> c.ip6.value.V6?)
    ensures r.Ok? ==> r.value == c
    ensures r.Err? ==> r.error == if c.ip4.None? && c.ip6.None? then NoIPProvided else FamilyMismatch
  {
    if c.ip4.Some? && !c.ip4.value.V4? then Err(FamilyMismatch)
    else if c.ip6.Some? && !c.ip6.value.V6? then Err(FamilyMismatch)
    else if c.ip4.None? && c.ip6.None? then Err(NoIPProvided)
    else Ok(c)
  }

  predicate Supported(c: Config, a: Addr) {
    (a.V4? && c.ip4.Some?) || (a.V6? && c.ip6.Some?)
  }

  function InitSteps4(c: Config): seq<SetUpStep> {
    [Set(DefaultRPFilterOff), Set(AllRPFilterOff), Set(Forwarding(Inet4)), Set(Module("fou")),
     Set(FouListener(Inet4, 4, c.port)), OpenIPTables, Set(ChecksumFill(Inet4, c.port))]
  }

  function InitSteps6(c: Config): seq<SetUpStep> {
    [Set(Forwarding(Inet6)), Set(Module("fou6")), Set(FouListener(Inet6, 41, c.port)),
     OpenIPTables, Set(ChecksumFill(Inet6, c.port))]
  }

  function InitSteps(c: Config): seq<SetUpStep> {
    (if c.ip4.Some? then InitSteps4(c) else []) + (if c.ip6.Some? then InitSteps6(c) else [])
  }

  function Init(c: Config, f: Faults, k: Kernel): Out<()> {
    GuardedInit(f, k, FOU_DUMMY, InitSteps(c))
  }

  /** The host is ready for tunnels on this port, family by family. */
  ghost predicate FouReady(c: Config, k: Kernel) {
    && (c.ip4.Some? ==> k.settings >= {DefaultRPFilterOff, AllRPFilterOff, Forwarding(Inet4), Module("fou"),
          FouListener(Inet4, 4, c.port), ChecksumFill(Inet4, c.port)})
    && (c.ip6.Some? ==> k.settings >= {Forwarding(Inet6), Module("fou6"),
          FouListener(Inet6, 41, c.port), ChecksumFill(Inet6, c.port)})
  }

  lemma ReadyMeansDone(c: Config, k: Kernel)
    requires FouReady(c, k)
    ensures AllDone(k, InitSteps(c))
  {
    assert c.ip4.Some? ==> AllDone(k, InitSteps4(c));
    assert c.ip6.Some? ==> AllDone(k, InitSteps6(c));
  }

  lemma DoneMeansReady(c: Config, k: Kernel)
    requires AllDone(k, InitSteps(c))
    ensures FouReady(c, k)
  {
    var ss := InitSteps(c);
    assert forall s | s in ss :: Done(k, s);
    if c.ip4.Some? {
      assert forall s | s in InitSteps4(c) :: s in ss;
      assert Set(DefaultRPFilterOff) in ss && Set(AllRPFilterOff) in ss && Set(Forwarding(Inet4)) in ss;
      assert Set(Module("fou")) in ss;
      assert Set(FouListener(Inet4, 4, c.port)) in ss && Set(ChecksumFill(Inet4, c.port)) in ss;
    }
    if c.ip6.Some? {
      assert forall s | s in InitSteps6(c) :: s in ss;
      assert Set(Forwarding(Inet6)) in ss && Set(Module("fou6")) in ss;
      assert Set(FouListener(Inet6, 41, c.port)) in ss && Set(ChecksumFill(Inet6, c.port)) in ss;
    }
  }

  /** What the steps of `Init` come to. */
  lemma InitStepsMeaning(c: Config, k: Kernel)
    ensures AllDone(k, InitSteps(c)) <==> FouReady(c, k)
  {
    if FouReady(c, k) {
      ReadyMeansDone(c, k);
    } else if AllDone(k, InitSteps(c)) {
      DoneMeansReady(c, k);
    }
  }

  /** No step that the kernel refuses twice is listed twice. */
  lemma InitStepsOnce(c: Config)
    ensures ExclusiveOnce(InitSteps(c))
  {}

  /** `Init` can get through: done already, or no listener of this port is there yet. */
  ghost predicate InitOpen(c: Config, k: Kernel) {
    FOU_DUMMY in k.links || Open(k, InitSteps(c))
  }

  lemma InitKeepsRules(c: Config, f: Faults, k: Kernel)
    ensures Init(c, f, k).k.rules == k.rules
  {
    GuardedInitEffect(f, k, FOU_DUMMY, InitSteps(c));
    assert forall s | s in InitSteps4(c) + InitSteps6(c) :: !s.AddRule?;
    NoRuleSteps(f, Tick(k), InitSteps(c));
  }

  function FlowDevice(a: Addr): string {
    if a.V4? then "pona_ipip4" else "pona_ipip6"
  }

  /** `setupDevice`: reuse or create the flow-based device and set it up. */
  function SetupDevice(f: Faults, k: Kernel, name: string): Out<()> {
    var found := LinkByName(f, k, name);
    if found.r.Err? then Out(found.k, Err(found.r.error))
    else if found.r.value.Some? then LinkSetUp(f, found.k, found.r.value.value)
    else
      var added := LinkAdd(f, found.k, name);
      if added.r.Err? then Out(added.k, Err(added.r.error))
      else
        var again := LinkByName(f, added.k, name);
        if again.r.Err? then Out(again.k, Err(again.r.error))
        else if again.r.value.None? then Out(again.k, Err(Refused))
        else LinkSetUp(f, again.k, again.r.value.value)
  }

  function Fallback(a: Addr): string { if a.V4? then "tunl0" else "ip6tnl0" }

  function Renamed(a: Addr): string { if a.V4? then "pona_tunl" else "pona_ip6tnl" }

  /** `renameDevice`: a device that is not found, for whatever reason, is not renamed. */
  function RenameDevice(f: Faults, k: Kernel, from: string, to: string): Out<()> {
    var found := LinkByName(f, k, from);
    if found.r.Err? || found.r.value.None? then Out(found.k, Ok(()))
    else LinkSetName(f, found.k, found.r.value.value, to)
  }

  /** `setupFlowBasedIP4TunDevice` and its IPv6 twin. */
  function SetupFlowBased(f: Faults, k: Kernel, a: Addr): Out<()> {
    var dev := SetupDevice(f, k, FlowDevice(a));
    if dev.r.Err? then dev else RenameDevice(f, dev.k, Fallback(a), Renamed(a))
  }

  /** `AddPeer`: an existing link is returned as it is. */
  function AddPeer(c: Config, f: Faults, k: Kernel, a: Addr): Out<LinkRef> {
    if a == NoAddr then Out(k, Err(UnknownFamily))
    else if !Supported(c, a) then Out(k, Err(FamilyMismatch))
    else
      var name := LinkName(c.digest, a);
      var found := LinkByName(f, k, name);
      if found.r.Err? then Out(found.k, Err(found.r.error))
      else if found.r.value.Some? then Out(found.k, Ok(found.r.value.value))
      else
        var added := LinkAdd(f, found.k, name);
        if added.r.Err? then added
        else
          var dev := SetupFlowBased(f, added.k, a);
          if dev.r.Err? then Out(dev.k, Err(dev.r.error)) else Out(dev.k, added.r)
  }

  function DelPeer(c: Config, f: Faults, k: Kernel, a: Addr): Out<()> {
    if a == NoAddr then Out(k, Err(UnknownFamily))
    else
      var found := LinkByName(f, k, LinkName(c.digest, a));
      if found.r.Err? then Out(found.k, Err(found.r.error))
      else if found.r.value.None? then Out(found.k, Ok(()))
      else LinkDel(f, found.k, found.r.value.value)
  }

  ghost predicate HasTunnel(c: Config, k: Kernel, a: Addr) {
    a != NoAddr && LinkName(c.digest, a) in k.links
  }

  lemma SetupDeviceEffect(f: Faults, k: Kernel, name: string)
    ensures var o := SetupDevice(f, k, name);
      && Grows(k, o.k, {name})
      && (o.r.Ok? ==> name in o.k.links && o.k.links[name].up)
      && (o.r.Err? ==> o.r.error == Refused)
  {
    var found := LinkByName(f, k, name);
    LinkByNameEffect(f, k, name);
    if found.r.Ok? {
      if found.r.value.Some? {
        LinkSetUpEffect(f, found.k, found.r.value.value);
        GrowsTrans(k, found.k, LinkSetUp(f, found.k, found.r.value.value).k, {}, {});
      } else {
        var added := LinkAdd(f, found.k, name);
        LinkAddEffect(f, found.k, name);
        GrowsTrans(k, found.k, added.k, {}, {name});
        var again := LinkByName(f, added.k, name);
        LinkByNameEffect(f, added.k, name);
        if added.r.Ok? && again.r.Ok? {
          LinkSetUpEffect(f, again.k, again.r.value.value);
          GrowsTrans(added.k, again.k, LinkSetUp(f, again.k, again.r.value.value).k, {}, {});
          GrowsTrans(k, added.k, LinkSetUp(f, again.k, again.r.value.value).k, {} + {name}, {} + {});
        }
        GrowsTrans(k, added.k, again.k, {} + {name}, {});
      }
    }
  }

  /** The fallback device of `a`'s family can be renamed: it is absent or its new name is free. */
  ghost predicate FallbackFree(k: Kernel, a: Addr) { !(Fallback(a) in k.links && Renamed(a) in k.links) }

  /** The same for both families. */
  ghost predicate FallbacksFree(k: Kernel) {
    !("tunl0" in k.links && "pona_tunl" in k.links) && !("ip6tnl0" in k.links && "pona_ip6tnl" in k.links)
  }

  /** A link of this name is in both kernels or in neither, and is the same. */
  ghost predicate SameLink(k: Kernel, k': Kernel, n: string) {
    (n in k'.links <==> n in k.links) && (n in k.links ==> k'.links[n] == k.links[n])
  }

  /** The fallback device goes by its new name, which was free. */
  ghost predicate Moved(k: Kernel, k': Kernel, a: Addr) {
    && Fallback(a) in k.links && Renamed(a) !in k.links
    && Fallback(a) !in k'.links && Renamed(a) in k'.links && k'.links[Renamed(a)] == k.links[Fallback(a)]
  }

  /** Nothing happened to the fallback devices, except that the one of `a`'s family may have moved. */
  ghost predicate FallbackFollows(k: Kernel, k': Kernel, a: Addr) {
    && SameLink(k, k', if a.V4? then "ip6tnl0" else "tunl0")
    && SameLink(k, k', if a.V4? then "pona_ip6tnl" else "pona_tunl")
    && (Moved(k, k', a) || (SameLink(k, k', Fallback(a)) && SameLink(k, k', Renamed(a))))
  }

  /** So renaming stays as possible as it was, for either family. */
  lemma FollowingKeepsFree(k: Kernel, k': Kernel, a: Addr)
    requires FallbackFollows(k, k', a)
    ensures FallbacksFree(k') <==> FallbacksFree(k)
    ensures forall b :: FallbackFree(k', b) <==> FallbackFree(k, b)
  {}

  lemma DeviceNamesApart(a: Addr)
    ensures FlowDevice(a) !in {"tunl0", "pona_tunl", "ip6tnl0", "pona_ip6tnl"}
  {
    assert |FlowDevice(a)| == 10 && |"tunl0"| == 5 && |"pona_tunl"| == 9 && |"ip6tnl0"| == 7 && |"pona_ip6tnl"| == 11;
  }

  lemma RenameDeviceEffect(f: Faults, k: Kernel, a: Addr)
    ensures var o := RenameDevice(f, k, Fallback(a), Renamed(a));
      && Grows(k, o.k, {Renamed(a)})
      && (o.r.Err? ==> o.r.error == Refused)
      && (forall n | n != Fallback(a) && n != Renamed(a) :: SameLink(k, o.k, n))
      && FallbackFollows(k, o.k, a)
      && (o.r.Err? ==> !Moved(k, o.k, a))
      && (Quiet(f) ==> (o.r.Ok? <==> FallbackFree(k, a)))
      && (Quiet(f) && o.r.Ok? ==> Fallback(a) !in o.k.links)
  {
    var found := LinkByName(f, k, Fallback(a));
    LinkByNameEffect(f, k, Fallback(a));
    if found.r.Ok? && found.r.value.Some? {
      LinkSetNameEffect(f, found.k, found.r.value.value, Renamed(a));
      GrowsTrans(k, found.k, LinkSetName(f, found.k, found.r.value.value, Renamed(a)).k, {}, {Renamed(a)});
    }
  }

  lemma SetupFlowBasedEffect(f: Faults, k: Kernel, a: Addr)
    ensures var o := SetupFlowBased(f, k, a);
      && Grows(k, o.k, {FlowDevice(a), Renamed(a)})
      && (o.r.Ok? ==> FlowDevice(a) in o.k.links && o.k.links[FlowDevice(a)].up)
      && (o.r.Err? ==> o.r.error == Refused)
      && FallbackFollows(k, o.k, a)
      && (Quiet(f) ==> (o.r.Ok? <==> FallbackFree(k, a)))
  {
    var dev := SetupDevice(f, k, FlowDevice(a));
    SetupDeviceEffect(f, k, FlowDevice(a));
    SetupDeviceKeepsOthers(f, k, a);
    RenameAfterSetup(f, k, dev.k, a);
  }

  lemma RenameAfterSetup(f: Faults, k: Kernel, k1: Kernel, a: Addr)
    requires Grows(k, k1, {FlowDevice(a)}) && forall n | n != FlowDevice(a) :: SameLink(k, k1, n)
    ensures var o := RenameDevice(f, k1, Fallback(a), Renamed(a));
      && Grows(k, k1, {FlowDevice(a), Renamed(a)}) && Grows(k, o.k, {FlowDevice(a), Renamed(a)})
      && (FlowDevice(a) in k1.links && k1.links[FlowDevice(a)].up ==>
            FlowDevice(a) in o.k.links && o.k.links[FlowDevice(a)].up)
      && (o.r.Err? ==> o.r.error == Refused)
      && FallbackFollows(k, k1, a) && FallbackFollows(k, o.k, a)
      && (Quiet(f) ==> (o.r.Ok? <==> FallbackFree(k, a)))
  {
    RenameDeviceEffect(f, k1, a);
    DeviceNamesApart(a);
    assert SameLink(k, k1, "tunl0") && SameLink(k, k1, "pona_tunl");
    assert SameLink(k, k1, "ip6tnl0") && SameLink(k, k1, "pona_ip6tnl");
    GrowsTrans(k, k1, RenameDevice(f, k1, Fallback(a), Renamed(a)).k, {FlowDevice(a)}, {Renamed(a)});
    assert {FlowDevice(a)} + {Renamed(a)} == {FlowDevice(a), Renamed(a)};
  }

  /** The decapsulating devices by name: the one of `a`'s family is up, the other is as it was. */
  ghost predicate DeviceUp(k: Kernel, k': Kernel, a: Addr) {
    var (mine, other) := if a.V4? then ("pona_ipip4", "pona_ipip6") else ("pona_ipip6", "pona_ipip4");
    mine in k'.links && k'.links[mine].up && SameLink(k, k', other)
  }

  lemma DevicesSurviveRename(f: Faults, k: Kernel, k1: Kernel, a: Addr)
    requires FlowDevice(a) in k1.links && k1.links[FlowDevice(a)].up
    requires forall n | n != FlowDevice(a) :: SameLink(k, k1, n)
    ensures DeviceUp(k, RenameDevice(f, k1, Fallback(a), Renamed(a)).k, a)
  {
    RenameDeviceEffect(f, k1, a);
    DeviceNamesApart(V4([0, 0, 0, 0]));
    DeviceNamesApart(NoAddr);
    var o := RenameDevice(f, k1, Fallback(a), Renamed(a));
    assert "pona_ipip4"[9] != "pona_ipip6"[9];
    assert SameLink(k1, o.k, "pona_ipip4") && SameLink(k1, o.k, "pona_ipip6");
    if a.V4? { assert SameLink(k, k1, "pona_ipip6"); } else { assert SameLink(k, k1, "pona_ipip4"); }
  }

  /** Without refusals the device comes up even if the fallback device cannot be renamed. */
  lemma QuietDevice(f: Faults, k: Kernel, a: Addr)
    requires Quiet(f)
    ensures DeviceUp(k, SetupFlowBased(f, k, a).k, a)
  {
    SetupDeviceEffect(f, k, FlowDevice(a));
    SetupDeviceKeepsOthers(f, k, a);
    DevicesSurviveRename(f, k, SetupDevice(f, k, FlowDevice(a)).k, a);
  }

  lemma SetupFlowBasedDevice(f: Faults, k: Kernel, a: Addr)
    requires SetupFlowBased(f, k, a).r.Ok?
    ensures DeviceUp(k, SetupFlowBased(f, k, a).k, a)
  {
    SetupDeviceEffect(f, k, FlowDevice(a));
    SetupDeviceKeepsOthers(f, k, a);
    DevicesSurviveRename(f, k, SetupDevice(f, k, FlowDevice(a)).k, a);
  }

  /** A success that creates the link leaves the device of the address's own family up and the other one alone. */
  lemma NewPeerDevice(c: Config, f: Faults, k: Kernel, a: Addr)
    requires AddPeer(c, f, k, a).r.Ok? && !HasTunnel(c, k, a)
    ensures DeviceUp(k, AddPeer(c, f, k, a).k, a)
  {
    var name := LinkName(c.digest, a);
    var added := LinkAdd(f, Tick(k), name);
    SetupFlowBasedDevice(f, added.k, a);
    assert name[0] == 'f' && "pona_ipip4"[0] == 'p' && "pona_ipip6"[0] == 'p';
  }

  /** Setting the flow device up touches no link of another name. */
  lemma SetupDeviceKeepsOthers(f: Faults, k: Kernel, a: Addr)
    ensures var o := SetupDevice(f, k, FlowDevice(a)); forall n | n != FlowDevice(a) :: SameLink(k, o.k, n)
  {}

  /** The links that adding a peer may bring. */
  function PeerLinks(c: Config, a: Addr): set<string>
    requires a != NoAddr
  {
    if Supported(c, a) then {LinkName(c.digest, a), FlowDevice(a), Renamed(a)} else {}
  }

  /** Adding a link of a free name, after one lookup, and setting the flow device of `a` up after it. */
  lemma NewLinkEffect(f: Faults, k: Kernel, a: Addr, name: string)
    requires !IsFallback(name) && name != "pona_tunl" && name != "pona_ip6tnl"
    ensures var added := LinkAdd(f, Tick(k), name);
      if added.r.Err? then Grows(k, added.k, {name, FlowDevice(a), Renamed(a)}) && added.k.links == k.links
      else
        var o := SetupFlowBased(f, added.k, a);
        && Grows(k, o.k, {name, FlowDevice(a), Renamed(a)}) && Live(o.k, added.r.value)
        && (o.r.Err? ==> o.r.error == Refused)
        && FallbackFollows(k, o.k, a)
  {
    var added := LinkAdd(f, Tick(k), name);
    LinkAddEffect(f, Tick(k), name);
    if added.r.Ok? {
      SetupFlowBasedEffect(f, added.k, a);
      GrowsTrans(k, added.k, SetupFlowBased(f, added.k, a).k, {name}, {FlowDevice(a), Renamed(a)});
      assert {name} + {FlowDevice(a), Renamed(a)} == {name, FlowDevice(a), Renamed(a)};
    }
  }

  lemma AddPeerEffect(c: Config, f: Faults, k: Kernel, a: Addr)
    requires a != NoAddr
    ensures var o := AddPeer(c, f, k, a); var name := LinkName(c.digest, a);
      && Grows(k, o.k, PeerLinks(c, a))
      && (o.r.Ok? ==> Supported(c, a) && o.r.value.name == name && Live(o.k, o.r.value))
      && (o.r.Err? ==> o.r.error in {FamilyMismatch, Refused})
      && (o.r == Err(FamilyMismatch) <==> !Supported(c, a))
      && (!Supported(c, a) ==> o.k == k)
      && FallbackFollows(k, o.k, a) && (FallbacksFree(k) ==> FallbacksFree(o.k))
  {
    if Supported(c, a) {
      var name := LinkName(c.digest, a);
      LinkByNameEffect(f, k, name);
      TunnelNamesApart(c, a, V4([0, 0, 0, 0]));
      TunnelNamesApart(c, a, NoAddr);
      if LinkByName(f, k, name).r == Ok(None) { NewLinkEffect(f, k, a, name); }
    }
    FollowingKeepsFree(k, AddPeer(c, f, k, a).k, a);
  }

  /** An address has its tunnel, or nothing keeps the fallback device from being renamed for a new one. */
  ghost predicate Reachable(c: Config, k: Kernel, a: Addr) { HasTunnel(c, k, a) || FallbackFree(k, a) }

  /** With nothing refused, a supported address gets its tunnel unless the fallback's new name is taken. */
  lemma AddPeerSucceeds(c: Config, f: Faults, k: Kernel, a: Addr)
    requires a != NoAddr && Quiet(f)
    ensures AddPeer(c, f, k, a).r.Ok? <==>
      Supported(c, a) && Reachable(c, k, a)
  {
    if Supported(c, a) && LinkName(c.digest, a) !in k.links {
      TunnelNamesApart(c, a, a);
      var added := LinkAdd(f, LinkByName(f, k, LinkName(c.digest, a)).k, LinkName(c.digest, a));
      SetupFlowBasedEffect(f, added.k, a);
    }
  }

  /**
   And where it is taken the second attempt succeeds: the first has added the link before it fails to rename
   the device, and the second finds the link and asks for nothing more.
   */
  lemma SecondAddPeerSucceeds(c: Config, f: Faults, k: Kernel, a: Addr)
    requires a != NoAddr && Quiet(f) && Supported(c, a) && !Reachable(c, k, a)
    ensures var first := AddPeer(c, f, k, a); var second := AddPeer(c, f, first.k, a);
      && first.r == Err(Refused) && HasTunnel(c, first.k, a) && DeviceUp(k, first.k, a)
      && second.r.Ok? && second.k == Tick(first.k) && !FallbackFree(second.k, a)
  {
    var name := LinkName(c.digest, a);
    TunnelNamesApart(c, a, a);
    var added := LinkAdd(f, LinkByName(f, k, name).k, name);
    SetupFlowBasedEffect(f, added.k, a);
    QuietDevice(f, added.k, a);
    assert name[0] == 'f' && "pona_ipip4"[0] == 'p' && "pona_ipip6"[0] == 'p';
    AddPeerEffect(c, f, k, a);
    FollowingKeepsFree(k, AddPeer(c, f, k, a).k, a);
  }

  lemma DelPeerEffect(c: Config, f: Faults, k: Kernel, a: Addr)
    requires a != NoAddr
    ensures var o := DelPeer(c, f, k, a); var name := LinkName(c.digest, a);
      && o.k.rules == k.rules && o.k.settings == k.settings
      && (LinksWf(k.links, k.next) ==> LinksWf(o.k.links, o.k.next))
      && (o.r.Ok? ==> o.k.links == k.links - {name})
      && (o.r.Ok? ==> forall r | r in k.routes ::
            r in o.k.routes <==> !(name in k.links && r.hop == Via(k.links[name].index)))
      && o.k.routes <= k.routes
      && (o.r.Err? ==> o.r.error == Refused && o.k.links == k.links && o.k.routes == k.routes)
  {}

  /** No tunnel name is a flow-based device, a fallback device under either name, or a dummy link. */
  lemma TunnelNamesApart(c: Config, a: Addr, b: Addr)
    requires a != NoAddr
    ensures LinkName(c.digest, a) != FlowDevice(b) && LinkName(c.digest, a) != Renamed(b)
    ensures !IsFallback(LinkName(c.digest, a))
    ensures LinkName(c.digest, a) != FOU_DUMMY && LinkName(c.digest, a) != "nat-dummy"
  {}

  /** Deleting the tunnel of one IPv4 address leaves every other address its tunnel, whatever the digest does. */
  lemma DelPeerSparesOthers(c: Config, f: Faults, k: Kernel, a: Addr, b: Addr)
    requires a.V4? && b != NoAddr && a != b
    ensures HasTunnel(c, DelPeer(c, f, k, a).k, b) <==> HasTunnel(c, k, b)
  {
    LinkNameInjective(c.digest, a, b);
    DelPeerEffect(c, f, k, a);
  }

  /**
   A successful `AddPeer` leaves the flow-based device up exactly when it had to create the
   tunnel link or the device was up before: a set-up that failed once is never retried.
   */
  lemma FlowDeviceReady(c: Config, f: Faults, k: Kernel, a: Addr)
    requires AddPeer(c, f, k, a).r.Ok?
    ensures var dev := FlowDevice(a); var k' := AddPeer(c, f, k, a).k;
      (dev in k'.links && k'.links[dev].up) <==> !HasTunnel(c, k, a) || (dev in k.links && k.links[dev].up)
  {
    var found := LinkByName(f, k, LinkName(c.digest, a));
    if found.r.value.None? {
      var added := LinkAdd(f, found.k, LinkName(c.digest, a));
      SetupFlowBasedEffect(f, added.k, a);
    }
  }
}
