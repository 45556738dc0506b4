/** A call meets only the refusals of its own time: other refusals later on give the same result. */
module Locality {
  import opened Addresses
  import opened FouNaming
  import opened KernelModel
  import opened Fou
  import opened NatGateway
  import opened PodWatching

  lemma SetupDeviceLocal(f: Faults, g: Faults, t: nat, k: Kernel, name: string)
    requires SameBefore(f, g, t)
    ensures SetupDevice(g, k, name).k.clock >= k.clock
    ensures SetupDevice(g, k, name).k.clock <= t ==> SetupDevice(f, k, name) == SetupDevice(g, k, name)
  {
    var k1 := LinkByName(g, k, name).k;
    var k2 := LinkAdd(g, k1, name).k;
    var k3 := LinkByName(g, k2, name).k;
    assert k.clock < k1.clock < k2.clock < k3.clock;
    if SetupDevice(g, k, name).k.clock <= t {
      assert f(k.clock) == g(k.clock);
      if !g(k.clock) {
        assert f(k1.clock) == g(k1.clock);
        if name !in k.links && !g(k1.clock) {
          assert f(k2.clock) == g(k2.clock);
          if !g(k2.clock) { assert f(k3.clock) == g(k3.clock); }
        }
      }
    }
  }

  lemma RenameDeviceLocal(f: Faults, g: Faults, t: nat, k: Kernel, from: string, to: string)
    requires SameBefore(f, g, t)
    ensures RenameDevice(g, k, from, to).k.clock >= k.clock
    ensures RenameDevice(g, k, from, to).k.clock <= t ==> RenameDevice(f, k, from, to) == RenameDevice(g, k, from, to)
  {}

  lemma SetupFlowBasedLocal(f: Faults, g: Faults, t: nat, k: Kernel, a: Addr)
    requires SameBefore(f, g, t)
    ensures SetupFlowBased(g, k, a).k.clock >= k.clock
    ensures SetupFlowBased(g, k, a).k.clock <= t ==> SetupFlowBased(f, k, a) == SetupFlowBased(g, k, a)
  {
    SetupDeviceLocal(f, g, t, k, FlowDevice(a));
    RenameDeviceLocal(f, g, t, SetupDevice(g, k, FlowDevice(a)).k, Fallback(a), Renamed(a));
  }

  lemma AddPeerLocal(c: Config, f: Faults, g: Faults, t: nat, k: Kernel, a: Addr)
    requires SameBefore(f, g, t)
    ensures AddPeer(c, g, k, a).k.clock >= k.clock
    ensures AddPeer(c, g, k, a).k.clock <= t ==> AddPeer(c, f, k, a) == AddPeer(c, g, k, a)
  {
    if a != NoAddr && Supported(c, a) {
      var added := LinkAdd(g, Tick(k), LinkName(c.digest, a));
      SetupFlowBasedLocal(f, g, t, added.k, a);
    }
  }

  lemma AddClientLocal(c: Config, f: Faults, g: Faults, t: nat, k: Kernel, a: Addr, l: LinkRef)
    requires SameBefore(f, g, t)
    ensures AddClient(c, g, k, a, l).k.clock >= k.clock
    ensures AddClient(c, g, k, a, l).k.clock <= t ==> AddClient(c, f, k, a, l) == AddClient(c, g, k, a, l)
  {}

  lemma {:induction false} AddNewLocal(
      c: Config, f: Faults, g: Faults, t: nat, k: Kernel, existing: seq<Addr>, ips: seq<Addr>)
    requires SameBefore(f, g, t)
    ensures AddNew(c, g, k, existing, ips).k.clock >= k.clock
    ensures AddNew(c, g, k, existing, ips).k.clock <= t ==>
      AddNew(c, f, k, existing, ips) == AddNew(c, g, k, existing, ips)
    decreases |ips|
  {
    if ips != [] {
      if ips[0] in existing {
        AddNewLocal(c, f, g, t, k, existing, ips[1..]);
      } else {
        var link := AddPeer(c, g, k, ips[0]);
        AddPeerLocal(c, f, g, t, k, ips[0]);
        if link.r == Err(FamilyMismatch) {
          AddNewLocal(c, f, g, t, link.k, existing, ips[1..]);
        } else if link.r.Ok? {
          var client := AddClient(c, g, link.k, ips[0], link.r.value);
          AddClientLocal(c, f, g, t, link.k, ips[0], link.r.value);
          if client.r.Ok? { AddNewLocal(c, f, g, t, client.k, existing, ips[1..]); }
        }
      }
    }
  }

  lemma DelPeerLocal(c: Config, f: Faults, g: Faults, t: nat, k: Kernel, a: Addr)
    requires SameBefore(f, g, t)
    ensures DelPeer(c, g, k, a).k.clock >= k.clock
    ensures DelPeer(c, g, k, a).k.clock <= t ==> DelPeer(c, f, k, a) == DelPeer(c, g, k, a)
  {}
}
