/** The FoU tunnel controller as it drives netlink, step by step. */
module FouController {
  import opened Addresses
  import opened FouNaming
  import opened KernelModel
  import opened NetlinkSocket
  import opened Sentinel
  import opened SetUp
  import opened Fou

  class FouTunnelController {
    const c: Config
    const nl: Netlink

    constructor (c: Config, nl: Netlink)
      ensures this.c == c && this.nl == nl
    {
      this.c := c;
      this.nl := nl;
    }

    method Init() returns (r: Result<()>)
      modifies nl
      ensures Out(nl.st, r) == Fou.Init(c, nl.faults, old(nl.st))
    {
      var found := nl.LinkByName(FOU_DUMMY);
      if found.Err? { return Err(found.error); }
      if found.value.Some? { return Ok(()); }
      ghost var todo := InitSteps(c);
      if c.ip4.Some? {
        r := Init4(todo);
        if r.Err? { return; }
        todo := todo[7..];
      }
      if c.ip6.Some? {
        r := Init6(todo);
        if r.Err? { return; }
        todo := todo[5..];
      }
      assert todo == [];
      var added := nl.LinkAdd(FOU_DUMMY);
      r := if added.Ok? then Ok(()) else Err(added.error);
    }

    /** The IPv4 part of `Init`, the first seven steps of `todo`. */
    method Init4(ghost todo: seq<SetUpStep>) returns (r: Result<()>)
      requires InitSteps4(c) <= todo
      modifies nl
      ensures r.Err? ==> Out(nl.st, r) == RunSteps(nl.faults, old(nl.st), todo)
      ensures r.Ok? ==> RunSteps(nl.faults, nl.st, todo[7..]) == RunSteps(nl.faults, old(nl.st), todo)
    {
      r := Next(nl, Set(DefaultRPFilterOff), todo);
      if r.Err? { return; }
      r := Next(nl, Set(AllRPFilterOff), todo[1..]);
      if r.Err? { return; }
      r := Next(nl, Set(Forwarding(Inet4)), todo[2..]);
      if r.Err? { return; }
      r := Next(nl, Set(Module("fou")), todo[3..]);
      if r.Err? { return; }
      r := Next(nl, Set(FouListener(Inet4, 4, c.port)), todo[4..]);
      if r.Err? { return; }
      r := Next(nl, OpenIPTables, todo[5..]);
      if r.Err? { return; }
      r := Next(nl, Set(ChecksumFill(Inet4, c.port)), todo[6..]);
    }

    /** The IPv6 part of `Init`, the first five steps of `todo`. */
    method Init6(ghost todo: seq<SetUpStep>) returns (r: Result<()>)
      requires InitSteps6(c) <= todo
      modifies nl
      ensures r.Err? ==> Out(nl.st, r) == RunSteps(nl.faults, old(nl.st), todo)
      ensures r.Ok? ==> RunSteps(nl.faults, nl.st, todo[5..]) == RunSteps(nl.faults, old(nl.st), todo)
    {
      r := Next(nl, Set(Forwarding(Inet6)), todo);
      if r.Err? { return; }
      r := Next(nl, Set(Module("fou6")), todo[1..]);
      if r.Err? { return; }
      r := Next(nl, Set(FouListener(Inet6, 41, c.port)), todo[2..]);
      if r.Err? { return; }
      r := Next(nl, OpenIPTables, todo[3..]);
      if r.Err? { return; }
      r := Next(nl, Set(ChecksumFill(Inet6, c.port)), todo[4..]);
    }

    method IsInitialized() returns (b: bool)
      modifies nl
      ensures b <==> !nl.faults(old(nl.st).clock) && FOU_DUMMY in old(nl.st).links
      ensures Unchanged(old(nl.st), nl.st)
    {
      var found := nl.LinkByName(FOU_DUMMY);
      b := found.Ok? && found.value.Some?;
    }

    method SetupDevice(name: string) returns (r: Result<()>)
      modifies nl
      ensures Out(nl.st, r) == Fou.SetupDevice(nl.faults, old(nl.st), name)
    {
      var found := nl.LinkByName(name);
      if found.Err? {
        return Err(found.error);
      }
      var l := found.value;
      if l.None? {
        var added := nl.LinkAdd(name);
        if added.Err? {
          return Err(added.error);
        }
        var again := nl.LinkByName(name);
        if again.Err? {
          return Err(again.error);
        }
        if again.value.None? {
          return Err(Refused);
        }
        l := again.value;
      }
      r := nl.LinkSetUp(l.value);
    }

    method RenameDevice(from: string, to: string) returns (r: Result<()>)
      modifies nl
      ensures Out(nl.st, r) == Fou.RenameDevice(nl.faults, old(nl.st), from, to)
    {
      var found := nl.LinkByName(from);
      if found.Err? || found.value.None? { return Ok(()); }
      r := nl.LinkSetName(found.value.value, to);
    }

    method SetupFlowBased(a: Addr) returns (r: Result<()>)
      modifies nl
      ensures Out(nl.st, r) == Fou.SetupFlowBased(nl.faults, old(nl.st), a)
    {
      r := SetupDevice(FlowDevice(a));
      if r.Err? { return; }
      r := RenameDevice(Fallback(a), Renamed(a));
    }

    method AddPeer(a: Addr) returns (r: Result<LinkRef>)
      modifies nl
      ensures Out(nl.st, r) == Fou.AddPeer(c, nl.faults, old(nl.st), a)
    {
      if a == NoAddr {
        return Err(UnknownFamily);
      }
      if !Supported(c, a) {
        return Err(FamilyMismatch);
      }
      var found := nl.LinkByName(LinkName(c.digest, a));
      if found.Err? {
        return Err(found.error);
      }
      if found.value.Some? {
        return Ok(found.value.value);
      }
      r := nl.LinkAdd(LinkName(c.digest, a));
      if r.Err? {
        return;
      }
      var dev := SetupFlowBased(a);
      if dev.Err? {
        r := Err(dev.error);
      }
    }

    method DelPeer(a: Addr) returns (r: Result<()>)
      modifies nl
      ensures Out(nl.st, r) == Fou.DelPeer(c, nl.faults, old(nl.st), a)
    {
      if a == NoAddr {
        return Err(UnknownFamily);
      }
      var found := nl.LinkByName(LinkName(c.digest, a));
      if found.Err? {
        return Err(found.error);
      }
      if found.value.None? {
        return Ok(());
      }
      r := nl.LinkDel(found.value.value);
    }
  }
}
