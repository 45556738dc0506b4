/** The netlink calls of the repository, acting on one kernel. */
module NetlinkSocket {
  import opened Sequences
  import opened Addresses
  import opened KernelModel

  /** The netlink socket. `trace` is every state the kernel has been in since the object was made. */
  class Netlink {
    const faults: Faults
    var st: Kernel
    ghost var trace: seq<Kernel>

    constructor (faults: Faults, st: Kernel)
      ensures this.faults == faults && this.st == st && trace == [st]
    {
      this.faults := faults;
      this.st := st;
      this.trace := [st];
    }

    method LinkByName(name: string) returns (r: Result<Option<LinkRef>>)
      modifies this
      ensures Out(st, r) == KernelModel.LinkByName(faults, old(st), name)
      ensures trace == old(trace) + [st]
    {
      var o := KernelModel.LinkByName(faults, st, name);
      st, r := o.k, o.r;
      trace := trace + [st];
    }

    method LinkAdd(name: string) returns (r: Result<LinkRef>)
      modifies this
      ensures Out(st, r) == KernelModel.LinkAdd(faults, old(st), name)
      ensures trace == old(trace) + [st]
    {
      var o := KernelModel.LinkAdd(faults, st, name);
      st, r := o.k, o.r;
      trace := trace + [st];
    }

    method LinkDel(l: LinkRef) returns (r: Result<()>)
      modifies this
      ensures Out(st, r) == KernelModel.LinkDel(faults, old(st), l)
      ensures trace == old(trace) + [st]
    {
      var o := KernelModel.LinkDel(faults, st, l);
      st, r := o.k, o.r;
      trace := trace + [st];
    }

    method LinkSetUp(l: LinkRef) returns (r: Result<()>)
      modifies this
      ensures Out(st, r) == KernelModel.LinkSetUp(faults, old(st), l)
      ensures trace == old(trace) + [st]
    {
      var o := KernelModel.LinkSetUp(faults, st, l);
      st, r := o.k, o.r;
      trace := trace + [st];
    }

    method LinkSetName(l: LinkRef, to: string) returns (r: Result<()>)
      modifies this
      ensures Out(st, r) == KernelModel.LinkSetName(faults, old(st), l, to)
      ensures trace == old(trace) + [st]
    {
      var o := KernelModel.LinkSetName(faults, st, l, to);
      st, r := o.k, o.r;
      trace := trace + [st];
    }

    /** The destination is what the library and the kernel make of the request, see `StoredDst`. */
    method RouteAdd(table: nat, dst: Option<Prefix>, hop: Hop, metric: nat) returns (r: Result<()>)
      modifies this
      ensures Out(st, r) == KernelModel.RouteAdd(faults, old(st), table, dst, hop, metric)
      ensures trace == old(trace) + [st]
    {
      var o := KernelModel.RouteAdd(faults, st, table, dst, hop, metric);
      st, r := o.k, o.r;
      trace := trace + [st];
    }

    method RouteDel(x: Route) returns (r: Result<()>)
      modifies this
      ensures Out(st, r) == KernelModel.RouteDel(faults, old(st), x)
      ensures trace == old(trace) + [st]
    {
      var o := KernelModel.RouteDel(faults, st, x);
      st, r := o.k, o.r;
      trace := trace + [st];
    }

    method RuleAdd(x: Rule) returns (r: Result<()>)
      modifies this
      ensures Out(st, r) == KernelModel.RuleAdd(faults, old(st), x)
      ensures trace == old(trace) + [st]
    {
      var o := KernelModel.RuleAdd(faults, st, x);
      st, r := o.k, o.r;
      trace := trace + [st];
    }

    method RuleDel(x: Rule) returns (r: Result<()>)
      modifies this
      ensures Out(st, r) == KernelModel.RuleDel(faults, old(st), x)
      ensures trace == old(trace) + [st]
    {
      var o := KernelModel.RuleDel(faults, st, x);
      st, r := o.k, o.r;
      trace := trace + [st];
    }

    method Apply(s: Setting) returns (r: Result<()>)
      modifies this
      ensures Out(st, r) == KernelModel.Apply(faults, old(st), s)
      ensures trace == old(trace) + [st]
    {
      var o := KernelModel.Apply(faults, st, s);
      st, r := o.k, o.r;
      trace := trace + [st];
    }

    /** Opening an iptables handle probes the host and changes nothing. */
    method OpenIPTables() returns (r: Result<()>)
      modifies this
      ensures Out(st, r) == List(faults, old(st))
      ensures trace == old(trace) + [st]
    {
      var o := List(faults, st);
      st, r := o.k, o.r;
      trace := trace + [st];
    }

    /** Routes of one table and family, each once, in no particular order. */
    method RouteList(family: Family, table: nat) returns (r: Result<seq<Route>>)
      modifies this
      ensures st == List(faults, old(st)).k && r.Err? == List(faults, old(st)).r.Err?
      ensures r.Err? ==> r.error == Refused
      ensures r.Ok? ==>
        forall x :: x in r.value <==> x in st.routes && x.table == table && x.dst.addr.Family() == family
      ensures r.Ok? ==> NoRepeats(r.value)
      ensures trace == old(trace) + [st]
    {
      var o := List(faults, st);
      st := o.k;
      trace := trace + [st];
      if o.r.Err? {
        return Err(Refused);
      }
      var rest := set x | x in st.routes && x.table == table && x.dst.addr.Family() == family;
      ghost var all := rest;
      var out := [];
      while rest != {}
        invariant rest <= all
        invariant forall x :: x in out <==> x in all - rest
        invariant forall i, j | 0 <= i < j < |out| :: out[i] != out[j]
        decreases |rest|
      {
        var x :| x in rest;
        assert x !in out;
        out := out + [x];
        rest := rest - {x};
      }
      r := Ok(out);
    }

    /** Rules of one family, and of one table if given, as often as they are installed, in no particular order. */
    method RuleList(family: Family, table: Option<nat>) returns (r: Result<seq<Rule>>)
      modifies this
      ensures st == List(faults, old(st)).k && r.Err? == List(faults, old(st)).r.Err?
      ensures r.Err? ==> r.error == Refused
      ensures r.Ok? ==> forall x: Rule :: multiset(r.value)[x] == if Listed(x, family, table) then st.rules[x] else 0
      ensures trace == old(trace) + [st]
    {
      var o := List(faults, st);
      st := o.k;
      trace := trace + [st];
      if o.r.Err? {
        return Err(Refused);
      }
      var rest := st.rules;
      var out := [];
      while rest != multiset{}
        invariant rest <= st.rules
        invariant forall x: Rule :: multiset(out)[x] == if Listed(x, family, table) then st.rules[x] - rest[x] else 0
        decreases |rest|
      {
        var x :| x in rest;
        if Listed(x, family, table) {
          out := out + [x];
        }
        rest := rest - multiset{x};
      }
      r := Ok(out);
    }
  }

  /** The filter of a rule listing. */
  predicate Listed(x: Rule, family: Family, table: Option<nat>) {
    x.family == family && (table.Some? ==> x.table == table.value)
  }
}

/** One step of a guarded set-up, taken on a live kernel. */
module SetUp {
  import opened KernelModel
  import opened NetlinkSocket
  import opened Sentinel

  /** Do the first step of `todo`: what is left then ends where `todo` ends. */
  method Next(nl: Netlink, s: SetUpStep, ghost todo: seq<SetUpStep>) returns (r: Result<()>)
    requires todo != [] && todo[0] == s
    modifies nl
    ensures r.Err? ==> Out(nl.st, r) == RunSteps(nl.faults, old(nl.st), todo)
    ensures r.Ok? ==> RunSteps(nl.faults, nl.st, todo[1..]) == RunSteps(nl.faults, old(nl.st), todo)
  {
    match s
    case Set(x) => r := nl.Apply(x);
    case AddRule(x) => r := nl.RuleAdd(x);
    case OpenIPTables => r := nl.OpenIPTables();
  }
}
