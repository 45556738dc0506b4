/**
 One-time set-up guarded by a dummy link: look the link up, do every step, add the link last.
 A process that dies between two steps leaves the state that a refusal of the next step leaves,
 so runs of refused attempts cover crashes too.
 */
module Sentinel {
  import opened KernelModel

  datatype SetUpStep = Set(s: Setting) | AddRule(r: Rule) | OpenIPTables

  function DoStep(f: Faults, k: Kernel, s: SetUpStep): Out<()> {
    match s
    case Set(x) => Apply(f, k, x)
    case AddRule(r) => RuleAdd(f, k, r)
    case OpenIPTables => List(f, k)
  }

  function RunSteps(f: Faults, k: Kernel, ss: seq<SetUpStep>): Out<()>
    decreases |ss|
  {
    if ss == [] then Out(k, Ok(()))
    else
      var o := DoStep(f, k, ss[0]);
      if o.r.Err? then o else RunSteps(f, o.k, ss[1..])
  }

  function GuardedInit(f: Faults, k: Kernel, dummy: string, ss: seq<SetUpStep>): Out<()> {
    var found := LinkByName(f, k, dummy);
    if found.r.Err? then Out(found.k, Err(found.r.error))
    else if found.r.value.Some? then Out(found.k, Ok(()))
    else
      var done := RunSteps(f, found.k, ss);
      if done.r.Err? then done
      else
        var added := LinkAdd(f, done.k, dummy);
        Out(added.k, if added.r.Ok? then Ok(()) else Err(added.r.error))
  }

  ghost predicate Done(k: Kernel, s: SetUpStep) {
    match s
    case Set(x) => x in k.settings
    case AddRule(r) => r in k.rules
    case OpenIPTables => true
  }

  ghost predicate AllDone(k: Kernel, ss: seq<SetUpStep>) {
    forall s | s in ss :: Done(k, s)
  }

  /** If the dummy link is there, nothing is missing. */
  ghost predicate SentinelHolds(k: Kernel, dummy: string, ss: seq<SetUpStep>) {
    dummy in k.links ==> AllDone(k, ss)
  }

  /** Nothing that was set is lost. */
  ghost predicate Keeps(k: Kernel, k': Kernel) {
    k.settings <= k'.settings && k.rules <= k'.rules
  }

  /** Everything but the call counter is the same. */
  ghost predicate Unchanged(k: Kernel, k': Kernel) {
    k' == k.(clock := k'.clock)
  }

  lemma {:induction false} RunStepsEffect(f: Faults, k: Kernel, ss: seq<SetUpStep>)
    ensures var o := RunSteps(f, k, ss);
      && Keeps(k, o.k) && o.k.links == k.links && o.k.routes == k.routes && o.k.next == k.next
      && (o.r.Ok? ==> AllDone(o.k, ss))
    decreases |ss|
  {
    if ss != [] {
      var o := DoStep(f, k, ss[0]);
      if o.r.Ok? {
        RunStepsEffect(f, o.k, ss[1..]);
        assert ss == [ss[0]] + ss[1..];
      }
    }
  }

  lemma GuardedInitEffect(f: Faults, k: Kernel, dummy: string, ss: seq<SetUpStep>)
    ensures var o := GuardedInit(f, k, dummy, ss);
      && Keeps(k, o.k) && o.k.routes == k.routes
      && (forall n | n in k.links :: n in o.k.links && o.k.links[n] == k.links[n])
      && (forall n | n in o.k.links && n !in k.links :: n == dummy && o.r.Ok?)
      && (LinksWf(k.links, k.next) ==> LinksWf(o.k.links, o.k.next))
      && (o.r.Ok? ==> dummy in o.k.links)
      && (dummy in k.links ==> Unchanged(k, o.k))
      && (SentinelHolds(k, dummy, ss) ==> SentinelHolds(o.k, dummy, ss))
  {
    var found := LinkByName(f, k, dummy);
    if found.r.Ok? && found.r.value.None? {
      RunStepsEffect(f, found.k, ss);
    }
  }

  // ---- when a start can succeed ----

  /** Steps that the kernel refuses to do twice. */
  predicate IsExclusive(s: SetUpStep) { s.AddRule? || (s.Set? && s.s.FouListener?) }

  ghost predicate ExclusiveOnce(ss: seq<SetUpStep>) {
    forall i, j | 0 <= i < j < |ss| && IsExclusive(ss[i]) :: ss[i] != ss[j]
  }

  /** No exclusive step has been done yet. */
  ghost predicate Open(k: Kernel, ss: seq<SetUpStep>) {
    forall s | s in ss && IsExclusive(s) :: !Done(k, s)
  }

  lemma {:induction false} RunStepsSucceed(f: Faults, k: Kernel, ss: seq<SetUpStep>)
    requires ExclusiveOnce(ss)
    ensures RunSteps(f, k, ss).r.Ok? ==> Open(k, ss)
    ensures Quiet(f) && Open(k, ss) ==> RunSteps(f, k, ss).r.Ok?
    decreases |ss|
  {
    if ss != [] {
      var o := DoStep(f, k, ss[0]);
      assert ss[0] in ss && ss == [ss[0]] + ss[1..];
      if o.r.Ok? {
        forall s | s in ss[1..] && IsExclusive(s)
          ensures Done(o.k, s) <==> Done(k, s)
        {
          var j :| 0 <= j < |ss[1..]| && ss[1..][j] == s;
          assert ss[j + 1] == s;
        }
        RunStepsSucceed(f, o.k, ss[1..]);
      }
    }
  }

  /** Without refusals a start succeeds exactly if the dummy link is there or no exclusive step was done before. */
  lemma InitSucceedsExactly(f: Faults, k: Kernel, dummy: string, ss: seq<SetUpStep>)
    requires ExclusiveOnce(ss) && Quiet(f)
    ensures GuardedInit(f, k, dummy, ss).r.Ok? <==> dummy in k.links || Open(k, ss)
  {
    var found := LinkByName(f, k, dummy);
    RunStepsSucceed(f, found.k, ss);
    RunStepsEffect(f, found.k, ss);
    assert Open(found.k, ss) <==> Open(k, ss);
  }

  /** Steps that add no rule leave the rules alone. */
  lemma {:induction false} NoRuleSteps(f: Faults, k: Kernel, ss: seq<SetUpStep>)
    requires forall s | s in ss :: !s.AddRule?
    ensures RunSteps(f, k, ss).k.rules == k.rules
    decreases |ss|
  {
    if ss != [] {
      assert ss[0] in ss && forall s | s in ss[1..] :: s in ss;
      NoRuleSteps(f, DoStep(f, k, ss[0]).k, ss[1..]);
    }
  }

  /** `n` starts of a process that calls `Init`, each cut off anywhere or not at all. */
  function Starts(f: Faults, k: Kernel, dummy: string, ss: seq<SetUpStep>, n: nat): Kernel {
    if n == 0 then k else GuardedInit(f, Starts(f, k, dummy, ss, n - 1), dummy, ss).k
  }

  /** Over every run of starts the dummy link vouches for every step. */
  lemma {:induction false} SentinelIsCrashSafe(f: Faults, k: Kernel, dummy: string, ss: seq<SetUpStep>, n: nat)
    requires SentinelHolds(k, dummy, ss)
    ensures SentinelHolds(Starts(f, k, dummy, ss, n), dummy, ss)
  {
    if n > 0 {
      SentinelIsCrashSafe(f, k, dummy, ss, n - 1);
      GuardedInitEffect(f, Starts(f, k, dummy, ss, n - 1), dummy, ss);
    }
  }

  /** Once the dummy link is there, no later start changes anything. */
  lemma {:induction false} InitOnceOnly(f: Faults, k: Kernel, dummy: string, ss: seq<SetUpStep>, m: nat, n: nat)
    requires m <= n && dummy in Starts(f, k, dummy, ss, m).links
    ensures Unchanged(Starts(f, k, dummy, ss, m), Starts(f, k, dummy, ss, n))
  {
    if m < n {
      InitOnceOnly(f, k, dummy, ss, m, n - 1);
      GuardedInitEffect(f, Starts(f, k, dummy, ss, n - 1), dummy, ss);
    }
  }

  /**
   Crash-safe is not crash-proof: a start cut off after an exclusive step but before the dummy link can
   never be completed, whatever later starts meet with.
   */
  lemma {:induction false} InterruptedInitIsStuck(f: Faults, k: Kernel, dummy: string, ss: seq<SetUpStep>, n: nat)
    requires ExclusiveOnce(ss) && dummy !in k.links && !Open(k, ss)
    ensures var k' := Starts(f, k, dummy, ss, n); dummy !in k'.links && !Open(k', ss)
    ensures GuardedInit(f, Starts(f, k, dummy, ss, n), dummy, ss).r.Err?
  {
    if n > 0 {
      InterruptedInitIsStuck(f, k, dummy, ss, n - 1);
      GuardedInitEffect(f, Starts(f, k, dummy, ss, n - 1), dummy, ss);
    }
    var k' := Starts(f, k, dummy, ss, n);
    RunStepsSucceed(f, LinkByName(f, k', dummy).k, ss);
    assert Open(LinkByName(f, k', dummy).k, ss) <==> Open(k', ss);
  }

  /** Such a cut exists: refuse the dummy link alone, and one exclusive step leaves the host stuck. */
  lemma RefusedDummyBlocks(f: Faults, k: Kernel, dummy: string, ss: seq<SetUpStep>, s: SetUpStep)
    requires ExclusiveOnce(ss) && dummy !in k.links && s in ss && IsExclusive(s)
    requires !f(k.clock) && RunSteps(f, LinkByName(f, k, dummy).k, ss).r.Ok?
    requires f(RunSteps(f, LinkByName(f, k, dummy).k, ss).k.clock)
    ensures var o := GuardedInit(f, k, dummy, ss); o.r.Err? && dummy !in o.k.links && !Open(o.k, ss)
  {
    RunStepsEffect(f, LinkByName(f, k, dummy).k, ss);
  }

  lemma {:induction false} RunStepsLocal(f: Faults, g: Faults, t: nat, k: Kernel, ss: seq<SetUpStep>)
    requires SameBefore(f, g, t)
    ensures RunSteps(g, k, ss).k.clock >= k.clock
    ensures RunSteps(g, k, ss).k.clock <= t ==> RunSteps(f, k, ss) == RunSteps(g, k, ss)
    decreases |ss|
  {
    if ss != [] {
      RunStepsLocal(f, g, t, DoStep(g, k, ss[0]).k, ss[1..]);
    }
  }

  /** So one refused call, on a host on which nothing was set up, is enough. */
  lemma OneRefusalBlocks(k: Kernel, dummy: string, ss: seq<SetUpStep>, s: SetUpStep) returns (t: nat)
    requires ExclusiveOnce(ss) && Open(k, ss) && dummy !in k.links && s in ss && IsExclusive(s)
    ensures var f := n => n == t; var o := GuardedInit(f, k, dummy, ss);
      o.r.Err? && dummy !in o.k.links && !Open(o.k, ss)
  {
    var g: Faults := n => false;
    var k1 := LinkByName(g, k, dummy).k;
    assert Open(k1, ss) <==> Open(k, ss);
    RunStepsSucceed(g, k1, ss);
    t := RunSteps(g, k1, ss).k.clock;
    var f: Faults := n => n == t;
    RunStepsLocal(f, g, t, k1, ss);
    RefusedDummyBlocks(f, k, dummy, ss, s);
  }
}
