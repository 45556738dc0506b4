/** The objects the egress controller keeps: `internal/controller/egress_controller.go`. */
module EgressController {
  import opened Sequences
  import opened Addresses

  type Labels = map<string, string>

  // ---- namespaces of the role binding ----

  /** Byte order of strings, as `sort.Strings` has it. */
  predicate Less(a: string, b: string) {
    if b == [] then false
    else if a == [] then true
    else a[0] < b[0] || (a[0] == b[0] && Less(a[1..], b[1..]))
  }

  /** `a` and `b` agree up to place `n`, where `a` ends or has the smaller character. */
  ghost predicate DecidedAt(a: string, b: string, n: nat) {
    n <= |a| && n < |b| && a[..n] == b[..n] && (n == |a| || a[n] < b[n])
  }

  /** The first place where two strings differ decides, and a string comes after its beginnings. */
  lemma {:induction false} LessExactly(a: string, b: string)
    ensures Less(a, b) <==> exists n: nat :: DecidedAt(a, b, n)
  {
    if a != [] && b != [] {
      LessExactly(a[1..], b[1..]);
      if n: nat :| DecidedAt(a, b, n) && n > 0 {
        assert a[..n][0] == b[..n][0];
        assert a[1..][..n - 1] == a[..n][1..] && b[1..][..n - 1] == b[..n][1..];
        assert DecidedAt(a[1..], b[1..], n - 1);
      }
      if a[0] == b[0] && Less(a[1..], b[1..]) {
        var n: nat :| DecidedAt(a[1..], b[1..], n);
        assert a[..n + 1] == [a[0]] + a[1..][..n] && b[..n + 1] == [b[0]] + b[1..][..n];
        assert DecidedAt(a, b, n + 1);
      }
    }
    if b != [] && (a == [] || a[0] < b[0]) {
      assert a[..0] == b[..0];
      assert DecidedAt(a, b, 0);
    }
  }

  lemma {:induction false} LessTrans(a: string, b: string, c: string)
    requires Less(a, b) && Less(b, c)
    ensures Less(a, c)
  {
    if a != [] && a[0] == b[0] == c[0] {
      LessTrans(a[1..], b[1..], c[1..]);
    }
  }

  lemma {:induction false} LessTotal(a: string, b: string)
    ensures a == b || Less(a, b) || Less(b, a)
    ensures !(Less(a, b) && Less(b, a)) && !Less(a, a)
  {
    if a != [] && b != [] && a[0] == b[0] {
      LessTotal(a[1..], b[1..]);
      assert a == [a[0]] + a[1..] && b == [b[0]] + b[1..];
    }
    if a != [] { LessTotal(a[1..], a[1..]); }
  }

  ghost predicate StrictlySorted(s: seq<string>) {
    forall i, j | 0 <= i < j < |s| :: Less(s[i], s[j])
  }

  /** `getNamespaces`: collect in a map, list it in whatever order, sort. */
  method GetNamespaces(items: seq<string>) returns (namespaces: seq<string>)
    ensures StrictlySorted(namespaces)
    ensures forall n :: n in namespaces <==> n in items
  {
    var nsMap: set<string> := {};
    for i := 0 to |items|
      invariant forall n :: n in nsMap <==> n in items[..i]
    {
      nsMap := nsMap + {items[i]};
    }
    assert items[..|items|] == items;
    namespaces := [];
    var rest := nsMap;
    while rest != {}
      invariant rest <= nsMap
      invariant StrictlySorted(namespaces)
      invariant forall n :: n in namespaces <==> n in nsMap && n !in rest
      decreases |rest|
    {
      var n :| n in rest;
      rest := rest - {n};
      namespaces := Insert(namespaces, n);
    }
  }

  /** One insertion of the sort. */
  method Insert(s: seq<string>, x: string) returns (r: seq<string>)
    requires StrictlySorted(s) && x !in s
    ensures StrictlySorted(r)
    ensures forall n :: n in r <==> n in s || n == x
  {
    var i := 0;
    while i < |s| && Less(s[i], x)
      invariant 0 <= i <= |s|
      invariant forall j | 0 <= j < i :: Less(s[j], x)
    {
      i := i + 1;
    }
    forall j | i <= j < |s|
      ensures Less(x, s[j])
    {
      LessTotal(x, s[i]);
      if j > i { LessTrans(x, s[i], s[j]); }
    }
    r := s[..i] + [x] + s[i..];
  }

  /** Sorted lists with the same members are the same list. */
  lemma {:induction false} SortedUnique(s: seq<string>, t: seq<string>)
    requires StrictlySorted(s) && StrictlySorted(t) && forall n :: n in s <==> n in t
    ensures s == t
  {
    if s == [] {
      assert forall i | 0 <= i < |t| :: t[i] in t;
    } else {
      assert s[0] in s && s[0] in t;
      assert t[0] in t && t[0] in s;
      LessTotal(s[0], t[0]);
      assert s[0] == t[0];
      forall n
        ensures n in s[1..] <==> n in t[1..]
      {
        LessTotal(s[0], s[0]);
        assert n in s[1..] <==> n in s && n != s[0];
        assert n in t[1..] <==> n in t && n != t[0];
      }
      SortedUnique(s[1..], t[1..]);
      assert s == [s[0]] + s[1..] && t == [t[0]] + t[1..];
    }
  }

  datatype Subject = Subject(kind: string, name: string, namespace: string)

  /** One subject per egress namespace, in order. */
  ghost predicate Binds(items: seq<string>, subjects: seq<Subject>) {
    exists ns: seq<string> ::
      && StrictlySorted(ns) && (forall n :: n in ns <==> n in items)
      && |subjects| == |ns| && forall i | 0 <= i < |ns| :: subjects[i] == Subject("ServiceAccount", "egress", ns[i])
  }

  /** The subjects that `reconcileCRB` patches into the binding. */
  method BindingSubjects(items: seq<string>) returns (subjects: seq<Subject>)
    ensures Binds(items, subjects)
  {
    var namespaces := GetNamespaces(items);
    subjects := [];
    for i := 0 to |namespaces|
      invariant |subjects| == i
      invariant forall j | 0 <= j < i :: subjects[j] == Subject("ServiceAccount", "egress", namespaces[j])
    {
      subjects := subjects + [Subject("ServiceAccount", "egress", namespaces[i])];
    }
  }

  /** The subjects depend only on the set of namespaces: not on the list order, not on the map order. */
  lemma SubjectsDetermined(items: seq<string>, others: seq<string>, s: seq<Subject>, t: seq<Subject>)
    requires Binds(items, s) && Binds(others, t)
    ensures s == t <==> forall n :: n in items <==> n in others
  {
    var ms: seq<string> :|
      && StrictlySorted(ms) && (forall n :: n in ms <==> n in items)
      && |s| == |ms| && forall i | 0 <= i < |ms| :: s[i] == Subject("ServiceAccount", "egress", ms[i]);
    var ns: seq<string> :|
      && StrictlySorted(ns) && (forall n :: n in ns <==> n in others)
      && |t| == |ns| && forall i | 0 <= i < |ns| :: t[i] == Subject("ServiceAccount", "egress", ns[i]);
    if s == t {
      assert forall i | 0 <= i < |ms| :: s[i].namespace == ms[i] && t[i].namespace == ns[i];
      assert ms == ns;
    }
    if forall n :: n in items <==> n in others {
      SortedUnique(ms, ns);
    }
  }

  // ---- the pod template ----

  const EGRESS := "egress"

  datatype Container = Container(name: string, image: string, env: seq<(string, string)>, mounts: seq<string>)

  datatype PodSpec = PodSpec(serviceAccount: string, volumes: seq<string>, containers: seq<Container>)

  const NO_CONTAINER := Container("", "", [], [])

  /** `addVolumes` and `addVolumeMounts`, by name: "run" unless it is there, "modules" in any case. */
  function AddVolumes(vols: seq<string>): seq<string> {
    (if "run" in vols then vols else vols + ["run"]) + ["modules"]
  }

  /** Volume names stay unique exactly when they were and the user has no "modules" volume. */
  lemma VolumesUnique(vols: seq<string>)
    ensures NoRepeats(AddVolumes(vols)) <==> NoRepeats(vols) && "modules" !in vols
  {
    var r := AddVolumes(vols);
    assert r[|r| - 1] == "modules" && vols <= r;
    if "modules" in vols {
      var i :| 0 <= i < |vols| && vols[i] == "modules";
      assert r[i] == r[|r| - 1];
    }
    if !NoRepeats(vols) {
      var i, j :| 0 <= i < j < |vols| && vols[i] == vols[j];
      assert r[i] == r[j];
    }
  }

  /** What the template reconciler makes of the container it has chosen. */
  function Dressed(c: Container, image: string, ns: string, name: string): Container {
    Container(EGRESS, if c.image == "" then image else c.image,
      c.env + [("PONA_POD_NAMESPACE", ns), ("PONA_EGRESS_NAME", name), ("PONA_POD_ADDRESSES", "status.podIPs")],
      AddVolumes(c.mounts))
  }

  /** The container selection as written: its second loop moves to the last container *not* named "egress". */
  method ReconcileContainers(containers: seq<Container>, image: string, ns: string, name: string)
      returns (cs: seq<Container>)
    ensures cs == Rendered(containers, image, ns, name)
  {
    cs := containers;
    var chosen: Option<nat> := None;
    for i := 0 to |cs|
      invariant chosen == LastNamed(cs[..i], true)
    {
      assert cs[..i + 1][..i] == cs[..i];
      if cs[i].name != EGRESS { continue; }
      chosen := Some(i);
    }
    assert cs[..|cs|] == cs;
    if chosen.None? {
      cs := [NO_CONTAINER] + cs;
      chosen := Some(0);
    }
    ghost var first := chosen;
    for i := 0 to |cs|
      invariant chosen == if LastNamed(cs[..i], false).Some? then LastNamed(cs[..i], false) else first
    {
      assert cs[..i + 1][..i] == cs[..i];
      if cs[i].name == EGRESS { continue; }
      chosen := Some(i);
    }
    assert cs[..|cs|] == cs;
    cs := cs[chosen.value := Dressed(cs[chosen.value], image, ns, name)];
  }

  /** The last container whose being named "egress" is `named`. */
  function LastNamed(cs: seq<Container>, named: bool): (r: Option<nat>)
    ensures r.Some? ==> r.value < |cs| && (cs[r.value].name == EGRESS) == named
    ensures r.Some? ==> forall j | r.value < j < |cs| :: (cs[j].name == EGRESS) != named
    ensures r.None? ==> forall c | c in cs :: (c.name == EGRESS) != named
  {
    if cs == [] then None
    else if (cs[|cs| - 1].name == EGRESS) == named then Some(|cs| - 1)
    else LastNamed(cs[..|cs| - 1], named)
  }

  function Candidates(containers: seq<Container>): seq<Container> {
    if LastNamed(containers, true).None? then [NO_CONTAINER] + containers else containers
  }

  function Rendered(containers: seq<Container>, image: string, ns: string, name: string): seq<Container> {
    var cs := Candidates(containers);
    var t := if LastNamed(cs, false).Some? then LastNamed(cs, false).value
             else if LastNamed(cs, true).Some? then LastNamed(cs, true).value else 0;
    cs[t := Dressed(cs[t], image, ns, name)]
  }

  /** A pod has one main container, and every container has a name. */
  ghost predicate WellNamed(cs: seq<Container>) {
    && (exists i :: 0 <= i < |cs| && cs[i].name == EGRESS && forall j | 0 <= j < |cs| && j != i :: cs[j].name != EGRESS)
    && (forall i | 0 <= i < |cs| :: cs[i].name != "")
  }

  /** The rendered template is well named exactly for no user containers or a sole "egress" container. */
  lemma ContainersWellNamedExactly(containers: seq<Container>, image: string, ns: string, name: string)
    ensures WellNamed(Rendered(containers, image, ns, name)) <==>
      containers == [] || (|containers| == 1 && containers[0].name == EGRESS)
  {
    var cs := Candidates(containers);
    var r := Rendered(containers, image, ns, name);
    if containers == [] {
      assert cs == [NO_CONTAINER];
      assert r[0].name == EGRESS;
    } else if LastNamed(containers, true).None? {
      var t := LastNamed(cs, false).value;
      assert |cs| > 1 && cs[|cs| - 1] == containers[|containers| - 1] && cs[|cs| - 1] in cs;
      assert containers[|containers| - 1] in containers;
      assert t == |cs| - 1 && r[0].name == "";
    } else {
      var e := LastNamed(containers, true).value;
      if LastNamed(cs, false).Some? {
        var t := LastNamed(cs, false).value;
        assert r[t].name == EGRESS && r[e].name == EGRESS && t != e;
      } else {
        assert forall i | 0 <= i < |cs| :: cs[i] in cs;
        assert forall i | 0 <= i < |r| :: r[i].name == EGRESS;
        if |containers| > 1 {
          assert r[0].name == EGRESS && r[1].name == EGRESS;
        } else {
          assert |r| == 1 && r[0].name == EGRESS && |EGRESS| != 0;
        }
      }
    }
  }

  // ---- deployment, service and disruption budget ----

  datatype PodTemplate = PodTemplate(labels: Labels, annotations: Labels, spec: PodSpec)

  /** `EgressSpec` as far as the mutators read it. */
  datatype Spec = Spec(
    replicas: int,
    strategy: Option<string>,
    template: Option<PodTemplate>,
    affinity: string,
    affinityConfig: Option<string>,
    budget: Option<(Option<int>, Option<int>)>)

  datatype Meta = Meta(created: bool, deleting: bool, owned: bool, labels: Labels)

  datatype Deployment = Deployment(
    meta: Meta, selector: Option<Labels>, replicas: Option<int>, strategy: string, template: PodTemplate)

  datatype Service = Service(
    meta: Meta, typ: string, selector: Labels, port: int, affinity: string, affinityConfig: Option<string>)

  datatype Budget = Budget(meta: Meta, minAvailable: Option<int>, maxUnavailable: Option<int>, selector: Labels)

  /** The controller's own settings and the egress being reconciled. */
  datatype Env = Env(port: int, image: string, namespace: string, name: string)

  const NO_META := Meta(false, false, false, map[])
  const NO_SPEC := PodSpec("", [], [])
  const NO_TEMPLATE := PodTemplate(map[], map[], NO_SPEC)
  const NO_DEPLOYMENT := Deployment(NO_META, None, None, "", NO_TEMPLATE)
  const NO_SERVICE := Service(NO_META, "", map[], 0, "", None)
  const NO_BUDGET := Budget(NO_META, None, None, map[])

  function AppLabels(name: string): Labels {
    map["app.kubernetes.io/name" := "pona",
        "app.kubernetes.io/instance" := name,
        "app.kubernetes.io/component" := "egress"]
  }

  function MutateMeta(m: Meta, name: string): Meta {
    Meta(m.created, m.deleting, m.owned || !m.created, m.labels + AppLabels(name))
  }

  function ReconcilePodTemplate(e: Env, s: Spec, target: PodTemplate): PodTemplate {
    var desired := if s.template.Some? then s.template.value else NO_TEMPLATE;
    PodTemplate(desired.labels + AppLabels(e.name), target.annotations + desired.annotations,
      PodSpec("egress", AddVolumes(desired.spec.volumes),
        Rendered(desired.spec.containers, e.image, e.namespace, e.name)))
  }

  function MutateDeployment(e: Env, s: Spec, d: Deployment): Deployment {
    if d.meta.deleting then d
    else Deployment(
      MutateMeta(d.meta, e.name),
      if d.meta.created then d.selector else Some(AppLabels(e.name)),
      Some(s.replicas),
      if s.strategy.Some? then s.strategy.value else d.strategy,
      ReconcilePodTemplate(e, s, d.template))
  }

  function MutateService(e: Env, s: Spec, v: Service): Service {
    if v.meta.deleting then v
    else Service(MutateMeta(v.meta, e.name), "ClusterIP", AppLabels(e.name), e.port, s.affinity,
      if s.affinityConfig.Some? then s.affinityConfig else v.affinityConfig)
  }

  function MutateBudget(e: Env, s: Spec, b: Budget): Budget {
    if b.meta.deleting || s.budget.None? then b
    else Budget(MutateMeta(b.meta, e.name),
      if s.budget.value.0.Some? then s.budget.value.0 else b.minAvailable,
      if s.budget.value.1.Some? then s.budget.value.1 else b.maxUnavailable,
      AppLabels(e.name))
  }

  /** The stored objects of one egress. */
  datatype Store = Store(dep: Option<Deployment>, svc: Option<Service>, pdb: Option<Budget>)

  /** What can happen to them: each reconcile may stop between objects, and others may delete them. */
  datatype Change =
    | ApplyDeployment(s: Spec) | ApplyService(s: Spec) | ApplyBudget(s: Spec)
    | DeletingDeployment | DeletingService | DeletingBudget
    | DeploymentGone | ServiceGone | BudgetGone

  function Created(m: Meta): Meta { m.(created := true) }

  /** `CreateOrUpdate`: mutate an empty object and create it, or mutate the stored one. */
  function Change1(e: Env, st: Store, c: Change): Store {
    match c
    case ApplyDeployment(s) =>
      var d := MutateDeployment(e, s, if st.dep.Some? then st.dep.value else NO_DEPLOYMENT);
      st.(dep := Some(d.(meta := Created(d.meta))))
    case ApplyService(s) =>
      var v := MutateService(e, s, if st.svc.Some? then st.svc.value else NO_SERVICE);
      st.(svc := Some(v.(meta := Created(v.meta))))
    case ApplyBudget(s) =>
      if s.budget.None? then st
      else
        var b := MutateBudget(e, s, if st.pdb.Some? then st.pdb.value else NO_BUDGET);
        st.(pdb := Some(b.(meta := Created(b.meta))))
    case DeletingDeployment =>
      if st.dep.None? then st else st.(dep := Some(st.dep.value.(meta := st.dep.value.meta.(deleting := true))))
    case DeletingService =>
      if st.svc.None? then st else st.(svc := Some(st.svc.value.(meta := st.svc.value.meta.(deleting := true))))
    case DeletingBudget =>
      if st.pdb.None? then st else st.(pdb := Some(st.pdb.value.(meta := st.pdb.value.meta.(deleting := true))))
    case DeploymentGone => st.(dep := None)
    case ServiceGone => st.(svc := None)
    case BudgetGone => st.(pdb := None)
  }

  /** What one reconcile that meets with no error does, in its order. */
  function Reconciled(e: Env, s: Spec, st: Store): Store {
    Change1(e, Change1(e, Change1(e, st, ApplyDeployment(s)), ApplyService(s)), ApplyBudget(s))
  }

  /** Any change made twice in a row is the change made once, from every store, new objects included. */
  lemma ChangeIdempotent(e: Env, st: Store, c: Change)
    ensures Change1(e, Change1(e, st, c), c) == Change1(e, st, c)
  {
    match c
    case ApplyDeployment(s) =>
      var d := if st.dep.Some? then st.dep.value else NO_DEPLOYMENT;
      LabelTwice(d.meta, e.name);
      TemplateTwice(e, s, d.template);
    case ApplyService(s) => LabelTwice((if st.svc.Some? then st.svc.value else NO_SERVICE).meta, e.name);
    case ApplyBudget(s) => LabelTwice((if st.pdb.Some? then st.pdb.value else NO_BUDGET).meta, e.name);
    case _ =>
  }

  lemma TemplateTwice(e: Env, s: Spec, t: PodTemplate)
    ensures ReconcilePodTemplate(e, s, ReconcilePodTemplate(e, s, t)) == ReconcilePodTemplate(e, s, t)
  {
    var desired := (if s.template.Some? then s.template.value else NO_TEMPLATE).annotations;
    assert t.annotations + desired + desired == t.annotations + desired;
  }

  lemma LabelTwice(m: Meta, name: string)
    ensures var m1 := Created(MutateMeta(m, name)); Created(MutateMeta(m1, name)) == m1
  {
    assert m.labels + AppLabels(name) + AppLabels(name) == m.labels + AppLabels(name);
  }

  /** Changes to different kinds of object do not depend on their order. */
  lemma ApplyCommutes(e: Env, s: Spec, st: Store, c: Change, d: Change)
    requires c in {ApplyDeployment(s), ApplyService(s), ApplyBudget(s)} && c != d
    requires d in {ApplyDeployment(s), ApplyService(s), ApplyBudget(s)}
    ensures Change1(e, Change1(e, st, c), d) == Change1(e, Change1(e, st, d), c)
  {}

  /** `cs` after one another, from a store. */
  function Applied(e: Env, st: Store, cs: seq<Change>): Store {
    if cs == [] then st else Change1(e, Applied(e, st, cs[..|cs| - 1]), cs[|cs| - 1])
  }

  /**
   Reconciling converges: after any sequence of reconciles of one spec, each cut off between two objects
   or not at all, a complete one leaves what a single complete one would have left.
   */
  lemma {:induction false} ReconcileConverges(e: Env, s: Spec, st: Store, cs: seq<Change>)
    requires forall c | c in cs :: c in {ApplyDeployment(s), ApplyService(s), ApplyBudget(s)}
    ensures Reconciled(e, s, Applied(e, st, cs)) == Reconciled(e, s, st)
    ensures Reconciled(e, s, Reconciled(e, s, st)) == Reconciled(e, s, st)
  {
    if cs != [] {
      var front, c := cs[..|cs| - 1], cs[|cs| - 1];
      assert c in cs && forall x | x in front :: x in cs;
      ReconcileConverges(e, s, st, front);
      ReconcileAbsorbs(e, s, Applied(e, st, front), c);
    }
    ReconcileAbsorbs(e, s, st, ApplyDeployment(s));
    ReconcileAbsorbs(e, s, Change1(e, st, ApplyDeployment(s)), ApplyService(s));
    ReconcileAbsorbs(e, s, Change1(e, Change1(e, st, ApplyDeployment(s)), ApplyService(s)), ApplyBudget(s));
  }

  lemma ReconcileAbsorbs(e: Env, s: Spec, st: Store, c: Change)
    requires c in {ApplyDeployment(s), ApplyService(s), ApplyBudget(s)}
    ensures Reconciled(e, s, Change1(e, st, c)) == Reconciled(e, s, st)
  {
    var st1 := Change1(e, st, ApplyDeployment(s));
    match c
    case ApplyDeployment(_) => ChangeIdempotent(e, st, c);
    case ApplyService(_) =>
      ApplyCommutes(e, s, st, c, ApplyDeployment(s));
      ChangeIdempotent(e, st1, c);
    case ApplyBudget(_) =>
      ApplyCommutes(e, s, st, c, ApplyDeployment(s));
      ApplyCommutes(e, s, st1, c, ApplyService(s));
      ChangeIdempotent(e, Change1(e, st1, ApplyService(s)), c);
  }

  function Changes(e: Env, cs: seq<Change>): Store {
    if cs == [] then Store(None, None, None) else Change1(e, Changes(e, cs[..|cs| - 1]), cs[|cs| - 1])
  }

  /** A selector matches a pod's labels. */
  predicate Selects(selector: Labels, labels: Labels) {
    forall k | k in selector :: k in labels && labels[k] == selector[k]
  }

  ghost predicate Labelled(name: string, st: Store) {
    && (st.dep.Some? ==>
          && st.dep.value.meta.created
          && st.dep.value.selector == Some(AppLabels(name))
          && Selects(AppLabels(name), st.dep.value.template.labels))
    && (st.svc.Some? ==> st.svc.value.selector == AppLabels(name))
    && (st.pdb.Some? ==> st.pdb.value.selector == AppLabels(name))
  }

  lemma ChangeKeepsLabelled(e: Env, st: Store, c: Change)
    requires Labelled(e.name, st)
    ensures Labelled(e.name, Change1(e, st, c))
  {}

  lemma {:induction false} StoreStaysLabelled(e: Env, cs: seq<Change>)
    ensures Labelled(e.name, Changes(e, cs))
  {
    if cs != [] {
      StoreStaysLabelled(e, cs[..|cs| - 1]);
      ChangeKeepsLabelled(e, Changes(e, cs[..|cs| - 1]), cs[|cs| - 1]);
    }
  }

  /** A label set that one egress's selector picks is not picked by the selector of another name. */
  lemma OtherNameNotSelected(name: string, other: string, labels: Labels)
    requires name != other && Selects(AppLabels(name), labels)
    ensures !Selects(AppLabels(other), labels)
  {
    var k := "app.kubernetes.io/instance";
    assert k in AppLabels(name) && k in AppLabels(other);
    assert labels[k] == name;
  }

  /**
   Over every sequence of spec edits, partial reconciles and deletions, of two egresses: the selectors of
   the deployment, the service and the budget match the egress's own pods, whatever labels its template
   asks for, and none of them matches the pods of an egress with another name.
   */
  lemma SelectorsMatchOwnPodsOnly(e: Env, cs: seq<Change>, o: Env, os: seq<Change>)
    requires Changes(e, cs).dep.Some?
    ensures var st := Changes(e, cs); var pods := st.dep.value.template.labels;
      && st.dep.value.selector.Some? && Selects(st.dep.value.selector.value, pods)
      && (st.svc.Some? ==> Selects(st.svc.value.selector, pods))
      && (st.pdb.Some? ==> Selects(st.pdb.value.selector, pods))
    ensures e.name != o.name ==>
      var pods := Changes(e, cs).dep.value.template.labels; var st := Changes(o, os);
      && (st.dep.Some? ==> st.dep.value.selector.Some? && !Selects(st.dep.value.selector.value, pods))
      && (st.svc.Some? ==> !Selects(st.svc.value.selector, pods))
      && (st.pdb.Some? ==> !Selects(st.pdb.value.selector, pods))
  {
    StoreStaysLabelled(e, cs);
    StoreStaysLabelled(o, os);
    if e.name != o.name {
      OtherNameNotSelected(e.name, o.name, Changes(e, cs).dep.value.template.labels);
    }
  }
}
