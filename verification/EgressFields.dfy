/** Field by field, what the egress controller makes of an egress: the objects follow the spec and the environment. */
module EgressFields {
  import opened Addresses
  import opened EgressController

  // ---- labels, volumes, containers ----

  /** The three labels of the egress, whatever else is there. */
  ghost predicate OwnLabels(name: string, labels: Labels) {
    && "app.kubernetes.io/name" in labels && labels["app.kubernetes.io/name"] == "pona"
    && "app.kubernetes.io/instance" in labels && labels["app.kubernetes.io/instance"] == name
    && "app.kubernetes.io/component" in labels && labels["app.kubernetes.io/component"] == "egress"
  }

  /** Besides these the labels are those of `from`. */
  ghost predicate OtherLabels(from: Labels, labels: Labels) {
    forall k | k !in {"app.kubernetes.io/name", "app.kubernetes.io/instance", "app.kubernetes.io/component"} ::
      (k in labels <==> k in from) && (k in from ==> labels[k] == from[k])
  }

  /** Exactly the three labels. */
  ghost predicate Selector(name: string, labels: Labels) { OwnLabels(name, labels) && OtherLabels(map[], labels) }

  lemma LabelsMeaning(name: string, from: Labels)
    ensures OwnLabels(name, from + AppLabels(name)) && OtherLabels(from, from + AppLabels(name))
    ensures Selector(name, AppLabels(name))
  {}

  /** The user's volumes, then the two that the egress needs; a user volume "run" stands in for one of them. */
  ghost predicate VolumesAdded(user: seq<string>, vols: seq<string>) {
    && user <= vols && "run" in vols && "modules" in vols
    && |vols| == |user| + if "run" in user then 1 else 2
  }

  lemma VolumesMeaning(user: seq<string>)
    ensures VolumesAdded(user, AddVolumes(user))
  {
    var vols := AddVolumes(user);
    assert vols[|vols| - 1] == "modules";
    if "run" in user {
      var i :| 0 <= i < |user| && user[i] == "run";
      assert vols[i] == "run";
    } else {
      assert vols[|user|] == "run";
    }
  }

  /** The container that runs the gateway, made from `c`. */
  ghost predicate IsDressed(c: Container, r: Container, e: Env) {
    && r.name == "egress"
    && r.image == (if c.image == "" then e.image else c.image)
    && c.env <= r.env && |r.env| == |c.env| + 3
    && ("PONA_POD_NAMESPACE", e.namespace) in r.env[|c.env|..]
    && ("PONA_EGRESS_NAME", e.name) in r.env[|c.env|..]
    && ("PONA_POD_ADDRESSES", "status.podIPs") in r.env[|c.env|..]
    && VolumesAdded(c.mounts, r.mounts)
  }

  /** The user's containers, with a new one in front if none is called "egress". */
  ghost function Offered(user: seq<Container>): seq<Container> {
    if exists c :: c in user && c.name == "egress" then user else [Container("", "", [], [])] + user
  }

  /** The container picked among them: the last not called "egress", if there is one. */
  ghost predicate Picked(cs: seq<Container>, t: nat) {
    && t < |cs|
    && (forall j | t < j < |cs| :: cs[j].name == "egress")
    && (cs[t].name == "egress" ==> t == |cs| - 1 && forall c | c in cs :: c.name == "egress")
  }

  /** One container is made the gateway's, all others stay as the user has them. */
  ghost predicate ContainersFrom(user: seq<Container>, cs: seq<Container>, e: Env) {
    && |cs| == |Offered(user)|
    && exists t: nat :: Picked(Offered(user), t) && IsDressed(Offered(user)[t], cs[t], e)
         && forall j | 0 <= j < |cs| && j != t :: cs[j] == Offered(user)[j]
  }

  lemma DressedMeaning(c: Container, e: Env)
    ensures IsDressed(c, Dressed(c, e.image, e.namespace, e.name), e)
  {
    VolumesMeaning(c.mounts);
    var env := Dressed(c, e.image, e.namespace, e.name).env[|c.env|..];
    assert env[0] == ("PONA_POD_NAMESPACE", e.namespace) && env[1] == ("PONA_EGRESS_NAME", e.name);
    assert env[2] == ("PONA_POD_ADDRESSES", "status.podIPs");
  }

  lemma OfferedCandidates(user: seq<Container>)
    ensures Candidates(user) == Offered(user) && |Candidates(user)| > 0
  {
    if LastNamed(user, true).Some? { assert user[LastNamed(user, true).value] in user; }
  }

  /** Where the two selection loops end up. */
  lemma TargetPicked(cs: seq<Container>)
    requires |cs| > 0
    ensures var t := if LastNamed(cs, false).Some? then LastNamed(cs, false) else LastNamed(cs, true);
      t.Some? && Picked(cs, t.value)
  {
    assert cs[0] in cs && cs[|cs| - 1] in cs;
  }

  lemma RenderedMeaning(user: seq<Container>, e: Env)
    ensures ContainersFrom(user, Rendered(user, e.image, e.namespace, e.name), e)
  {
    OfferedCandidates(user);
    var cs := Offered(user);
    TargetPicked(cs);
    var t := if LastNamed(cs, false).Some? then LastNamed(cs, false).value else LastNamed(cs, true).value;
    DressedMeaning(cs[t], e);
    assert Rendered(user, e.image, e.namespace, e.name) == cs[t := Dressed(cs[t], e.image, e.namespace, e.name)];
  }

  // ---- the objects ----

  function Wanted(s: Spec): PodTemplate { if s.template.Some? then s.template.value else NO_TEMPLATE }

  /** What a spec says about the template. */
  ghost predicate TemplateFollows(e: Env, s: Spec, t: PodTemplate) {
    && OwnLabels(e.name, t.labels) && OtherLabels(Wanted(s).labels, t.labels)
    && (forall k | k in Wanted(s).annotations :: k in t.annotations && t.annotations[k] == Wanted(s).annotations[k])
    && t.spec.serviceAccount == "egress"
    && VolumesAdded(Wanted(s).spec.volumes, t.spec.volumes)
    && ContainersFrom(Wanted(s).spec.containers, t.spec.containers, e)
  }

  ghost predicate DeploymentFollows(e: Env, s: Spec, d: Deployment) {
    && d.meta.created && OwnLabels(e.name, d.meta.labels)
    && d.replicas == Some(s.replicas)
    && (s.strategy.Some? ==> d.strategy == s.strategy.value)
    && TemplateFollows(e, s, d.template)
  }

  ghost predicate ServiceFollows(e: Env, s: Spec, v: Service) {
    && v.meta.created && OwnLabels(e.name, v.meta.labels)
    && v.typ == "ClusterIP" && Selector(e.name, v.selector) && v.port == e.port
    && v.affinity == s.affinity
    && (s.affinityConfig.Some? ==> v.affinityConfig == s.affinityConfig)
  }

  ghost predicate BudgetFollows(e: Env, s: Spec, b: Budget) {
    && b.meta.created && OwnLabels(e.name, b.meta.labels) && Selector(e.name, b.selector)
    && s.budget.Some?
    && (s.budget.value.0.Some? ==> b.minAvailable == s.budget.value.0)
    && (s.budget.value.1.Some? ==> b.maxUnavailable == s.budget.value.1)
  }

  /** What a reconcile leaves of an object it updates; a new one gets its owner. */
  ghost predicate MetaKept(was: Meta, m: Meta) {
    && m.deleting == was.deleting && OtherLabels(was.labels, m.labels)
    && m.owned == (was.owned || !was.created)
  }

  ghost predicate DeploymentKeeps(e: Env, s: Spec, was: Deployment, d: Deployment) {
    && MetaKept(was.meta, d.meta)
    && (if was.meta.created then d.selector == was.selector
        else d.selector.Some? && Selector(e.name, d.selector.value))
    && (s.strategy.None? ==> d.strategy == was.strategy)
    && (forall k | k !in Wanted(s).annotations ::
          && (k in d.template.annotations <==> k in was.template.annotations)
          && (k in was.template.annotations ==> d.template.annotations[k] == was.template.annotations[k]))
  }

  ghost predicate ServiceKeeps(s: Spec, was: Service, v: Service) {
    MetaKept(was.meta, v.meta) && (s.affinityConfig.None? ==> v.affinityConfig == was.affinityConfig)
  }

  ghost predicate BudgetKeeps(s: Spec, was: Budget, b: Budget) {
    && MetaKept(was.meta, b.meta) && s.budget.Some?
    && (s.budget.value.0.None? ==> b.minAvailable == was.minAvailable)
    && (s.budget.value.1.None? ==> b.maxUnavailable == was.maxUnavailable)
  }

  // ---- one reconcile, from every store ----

  function Dep(st: Store): Deployment { if st.dep.Some? then st.dep.value else NO_DEPLOYMENT }

  function Svc(st: Store): Service { if st.svc.Some? then st.svc.value else NO_SERVICE }

  function Pdb(st: Store): Budget { if st.pdb.Some? then st.pdb.value else NO_BUDGET }

  lemma TemplateFields(e: Env, s: Spec, was: PodTemplate)
    ensures TemplateFollows(e, s, ReconcilePodTemplate(e, s, was))
  {
    LabelsMeaning(e.name, Wanted(s).labels);
    VolumesMeaning(Wanted(s).spec.volumes);
    RenderedMeaning(Wanted(s).spec.containers, e);
  }

  lemma DeploymentFields(e: Env, s: Spec, st: Store)
    requires !Dep(st).meta.deleting
    ensures var v := Change1(e, st, ApplyDeployment(s));
      && v.svc == st.svc && v.pdb == st.pdb && v.dep.Some?
      && DeploymentFollows(e, s, v.dep.value) && DeploymentKeeps(e, s, Dep(st), v.dep.value)
  {
    LabelsMeaning(e.name, Dep(st).meta.labels);
    TemplateFields(e, s, Dep(st).template);
  }

  lemma ServiceFields(e: Env, s: Spec, st: Store)
    requires !Svc(st).meta.deleting
    ensures var v := Change1(e, st, ApplyService(s));
      && v.dep == st.dep && v.pdb == st.pdb && v.svc.Some?
      && ServiceFollows(e, s, v.svc.value) && ServiceKeeps(s, Svc(st), v.svc.value)
  {
    LabelsMeaning(e.name, Svc(st).meta.labels);
  }

  lemma BudgetFields(e: Env, s: Spec, st: Store)
    requires !Pdb(st).meta.deleting && s.budget.Some?
    ensures var v := Change1(e, st, ApplyBudget(s));
      && v.dep == st.dep && v.svc == st.svc && v.pdb.Some?
      && BudgetFollows(e, s, v.pdb.value) && BudgetKeeps(s, Pdb(st), v.pdb.value)
  {
    LabelsMeaning(e.name, Pdb(st).meta.labels);
  }

  /** An object that is being deleted is left as it is. */
  lemma DeletingUntouched(e: Env, s: Spec, st: Store)
    ensures st.dep.Some? && Dep(st).meta.deleting ==>
      Change1(e, st, ApplyDeployment(s)) == st.(dep := Some(Dep(st).(meta := Created(Dep(st).meta))))
    ensures st.svc.Some? && Svc(st).meta.deleting ==>
      Change1(e, st, ApplyService(s)) == st.(svc := Some(Svc(st).(meta := Created(Svc(st).meta))))
    ensures st.pdb.Some? && Pdb(st).meta.deleting && s.budget.Some? ==>
      Change1(e, st, ApplyBudget(s)) == st.(pdb := Some(Pdb(st).(meta := Created(Pdb(st).meta))))
    ensures s.budget.None? ==> Change1(e, st, ApplyBudget(s)) == st
  {}

  /** A reconcile treats each object on its own. */
  lemma ReconciledParts(e: Env, s: Spec, st: Store)
    ensures var v := Reconciled(e, s, st);
      && v.dep == Change1(e, st, ApplyDeployment(s)).dep
      && v.svc == Change1(e, st, ApplyService(s)).svc
      && v.pdb == Change1(e, st, ApplyBudget(s)).pdb
  {}

  /**
   A complete reconcile from every store whose objects are not being deleted: each field that the spec or the
   environment sets has that value, each field it leaves open keeps the stored one.
   */
  lemma ReconciledFields(e: Env, s: Spec, st: Store)
    requires !Dep(st).meta.deleting && !Svc(st).meta.deleting && !Pdb(st).meta.deleting
    ensures var v := Reconciled(e, s, st);
      && v.dep.Some? && DeploymentFollows(e, s, v.dep.value) && DeploymentKeeps(e, s, Dep(st), v.dep.value)
      && v.svc.Some? && ServiceFollows(e, s, v.svc.value) && ServiceKeeps(s, Svc(st), v.svc.value)
      && (if s.budget.None? then v.pdb == st.pdb
          else v.pdb.Some? && BudgetFollows(e, s, v.pdb.value) && BudgetKeeps(s, Pdb(st), v.pdb.value))
  {
    ReconciledParts(e, s, st);
    DeploymentFields(e, s, st);
    ServiceFields(e, s, st);
    if s.budget.Some? { BudgetFields(e, s, st); }
  }

  // ---- over histories ----

  /** The spec that the stored object was last made from, object by object: what came while it was deleted is void. */
  datatype Origins = Origins(dep: Option<Spec>, svc: Option<Spec>, pdb: Option<Spec>)

  function Origin(e: Env, cs: seq<Change>): Origins {
    if cs == [] then Origins(None, None, None)
    else
      var front := cs[..|cs| - 1];
      var o, st := Origin(e, front), Changes(e, front);
      match cs[|cs| - 1]
      case ApplyDeployment(s) => if Dep(st).meta.deleting then o else o.(dep := Some(s))
      case ApplyService(s) => if Svc(st).meta.deleting then o else o.(svc := Some(s))
      case ApplyBudget(s) => if s.budget.None? || Pdb(st).meta.deleting then o else o.(pdb := Some(s))
      case DeploymentGone => o.(dep := None)
      case ServiceGone => o.(svc := None)
      case BudgetGone => o.(pdb := None)
      case _ => o
  }

  ghost predicate Follows(e: Env, o: Origins, st: Store) {
    && (st.dep.Some? <==> o.dep.Some?) && (st.dep.Some? ==> DeploymentFollows(e, o.dep.value, st.dep.value))
    && (st.svc.Some? <==> o.svc.Some?) && (st.svc.Some? ==> ServiceFollows(e, o.svc.value, st.svc.value))
    && (st.pdb.Some? <==> o.pdb.Some?) && (st.pdb.Some? ==> BudgetFollows(e, o.pdb.value, st.pdb.value))
  }

  /**
   Over every history of spec edits, partial reconciles and deletions, each stored object has the fields of the spec
   that was last applied to it.
   */
  lemma {:induction false} StoreFollowsSpecs(e: Env, cs: seq<Change>)
    ensures Follows(e, Origin(e, cs), Changes(e, cs))
  {
    if cs != [] {
      var front, c := cs[..|cs| - 1], cs[|cs| - 1];
      StoreFollowsSpecs(e, front);
      var st := Changes(e, front);
      match c {
        case ApplyDeployment(s) => if !Dep(st).meta.deleting { DeploymentFields(e, s, st); }
        case ApplyService(s) => if !Svc(st).meta.deleting { ServiceFields(e, s, st); }
        case ApplyBudget(s) => if s.budget.Some? && !Pdb(st).meta.deleting { BudgetFields(e, s, st); }
        case _ =>
      }
    }
  }
}
