/** Which pods use which egress, as the gateway and as the daemon read it from pod annotations. */
module Annotations {
  const EGRESS_ANNOTATION_PREFIX := "egress.pona.cybozu.com/"

  datatype EgressKey = EgressKey(namespace: string, name: string)

  /** `strings.Split(s, ",")`: always at least one piece. */
  function Split(s: string): (r: seq<string>)
    ensures |r| >= 1
  {
    if s == [] then [[]]
    else
      var r := Split(s[1..]);
      if s[0] == ',' then [[]] + r else [[s[0]] + r[0]] + r[1..]
  }

  function Join(r: seq<string>): string {
    if r == [] then [] else if |r| == 1 then r[0] else r[0] + "," + Join(r[1..])
  }

  /** Splitting is undone by joining, and no piece holds a comma. */
  lemma {:induction false} SplitJoin(s: string)
    ensures Join(Split(s)) == s
    ensures forall p | p in Split(s) :: ',' !in p
  {
    if s != [] {
      SplitJoin(s[1..]);
      var r := Split(s[1..]);
      if s[0] == ',' {
        assert ([[]] + r)[1..] == r;
        assert [] + "," + Join(r) == [s[0]] + s[1..];
      } else {
        var t := [[s[0]] + r[0]] + r[1..];
        assert t[1..] == r[1..];
        assert Join(t) == [s[0]] + Join(r);
        assert s == [s[0]] + s[1..];
      }
    }
  }

  lemma {:induction false} SplitCommaFree(s: string)
    requires ',' !in s
    ensures Split(s) == [s]
  {
    if s != [] {
      assert s[0] in s;
      SplitCommaFree(s[1..]);
      assert s == [s[0]] + s[1..];
    }
  }

  /** A value with a comma has more than one piece, none of which is the value. */
  lemma SplitWithComma(s: string)
    requires ',' in s
    ensures |Split(s)| > 1 && s !in Split(s)
  {
    SplitJoin(s);
    assert Split(s)[0] in Split(s);
  }

  predicate GatewayHandles(ann: map<string, string>, ns: string, name: string) {
    var key := EGRESS_ANNOTATION_PREFIX + ns;
    key in ann && (ann[key] == name || ns in Split(ann[key]))
  }

  predicate DaemonLists(ann: map<string, string>, ns: string, name: string) {
    var key := EGRESS_ANNOTATION_PREFIX + ns;
    key in ann && name in Split(ann[key])
  }

  predicate HasPrefix(s: string, p: string) { |p| <= |s| && s[..|p|] == p }

  lemma PrefixAndRest(k: string, ns: string)
    ensures HasPrefix(k, EGRESS_ANNOTATION_PREFIX) && k[|EGRESS_ANNOTATION_PREFIX|..] == ns <==>
      k == EGRESS_ANNOTATION_PREFIX + ns
  {}

  /** `hasEgressAnnotation` of the gateway `(ns, name)`; note that the pieces are compared with the namespace. */
  method HasEgressAnnotation(ann: map<string, string>, ns: string, name: string) returns (b: bool)
    ensures b <==> GatewayHandles(ann, ns, name)
  {
    var rest := ann.Keys;
    while rest != {}
      invariant rest <= ann.Keys
      invariant EGRESS_ANNOTATION_PREFIX + ns in ann.Keys - rest ==> !GatewayHandles(ann, ns, name)
      decreases |rest|
    {
      var k :| k in rest;
      rest := rest - {k};
      PrefixAndRest(k, ns);
      if !HasPrefix(k, EGRESS_ANNOTATION_PREFIX) { continue; }
      if k[|EGRESS_ANNOTATION_PREFIX|..] != ns { continue; }
      if ann[k] == name { return true; }
      var pieces := Split(ann[k]);
      for i := 0 to |pieces|
        invariant forall j | 0 <= j < i :: pieces[j] != ns
      {
        if pieces[i] == ns { return true; }
      }
    }
    b := false;
  }

  /** `shouldHandle`. */
  method ShouldHandle(hostNetwork: bool, ann: map<string, string>, ns: string, name: string) returns (b: bool)
    ensures b <==> !hostNetwork && GatewayHandles(ann, ns, name)
  {
    if hostNetwork { return false; }
    b := HasEgressAnnotation(ann, ns, name);
  }

  /** How often the daemon lists an egress: once per piece of the value that is its name. */
  function TimesListed(hostNetwork: bool, ann: map<string, string>, ns: string, name: string): nat {
    var key := EGRESS_ANNOTATION_PREFIX + ns;
    if !hostNetwork && key in ann then multiset(Split(ann[key]))[name] else 0
  }

  /** `names` is what the daemon lists, in some order. */
  ghost predicate Lists(hostNetwork: bool, ann: map<string, string>, names: seq<EgressKey>) {
    forall ns, name :: multiset(names)[EgressKey(ns, name)] == TimesListed(hostNetwork, ann, ns, name)
  }

  /** `listEgress` of the daemon. */
  method ListEgress(hostNetwork: bool, ann: map<string, string>) returns (names: seq<EgressKey>)
    ensures Lists(hostNetwork, ann, names)
    ensures forall ns, name :: EgressKey(ns, name) in names <==> !hostNetwork && DaemonLists(ann, ns, name)
  {
    names := [];
    if hostNetwork { return; }
    var rest := ann.Keys;
    while rest != {}
      invariant rest <= ann.Keys
      invariant forall ns, name ::
        multiset(names)[EgressKey(ns, name)] == TimesSeen(ann, rest, ns, name)
      decreases |rest|
    {
      var k :| k in rest;
      ghost var before, todo := names, rest;
      rest := rest - {k};
      if HasPrefix(k, EGRESS_ANNOTATION_PREFIX) {
        names := AppendNames(names, k[|EGRESS_ANNOTATION_PREFIX|..], ann[k]);
      }
      forall ns, name
        ensures multiset(names)[EgressKey(ns, name)] == TimesSeen(ann, rest, ns, name)
      {
        PrefixAndRest(k, ns);
        assert multiset(before)[EgressKey(ns, name)] == TimesSeen(ann, todo, ns, name);
      }
    }
    forall ns, name
      ensures EgressKey(ns, name) in names <==> DaemonLists(ann, ns, name)
    {
      assert multiset(names)[EgressKey(ns, name)] == TimesListed(false, ann, ns, name);
    }
  }

  /** `TimesListed` as far as the annotations outside `rest` go. */
  ghost function TimesSeen(ann: map<string, string>, rest: set<string>, ns: string, name: string): nat {
    if EGRESS_ANNOTATION_PREFIX + ns in rest then 0 else TimesListed(false, ann, ns, name)
  }

  /** The inner loop: one egress per piece of an annotation's value. */
  method AppendNames(before: seq<EgressKey>, ns: string, value: string) returns (names: seq<EgressKey>)
    ensures forall m, n ::
      multiset(names)[EgressKey(m, n)] ==
      multiset(before)[EgressKey(m, n)] + if m == ns then multiset(Split(value))[n] else 0
  {
    names := before;
    var pieces := Split(value);
    for i := 0 to |pieces|
      invariant forall m, n ::
        multiset(names)[EgressKey(m, n)] ==
        multiset(before)[EgressKey(m, n)] + if m == ns then multiset(pieces[..i])[n] else 0
    {
      assert pieces[..i + 1] == pieces[..i] + [pieces[i]];
      names := names + [EgressKey(ns, pieces[i])];
    }
    assert pieces[..|pieces|] == pieces;
  }

  /** No annotation names an egress. */
  ghost predicate NamesNone(hostNetwork: bool, ann: map<string, string>) {
    hostNetwork || forall k | k in ann :: !HasPrefix(k, "egress.pona.cybozu.com/")
  }

  /** One annotation names an egress, and it names one. */
  ghost predicate NamesOne(hostNetwork: bool, ann: map<string, string>, eg: EgressKey) {
    var key := "egress.pona.cybozu.com/" + eg.namespace;
    && !hostNetwork && key in ann && ann[key] == eg.name && ',' !in eg.name
    && forall k | k in ann && HasPrefix(k, "egress.pona.cybozu.com/") :: k == key
  }

  /** Every annotation of the prefix is listed at least once. */
  lemma ListedPiece(hostNetwork: bool, ann: map<string, string>, names: seq<EgressKey>, k: string)
    requires Lists(hostNetwork, ann, names) && !hostNetwork && k in ann && HasPrefix(k, EGRESS_ANNOTATION_PREFIX)
    ensures EgressKey(k[|EGRESS_ANNOTATION_PREFIX|..], Split(ann[k])[0]) in names
  {
    var ns := k[|EGRESS_ANNOTATION_PREFIX|..];
    PrefixAndRest(k, ns);
    assert Split(ann[k])[0] in multiset(Split(ann[k]));
    assert multiset(names)[EgressKey(ns, Split(ann[k])[0])] == TimesListed(hostNetwork, ann, ns, Split(ann[k])[0]);
  }

  /** The list is empty exactly if no annotation names an egress. */
  lemma NoEgressExactly(hostNetwork: bool, ann: map<string, string>, names: seq<EgressKey>)
    requires Lists(hostNetwork, ann, names)
    ensures names == [] <==> NamesNone(hostNetwork, ann)
  {
    if names == [] && !hostNetwork {
      forall k | k in ann
        ensures !HasPrefix(k, EGRESS_ANNOTATION_PREFIX)
      {
        if HasPrefix(k, EGRESS_ANNOTATION_PREFIX) { ListedPiece(hostNetwork, ann, names, k); }
      }
    }
    if names != [] {
      var x := names[0];
      assert x in multiset(names) && x == EgressKey(x.namespace, x.name);
      assert TimesListed(hostNetwork, ann, x.namespace, x.name) > 0;
      PrefixAndRest(EGRESS_ANNOTATION_PREFIX + x.namespace, x.namespace);
    }
  }

  /** The list is one egress exactly if one annotation has the prefix and its value is that name, without comma. */
  lemma OneEgressExactly(hostNetwork: bool, ann: map<string, string>, names: seq<EgressKey>, eg: EgressKey)
    requires Lists(hostNetwork, ann, names)
    ensures names == [eg] <==> NamesOne(hostNetwork, ann, eg)
  {
    var key := EGRESS_ANNOTATION_PREFIX + eg.namespace;
    if names == [eg] {
      assert TimesListed(hostNetwork, ann, eg.namespace, eg.name) == multiset(names)[EgressKey(eg.namespace, eg.name)];
      forall x
        ensures multiset(Split(ann[key]))[x] == multiset{eg.name}[x]
      {
        assert multiset(names)[EgressKey(eg.namespace, x)] == TimesListed(hostNetwork, ann, eg.namespace, x);
      }
      OnePiece(Split(ann[key]), eg.name);
      SplitJoin(ann[key]);
      forall k | k in ann && HasPrefix(k, EGRESS_ANNOTATION_PREFIX)
        ensures k == key
      {
        ListedPiece(hostNetwork, ann, names, k);
        PrefixAndRest(k, eg.namespace);
      }
    }
    if NamesOne(hostNetwork, ann, eg) {
      SplitCommaFree(eg.name);
      forall x: EgressKey
        ensures multiset(names)[x] == multiset{eg}[x]
      {
        PrefixAndRest(EGRESS_ANNOTATION_PREFIX + x.namespace, x.namespace);
        assert multiset(names)[EgressKey(x.namespace, x.name)] == TimesListed(hostNetwork, ann, x.namespace, x.name);
      }
      OnePiece(names, eg);
    }
  }

  lemma OnePiece<T>(s: seq<T>, x: T)
    requires forall y :: multiset(s)[y] == multiset{x}[y]
    ensures s == [x]
  {
    assert multiset(s) == multiset{x};
    assert |multiset(s)| == 1;
    assert s[0] in multiset(s);
  }

  /** For which annotation values the two ends agree about an egress, exactly. */
  lemma EndsAgreeExactly(ann: map<string, string>, ns: string, name: string)
    requires ',' !in name
    ensures (GatewayHandles(ann, ns, name) <==> DaemonLists(ann, ns, name)) <==>
      var key := EGRESS_ANNOTATION_PREFIX + ns;
      key in ann ==> ann[key] == name || (ns in Split(ann[key]) <==> name in Split(ann[key]))
  {
    SplitCommaFree(name);
  }

  /** They agree when the egress is named like its namespace, or the value is one name other than the namespace. */
  lemma EndsAgreeOnPlainValues(ann: map<string, string>, ns: string, name: string)
    requires ',' !in name
    requires name == ns || (EGRESS_ANNOTATION_PREFIX + ns in ann ==>
      ',' !in ann[EGRESS_ANNOTATION_PREFIX + ns] && ann[EGRESS_ANNOTATION_PREFIX + ns] != ns)
    ensures GatewayHandles(ann, ns, name) <==> DaemonLists(ann, ns, name)
  {
    EndsAgreeExactly(ann, ns, name);
    if EGRESS_ANNOTATION_PREFIX + ns in ann && name != ns {
      SplitCommaFree(ann[EGRESS_ANNOTATION_PREFIX + ns]);
    }
  }

  /** Egresses listed in one value, none named like the namespace, are listed by the daemon and ignored by gateways. */
  lemma ListedPodsIgnored(ann: map<string, string>, ns: string, name: string)
    requires EGRESS_ANNOTATION_PREFIX + ns in ann && ',' in ann[EGRESS_ANNOTATION_PREFIX + ns]
    requires ns !in Split(ann[EGRESS_ANNOTATION_PREFIX + ns]) && name in Split(ann[EGRESS_ANNOTATION_PREFIX + ns])
    ensures DaemonLists(ann, ns, name) && !GatewayHandles(ann, ns, name)
  {
    SplitWithComma(ann[EGRESS_ANNOTATION_PREFIX + ns]);
  }
}
