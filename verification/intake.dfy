/** From custom resources as Kubernetes admits them to well-formed deltas. */
module Intake {
  import opened Model
  import opened Text
  import opened Naming
  import opened Ports
  import opened States
  import opened Generate
  import opened Selection
  import opened Deltas
  import opened Guarantees
  import opened Meaning

  predicate GoodPort(p: Port) {
    '/' !in p.name && '/' !in p.protocol
  }

  predicate GoodServices(all: seq<ExternalService>) {
    && (forall i :: 0 <= i < |all| ==>
          PlainName(all[i].name) && forall j :: 0 <= j < |all[i].ports| ==> GoodPort(all[i].ports[j]))
    && (forall i, j :: 0 <= i < j < |all| ==> (all[i].namespace, all[i].name) != (all[j].namespace, all[j].name))
  }

  /** The rule's namespace is one of the tenant's. */
  predicate Watched(cfg: Config, t: Tenant, namespace: string) {
    namespace != "" && PlainName(namespace) && TenantForNamespace(cfg, namespace) == Some(t)
  }

  /** Objects have unique, valid names, and a rule lists each external service once. */
  predicate GoodResources(cfg: Config, t: Tenant, resources: Resources) {
    && GoodServices(resources.externalServices)
    && (forall i :: 0 <= i < |resources.clusterRules| ==>
          PlainName(resources.clusterRules[i].name) && NoDuplicates(resources.clusterRules[i].services))
    && (forall i :: 0 <= i < |resources.namespaceRules| ==>
          var r := resources.namespaceRules[i];
          PlainName(r.name) && Watched(cfg, t, r.namespace) && NoDuplicates(r.services))
    && (forall i :: 0 <= i < |resources.serviceRules| ==>
          var r := resources.serviceRules[i];
          PlainName(r.name) && PlainName(r.service) && Watched(cfg, t, r.namespace) && NoDuplicates(r.services))
    && (forall i, j :: 0 <= i < j < |resources.clusterRules| ==>
          resources.clusterRules[i].name != resources.clusterRules[j].name)
    && (forall i, j :: 0 <= i < j < |resources.namespaceRules| ==>
          var r, r' := resources.namespaceRules[i], resources.namespaceRules[j];
          (r.namespace, r.name) != (r'.namespace, r'.name))
    && (forall i, j :: 0 <= i < j < |resources.serviceRules| ==>
          var r, r' := resources.serviceRules[i], resources.serviceRules[j];
          (r.namespace, r.name) != (r'.namespace, r'.name))
  }

  // ----- external services -----

  lemma LowerSlash(s: string)
    requires '/' !in s
    ensures '/' !in Lower(s)
  {
    forall i | 0 <= i < |s|
      ensures LowerChar(s[i]) != '/'
    {
      assert s[i] in s;
    }
  }

  lemma {:induction false} GroupKeysPlain(ports: seq<Port>)
    requires forall j :: 0 <= j < |ports| ==> GoodPort(ports[j])
    ensures forall k :: k in GroupPorts(ports) ==> '/' !in k
  {
    hide Lower;
    if ports != [] {
      var n := |ports| - 1;
      GroupKeysPlain(ports[..n]);
      LowerSlash(ports[n].protocol);
    }
  }

  predicate GoodExsvc(x: Exsvc) {
    PlainName(x.name) && x.destPorts != map[] && forall k :: k in x.destPorts ==> '/' !in k
  }

  lemma ServiceIsGood(s: ExternalService)
    requires PlainName(s.name) && forall j :: 0 <= j < |s.ports| ==> GoodPort(s.ports[j])
    ensures GoodExsvc(ExsvcOf(s)) && ExsvcOf(s).name == s.name
  {
    hide PlainName, GroupPorts;
    GroupKeysPlain(s.ports);
    AnyGroupIffNoPort(s.ports);
    assert '/' !in "any";
  }

  predicate HasService(all: seq<ExternalService>, name: string, namespace: string) {
    exists i :: 0 <= i < |all| && all[i].name == name && all[i].namespace == namespace
  }

  lemma HasServiceStep(all: seq<ExternalService>, name: string, namespace: string)
    requires GoodServices(all) && all != []
    ensures var n := |all| - 1;
            && (HasService(all, name, namespace) <==>
                  HasService(all[..n], name, namespace) || (all[n].name == name && all[n].namespace == namespace))
            && (all[n].name == name && all[n].namespace == namespace ==>
                  !HasService(all[..n], name, namespace))
  {
    hide PlainName, GoodPort;
    var n := |all| - 1;
    assert forall i :: 0 <= i < n ==> all[..n][i] == all[i];
    if HasService(all[..n], name, namespace) {
      var i :| 0 <= i < n && all[..n][i].name == name && all[..n][i].namespace == namespace;
      assert all[i].name == name;
    }
  }

  lemma NoService(name: string, namespace: string)
    ensures !HasService([], name, namespace)
  {
  }

  /** A name selects the one external service that has it in the namespace, if there is one. */
  lemma {:induction false} NamedIsOne(name: string, all: seq<ExternalService>, namespace: string)
    requires GoodServices(all)
    ensures |ServicesNamed(name, all, namespace)| <= 1
    ensures ServicesNamed(name, all, namespace) != [] <==> HasService(all, name, namespace)
    ensures forall x :: x in ServicesNamed(name, all, namespace) ==> GoodExsvc(x) && x.name == name
  {
    hide PlainName, GoodPort, GoodExsvc, ExsvcOf, HasService;
    if all != [] {
      var n := |all| - 1;
      NamedIsOne(name, all[..n], namespace);
      ServiceIsGood(all[n]);
      HasServiceStep(all, name, namespace);
    } else {
      NoService(name, namespace);
    }
  }

  predicate HasName(selected: seq<Exsvc>, name: string) {
    exists i :: 0 <= i < |selected| && selected[i].name == name
  }

  lemma NameStep(rest: seq<Exsvc>, more: seq<Exsvc>, name: string)
    ensures HasName(rest + more, name) <==> HasName(rest, name) || HasName(more, name)
  {
    if HasName(rest, name) {
      var i :| 0 <= i < |rest| && rest[i].name == name;
      assert (rest + more)[i].name == name;
    }
    if HasName(more, name) {
      var i :| 0 <= i < |more| && more[i].name == name;
      assert (rest + more)[|rest| + i].name == name;
    }
  }

  /** A rule's external services: each name that exists in the namespace, once. */
  lemma {:induction false} SelectedNames(names: seq<string>, all: seq<ExternalService>, namespace: string, name: string)
    requires GoodServices(all)
    ensures HasName(Selected(names, all, namespace), name) <==> name in names && HasService(all, name, namespace)
  {
    hide GoodServices, GoodExsvc, ServicesNamed, HasService, HasName;
    if names == [] {
      assert !HasName([], name) by { NoName(name); }
    } else {
      var n := |names| - 1;
      SelectedNames(names[..n], all, namespace, name);
      NamedIsOne(names[n], all, namespace);
      OneName(ServicesNamed(names[n], all, namespace), names[n], name);
      NameStep(Selected(names[..n], all, namespace), ServicesNamed(names[n], all, namespace), name);
      assert names == names[..n] + [names[n]];
    }
  }

  lemma NoName(name: string)
    ensures !HasName([], name)
  {
  }

  lemma OneName(selected: seq<Exsvc>, name: string, other: string)
    requires forall x :: x in selected ==> x.name == name
    ensures HasName(selected, other) <==> selected != [] && other == name
  {
    if selected != [] {
      assert selected[0] in selected;
    }
  }

  /** The external services of a rule are good and have distinct names. */
  lemma {:induction false} SelectedIsGood(names: seq<string>, all: seq<ExternalService>, namespace: string)
    requires GoodServices(all) && NoDuplicates(names)
    ensures forall x :: x in Selected(names, all, namespace) ==> GoodExsvc(x) && x.name in names
    ensures forall i, j :: 0 <= i < j < |Selected(names, all, namespace)| ==>
              Selected(names, all, namespace)[i].name != Selected(names, all, namespace)[j].name
  {
    hide GoodServices, GoodExsvc, ServicesNamed;
    if names != [] {
      var n := |names| - 1;
      SelectedIsGood(names[..n], all, namespace);
      NamedIsOne(names[n], all, namespace);
      var rest, more := Selected(names[..n], all, namespace), ServicesNamed(names[n], all, namespace);
      assert forall m :: m in names[..n] ==> m in names && m != names[n];
      var both: seq<Exsvc> := rest + more;
      forall i, j | 0 <= i < j < |both|
        ensures both[i].name != both[j].name
      {
        if j >= |rest| {
          assert more[j - |rest|] in more;
          if i < |rest| {
            assert rest[i] in rest;
          }
        }
      }
    }
  }

  // ----- rules -----

  /** A rule ready for generation, apart from the order of its ports. */
  predicate GoodRule(cfg: Config, t: Tenant, r: RuleData) {
    && ValidOwner(OwnerOf(r)) && PlainName(r.epName) && (r.ty != SVC ==> r.epName == "") && r.ty in Types(t)
    && (if r.namespace == "" then t.name == COMMON else TenantForNamespace(cfg, r.namespace) == Some(t))
    && (forall x :: x in r.exsvcs ==> GoodExsvc(x))
    && (forall i, j :: 0 <= i < j < |r.exsvcs| ==> r.exsvcs[i].name != r.exsvcs[j].name)
  }

  predicate GoodRules(cfg: Config, t: Tenant, rules: seq<RuleData>) {
    && (forall i :: 0 <= i < |rules| ==> GoodRule(cfg, t, rules[i]))
    && (forall i, j :: 0 <= i < j < |rules| ==> OwnerOf(rules[i]) != OwnerOf(rules[j]))
  }

  lemma DealtIsGood(cfg: Config, t: Tenant, resources: Resources)
    requires GoodResources(cfg, t, resources)
    ensures GoodRules(cfg, t, DealtRules(t.name, resources))
  {
    hide GoodServices, GoodExsvc, Selected, SourceIps, SourceCidr, TenantForNamespace, PlainName, NoDuplicates;
    assert PlainName("") by { PlainEmpty(); }
    var cluster := if t.name == COMMON then AllClusterData(resources, resources.clusterRules) else [];
    forall i | 0 <= i < |cluster|
      ensures GoodRule(cfg, t, cluster[i])
    {
      SelectedIsGood(resources.clusterRules[i].services, resources.externalServices, resources.clusterServiceNamespace);
    }
    var namespaced := AllNamespaceData(resources, resources.namespaceRules);
    forall i | 0 <= i < |namespaced|
      ensures GoodRule(cfg, t, namespaced[i])
    {
      SelectedIsGood(resources.namespaceRules[i].services, resources.externalServices,
        resources.namespaceRules[i].namespace);
    }
    var service := AllServiceData(resources, resources.serviceRules);
    forall i | 0 <= i < |service|
      ensures GoodRule(cfg, t, service[i])
    {
      SelectedIsGood(resources.serviceRules[i].services, resources.externalServices,
        resources.serviceRules[i].namespace);
    }
    hide GoodRule;
    RulesConcat(cfg, t, cluster, namespaced);
    RulesConcat(cfg, t, cluster + namespaced, service);
  }

  lemma PlainEmpty()
    ensures PlainName("")
  {
  }

  lemma RulesConcat(cfg: Config, t: Tenant, a: seq<RuleData>, b: seq<RuleData>)
    requires GoodRules(cfg, t, a) && GoodRules(cfg, t, b)
    requires forall i, j :: 0 <= i < |a| && 0 <= j < |b| ==> a[i].ty != b[j].ty
    ensures GoodRules(cfg, t, a + b)
  {
    hide GoodRule;
  }

  /** A rule and one of its external services. */
  predicate GoodPair(cfg: Config, t: Tenant, rules: seq<RuleData>, pair: (RuleData, Exsvc)) {
    pair.0 in rules && GoodRule(cfg, t, pair.0) && GoodExsvc(pair.1)
  }

  lemma {:induction false} PairsAreGood(cfg: Config, t: Tenant, rules: seq<RuleData>)
    requires GoodRules(cfg, t, rules)
    ensures forall i :: 0 <= i < |Pairs(rules)| ==> GoodPair(cfg, t, rules, Pairs(rules)[i])
    ensures forall i, j :: 0 <= i < j < |Pairs(rules)| ==>
              (OwnerOf(Pairs(rules)[i].0), Pairs(rules)[i].1.name)
              != (OwnerOf(Pairs(rules)[j].0), Pairs(rules)[j].1.name)
  {
    hide GoodExsvc, ValidOwner, PlainName, TenantForNamespace, OwnerOf;
    if rules != [] {
      var n := |rules| - 1;
      PairsAreGood(cfg, t, rules[..n]);
      var rest, all, r := Pairs(rules[..n]), Pairs(rules), rules[n];
      assert forall x :: x in r.exsvcs ==> GoodExsvc(x);
      forall i | 0 <= i < |all|
        ensures GoodPair(cfg, t, rules, all[i])
      {
        if i < |rest| {
          assert all[i] == rest[i] && GoodPair(cfg, t, rules[..n], rest[i]);
        } else {
          assert all[i] == (r, r.exsvcs[i - |rest|]) && r.exsvcs[i - |rest|] in r.exsvcs;
        }
      }
      forall i, j | 0 <= i < j < |all|
        ensures (OwnerOf(all[i].0), all[i].1.name) != (OwnerOf(all[j].0), all[j].1.name)
      {
        if j >= |rest| {
          assert all[j] == (r, r.exsvcs[j - |rest|]);
          if i >= |rest| {
            assert all[i] == (r, r.exsvcs[i - |rest|]);
          } else {
            assert all[i] == rest[i] && GoodPair(cfg, t, rules[..n], rest[i]);
            var m :| 0 <= m < n && rules[..n][m] == all[i].0;
            assert rules[m] == rules[..n][m];
          }
        } else {
          assert all[i] == rest[i] && all[j] == rest[j];
        }
      }
    }
  }

  /** Whatever Kubernetes admits yields items that meet the generator's hypotheses. */
  lemma ItemsAreGood(cfg: Config, t: Tenant, resources: Resources, items: seq<Item>)
    requires GoodResources(cfg, t, resources) && AllReady(cfg, items) && ItemsOf(DealtRules(t.name, resources), items)
    ensures GoodItems(cfg, t, items)
  {
    hide GoodResources, Pairs, DealtRules, OwnerOf, ItemReady, ValidOwner, PlainName, TenantForNamespace;
    var rules := DealtRules(t.name, resources);
    DealtIsGood(cfg, t, resources);
    PairsAreGood(cfg, t, rules);
    forall i | 0 <= i < |items|
      ensures GoodItem(cfg, t, items[i])
    {
      assert GoodPair(cfg, t, rules, Pairs(rules)[i]);
    }
  }

  /** Items of one rule carry the same rule data. */
  lemma ItemsShareRules(cfg: Config, t: Tenant, resources: Resources, items: seq<Item>)
    requires GoodResources(cfg, t, resources) && ItemsOf(DealtRules(t.name, resources), items)
    ensures RulesOnce(items)
  {
    hide GoodResources, DealtRules, OwnerOf, GoodRule, GoodExsvc, Pairs;
    var rules := DealtRules(t.name, resources);
    DealtIsGood(cfg, t, resources);
    PairsAreGood(cfg, t, rules);
    forall i, j | 0 <= i < |items| && 0 <= j < |items| && OwnerOf(items[i].rule) == OwnerOf(items[j].rule)
      ensures items[i].rule == items[j].rule
    {
      assert GoodPair(cfg, t, rules, Pairs(rules)[i]) && GoodPair(cfg, t, rules, Pairs(rules)[j]);
      var m :| 0 <= m < |rules| && rules[m] == items[i].rule;
      var m' :| 0 <= m' < |rules| && rules[m'] == items[j].rule;
    }
  }

  /** The generator may be called: every namespace it meets has a tenant. */
  lemma NamespacesResolve(cfg: Config, t: Tenant, resources: Resources)
    requires GoodResources(cfg, t, resources)
    ensures forall i :: 0 <= i < |DealtRules(t.name, resources)| ==>
            Resolves(cfg, DealtRules(t.name, resources)[i].namespace)
  {
    hide GoodResources, DealtRules, GoodExsvc, ValidOwner, PlainName;
    DealtIsGood(cfg, t, resources);
    assert forall i :: 0 <= i < |DealtRules(t.name, resources)| ==> GoodRule(cfg, t, DealtRules(t.name, resources)[i]);
  }

  lemma {:induction false} Enumeration(keys: set<string>) returns (order: seq<string>)
    ensures Visits(order, keys)
    decreases |keys|
  {
    if keys == {} {
      order := [];
    } else {
      var key :| key in keys;
      var rest := Enumeration(keys - {key});
      order := rest + [key];
    }
  }

  lemma {:induction false} ItemsExist(cfg: Config, pairs: seq<(RuleData, Exsvc)>) returns (items: seq<Item>)
    requires forall i :: 0 <= i < |pairs| ==> Resolves(cfg, pairs[i].0.namespace)
    ensures AllReady(cfg, items) && |items| == |pairs|
    ensures forall i :: 0 <= i < |items| ==> (items[i].rule, items[i].exsvc) == pairs[i]
  {
    hide Visits, Resolves;
    if pairs == [] {
      items := [];
    } else {
      var n := |pairs| - 1;
      var rest := ItemsExist(cfg, pairs[..n]);
      var order := Enumeration(pairs[n].1.destPorts.Keys);
      items := rest + [Item(pairs[n].0, pairs[n].1, order)];
    }
  }

  /** Every request has a delta. */
  lemma Generable(cfg: Config, t: Tenant, resources: Resources) returns (items: seq<Item>, order: seq<string>)
    requires ValidTenant(cfg, t) && TenantForPartition(cfg, t.name) == Some(t) && GoodResources(cfg, t, resources)
    ensures ItemsOf(DealtRules(t.name, resources), items) && GeneratedDelta(cfg, t, items, order)
  {
    hide GoodResources, DealtRules, GoodItem, Resolves, ValidTenant, ItemReady, Visits;
    var rules := DealtRules(t.name, resources);
    NamespacesResolve(cfg, t, resources);
    forall i | 0 <= i < |Pairs(rules)|
      ensures Resolves(cfg, Pairs(rules)[i].0.namespace)
    {
      var pair := Pairs(rules)[i];
      PairsAre(rules, pair.0, pair.1);
      assert pair in Pairs(rules);
    }
    items := ItemsExist(cfg, Pairs(rules));
    order := Enumeration(GroupKeys(items));
    ItemsAreGood(cfg, t, resources, items);
    assert GroupNames(order) by { GroupsAreNamed(items, order); }
  }

  lemma GroupsAreNamed(items: seq<Item>, order: seq<string>)
    requires Visits(order, GroupKeys(items))
    ensures GroupNames(order)
  {
    forall i | 0 <= i < |order|
      ensures |Split(order[i], '|')| >= 2
    {
      assert order[i] in order;
      GroupSplits(items, order[i]);
    }
  }

  /** The whole way: admissible resources in, a well-formed delta of exactly what they ask for out. */
  method DeltaFor(cfg: Config, t: Tenant, resources: Resources) returns (delta: App, ghost items: seq<Item>,
                  ghost order: seq<string>)
    requires ValidTenant(cfg, t) && TenantForPartition(cfg, t.name) == Some(t) && GoodResources(cfg, t, resources)
    ensures ItemsOf(DealtRules(t.name, resources), items) && ItemsMatch(t.name, resources, items)
    ensures GeneratedDelta(cfg, t, items, order)
    ensures delta == Delta(cfg, t, items, order) && WellFormed(cfg, t, delta)
  {
    hide GoodResources, DealtRules, GoodItem, Delta, WellFormed, Resolves, ValidTenant, ItemReady, ItemsMatch;
    NamespacesResolve(cfg, t, resources);
    delta, items, order := GenerateDelta(cfg, t, resources);
    ItemsAreGood(cfg, t, resources, items);
    ItemsAreHanded(t.name, resources, items);
    DeltaWellFormed(cfg, t, items, order);
  }
}
