/** What the generator takes from the custom resources: exactly what each rule names, no more and no less. */
module Selection {
  import opened Model
  import opened Generate

  datatype Egress =
    | ClusterEgress(cluster: ClusterRule)
    | NamespaceEgress(namespaced: NamespaceRule)
    | ServiceEgress(service: ServiceRule)

  function DataOf(resources: Resources, e: Egress): RuleData {
    match e
    case ClusterEgress(r) => ClusterData(resources, r)
    case NamespaceEgress(r) => NamespaceData(resources, r)
    case ServiceEgress(r) => ServiceData(resources, r)
  }

  // ----- the rule's own words, read off the custom resource -----

  function TypeOfRule(e: Egress): string {
    match e
    case ClusterEgress(_) => "global"
    case NamespaceEgress(_) => "ns"
    case ServiceEgress(_) => "svc"
  }

  /** Cluster rules are in no namespace. */
  function NamespaceOf(e: Egress): string {
    match e
    case ClusterEgress(_) => ""
    case NamespaceEgress(r) => r.namespace
    case ServiceEgress(r) => r.namespace
  }

  function NameOf(e: Egress): string {
    match e
    case ClusterEgress(r) => r.name
    case NamespaceEgress(r) => r.name
    case ServiceEgress(r) => r.name
  }

  function ActionOf(e: Egress): string {
    match e
    case ClusterEgress(r) => r.action
    case NamespaceEgress(r) => r.action
    case ServiceEgress(r) => r.action
  }

  function LoggingOf(e: Egress): bool {
    match e
    case ClusterEgress(r) => r.logging
    case NamespaceEgress(r) => r.logging
    case ServiceEgress(r) => r.logging
  }

  /** The service whose endpoints are a rule's source, if endpoints of that name are there. */
  function EndpointOf(resources: Resources, e: Egress): string {
    match e
    case ServiceEgress(r) =>
      if exists ep :: ep in resources.endpoints && ep.namespace == r.namespace && ep.name == r.service then r.service
      else ""
    case _ => ""
  }

  /** The generator's data about a rule are the rule's own words. */
  lemma DataSay(resources: Resources, e: Egress)
    ensures var r := DataOf(resources, e);
            && r.ty == TypeOfRule(e) && r.namespace == NamespaceOf(e) && r.name == NameOf(e)
            && r.action == ActionOf(e) && r.logging == LoggingOf(e) && r.epName == EndpointOf(resources, e)
  {
    match e
    case ServiceEgress(r) =>
      var endpoints := resources.endpoints;
      if ep :| ep in endpoints && ep.namespace == r.namespace && ep.name == r.service {
        var i :| 0 <= i < |endpoints| && endpoints[i] == ep;
        assert HasEndpoints(endpoints, r.namespace, r.service);
      }
      if HasEndpoints(endpoints, r.namespace, r.service) {
        var i :| 0 <= i < |endpoints| && endpoints[i].namespace == r.namespace && endpoints[i].name == r.service;
        assert endpoints[i] in endpoints;
      }
    case _ =>
  }

  function ServicesOf(e: Egress): seq<string> {
    match e
    case ClusterEgress(r) => r.services
    case NamespaceEgress(r) => r.services
    case ServiceEgress(r) => r.services
  }

  /** The namespace in which a rule's external services are looked up. */
  function ServiceNamespace(resources: Resources, e: Egress): string {
    match e
    case ClusterEgress(_) => resources.clusterServiceNamespace
    case NamespaceEgress(r) => r.namespace
    case ServiceEgress(r) => r.namespace
  }

  /** The request carries the rule; cluster rules count in Common only. */
  predicate Declared(partition: string, resources: Resources, e: Egress) {
    match e
    case ClusterEgress(r) => partition == COMMON && r in resources.clusterRules
    case NamespaceEgress(r) => r in resources.namespaceRules
    case ServiceEgress(r) => r in resources.serviceRules
  }

  /** The request carries the rule and an external service that the rule names. */
  predicate Handed(partition: string, resources: Resources, e: Egress, x: ExternalService) {
    && Declared(partition, resources, e)
    && x in resources.externalServices
    && x.name in ServicesOf(e) && x.namespace == ServiceNamespace(resources, e)
  }

  // ----- external services -----

  predicate IsService(all: seq<ExternalService>, namespace: string, x: ExternalService) {
    x in all && x.namespace == namespace
  }

  lemma {:induction false} ServicesNamedAre(name: string, all: seq<ExternalService>, namespace: string, y: Exsvc)
    ensures y in ServicesNamed(name, all, namespace)
            <==> exists x :: IsService(all, namespace, x) && x.name == name && y == ExsvcOf(x)
  {
    hide ExsvcOf;
    if all != [] {
      var n := |all| - 1;
      ServicesNamedAre(name, all[..n], namespace, y);
      assert all == all[..n] + [all[n]];
      assert forall x :: IsService(all, namespace, x) <==>
          IsService(all[..n], namespace, x) || (x == all[n] && x.namespace == namespace);
    }
  }

  /** The external services of a rule are those that it names and that exist in the namespace. */
  lemma {:induction false} SelectedAre(names: seq<string>, all: seq<ExternalService>, namespace: string, y: Exsvc)
    ensures y in Selected(names, all, namespace)
            <==> exists x :: IsService(all, namespace, x) && x.name in names && y == ExsvcOf(x)
  {
    hide ExsvcOf, ServicesNamed, IsService;
    if names != [] {
      var n := |names| - 1;
      SelectedAre(names[..n], all, namespace, y);
      ServicesNamedAre(names[n], all, namespace, y);
      assert names == names[..n] + [names[n]];
    }
  }

  // ----- sources -----

  predicate IsAddress(subsets: seq<seq<string>>, ip: string) {
    exists j :: 0 <= j < |subsets| && ip in subsets[j]
  }

  lemma {:induction false} FlattenAre(subsets: seq<seq<string>>, ip: string)
    ensures ip in Flatten(subsets) <==> IsAddress(subsets, ip)
  {
    if subsets != [] {
      var n := |subsets| - 1;
      FlattenAre(subsets[..n], ip);
      assert forall j :: 0 <= j < n ==> subsets[..n][j] == subsets[j];
      if IsAddress(subsets[..n], ip) {
        var j :| 0 <= j < n && ip in subsets[..n][j];
        assert ip in subsets[j];
      }
    }
  }

  /** The address belongs to endpoints of the service. */
  predicate IsSource(endpoints: seq<Endpoints>, namespace: string, service: string, ip: string) {
    exists ep :: ep in endpoints && ep.namespace == namespace && ep.name == service && IsAddress(ep.subsets, ip)
  }

  /** The source of a service rule is every address of the service's endpoints, and nothing else. */
  lemma {:induction false} SourceIpsAre(endpoints: seq<Endpoints>, namespace: string, service: string, ip: string)
    ensures ip in SourceIps(endpoints, namespace, service) <==> IsSource(endpoints, namespace, service, ip)
  {
    hide Flatten, IsAddress;
    if endpoints != [] {
      var n := |endpoints| - 1;
      SourceIpsAre(endpoints[..n], namespace, service, ip);
      FlattenAre(endpoints[n].subsets, ip);
      assert endpoints == endpoints[..n] + [endpoints[n]];
    }
  }

  /** The last namespace of the name. */
  predicate IsNamespace(namespaces: seq<Namespace>, name: string, ns: Namespace) {
    exists i :: 0 <= i < |namespaces| && LastAt(namespaces, name, ns, i)
  }

  predicate LastAt(namespaces: seq<Namespace>, name: string, ns: Namespace, i: nat)
    requires i < |namespaces|
  {
    namespaces[i] == ns && ns.name == name && forall j :: i < j < |namespaces| ==> namespaces[j].name != name
  }

  /** The source of a namespace rule is the subnet of its namespace, or nothing when there is none. */
  lemma {:induction false} SourceCidrIs(namespaces: seq<Namespace>, name: string)
    ensures forall ns :: IsNamespace(namespaces, name, ns) ==> SourceCidr(namespaces, name) == [ns.cidr]
    ensures SourceCidr(namespaces, name) == [] || exists ns :: IsNamespace(namespaces, name, ns)
  {
    if namespaces != [] {
      var n := |namespaces| - 1;
      SourceCidrIs(namespaces[..n], name);
      if namespaces[n].name == name {
        assert LastAt(namespaces, name, namespaces[n], n);
      } else {
        forall ns
          ensures IsNamespace(namespaces, name, ns) <==> IsNamespace(namespaces[..n], name, ns)
        {
          LastElsewhere(namespaces, name, ns);
        }
      }
    }
  }

  lemma LastElsewhere(namespaces: seq<Namespace>, name: string, ns: Namespace)
    requires namespaces != [] && namespaces[|namespaces| - 1].name != name
    ensures IsNamespace(namespaces, name, ns) <==> IsNamespace(namespaces[..|namespaces| - 1], name, ns)
  {
    var init := namespaces[..|namespaces| - 1];
    forall i | 0 <= i < |init|
      ensures LastAt(init, name, ns, i) <==> LastAt(namespaces, name, ns, i)
    {
      assert forall j :: i < j < |init| ==> init[j] == namespaces[j];
    }
    hide LastAt;
    if IsNamespace(init, name, ns) {
      var i :| 0 <= i < |init| && LastAt(init, name, ns, i);
      assert LastAt(namespaces, name, ns, i);
    }
    if IsNamespace(namespaces, name, ns) {
      var i :| 0 <= i < |namespaces| && LastAt(namespaces, name, ns, i);
      assert i < |init| by { LastIsNamed(namespaces, name, ns, i); }
      assert LastAt(init, name, ns, i);
    }
  }

  lemma LastIsNamed(namespaces: seq<Namespace>, name: string, ns: Namespace, i: nat)
    requires i < |namespaces| && LastAt(namespaces, name, ns, i)
    ensures namespaces[i].name == name
  {
  }

  // ----- rules and items -----

  lemma {:induction false} PairsAre(rules: seq<RuleData>, r: RuleData, y: Exsvc)
    ensures (r, y) in Pairs(rules) <==> r in rules && y in r.exsvcs
  {
    if rules != [] {
      var n := |rules| - 1;
      PairsAre(rules[..n], r, y);
      assert rules == rules[..n] + [rules[n]];
      var last := seq(|rules[n].exsvcs|, i requires 0 <= i < |rules[n].exsvcs| => (rules[n], rules[n].exsvcs[i]));
      if r == rules[n] && y in r.exsvcs {
        var i :| 0 <= i < |r.exsvcs| && r.exsvcs[i] == y;
        assert last[i] == (r, y);
      }
    }
  }

  lemma DataAre(partition: string, resources: Resources, r: RuleData)
    ensures r in DealtRules(partition, resources)
            <==> exists e :: Declared(partition, resources, e) && r == DataOf(resources, e)
  {
    hide ClusterData, NamespaceData, ServiceData;
    var cluster := AllClusterData(resources, resources.clusterRules);
    var namespaced := AllNamespaceData(resources, resources.namespaceRules);
    var service := AllServiceData(resources, resources.serviceRules);
    if e :| Declared(partition, resources, e) && r == DataOf(resources, e) {
      match e
      case ClusterEgress(rule) =>
        var i :| 0 <= i < |resources.clusterRules| && resources.clusterRules[i] == rule;
        assert cluster[i] == r;
      case NamespaceEgress(rule) =>
        var i :| 0 <= i < |resources.namespaceRules| && resources.namespaceRules[i] == rule;
        assert namespaced[i] == r;
      case ServiceEgress(rule) =>
        var i :| 0 <= i < |resources.serviceRules| && resources.serviceRules[i] == rule;
        assert service[i] == r;
    }
    if r in DealtRules(partition, resources) {
      if i :| 0 <= i < |cluster| && partition == COMMON && cluster[i] == r {
        assert DataOf(resources, ClusterEgress(resources.clusterRules[i])) == r;
      } else if i :| 0 <= i < |namespaced| && namespaced[i] == r {
        assert DataOf(resources, NamespaceEgress(resources.namespaceRules[i])) == r;
      } else {
        var j :| 0 <= j < |service| && service[j] == r;
        assert DataOf(resources, ServiceEgress(resources.serviceRules[j])) == r;
      }
    }
  }

  ghost predicate Wanted(partition: string, resources: Resources, r: RuleData, y: Exsvc) {
    exists e, x :: Handed(partition, resources, e, x) && r == DataOf(resources, e) && y == ExsvcOf(x)
  }

  predicate Made(items: seq<Item>, r: RuleData, y: Exsvc) {
    exists i :: 0 <= i < |items| && items[i].rule == r && items[i].exsvc == y
  }

  /** There is an item for each rule and external service that it names, and for nothing else. */
  ghost predicate ItemsMatch(partition: string, resources: Resources, items: seq<Item>) {
    forall r, y :: Made(items, r, y) <==> Wanted(partition, resources, r, y)
  }

  lemma DataServices(resources: Resources, e: Egress)
    ensures DataOf(resources, e).exsvcs
            == Selected(ServicesOf(e), resources.externalServices, ServiceNamespace(resources, e))
  {
  }

  lemma PairsWanted(partition: string, resources: Resources, r: RuleData, y: Exsvc)
    ensures (r, y) in Pairs(DealtRules(partition, resources)) <==> Wanted(partition, resources, r, y)
  {
    hide DealtRules, Selected, DataOf, ExsvcOf, ServicesOf, ServiceNamespace, Declared;
    PairsAre(DealtRules(partition, resources), r, y);
    DataAre(partition, resources, r);
    if e :| Declared(partition, resources, e) && r == DataOf(resources, e) && y in r.exsvcs {
      DataServices(resources, e);
      SelectedAre(ServicesOf(e), resources.externalServices, ServiceNamespace(resources, e), y);
      var x :| IsService(resources.externalServices, ServiceNamespace(resources, e), x) && x.name in ServicesOf(e)
               && y == ExsvcOf(x);
      assert Handed(partition, resources, e, x);
    }
    if e, x :| Handed(partition, resources, e, x) && r == DataOf(resources, e) && y == ExsvcOf(x) {
      DataServices(resources, e);
      assert IsService(resources.externalServices, ServiceNamespace(resources, e), x);
      SelectedAre(ServicesOf(e), resources.externalServices, ServiceNamespace(resources, e), y);
    }
  }

  /** The generator's items are those that the resources ask for. */
  lemma ItemsAreHanded(partition: string, resources: Resources, items: seq<Item>)
    requires ItemsOf(DealtRules(partition, resources), items)
    ensures ItemsMatch(partition, resources, items)
  {
    hide DealtRules, Wanted;
    var pairs := Pairs(DealtRules(partition, resources));
    forall r, y
      ensures Made(items, r, y) <==> Wanted(partition, resources, r, y)
    {
      PairsWanted(partition, resources, r, y);
      if (r, y) in pairs {
        var i :| 0 <= i < |pairs| && pairs[i] == (r, y);
        assert (items[i].rule, items[i].exsvc) == (r, y);
      }
    }
  }
}
