/** From egress rules to a delta declaration: named objects that refer to each other by path. */
module Generate {
  import opened Model
  import opened Text
  import opened Naming
  import opened Engine
  import opened Ports

  // ----- custom resources -----

  datatype ClusterRule = ClusterRule(name: string, action: string, logging: bool, services: seq<string>)

  datatype NamespaceRule = NamespaceRule(namespace: string, name: string, action: string, logging: bool,
                                         services: seq<string>)

  datatype ServiceRule = ServiceRule(namespace: string, name: string, action: string, logging: bool,
                                     service: string, services: seq<string>)

  datatype ExternalService = ExternalService(namespace: string, name: string, addresses: seq<string>, ports: seq<Port>)

  /** A namespace with the subnet annotation; a missing annotation reads as the empty string. */
  datatype Namespace = Namespace(name: string, cidr: string)

  datatype Endpoints = Endpoints(namespace: string, name: string, subsets: seq<seq<string>>)

  datatype Resources = Resources(clusterRules: seq<ClusterRule>, namespaceRules: seq<NamespaceRule>,
                                 serviceRules: seq<ServiceRule>, externalServices: seq<ExternalService>,
                                 namespaces: seq<Namespace>, endpoints: seq<Endpoints>, clusterServiceNamespace: string)

  // ----- rules with their external services -----

  datatype Exsvc = Exsvc(name: string, destPorts: Groups, destAddress: seq<string>)

  datatype RuleData = RuleData(ty: string, name: string, namespace: string, action: string, logging: bool,
                               srcAddr: seq<string>, epName: string, exsvcs: seq<Exsvc>)

  function ExsvcOf(x: ExternalService): Exsvc {
    Exsvc(x.name, DestPorts(x.ports), x.addresses)
  }

  /** The services of one name in a namespace, in list order. */
  function ServicesNamed(name: string, all: seq<ExternalService>, namespace: string): seq<Exsvc> {
    if all == [] then []
    else
      var n := |all| - 1;
      var rest := ServicesNamed(name, all[..n], namespace);
      if name == all[n].name && all[n].namespace == namespace then rest + [ExsvcOf(all[n])] else rest
  }

  function Selected(names: seq<string>, all: seq<ExternalService>, namespace: string): seq<Exsvc> {
    if names == [] then []
    else Selected(names[..|names| - 1], all, namespace) + ServicesNamed(names[|names| - 1], all, namespace)
  }

  function SourceCidr(namespaces: seq<Namespace>, namespace: string): seq<string> {
    if namespaces == [] then []
    else
      var n := |namespaces| - 1;
      if namespaces[n].name == namespace then [namespaces[n].cidr] else SourceCidr(namespaces[..n], namespace)
  }

  function Flatten(subsets: seq<seq<string>>): seq<string> {
    if subsets == [] then [] else Flatten(subsets[..|subsets| - 1]) + subsets[|subsets| - 1]
  }

  function SourceIps(endpoints: seq<Endpoints>, namespace: string, service: string): seq<string> {
    if endpoints == [] then []
    else
      var n := |endpoints| - 1;
      var rest := SourceIps(endpoints[..n], namespace, service);
      if endpoints[n].namespace == namespace && endpoints[n].name == service
      then rest + Flatten(endpoints[n].subsets)
      else rest
  }

  predicate HasEndpoints(endpoints: seq<Endpoints>, namespace: string, service: string) {
    exists i :: 0 <= i < |endpoints| && endpoints[i].namespace == namespace && endpoints[i].name == service
  }

  function ClusterData(resources: Resources, r: ClusterRule): RuleData {
    RuleData(GLOBAL, r.name, "", r.action, r.logging, [], "",
             Selected(r.services, resources.externalServices, resources.clusterServiceNamespace))
  }

  function NamespaceData(resources: Resources, r: NamespaceRule): RuleData {
    RuleData(NS, r.name, r.namespace, r.action, r.logging, SourceCidr(resources.namespaces, r.namespace), "",
             Selected(r.services, resources.externalServices, r.namespace))
  }

  function ServiceData(resources: Resources, r: ServiceRule): RuleData {
    RuleData(SVC, r.name, r.namespace, r.action, r.logging, SourceIps(resources.endpoints, r.namespace, r.service),
             if HasEndpoints(resources.endpoints, r.namespace, r.service) then r.service else "",
             Selected(r.services, resources.externalServices, r.namespace))
  }

  function AllClusterData(resources: Resources, rules: seq<ClusterRule>): seq<RuleData> {
    seq(|rules|, i requires 0 <= i < |rules| => ClusterData(resources, rules[i]))
  }

  function AllNamespaceData(resources: Resources, rules: seq<NamespaceRule>): seq<RuleData> {
    seq(|rules|, i requires 0 <= i < |rules| => NamespaceData(resources, rules[i]))
  }

  function AllServiceData(resources: Resources, rules: seq<ServiceRule>): seq<RuleData> {
    seq(|rules|, i requires 0 <= i < |rules| => ServiceData(resources, rules[i]))
  }

  /** Cluster rules are dealt with in Common only. */
  function DealtRules(partition: string, resources: Resources): seq<RuleData> {
    (if partition == COMMON then AllClusterData(resources, resources.clusterRules) else [])
    + AllNamespaceData(resources, resources.namespaceRules)
    + AllServiceData(resources, resources.serviceRules)
  }

  method SelectServices(names: seq<string>, all: seq<ExternalService>, namespace: string) returns (r: seq<Exsvc>)
    ensures r == Selected(names, all, namespace)
  {
    r := [];
    for i := 0 to |names|
      invariant r == Selected(names[..i], all, namespace)
    {
      assert names[..i + 1][..i] == names[..i];
      ghost var before := r;
      for j := 0 to |all|
        invariant r == before + ServicesNamed(names[i], all[..j], namespace)
      {
        assert all[..j + 1][..j] == all[..j];
        if names[i] == all[j].name && all[j].namespace == namespace {
          var ports := DealPorts(all[j].ports);
          r := r + [Exsvc(all[j].name, ports, all[j].addresses)];
        }
      }
      assert all[..|all|] == all;
    }
    assert names[..|names|] == names;
  }

  method SelectSource(endpoints: seq<Endpoints>, namespace: string, service: string)
    returns (epName: string, srcAddr: seq<string>)
    ensures srcAddr == SourceIps(endpoints, namespace, service)
    ensures epName == if HasEndpoints(endpoints, namespace, service) then service else ""
  {
    epName, srcAddr := "", [];
    for i := 0 to |endpoints|
      invariant srcAddr == SourceIps(endpoints[..i], namespace, service)
      invariant epName == if HasEndpoints(endpoints[..i], namespace, service) then service else ""
    {
      assert endpoints[..i + 1][..i] == endpoints[..i];
      var ep := endpoints[i];
      assert HasEndpoints(endpoints[..i + 1], namespace, service)
          <==> (HasEndpoints(endpoints[..i], namespace, service)
                || (ep.namespace == namespace && ep.name == service)) by {
        assert endpoints[..i + 1][i] == ep;
        assert forall j :: 0 <= j < i ==> endpoints[..i + 1][j] == endpoints[..i][j];
      }
      if ep.namespace == namespace && ep.name == service {
        epName := ep.name;
        ghost var before := srcAddr;
        for j := 0 to |ep.subsets|
          invariant srcAddr == before + Flatten(ep.subsets[..j])
        {
          assert ep.subsets[..j + 1][..j] == ep.subsets[..j];
          srcAddr := srcAddr + ep.subsets[j];
        }
        assert ep.subsets[..|ep.subsets|] == ep.subsets;
      }
    }
    assert endpoints[..|endpoints|] == endpoints;
  }

  method SelectCidr(namespaces: seq<Namespace>, namespace: string) returns (srcAddr: seq<string>)
    ensures srcAddr == SourceCidr(namespaces, namespace)
  {
    srcAddr := [];
    for i := 0 to |namespaces|
      invariant srcAddr == SourceCidr(namespaces[..i], namespace)
    {
      assert namespaces[..i + 1][..i] == namespaces[..i];
      if namespaces[i].name == namespace {
        srcAddr := [namespaces[i].cidr];
      }
    }
    assert namespaces[..|namespaces|] == namespaces;
  }

  method DealClusterRules(resources: Resources) returns (rules: seq<RuleData>)
    ensures rules == AllClusterData(resources, resources.clusterRules)
  {
    rules := [];
    for i := 0 to |resources.clusterRules|
      invariant rules == AllClusterData(resources, resources.clusterRules[..i])
    {
      var r := resources.clusterRules[i];
      var exsvcs := SelectServices(r.services, resources.externalServices, resources.clusterServiceNamespace);
      rules := rules + [RuleData(GLOBAL, r.name, "", r.action, r.logging, [], "", exsvcs)];
    }
    assert resources.clusterRules[..|resources.clusterRules|] == resources.clusterRules;
  }

  method DealNamespaceRules(resources: Resources) returns (rules: seq<RuleData>)
    ensures rules == AllNamespaceData(resources, resources.namespaceRules)
  {
    rules := [];
    for i := 0 to |resources.namespaceRules|
      invariant rules == AllNamespaceData(resources, resources.namespaceRules[..i])
    {
      var r := resources.namespaceRules[i];
      var exsvcs := SelectServices(r.services, resources.externalServices, r.namespace);
      var srcAddr := SelectCidr(resources.namespaces, r.namespace);
      rules := rules + [RuleData(NS, r.name, r.namespace, r.action, r.logging, srcAddr, "", exsvcs)];
    }
    assert resources.namespaceRules[..|resources.namespaceRules|] == resources.namespaceRules;
  }

  method DealServiceRules(resources: Resources) returns (rules: seq<RuleData>)
    ensures rules == AllServiceData(resources, resources.serviceRules)
  {
    rules := [];
    for i := 0 to |resources.serviceRules|
      invariant rules == AllServiceData(resources, resources.serviceRules[..i])
    {
      var r := resources.serviceRules[i];
      var exsvcs := SelectServices(r.services, resources.externalServices, r.namespace);
      var epName, srcAddr := SelectSource(resources.endpoints, r.namespace, r.service);
      rules := rules + [RuleData(SVC, r.name, r.namespace, r.action, r.logging, srcAddr, epName, exsvcs)];
    }
    assert resources.serviceRules[..|resources.serviceRules|] == resources.serviceRules;
  }

  method DealRule(partition: string, resources: Resources) returns (rules: seq<RuleData>)
    ensures rules == DealtRules(partition, resources)
  {
    rules := [];
    if partition == COMMON {
      rules := DealClusterRules(resources);
    }
    var namespaced := DealNamespaceRules(resources);
    var services := DealServiceRules(resources);
    rules := rules + namespaced + services;
  }

  // ----- objects of one rule and one external service -----

  /** One external service of one rule, and the order in which its port groups happen to be visited. */
  datatype Item = Item(rule: RuleData, exsvc: Exsvc, order: seq<string>)

  predicate Visits(order: seq<string>, keys: set<string>) {
    NoDuplicates(order) && (forall k :: k in order ==> k in keys) && (forall k :: k in keys ==> k in order)
  }

  predicate Resolves(cfg: Config, namespace: string) {
    namespace != "" ==> TenantForNamespace(cfg, namespace).Some?
  }

  predicate ItemReady(cfg: Config, item: Item) {
    Visits(item.order, item.exsvc.destPorts.Keys) && Resolves(cfg, item.rule.namespace)
  }

  function SrcAttr(cfg: Config, r: RuleData): string {
    if r.ty in {NS, SVC} && r.srcAddr != []
    then SrcAddressAttr(cfg.cluster, r.ty, r.namespace, r.name, r.epName)
    else ""
  }

  function DestAttr(cfg: Config, r: RuleData, x: Exsvc): string {
    DestAddressAttr(cfg.cluster, r.ty, r.namespace, r.name, x.name)
  }

  function PortAttr(cfg: Config, r: RuleData, x: Exsvc, key: string): string {
    DestPortAttr(cfg.cluster, r.ty, r.namespace, r.name, x.name, key)
  }

  function ListAttr(cfg: Config, r: RuleData, x: Exsvc): string {
    RuleListAttr(cfg.cluster, r.ty, r.namespace, r.name, x.name)
  }

  /** Addresses and domain names apart, each in their order. */
  function Where(keep: string -> bool, s: seq<string>): seq<string> {
    if s == [] then []
    else
      var rest := Where(keep, s[..|s| - 1]);
      if keep(s[|s| - 1]) then rest + [s[|s| - 1]] else rest
  }

  /** `s` is made of `a` and `b`, each in its order and with its repetitions. */
  predicate Interleaves(a: seq<string>, b: seq<string>, s: seq<string>) {
    if s == [] then a == [] && b == []
    else
      var last, init := s[|s| - 1], s[..|s| - 1];
      || (a != [] && a[|a| - 1] == last && Interleaves(a[..|a| - 1], b, init))
      || (b != [] && b[|b| - 1] == last && Interleaves(a, b[..|b| - 1], init))
  }

  /** An address list whose addresses are the IP addresses and subnets given, and whose domain names are the rest. */
  predicate Separates(isIp: string -> bool, o: Obj, given: seq<string>) {
    && o.AddressList?
    && (forall a :: a in o.addresses ==> isIp(a))
    && (forall a :: a in o.fqdns ==> !isIp(a))
    && Interleaves(o.addresses, o.fqdns, given)
  }

  lemma {:induction false} InterleavesMembers(a: seq<string>, b: seq<string>, s: seq<string>, e: string)
    requires Interleaves(a, b, s)
    ensures e in s <==> e in a || e in b
  {
    if s != [] {
      var last, init := s[|s| - 1], s[..|s| - 1];
      assert s == init + [last];
      if a != [] && a[|a| - 1] == last && Interleaves(a[..|a| - 1], b, init) {
        assert a == a[..|a| - 1] + [last];
        InterleavesMembers(a[..|a| - 1], b, init, e);
      } else {
        assert b == b[..|b| - 1] + [last];
        InterleavesMembers(a, b[..|b| - 1], init, e);
      }
    }
  }

  /** What each field of a separated list holds. */
  lemma SeparatesMembers(isIp: string -> bool, o: Obj, given: seq<string>, a: string)
    requires Separates(isIp, o, given)
    ensures a in o.addresses <==> a in given && isIp(a)
    ensures a in o.fqdns <==> a in given && !isIp(a)
  {
    InterleavesMembers(o.addresses, o.fqdns, given, a);
  }

  lemma {:induction false} WhereInterleaves(isIp: string -> bool, s: seq<string>)
    ensures Interleaves(Where(isIp, s), Where(a => !isIp(a), s), s)
    ensures forall a :: a in Where(isIp, s) ==> isIp(a)
    ensures forall a :: a in Where(a => !isIp(a), s) ==> !isIp(a)
  {
    if s != [] {
      var n := |s| - 1;
      WhereInterleaves(isIp, s[..n]);
      var ips, names := Where(isIp, s[..n]), Where(a => !isIp(a), s[..n]);
      assert (ips + [s[n]])[..|ips|] == ips && (names + [s[n]])[..|names|] == names;
    }
  }

  /** The generated address list separates addresses from domain names. */
  lemma AddressObjSeparates(cfg: Config, addresses: seq<string>)
    ensures Separates(cfg.isIp, AddressObj(cfg, addresses), addresses)
  {
    WhereInterleaves(cfg.isIp, addresses);
  }

  function AddressObj(cfg: Config, addresses: seq<string>): Obj {
    AddressList(Where(cfg.isIp, addresses), Where(a => !cfg.isIp(a), addresses))
  }

  function UsePath(cfg: Config, r: RuleData, attr: string): string
    requires Resolves(cfg, r.namespace)
  {
    NamespacePath(cfg, r.namespace, attr)
  }

  /** The firewall rule of one port group; without a protocol it has no ports. */
  function NewRule(cfg: Config, r: RuleData, x: Exsvc, key: string, g: PortGroup): Rule
    requires Resolves(cfg, r.namespace)
  {
    Rule(g.protocol, r.action + "_" + x.name + "_" + key, if g.irule == "" then "" else "/Common/" + g.irule,
         Endpoint([UsePath(cfg, r, DestAttr(cfg, r, x))],
                  if g.protocol == "" then [] else [UsePath(cfg, r, PortAttr(cfg, r, x, key))]),
         Endpoint(if SrcAttr(cfg, r) == "" then [] else [UsePath(cfg, r, SrcAttr(cfg, r))], []),
         r.action, r.logging)
  }

  function PortObjs(cfg: Config, r: RuleData, x: Exsvc, order: seq<string>): App
    requires forall k :: k in order ==> k in x.destPorts
  {
    if order == [] then map[]
    else
      var key := order[|order| - 1];
      var rest := PortObjs(cfg, r, x, order[..|order| - 1]);
      if x.destPorts[key].protocol == "" then rest
      else rest[PortAttr(cfg, r, x, key) := PortList(x.destPorts[key].ports)]
  }

  function NewRules(cfg: Config, r: RuleData, x: Exsvc, order: seq<string>): seq<Rule>
    requires Resolves(cfg, r.namespace) && forall k :: k in order ==> k in x.destPorts
  {
    if order == [] then []
    else
      var key := order[|order| - 1];
      NewRules(cfg, r, x, order[..|order| - 1]) + [NewRule(cfg, r, x, key, x.destPorts[key])]
  }

  function AddressObjs(cfg: Config, r: RuleData, x: Exsvc): App {
    var src: App := if SrcAttr(cfg, r) == "" then map[] else map[SrcAttr(cfg, r) := AddressObj(cfg, r.srcAddr)];
    src[DestAttr(cfg, r, x) := AddressObj(cfg, x.destAddress)]
  }

  /** Everything the generator defines for one item. */
  function ItemObjs(cfg: Config, item: Item): App
    requires ItemReady(cfg, item)
  {
    var r, x := item.rule, item.exsvc;
    AddressObjs(cfg, r, x) + PortObjs(cfg, r, x, item.order)
    + map[ListAttr(cfg, r, x) := RuleList(NewRules(cfg, r, x, item.order))]
  }

  // ----- all rules -----

  predicate AllReady(cfg: Config, items: seq<Item>) {
    forall i :: 0 <= i < |items| ==> ItemReady(cfg, items[i])
  }

  function Generated(cfg: Config, base: App, items: seq<Item>): App
    requires AllReady(cfg, items)
  {
    if items == [] then base
    else Generated(cfg, base, items[..|items| - 1]) + ItemObjs(cfg, items[|items| - 1])
  }

  /** Rule lists are collected per rule type and namespace. */
  function GroupKey(r: RuleData): string {
    r.ty + "|" + r.namespace
  }

  function EntryPath(cfg: Config, item: Item): string
    requires ItemReady(cfg, item)
  {
    UsePath(cfg, item.rule, ListAttr(cfg, item.rule, item.exsvc))
  }

  function GroupUses(cfg: Config, items: seq<Item>, group: string): seq<string>
    requires AllReady(cfg, items)
  {
    if items == [] then []
    else
      var item := items[|items| - 1];
      var rest := GroupUses(cfg, items[..|items| - 1], group);
      if GroupKey(item.rule) == group then rest + [EntryPath(cfg, item)] else rest
  }

  function GroupKeys(items: seq<Item>): set<string> {
    set i | 0 <= i < |items| :: GroupKey(items[i].rule)
  }

  /** The rules and external services in the order the generator goes through them. */
  function Pairs(rules: seq<RuleData>): seq<(RuleData, Exsvc)> {
    if rules == [] then []
    else
      var r := rules[|rules| - 1];
      Pairs(rules[..|rules| - 1]) + seq(|r.exsvcs|, i requires 0 <= i < |r.exsvcs| => (r, r.exsvcs[i]))
  }

  predicate ItemsOf(rules: seq<RuleData>, items: seq<Item>) {
    |items| == |Pairs(rules)| && forall i :: 0 <= i < |items| ==> (items[i].rule, items[i].exsvc) == Pairs(rules)[i]
  }

  method NewFirewallAddressList(cfg: Config, attr: string, addresses: seq<string>, app: Application)
    modifies app
    ensures app.objects == old(app.objects)[attr := AddressObj(cfg, addresses)]
    ensures Separates(cfg.isIp, app.objects[attr], addresses)
  {
    var ips: seq<string>, dns: seq<string> := [], [];
    for i := 0 to |addresses|
      invariant ips == Where(cfg.isIp, addresses[..i])
      invariant dns == Where(a => !cfg.isIp(a), addresses[..i])
      invariant app.objects == old(app.objects)
    {
      assert addresses[..i + 1][..i] == addresses[..i];
      if cfg.isIp(addresses[i]) {
        ips := ips + [addresses[i]];
      } else {
        dns := dns + [addresses[i]];
      }
    }
    assert addresses[..|addresses|] == addresses;
    AddressObjSeparates(cfg, addresses);
    app.objects := app.objects[attr := AddressList(ips, dns)];
  }

  /** A visit takes as many steps as there are keys. */
  lemma {:induction false} VisitLength(order: seq<string>, keys: set<string>)
    requires Visits(order, keys)
    ensures |order| == |keys|
  {
    if order == [] {
      assert keys == {};
    } else {
      var n := |order| - 1;
      assert order == order[..n] + [order[n]] && order[n] in order;
      VisitLength(order[..n], keys - {order[n]});
    }
  }

  lemma VisitOne(order: seq<string>, done: set<string>, key: string)
    requires Visits(order, done) && key !in done
    ensures Visits(order + [key], done + {key}) && (order + [key])[..|order|] == order
  {
  }

  /** The source list is defined when the rule has source addresses; it belongs to the rule, not to the service. */
  method NewAddressLists(cfg: Config, r: RuleData, x: Exsvc, app: Application)
    modifies app
    ensures app.objects == old(app.objects) + AddressObjs(cfg, r, x)
  {
    hide SrcAddressAttr, DestAddressAttr, AddressObj;
    if r.ty == NS || r.ty == SVC {
      if r.srcAddr != [] {
        SrcAttrNotEmpty(cfg, r);
        NewFirewallAddressList(cfg, SrcAddressAttr(cfg.cluster, r.ty, r.namespace, r.name, r.epName), r.srcAddr, app);
      }
    }
    NewFirewallAddressList(cfg, DestAttr(cfg, r, x), x.destAddress, app);
  }

  /** The port lists and rules of one external service; the groups are visited in any order, which is returned. */
  method NewPortRules(cfg: Config, r: RuleData, x: Exsvc, app: Application) returns (rules: seq<Rule>,
                      ghost order: seq<string>)
    requires Resolves(cfg, r.namespace)
    modifies app
    ensures Visits(order, x.destPorts.Keys)
    ensures rules == NewRules(cfg, r, x, order)
    ensures app.objects == old(app.objects) + PortObjs(cfg, r, x, order)
  {
    hide Visits, NewRule, PortAttr, Resolves;
    rules, order := [], [];
    EmptyVisit();
    var todo := x.destPorts.Keys;
    assert x.destPorts.Keys - todo == {};
    while todo != {}
      invariant todo <= x.destPorts.Keys
      invariant Visits(order, x.destPorts.Keys - todo)
      invariant forall k :: k in order ==> k in x.destPorts
      invariant rules == NewRules(cfg, r, x, order)
      invariant app.objects == old(app.objects) + PortObjs(cfg, r, x, order)
      decreases todo
    {
      var key :| key in todo;
      VisitOne(order, x.destPorts.Keys - todo, key);
      assert x.destPorts.Keys - todo + {key} == x.destPorts.Keys - (todo - {key});
      todo := todo - {key};
      var g := x.destPorts[key];
      if g.protocol != "" {
        app.objects := app.objects[PortAttr(cfg, r, x, key) := PortList(g.ports)];
      }
      rules := rules + [NewRule(cfg, r, x, key, g)];
      order := order + [key];
    }
    assert x.destPorts.Keys - todo == x.destPorts.Keys;
  }

  lemma EmptyVisit()
    ensures Visits([], {})
  {
  }

  lemma UnionStep(base: App, a: App, b: App, k: string, o: Obj)
    ensures (base + a + b)[k := o] == base + (a + b + map[k := o])
  {
  }

  /** The objects of one external service of one rule, and the path of its rule list. */
  method NewItem(cfg: Config, r: RuleData, x: Exsvc, app: Application) returns (use: string, ghost item: Item)
    requires Resolves(cfg, r.namespace)
    modifies app
    ensures item.rule == r && item.exsvc == x && ItemReady(cfg, item)
    ensures app.objects == old(app.objects) + ItemObjs(cfg, item)
    ensures use == EntryPath(cfg, item)
  {
    hide AddressObjs, PortObjs, NewRules, ListAttr, UsePath, Resolves;
    NewAddressLists(cfg, r, x, app);
    var rules;
    ghost var order;
    rules, order := NewPortRules(cfg, r, x, app);
    UnionStep(old(app.objects), AddressObjs(cfg, r, x), PortObjs(cfg, r, x, order), ListAttr(cfg, r, x),
              RuleList(rules));
    app.objects := app.objects[ListAttr(cfg, r, x) := RuleList(rules)];
    item := Item(r, x, order);
    use := UsePath(cfg, r, ListAttr(cfg, r, x));
  }

  lemma SrcAttrNotEmpty(cfg: Config, r: RuleData)
    requires r.ty in {NS, SVC}
    ensures SrcAddressAttr(cfg.cluster, r.ty, r.namespace, r.name, r.epName) != ""
  {
  }

  /** What the generator has done after some items: their objects, and their paths by group. */
  ghost predicate Collected(cfg: Config, base: App, items: seq<Item>, objects: App, policyMap: map<string,
                            seq<string>>) {
    && AllReady(cfg, items)
    && objects == Generated(cfg, base, items)
    && policyMap.Keys == GroupKeys(items)
    && forall g :: g in policyMap ==> policyMap[g] == GroupUses(cfg, items, g)
  }

  lemma NothingCollected(cfg: Config, base: App)
    ensures Collected(cfg, base, [], base, map[])
  {
  }

  /** The items of the first rules and of part of the next one. */
  ghost predicate ItemsUpTo(pairs: seq<(RuleData, Exsvc)>, r: RuleData, j: nat, items: seq<Item>)
    requires j <= |r.exsvcs|
  {
    && |items| == |pairs| + j
    && forall n :: 0 <= n < |items| ==>
         (items[n].rule, items[n].exsvc) == if n < |pairs| then pairs[n] else (r, r.exsvcs[n - |pairs|])
  }

  /** Defines every rule's objects and collects the paths of the rule lists, grouped for the policies. */
  method NewRulesDecl(cfg: Config, rules: seq<RuleData>, app: Application)
    returns (policyMap: map<string, seq<string>>, ghost items: seq<Item>)
    requires forall i :: 0 <= i < |rules| ==> Resolves(cfg, rules[i].namespace)
    modifies app
    ensures AllReady(cfg, items) && ItemsOf(rules, items)
    ensures app.objects == Generated(cfg, old(app.objects), items)
    ensures policyMap.Keys == GroupKeys(items)
    ensures forall g :: g in policyMap ==> policyMap[g] == GroupUses(cfg, items, g)
  {
    hide Resolves, Generated, GroupUses, GroupKeys, ItemReady;
    policyMap := map[];
    items := [];
    NothingCollected(cfg, app.objects);
    for i := 0 to |rules|
      invariant ItemsOf(rules[..i], items)
      invariant Collected(cfg, old(app.objects), items, app.objects, policyMap)
    {
      assert rules[..i + 1][..i] == rules[..i];
      hide Collected;
      policyMap, items := NewRuleDecl(cfg, rules[i], app, policyMap, old(app.objects), items, Pairs(rules[..i]));
    }
    assert rules[..|rules|] == rules;
  }

  /** The inner loop: all external services of one rule. */
  method NewRuleDecl(cfg: Config, r: RuleData, app: Application, before: map<string, seq<string>>,
                     ghost base: App, ghost start: seq<Item>, ghost pairs: seq<(RuleData, Exsvc)>)
    returns (policyMap: map<string, seq<string>>, ghost items: seq<Item>)
    requires Resolves(cfg, r.namespace)
    requires Collected(cfg, base, start, app.objects, before) && ItemsUpTo(pairs, r, 0, start)
    modifies app
    ensures Collected(cfg, base, items, app.objects, policyMap) && ItemsUpTo(pairs, r, |r.exsvcs|, items)
  {
    hide Collected, Resolves;
    policyMap, items := before, start;
    for j := 0 to |r.exsvcs|
      invariant ItemsUpTo(pairs, r, j, items)
      invariant Collected(cfg, base, items, app.objects, policyMap)
    {
      ghost var item;
      ghost var objects := app.objects;
      var use;
      use, item := NewItem(cfg, r, r.exsvcs[j], app);
      CollectStep(cfg, base, items, objects, policyMap, item);
      var uses := if GroupKey(r) in policyMap then policyMap[GroupKey(r)] else [];
      policyMap := policyMap[GroupKey(r) := uses + [use]];
      items := items + [item];
    }
  }

  lemma CollectStep(cfg: Config, base: App, items: seq<Item>, objects: App, policyMap: map<string, seq<string>>,
                    item: Item)
    requires Collected(cfg, base, items, objects, policyMap) && ItemReady(cfg, item)
    ensures var g := GroupKey(item.rule);
            var uses := if g in policyMap then policyMap[g] else [];
            Collected(cfg, base, items + [item], objects + ItemObjs(cfg, item),
              policyMap[g := uses + [EntryPath(cfg, item)]])
  {
    hide ItemReady, ItemObjs, EntryPath, GroupKey, Generated, GroupUses, AllReady;
    GroupStep(cfg, base, items, item);
  }

  /** What one more item does to the groups. */
  lemma GroupStep(cfg: Config, base: App, items: seq<Item>, item: Item)
    requires AllReady(cfg, items) && ItemReady(cfg, item)
    ensures AllReady(cfg, items + [item]) && GroupKeys(items + [item]) == GroupKeys(items) + {GroupKey(item.rule)}
    ensures Generated(cfg, base, items + [item]) == Generated(cfg, base, items) + ItemObjs(cfg, item)
    ensures forall g :: GroupUses(cfg, items + [item], g)
                        == GroupUses(cfg, items, g) + (if g == GroupKey(item.rule) then [EntryPath(cfg, item)] else [])
    ensures GroupKey(item.rule) !in GroupKeys(items) ==> GroupUses(cfg, items, GroupKey(item.rule)) == []
  {
    hide ItemReady, ItemObjs, EntryPath, GroupKey;
    var more := items + [item];
    assert more[..|items|] == items;
    forall g
      ensures g in GroupKeys(more) <==> g in GroupKeys(items) + {GroupKey(item.rule)}
    {
      if g in GroupKeys(items) {
        var i :| 0 <= i < |items| && GroupKey(items[i].rule) == g;
        assert more[i] == items[i];
      }
      assert more[|items|] == item;
    }
    NoGroupNoUses(cfg, items, GroupKey(item.rule));
  }

  lemma {:induction false} NoGroupNoUses(cfg: Config, items: seq<Item>, g: string)
    requires AllReady(cfg, items)
    ensures g !in GroupKeys(items) ==> GroupUses(cfg, items, g) == []
  {
    if items != [] && g !in GroupKeys(items) {
      var n := |items| - 1;
      assert GroupKey(items[n].rule) in GroupKeys(items);
      forall i | 0 <= i < n
        ensures GroupKey(items[..n][i].rule) in GroupKeys(items)
      {
        assert items[..n][i] == items[i];
      }
      NoGroupNoUses(cfg, items[..n], g);
    }
  }

  // ----- policies and infrastructure -----

  /** The tenant that a group's namespace belongs to; the global group belongs to Common. */
  function GroupTenant(cfg: Config, group: string): Option<Tenant>
    requires |Split(group, '|')| >= 2
  {
    var ns := Split(group, '|')[1];
    if ns == "" then TenantForPartition(cfg, COMMON) else TenantForNamespace(cfg, ns)
  }

  /** A group's entries go before what its policy lists already. */
  function PrependGroup(cfg: Config, app: App, group: string, uses: seq<string>): App
    requires |Split(group, '|')| >= 2
  {
    match GroupTenant(cfg, group)
    case None => app
    case Some(t) =>
      var key := PolicyAttr(cfg, Split(group, '|')[0], t.routeDomainName);
      app[key := Policy(uses + if key in app && app[key].Policy? then app[key].uses else [])]
  }

  predicate GroupNames(order: seq<string>) {
    forall i :: 0 <= i < |order| ==> |Split(order[i], '|')| >= 2
  }

  function PrependAll(cfg: Config, app: App, items: seq<Item>, order: seq<string>): App
    requires AllReady(cfg, items) && GroupNames(order)
  {
    if order == [] then app
    else
      var group := order[|order| - 1];
      PrependGroup(cfg, PrependAll(cfg, app, items, order[..|order| - 1]), group, GroupUses(cfg, items, group))
  }

  /** The order in which the groups were visited covers each group once. */
  predicate GroupOrder(items: seq<Item>, order: seq<string>) {
    Visits(order, GroupKeys(items)) && GroupNames(order)
  }

  method NewPoliciesDecl(cfg: Config, rules: seq<RuleData>, app: Application)
    returns (ghost items: seq<Item>, ghost order: seq<string>)
    requires forall i :: 0 <= i < |rules| ==> Resolves(cfg, rules[i].namespace)
    modifies app
    ensures AllReady(cfg, items) && ItemsOf(rules, items) && GroupOrder(items, order)
    ensures app.objects == PrependAll(cfg, Generated(cfg, old(app.objects), items), items, order)
  {
    hide Visits, Resolves, ItemsOf, Generated, GroupUses, AllReady, GroupTenant, PolicyAttr, Split;
    var policyMap;
    policyMap, items := NewRulesDecl(cfg, rules, app);
    ghost var generated := app.objects;
    order := [];
    EmptyVisit();
    var todo := policyMap.Keys;
    assert policyMap.Keys - todo == {};
    while todo != {}
      invariant todo <= policyMap.Keys
      invariant Visits(order, policyMap.Keys - todo) && GroupNames(order)
      invariant app.objects == PrependAll(cfg, generated, items, order)
      decreases todo
    {
      var tyns :| tyns in todo;
      VisitOne(order, policyMap.Keys - todo, tyns);
      assert policyMap.Keys - todo + {tyns} == policyMap.Keys - (todo - {tyns});
      todo := todo - {tyns};
      GroupSplits(items, tyns);
      order := order + [tyns];
      NewPolicy(cfg, tyns, policyMap[tyns], app);
    }
    assert policyMap.Keys - todo == policyMap.Keys;
  }

  method NewPolicy(cfg: Config, tyns: string, ruleList: seq<string>, app: Application)
    requires |Split(tyns, '|')| >= 2
    modifies app
    ensures app.objects == PrependGroup(cfg, old(app.objects), tyns, ruleList)
  {
    var ty, ns := Split(tyns, '|')[0], Split(tyns, '|')[1];
    var tenant := if ns == "" then TenantForPartition(cfg, COMMON) else TenantForNamespace(cfg, ns);
    if tenant.None? {
      return;
    }
    var attr := PolicyAttr(cfg, ty, tenant.value.routeDomainName);
    var policy := if attr in app.objects && app.objects[attr].Policy? then app.objects[attr].uses else [];
    app.objects := app.objects[attr := Policy(ruleList + policy)];
  }

  lemma GroupSplits(items: seq<Item>, group: string)
    requires group in GroupKeys(items)
    ensures |Split(group, '|')| >= 2
  {
    var i :| 0 <= i < |items| && GroupKey(items[i].rule) == group;
    SplitAt(items[i].rule.ty, items[i].rule.namespace, '|');
  }

  /** Gateway pool, log objects, virtual address and virtual server, in the order they are written. */
  function WithInfrastructure(cfg: Config, t: Tenant, app: App): App {
    (app[GatewayPoolAttr(cfg) := Infra(t.gateway)] + LogDecl(cfg, t))
      [VirtualAddressAttr(cfg) := Infra(t.virtualAddress)]
      [VirtualServerAttr(cfg) := Infra(t.virtualServer)]
  }

  /** The delta of a request for the partition of tenant `t`. */
  function Delta(cfg: Config, t: Tenant, items: seq<Item>, order: seq<string>): App
    requires AllReady(cfg, items) && GroupNames(order)
  {
    WithInfrastructure(cfg, t, PrependAll(cfg, Generated(cfg, DefaultApp(cfg, t.name, t), items), items, order))
  }

  /** A whole delta declaration from the custom resources of one request. */
  method GenerateDelta(cfg: Config, t: Tenant, resources: Resources)
    returns (delta: App, ghost items: seq<Item>, ghost order: seq<string>)
    requires TenantForPartition(cfg, t.name) == Some(t)
    requires forall i :: 0 <= i < |DealtRules(t.name, resources)| ==>
             Resolves(cfg, DealtRules(t.name, resources)[i].namespace)
    ensures AllReady(cfg, items) && ItemsOf(DealtRules(t.name, resources), items) && GroupOrder(items, order)
    ensures delta == Delta(cfg, t, items, order)
  {
    var app := new Application(DefaultApp(cfg, t.name, t));
    var rules := DealRule(t.name, resources);
    items, order := NewPoliciesDecl(cfg, rules, app);
    app.objects := app.objects[GatewayPoolAttr(cfg) := Infra(t.gateway)];
    app.objects := app.objects + LogDecl(cfg, t);
    app.objects := app.objects[VirtualAddressAttr(cfg) := Infra(t.virtualAddress)];
    app.objects := app.objects[VirtualServerAttr(cfg) := Infra(t.virtualServer)];
    delta := app.objects;
  }
}
