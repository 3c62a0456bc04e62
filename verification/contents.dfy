/**
 * What the objects hold that a sync leaves on the device, in the words of the custom resources and of the tenant's
 * configuration.
 */
module Contents {
  import opened Model
  import opened Naming
  import opened Engine
  import opened EngineLaws
  import opened States
  import opened Runs
  import opened Ports
  import opened Generate
  import opened Selection
  import opened Deltas
  import opened Guarantees
  import opened Meaning
  import opened Intake
  import opened Intent

  /** A sync of the request, from any state that holds objects of the same kinds under the delta's keys. */
  ghost predicate Synced(cfg: Config, t: Tenant, src: Option<App>, resources: Resources, items: seq<Item>,
                         order: seq<string>) {
    && GeneratedDelta(cfg, t, items, order)
    && GoodResources(cfg, t, resources) && ItemsOf(DealtRules(t.name, resources), items)
    && (src.Some? ==> KindsAgree(src.value, Delta(cfg, t, items, order)))
  }

  /** The object that the device holds after the sync, if it holds one. */
  function Held(cfg: Config, t: Tenant, src: Option<App>, items: seq<Item>, order: seq<string>, k: string): Option<Obj>
    requires AllReady(cfg, items) && GroupNames(order)
  {
    var next := Next(cfg, t, false, src, Delta(cfg, t, items, order));
    if next.None? then None else Lookup(next.value, k)
  }

  lemma HeldIs(cfg: Config, t: Tenant, src: Option<App>, resources: Resources, items: seq<Item>, order: seq<string>,
               k: string)
    requires Synced(cfg, t, src, resources, items, order)
    requires var o := Lookup(Delta(cfg, t, items, order), k); o.Some? && !o.value.Scalar? && !o.value.Policy?
    ensures Held(cfg, t, src, items, order, k) == Lookup(Delta(cfg, t, items, order), k)
  {
    hide GoodItems, AllReady, Visits, Delta, ValidTenant, GoodResources, ItemsOf, KindsAgree, Next, SelfContained,
         WellFormed;
    DeltaWellFormed(cfg, t, items, order);
    ContainedDelta(cfg, t, Delta(cfg, t, items, order));
    AddStores(cfg, t, src, Delta(cfg, t, items, order), k);
  }

  lemma ContainedDelta(cfg: Config, t: Tenant, delta: App)
    requires WellFormed(cfg, t, delta)
    ensures SelfContained(cfg, delta)
  {
    hide KeyKind, Exact, RulesLocal, PolicyExact;
    WellFormedContained(cfg, t, delta);
  }

  /** The item of a rule and a service that the request carries. */
  lemma HandedItem(cfg: Config, t: Tenant, src: Option<App>, resources: Resources, items: seq<Item>, order: seq<string>,
                   e: Egress, x: ExternalService) returns (i: nat)
    requires Synced(cfg, t, src, resources, items, order) && Handed(t.name, resources, e, x)
    ensures i < |items| && items[i].rule == DataOf(resources, e) && items[i].exsvc == ExsvcOf(x)
    ensures RulesOnce(items) && GoodItem(cfg, t, items[i])
  {
    hide GoodItem, AllReady, Visits, Delta, ValidTenant, GoodResources, ItemsOf, KindsAgree, DataOf, ExsvcOf, Handed,
         RulesOnce, DealtRules, GroupNames;
    ItemsAreHanded(t.name, resources, items);
    ItemsShareRules(cfg, t, resources, items);
    assert Wanted(t.name, resources, DataOf(resources, e), ExsvcOf(x));
    i :| 0 <= i < |items| && items[i].rule == DataOf(resources, e) && items[i].exsvc == ExsvcOf(x);
  }

  // ----- names, from the resource -----

  function DestName(cfg: Config, e: Egress, x: ExternalService): string {
    DestAddressAttr(cfg.cluster, TypeOfRule(e), NamespaceOf(e), NameOf(e), x.name)
  }

  function PortName(cfg: Config, e: Egress, x: ExternalService, key: string): string {
    DestPortAttr(cfg.cluster, TypeOfRule(e), NamespaceOf(e), NameOf(e), x.name, key)
  }

  function ListName(cfg: Config, e: Egress, x: ExternalService): string {
    RuleListAttr(cfg.cluster, TypeOfRule(e), NamespaceOf(e), NameOf(e), x.name)
  }

  /** Service rules name the service in the name of their source list; endpoint patches find the list by that name. */
  function SourceName(cfg: Config, e: Egress): string {
    var endpoint := if e.ServiceEgress? then e.service.service else "";
    SrcAddressAttr(cfg.cluster, TypeOfRule(e), NamespaceOf(e), NameOf(e), endpoint)
  }

  // ----- addresses -----

  /** An address of the rule's source: its namespace's subnet, or an endpoint's address. */
  ghost predicate IsSourceOf(resources: Resources, e: Egress, a: string) {
    match e
    case ClusterEgress(_) => false
    case NamespaceEgress(r) => exists ns :: IsNamespace(resources.namespaces, r.namespace, ns) && ns.cidr == a
    case ServiceEgress(r) => IsSource(resources.endpoints, r.namespace, r.service, a)
  }

  lemma SourceSays(resources: Resources, e: Egress, a: string)
    ensures a in DataOf(resources, e).srcAddr <==> IsSourceOf(resources, e, a)
    ensures DataOf(resources, e).srcAddr != [] <==> exists b :: IsSourceOf(resources, e, b)
    ensures (exists b :: IsSourceOf(resources, e, b)) <==> !e.ClusterEgress? && HasSource(resources, e)
  {
    hide Selected, SourceIps, SourceCidr, IsSource, IsNamespace;
    match e
    case ClusterEgress(_) =>
    case NamespaceEgress(r) =>
      SourceCidrIs(resources.namespaces, r.namespace);
      if ns :| IsNamespace(resources.namespaces, r.namespace, ns) {
        assert IsSourceOf(resources, e, ns.cidr);
      }
    case ServiceEgress(r) =>
      forall ip
        ensures ip in SourceIps(resources.endpoints, r.namespace, r.service)
           <==> IsSource(resources.endpoints, r.namespace, r.service, ip)
      {
        SourceIpsAre(resources.endpoints, r.namespace, r.service, ip);
      }
      var ips := SourceIps(resources.endpoints, r.namespace, r.service);
      assert ips != [] ==> ips[0] in ips && IsSourceOf(resources, e, ips[0]);
  }

  /** A service with an address has endpoints of its name. */
  lemma SourceEndpoint(resources: Resources, e: Egress, a: string)
    requires e.ServiceEgress? && IsSourceOf(resources, e, a)
    ensures EndpointOf(resources, e) == e.service.service
  {
    hide IsAddress;
    var r := e.service;
    var ep :| ep in resources.endpoints && ep.namespace == r.namespace && ep.name == r.service
              && IsAddress(ep.subsets, a);
  }

  /** The names of an item's lists, from the resource. */
  lemma NamesAre(cfg: Config, resources: Resources, e: Egress, x: ExternalService)
    ensures var r, y := DataOf(resources, e), ExsvcOf(x);
            && ListAttr(cfg, r, y) == ListName(cfg, e, x) && DestAttr(cfg, r, y) == DestName(cfg, e, x)
            && (forall key :: PortAttr(cfg, r, y, key) == PortName(cfg, e, x, key))
            && SrcAttr(cfg, r) == if !e.ClusterEgress? && HasSource(resources, e) then SourceName(cfg, e) else ""
  {
    hide DataOf, DestPorts, RuleListAttr, DestAddressAttr, DestPortAttr, SrcAddressAttr, HasSource, IsSourceOf;
    DataSay(resources, e);
    SourceSays(resources, e, "");
    if e.ServiceEgress? && HasSource(resources, e) {
      var a :| IsSourceOf(resources, e, a);
      SourceEndpoint(resources, e, a);
    }
    assert !e.ServiceEgress? ==> EndpointOf(resources, e) == "";
  }

  /** The destination list separates the service's addresses and domain names. */
  lemma DestinationHeld(cfg: Config, t: Tenant, src: Option<App>, resources: Resources, items: seq<Item>,
                        order: seq<string>, e: Egress, x: ExternalService)
    requires Synced(cfg, t, src, resources, items, order) && Handed(t.name, resources, e, x)
    ensures var o := Held(cfg, t, src, items, order, DestName(cfg, e, x));
            && o.Some? && Separates(cfg.isIp, o.value, x.addresses)
            && forall a :: (a in o.value.addresses <==> a in x.addresses && cfg.isIp(a))
                           && (a in o.value.fqdns <==> a in x.addresses && !cfg.isIp(a))
  {
    hide GoodItems, AllReady, Visits, Delta, ValidTenant, GoodResources, ItemsOf, KindsAgree, DataOf, Handed, RulesOnce,
         DealtRules, DestName, DestAttr, AddressObj, Separates, DestPorts, SrcAttr, PortAttr, HasSource, SourceName,
         Held;
    var i := HandedItem(cfg, t, src, resources, items, order, e, x);
    NamesAre(cfg, resources, e, x);
    Meaning.DeltaLists(cfg, t, items, order, i);
    AddressObjSeparates(cfg, x.addresses);
    var o := AddressObj(cfg, x.addresses);
    assert o.AddressList? by { SeparatedIsList(cfg.isIp, o, x.addresses); }
    HeldIs(cfg, t, src, resources, items, order, DestName(cfg, e, x));
    forall a
      ensures (a in o.addresses <==> a in x.addresses && cfg.isIp(a))
           && (a in o.fqdns <==> a in x.addresses && !cfg.isIp(a))
    {
      SeparatesMembers(cfg.isIp, o, x.addresses, a);
    }
  }

  lemma SeparatedIsList(isIp: string -> bool, o: Obj, given: seq<string>)
    requires Separates(isIp, o, given)
    ensures o.AddressList?
  {
  }

  /** A rule with a source has a list of it, under the rule's and the service's name, addresses and names apart. */
  lemma SourceHeld(cfg: Config, t: Tenant, src: Option<App>, resources: Resources, items: seq<Item>,
                   order: seq<string>, e: Egress, x: ExternalService)
    requires Synced(cfg, t, src, resources, items, order) && Handed(t.name, resources, e, x)
    requires !e.ClusterEgress? && HasSource(resources, e)
    ensures var o := Held(cfg, t, src, items, order, SourceName(cfg, e));
            && o.Some? && o.value.AddressList?
            && forall a :: (a in o.value.addresses <==> IsSourceOf(resources, e, a) && cfg.isIp(a))
                           && (a in o.value.fqdns <==> IsSourceOf(resources, e, a) && !cfg.isIp(a))
  {
    hide GoodItems, AllReady, Visits, Delta, ValidTenant, GoodResources, ItemsOf, KindsAgree, DataOf, Handed, RulesOnce,
         DealtRules, DestName, DestAttr, AddressObj, Separates, DestPorts, PortAttr, HasSource, IsSourceOf, Held;
    var i := HandedItem(cfg, t, src, resources, items, order, e, x);
    NamesAre(cfg, resources, e, x);
    Meaning.DeltaLists(cfg, t, items, order, i);
    var given := DataOf(resources, e).srcAddr;
    assert SrcAttr(cfg, DataOf(resources, e)) != "" by {
      DataSay(resources, e);
      SourceSays(resources, e, "");
      SrcAttrNotEmpty(cfg, DataOf(resources, e));
    }
    AddressObjSeparates(cfg, given);
    var o := AddressObj(cfg, given);
    assert o.AddressList? by { SeparatedIsList(cfg.isIp, o, given); }
    HeldIs(cfg, t, src, resources, items, order, SourceName(cfg, e));
    forall a
      ensures (a in o.addresses <==> IsSourceOf(resources, e, a) && cfg.isIp(a))
           && (a in o.fqdns <==> IsSourceOf(resources, e, a) && !cfg.isIp(a))
    {
      SeparatesMembers(cfg.isIp, o, given, a);
      SourceSays(resources, e, a);
    }
  }

  // ----- rules -----

  /** The iRule of a bandwidth limit. */
  function LimitName(bandwidth: string): string {
    if bandwidth == "" then "" else "/Common/" + bandwidth
  }

  /** The firewall rule of one port group, property by property. */
  ghost predicate RuleSays(cfg: Config, t: Tenant, resources: Resources, e: Egress, x: ExternalService, key: string,
                           g: PortGroup, rule: Rule) {
    && rule.name == ActionOf(e) + "_" + x.name + "_" + key
    && rule.action == ActionOf(e)
    && rule.logging == LoggingOf(e)
    && rule.protocol == g.protocol
    && rule.irule == LimitName(g.irule)
    && rule.destination.addressLists == [PartitionPath(t.name, DestName(cfg, e, x))]
    && rule.destination.portLists == (if g.protocol == "" then []
                                      else [PartitionPath(t.name, PortName(cfg, e, x, key))])
    && rule.source.addressLists == (if !e.ClusterEgress? && HasSource(resources, e)
                                    then [PartitionPath(t.name, SourceName(cfg, e))] else [])
    && rule.source.portLists == []
  }

  /** The rule is that of some port group. */
  ghost predicate RuleOfGroup(cfg: Config, t: Tenant, resources: Resources, e: Egress, x: ExternalService, rule: Rule) {
    exists key :: key in DestPorts(x.ports) && RuleSays(cfg, t, resources, e, x, key, DestPorts(x.ports)[key], rule)
  }

  /** The port group has a rule. */
  ghost predicate GroupHasRule(cfg: Config, t: Tenant, resources: Resources, e: Egress, x: ExternalService,
                               rules: seq<Rule>, key: string)
    requires key in DestPorts(x.ports)
  {
    exists i :: 0 <= i < |rules| && RuleSays(cfg, t, resources, e, x, key, DestPorts(x.ports)[key], rules[i])
  }

  /** A rule list with one rule for each port group, and no others. */
  ghost predicate RulesSay(cfg: Config, t: Tenant, resources: Resources, e: Egress, x: ExternalService,
                           rules: seq<Rule>) {
    && |rules| == |DestPorts(x.ports)|
    && (forall i :: 0 <= i < |rules| ==> RuleOfGroup(cfg, t, resources, e, x, rules[i]))
    && (forall key :: key in DestPorts(x.ports) ==> GroupHasRule(cfg, t, resources, e, x, rules, key))
  }

  lemma {:induction false} NewRulesAt(cfg: Config, r: RuleData, y: Exsvc, order: seq<string>, i: nat)
    requires Resolves(cfg, r.namespace) && (forall k :: k in order ==> k in y.destPorts) && i < |order|
    ensures |NewRules(cfg, r, y, order)| == |order|
    ensures NewRules(cfg, r, y, order)[i] == NewRule(cfg, r, y, order[i], y.destPorts[order[i]])
  {
    hide NewRule, Resolves;
    var n := |order| - 1;
    if i < n {
      NewRulesAt(cfg, r, y, order[..n], i);
    } else if n > 0 {
      NewRulesAt(cfg, r, y, order[..n], 0);
    }
  }

  /** The generated rule of one group. */
  lemma NewRuleSays(cfg: Config, t: Tenant, resources: Resources, e: Egress, x: ExternalService, item: Item,
                    key: string)
    requires ValidTenant(cfg, t) && GoodItem(cfg, t, item)
    requires item.rule == DataOf(resources, e) && item.exsvc == ExsvcOf(x) && key in item.exsvc.destPorts
    ensures Resolves(cfg, item.rule.namespace)
    ensures RuleSays(cfg, t, resources, e, x, key, item.exsvc.destPorts[key],
                     NewRule(cfg, item.rule, item.exsvc, key, item.exsvc.destPorts[key]))
  {
    hide ValidTenant, DataOf, DestPorts, DestName, PortName, SourceName, DestAttr, PortAttr, SrcAttr, HasSource,
         PartitionPath,
         UsePath, Origin, OwnerOf, GoodItem, Resolves;
    var r, y := item.rule, item.exsvc;
    DataSay(resources, e);
    NamesAre(cfg, resources, e, x);
    ItemSlashFree(cfg, t, item);
    assert Resolves(cfg, r.namespace) by { GoodItemReady(cfg, t, item); }
    UsePathIs(cfg, t, item, DestAttr(cfg, r, y));
    if y.destPorts[key].protocol != "" {
      UsePathIs(cfg, t, item, PortAttr(cfg, r, y, key));
    }
    if SrcAttr(cfg, r) != "" {
      UsePathIs(cfg, t, item, SrcAttr(cfg, r));
    }
    SourceNamed(cfg, resources, e);
  }

  lemma SourceNamed(cfg: Config, resources: Resources, e: Egress)
    ensures !e.ClusterEgress? ==> SourceName(cfg, e) != ""
  {
  }

  /** The rule list on the device has exactly the rules of the service's port groups. */
  lemma RulesHeld(cfg: Config, t: Tenant, src: Option<App>, resources: Resources, items: seq<Item>,
                  order: seq<string>, e: Egress, x: ExternalService)
    requires Synced(cfg, t, src, resources, items, order) && Handed(t.name, resources, e, x)
    ensures var o := Held(cfg, t, src, items, order, ListName(cfg, e, x));
            o.Some? && o.value.RuleList? && RulesSay(cfg, t, resources, e, x, o.value.rules)
  {
    hide GoodItem, AllReady, Delta, ValidTenant, GoodResources, ItemsOf, KindsAgree, DataOf, Handed, RulesOnce,
         DealtRules,
         DestPorts, RuleSays, ListName, Held, NewRules, Attr, ItemId;
    var i := HandedItem(cfg, t, src, resources, items, order, e, x);
    var item := items[i];
    NamesAre(cfg, resources, e, x);
    ItemAttrs(cfg, t, item);
    GoodItemReady(cfg, t, item);
    DeltaRules(cfg, t, items, order, i);
    HeldIs(cfg, t, src, resources, items, order, ListName(cfg, e, x));
    ItemRulesSay(cfg, t, resources, e, x, item);
  }

  lemma ItemRuleSays(cfg: Config, t: Tenant, resources: Resources, e: Egress, x: ExternalService, item: Item, j: nat)
    requires ValidTenant(cfg, t) && GoodItem(cfg, t, item) && j < |item.order|
    requires item.rule == DataOf(resources, e) && item.exsvc == ExsvcOf(x)
    ensures ItemReady(cfg, item) && item.order[j] in item.exsvc.destPorts
    ensures var rules, key := NewRules(cfg, item.rule, item.exsvc, item.order), item.order[j];
            |rules| == |item.order| && RuleSays(cfg, t, resources, e, x, key, item.exsvc.destPorts[key], rules[j])
  {
    hide ValidTenant, DataOf, DestPorts, RuleSays, NewRules, NewRule, GoodItem, Resolves;
    GoodItemReady(cfg, t, item);
    assert item.order[j] in item.order;
    NewRulesAt(cfg, item.rule, item.exsvc, item.order, j);
    NewRuleSays(cfg, t, resources, e, x, item, item.order[j]);
  }

  lemma ItemRulesSay(cfg: Config, t: Tenant, resources: Resources, e: Egress, x: ExternalService, item: Item)
    requires ValidTenant(cfg, t) && GoodItem(cfg, t, item)
    requires item.rule == DataOf(resources, e) && item.exsvc == ExsvcOf(x)
    ensures ItemReady(cfg, item)
    ensures RulesSay(cfg, t, resources, e, x, NewRules(cfg, item.rule, item.exsvc, item.order))
  {
    hide ValidTenant, DataOf, DestPorts, RuleSays, NewRules, GoodItem, Resolves, Visits;
    GoodItemReady(cfg, t, item);
    var groups, order := item.exsvc.destPorts, item.order;
    VisitsKnown(order, groups.Keys);
    var rules := NewRules(cfg, item.rule, item.exsvc, order);
    VisitLength(order, groups.Keys);
    assert |groups| == |groups.Keys|;
    RulesLength(cfg, item.rule, item.exsvc, order);
    forall j | 0 <= j < |rules|
      ensures RuleOfGroup(cfg, t, resources, e, x, rules[j])
    {
      ItemRuleSays(cfg, t, resources, e, x, item, j);
    }
    hide RuleOfGroup;
    forall key | key in groups
      ensures GroupHasRule(cfg, t, resources, e, x, rules, key)
    {
      var j := VisitedAt(order, groups.Keys, key);
      ItemRuleSays(cfg, t, resources, e, x, item, j);
    }
  }

  lemma VisitsKnown(order: seq<string>, keys: set<string>)
    requires Visits(order, keys)
    ensures forall k :: k in order ==> k in keys
  {
  }

  lemma VisitedAt(order: seq<string>, keys: set<string>, key: string) returns (j: nat)
    requires Visits(order, keys) && key in keys
    ensures j < |order| && order[j] == key
  {
    assert key in order;
    j :| 0 <= j < |order| && order[j] == key;
  }

  lemma {:induction false} RulesLength(cfg: Config, r: RuleData, y: Exsvc, order: seq<string>)
    requires Resolves(cfg, r.namespace) && (forall k :: k in order ==> k in y.destPorts)
    ensures |NewRules(cfg, r, y, order)| == |order|
  {
    hide NewRule, Resolves;
    if order != [] {
      RulesLength(cfg, r, y, order[..|order| - 1]);
    }
  }

  // ----- ports, with their limits -----

  /** Some rule of the list lets the port through, by its port list on the device, under the protocol and limit. */
  ghost predicate Carried(cfg: Config, t: Tenant, src: Option<App>, items: seq<Item>, order: seq<string>,
                          rules: seq<Rule>, a: Access)
    requires AllReady(cfg, items) && GroupNames(order)
  {
    exists i, use :: 0 <= i < |rules| && CarriedBy(cfg, t, src, items, order, rules[i], use, a)
  }

  ghost predicate CarriedBy(cfg: Config, t: Tenant, src: Option<App>, items: seq<Item>, order: seq<string>,
                            rule: Rule, use: string, a: Access)
    requires AllReady(cfg, items) && GroupNames(order)
  {
    && rule.protocol == a.protocol && rule.irule == LimitName(a.irule)
    && rule.destination.portLists == [use]
    && var o := Held(cfg, t, src, items, order, Origin(use));
       o.Some? && o.value.PortList? && a.port in o.value.ports
  }

  lemma PortsHeld(cfg: Config, t: Tenant, src: Option<App>, resources: Resources, items: seq<Item>,
                  order: seq<string>, e: Egress, x: ExternalService, key: string)
    requires Synced(cfg, t, src, resources, items, order) && Handed(t.name, resources, e, x)
    requires key in DestPorts(x.ports) && DestPorts(x.ports)[key].protocol != ""
    ensures Held(cfg, t, src, items, order, PortName(cfg, e, x, key)) == Some(PortList(DestPorts(x.ports)[key].ports))
    ensures Origin(PartitionPath(t.name, PortName(cfg, e, x, key))) == PortName(cfg, e, x, key)
  {
    hide GoodItem, AllReady, Visits, Delta, ValidTenant, GoodResources, ItemsOf, KindsAgree, DataOf, Handed, RulesOnce,
         DealtRules, DestPorts, PortName, PortAttr, DestAttr, SrcAttr, AddressObj, HasSource, SourceName, Held,
         UsePath, Origin,
         PartitionPath;
    var i := HandedItem(cfg, t, src, resources, items, order, e, x);
    NamesAre(cfg, resources, e, x);
    Meaning.DeltaLists(cfg, t, items, order, i);
    HeldIs(cfg, t, src, resources, items, order, PortName(cfg, e, x, key));
    ItemSlashFree(cfg, t, items[i]);
    UsePathIs(cfg, t, items[i], PortAttr(cfg, items[i].rule, items[i].exsvc, key));
  }

  lemma LimitNameTells(a: string, b: string)
    ensures LimitName(a) == LimitName(b) <==> a == b
  {
    if a != "" && b != "" && LimitName(a) == LimitName(b) {
      assert ("/Common/" + a)[8..] == a && ("/Common/" + b)[8..] == b;
    }
  }

  lemma KeyOfRule(cfg: Config, t: Tenant, resources: Resources, e: Egress, x: ExternalService, rules: seq<Rule>, i: nat)
    returns (key: string)
    requires RulesSay(cfg, t, resources, e, x, rules) && i < |rules|
    ensures key in DestPorts(x.ports) && RuleSays(cfg, t, resources, e, x, key, DestPorts(x.ports)[key], rules[i])
  {
    hide RuleSays, DestPorts, GroupHasRule;
    key :| key in DestPorts(x.ports) && RuleSays(cfg, t, resources, e, x, key, DestPorts(x.ports)[key], rules[i]);
  }

  lemma RuleOfKey(cfg: Config, t: Tenant, resources: Resources, e: Egress, x: ExternalService, rules: seq<Rule>,
                  key: string) returns (i: nat)
    requires RulesSay(cfg, t, resources, e, x, rules) && key in DestPorts(x.ports)
    ensures i < |rules| && RuleSays(cfg, t, resources, e, x, key, DestPorts(x.ports)[key], rules[i])
  {
    hide RuleSays, DestPorts, RuleOfGroup;
    i :| 0 <= i < |rules| && RuleSays(cfg, t, resources, e, x, key, DestPorts(x.ports)[key], rules[i]);
  }

  /** A rule of a group with a protocol carries exactly the group's ports, under its protocol and limit. */
  lemma RuleCarries(cfg: Config, t: Tenant, src: Option<App>, resources: Resources, items: seq<Item>,
                    order: seq<string>, e: Egress, x: ExternalService, key: string, rule: Rule, a: Access)
    requires Synced(cfg, t, src, resources, items, order) && Handed(t.name, resources, e, x)
    requires key in DestPorts(x.ports) && RuleSays(cfg, t, resources, e, x, key, DestPorts(x.ports)[key], rule)
    requires a.protocol != ""
    ensures var g := DestPorts(x.ports)[key];
            (exists use :: CarriedBy(cfg, t, src, items, order, rule, use, a)) <==>
              g.protocol == a.protocol && g.irule == a.irule && a.port in g.ports
  {
    hide GoodItems, AllReady, Visits, Delta, ValidTenant, GoodResources, ItemsOf, KindsAgree, Handed, DealtRules,
         DestPorts,
         PortName, DestName, SourceName, HasSource, Held, Origin, PartitionPath, LimitName;
    var g := DestPorts(x.ports)[key];
    LimitNameTells(g.irule, a.irule);
    if g.protocol != "" {
      PortsHeld(cfg, t, src, resources, items, order, e, x, key);
      var path := PartitionPath(t.name, PortName(cfg, e, x, key));
      assert rule.destination.portLists == [path];
      assert CarriedBy(cfg, t, src, items, order, rule, path, a) <==>
          g.protocol == a.protocol && g.irule == a.irule && a.port in g.ports;
      assert forall use :: CarriedBy(cfg, t, src, items, order, rule, use, a) ==> use == path;
    }
  }

  /**
   * After a sync a port is let through under a protocol, with a limit, by some rule of the service's rule list
   * exactly when the service asks for it so, limit included; each port group must have one protocol and one limit.
   */
  lemma AccessHeld(cfg: Config, t: Tenant, src: Option<App>, resources: Resources, items: seq<Item>,
                   order: seq<string>, e: Egress, x: ExternalService, a: Access)
    requires Synced(cfg, t, src, resources, items, order) && Handed(t.name, resources, e, x)
    requires OneLabelEach(x.ports) && a.protocol != ""
    ensures var o := Held(cfg, t, src, items, order, ListName(cfg, e, x));
            && o.Some? && o.value.RuleList?
            && (Carried(cfg, t, src, items, order, o.value.rules, a) <==> Asked(x.ports, a))
  {
    hide GoodItems, AllReady, Visits, Delta, ValidTenant, GoodResources, ItemsOf, KindsAgree, Handed, DealtRules,
         DestPorts,
         ListName, Held, Asked, OneLabelEach, RuleSays, RulesSay, CarriedBy;
    RulesHeld(cfg, t, src, resources, items, order, e, x);
    PortsConserved(x.ports, a);
    var rules, groups := Held(cfg, t, src, items, order, ListName(cfg, e, x)).value.rules, DestPorts(x.ports);
    if i, use :| 0 <= i < |rules| && CarriedBy(cfg, t, src, items, order, rules[i], use, a) {
      var key := KeyOfRule(cfg, t, resources, e, x, rules, i);
      RuleCarries(cfg, t, src, resources, items, order, e, x, key, rules[i], a);
    }
    if key :| key in groups && groups[key].protocol == a.protocol && groups[key].irule == a.irule
              && a.port in groups[key].ports {
      var i := RuleOfKey(cfg, t, resources, e, x, rules, key);
      RuleCarries(cfg, t, src, resources, items, order, e, x, key, rules[i], a);
    }
  }

  // ----- infrastructure -----

  /** The tenant's gateway, virtual server and virtual address are on the device, and its log objects when enabled. */
  lemma InfrastructureHeld(cfg: Config, t: Tenant, src: Option<App>, resources: Resources, items: seq<Item>,
                           order: seq<string>)
    requires Synced(cfg, t, src, resources, items, order)
    ensures Held(cfg, t, src, items, order, GatewayPoolAttr(cfg)) == Some(Infra(t.gateway))
    ensures Held(cfg, t, src, items, order, VirtualServerAttr(cfg)) == Some(Infra(t.virtualServer))
    ensures Held(cfg, t, src, items, order, VirtualAddressAttr(cfg)) == Some(Infra(t.virtualAddress))
    ensures cfg.logProfile ==>
              forall k :: k in t.logObjects ==> Held(cfg, t, src, items, order, k) == Some(t.logObjects[k])
  {
    hide GoodItems, AllReady, Visits, GoodResources, ItemsOf, KindsAgree, DealtRules, Held, PrependAll, Generated,
         ValidTenant,
         GatewayPoolAttr, VirtualServerAttr, VirtualAddressAttr, DefaultApp, WithInfrastructure;
    var grown := PrependAll(cfg, Generated(cfg, DefaultApp(cfg, t.name, t), items), items, order);
    InfrastructureAt(cfg, t, grown);
    HeldIs(cfg, t, src, resources, items, order, GatewayPoolAttr(cfg));
    HeldIs(cfg, t, src, resources, items, order, VirtualServerAttr(cfg));
    HeldIs(cfg, t, src, resources, items, order, VirtualAddressAttr(cfg));
    if cfg.logProfile {
      forall k | k in t.logObjects
        ensures Held(cfg, t, src, items, order, k) == Some(t.logObjects[k])
      {
        HeldIs(cfg, t, src, resources, items, order, k);
      }
    }
  }

  lemma InfrastructureAt(cfg: Config, t: Tenant, app: App)
    requires ValidTenant(cfg, t)
    ensures var all := WithInfrastructure(cfg, t, app);
            && Lookup(all, GatewayPoolAttr(cfg)) == Some(Infra(t.gateway))
            && Lookup(all, VirtualServerAttr(cfg)) == Some(Infra(t.virtualServer))
            && Lookup(all, VirtualAddressAttr(cfg)) == Some(Infra(t.virtualAddress))
            && (cfg.logProfile ==> forall k :: k in t.logObjects ==> Lookup(all, k) == Some(t.logObjects[k]))
    ensures cfg.logProfile ==> forall k :: k in t.logObjects ==> t.logObjects[k].Infra? || t.logObjects[k].LogObject?
  {
    hide DenyAllAttr, Decode, Attr;
    InfrastructureNames(cfg);
    FixedDecode(cfg, t);
  }

  lemma InfrastructureNames(cfg: Config)
    ensures GatewayPoolAttr(cfg) == Attr(cfg, GatewayPoolId)
    ensures VirtualServerAttr(cfg) == Attr(cfg, VirtualServerId)
    ensures VirtualAddressAttr(cfg) == Attr(cfg, VirtualAddressId)
  {
  }

  lemma FixedDecode(cfg: Config, t: Tenant)
    requires ValidTenant(cfg, t)
    ensures Decode(cfg, Attr(cfg, GatewayPoolId)) == GatewayPoolId
    ensures Decode(cfg, Attr(cfg, VirtualServerId)) == VirtualServerId
    ensures Decode(cfg, Attr(cfg, VirtualAddressId)) == VirtualAddressId
  {
    hide DenyAllAttr, Decode, Attr;
    DecodeAttr(cfg, GatewayPoolId);
    DecodeAttr(cfg, VirtualServerId);
    DecodeAttr(cfg, VirtualAddressId);
  }
}
