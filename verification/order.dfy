/** The order of policy entries follows the order of the rules and external services in the custom resources. */
module Order {
  import opened Model
  import opened Text
  import opened Naming
  import opened PolicyMerge
  import opened Engine
  import opened States
  import opened Generate
  import opened Selection
  import opened Deltas
  import opened Guarantees
  import opened Intent
  import opened Runs

  // ----- from resources to items -----

  /** One element stands at an earlier place than the other. */
  predicate Earlier<T(==)>(s: seq<T>, a: T, b: T) {
    exists i, j :: 0 <= i < j < |s| && s[i] == a && s[j] == b
  }

  lemma EarlierConcat<T>(s: seq<T>, s': seq<T>, a: T, b: T)
    ensures Earlier(s, a, b) || Earlier(s', a, b) || (a in s && b in s') ==> Earlier(s + s', a, b)
  {
    if i, j :| 0 <= i < j < |s| && s[i] == a && s[j] == b {
      assert (s + s')[i] == a && (s + s')[j] == b;
    }
    if i, j :| 0 <= i < j < |s'| && s'[i] == a && s'[j] == b {
      assert (s + s')[|s| + i] == a && (s + s')[|s| + j] == b;
    }
    if a in s && b in s' {
      var i :| 0 <= i < |s| && s[i] == a;
      var j :| 0 <= j < |s'| && s'[j] == b;
      assert (s + s')[i] == a && (s + s')[|s| + j] == b;
    }
  }

  /** The resources list the one rule before the other, or name the one external service of a rule before the other. */
  predicate Precedes(resources: Resources, e: Egress, x: ExternalService, e': Egress, x': ExternalService) {
    || (e == e' && Earlier(ServicesOf(e), x.name, x'.name))
    || (match (e, e')
        case (ClusterEgress(r), ClusterEgress(r')) => Earlier(resources.clusterRules, r, r')
        case (NamespaceEgress(r), NamespaceEgress(r')) => Earlier(resources.namespaceRules, r, r')
        case (ServiceEgress(r), ServiceEgress(r')) => Earlier(resources.serviceRules, r, r')
        case _ => false)
  }

  /** External services are selected in the order in which the rule names them. */
  lemma {:induction false} SelectedInOrder(names: seq<string>, all: seq<ExternalService>, namespace: string,
                                           x: ExternalService, x': ExternalService, i: nat, j: nat)
    requires IsService(all, namespace, x) && IsService(all, namespace, x') && i < j < |names|
    requires names[i] == x.name && names[j] == x'.name
    ensures Earlier(Selected(names, all, namespace), ExsvcOf(x), ExsvcOf(x'))
  {
    hide ExsvcOf, ServicesNamed, IsService;
    var n := |names| - 1;
    var rest, more := Selected(names[..n], all, namespace), ServicesNamed(names[n], all, namespace);
    if j < n {
      SelectedInOrder(names[..n], all, namespace, x, x', i, j);
    } else {
      assert names[..n][i] == x.name;
      SelectedAre(names[..n], all, namespace, ExsvcOf(x));
      ServicesNamedAre(names[n], all, namespace, ExsvcOf(x'));
    }
    EarlierConcat(rest, more, ExsvcOf(x), ExsvcOf(x'));
  }

  function RulePairs(r: RuleData): seq<(RuleData, Exsvc)> {
    seq(|r.exsvcs|, i requires 0 <= i < |r.exsvcs| => (r, r.exsvcs[i]))
  }

  lemma RulePairsAre(r: RuleData, y: Exsvc)
    ensures (r, y) in RulePairs(r) <==> y in r.exsvcs
  {
    if y in r.exsvcs {
      var i :| 0 <= i < |r.exsvcs| && r.exsvcs[i] == y;
      assert RulePairs(r)[i] == (r, y);
    }
  }

  /** Pairs come rule by rule. */
  lemma {:induction false} PairsByRule(rules: seq<RuleData>, r: RuleData, y: Exsvc, r': RuleData, y': Exsvc)
    requires Earlier(rules, r, r') && y in r.exsvcs && y' in r'.exsvcs
    ensures Earlier(Pairs(rules), (r, y), (r', y'))
  {
    var n := |rules| - 1;
    var i, j :| 0 <= i < j < |rules| && rules[i] == r && rules[j] == r';
    assert Pairs(rules) == Pairs(rules[..n]) + RulePairs(rules[n]);
    if j < n {
      assert rules[..n][i] == r && rules[..n][j] == r';
      PairsByRule(rules[..n], r, y, r', y');
    } else {
      assert rules[..n][i] == r;
      PairsAre(rules[..n], r, y);
      RulePairsAre(r', y');
    }
    EarlierConcat(Pairs(rules[..n]), RulePairs(rules[n]), (r, y), (r', y'));
  }

  /** And service by service within a rule. */
  lemma {:induction false} PairsByService(rules: seq<RuleData>, r: RuleData, y: Exsvc, y': Exsvc)
    requires r in rules && Earlier(r.exsvcs, y, y')
    ensures Earlier(Pairs(rules), (r, y), (r, y'))
  {
    var n := |rules| - 1;
    assert rules == rules[..n] + [rules[n]];
    assert Pairs(rules) == Pairs(rules[..n]) + RulePairs(rules[n]);
    if r == rules[n] {
      var i, j :| 0 <= i < j < |r.exsvcs| && r.exsvcs[i] == y && r.exsvcs[j] == y';
      assert RulePairs(r)[i] == (r, y) && RulePairs(r)[j] == (r, y');
    } else {
      PairsByService(rules[..n], r, y, y');
    }
    EarlierConcat(Pairs(rules[..n]), RulePairs(rules[n]), (r, y), (r, y'));
  }

  /** Rules are dealt with in the order of their list. */
  lemma DealtInOrder(partition: string, resources: Resources, e: Egress, e': Egress)
    requires Declared(partition, resources, e) && Declared(partition, resources, e')
    requires match (e, e')
             case (ClusterEgress(r), ClusterEgress(r')) => Earlier(resources.clusterRules, r, r')
             case (NamespaceEgress(r), NamespaceEgress(r')) => Earlier(resources.namespaceRules, r, r')
             case (ServiceEgress(r), ServiceEgress(r')) => Earlier(resources.serviceRules, r, r')
             case _ => false
    ensures Earlier(DealtRules(partition, resources), DataOf(resources, e), DataOf(resources, e'))
  {
    hide ClusterData, NamespaceData, ServiceData;
    var cluster := if partition == COMMON then AllClusterData(resources, resources.clusterRules) else [];
    var namespaced := AllNamespaceData(resources, resources.namespaceRules);
    var service := AllServiceData(resources, resources.serviceRules);
    var d, d' := DataOf(resources, e), DataOf(resources, e');
    match (e, e') {
      case (ClusterEgress(r), ClusterEgress(r')) =>
        var i, j :| 0 <= i < j < |resources.clusterRules|
                    && resources.clusterRules[i] == r && resources.clusterRules[j] == r';
        assert cluster[i] == d && cluster[j] == d';
      case (NamespaceEgress(r), NamespaceEgress(r')) =>
        var i, j :| 0 <= i < j < |resources.namespaceRules|
                    && resources.namespaceRules[i] == r && resources.namespaceRules[j] == r';
        assert namespaced[i] == d && namespaced[j] == d';
      case (ServiceEgress(r), ServiceEgress(r')) =>
        var i, j :| 0 <= i < j < |resources.serviceRules|
                    && resources.serviceRules[i] == r && resources.serviceRules[j] == r';
        assert service[i] == d && service[j] == d';
      case _ =>
    }
    EarlierConcat(cluster, namespaced, d, d');
    EarlierConcat(cluster + namespaced, service, d, d');
  }

  /** The generator goes through rules and services in the order of the resources. */
  lemma PairsInOrder(partition: string, resources: Resources, e: Egress, x: ExternalService, e': Egress,
                     x': ExternalService)
    requires Handed(partition, resources, e, x) && Handed(partition, resources, e', x')
    requires Precedes(resources, e, x, e', x')
    ensures Earlier(Pairs(DealtRules(partition, resources)), (DataOf(resources, e), ExsvcOf(x)),
                    (DataOf(resources, e'), ExsvcOf(x')))
  {
    hide DealtRules, ExsvcOf, Selected, Pairs, DataOf;
    var all := resources.externalServices;
    DataServices(resources, e);
    DataServices(resources, e');
    assert IsService(all, ServiceNamespace(resources, e), x) && IsService(all, ServiceNamespace(resources, e'), x');
    if e == e' && Earlier(ServicesOf(e), x.name, x'.name) {
      var i, j :| 0 <= i < j < |ServicesOf(e)| && ServicesOf(e)[i] == x.name && ServicesOf(e)[j] == x'.name;
      SelectedInOrder(ServicesOf(e), all, ServiceNamespace(resources, e), x, x', i, j);
      DataAre(partition, resources, DataOf(resources, e));
      PairsByService(DealtRules(partition, resources), DataOf(resources, e), ExsvcOf(x), ExsvcOf(x'));
    } else {
      DealtInOrder(partition, resources, e, e');
      SelectedAre(ServicesOf(e), all, ServiceNamespace(resources, e), ExsvcOf(x));
      SelectedAre(ServicesOf(e'), all, ServiceNamespace(resources, e'), ExsvcOf(x'));
      PairsByRule(DealtRules(partition, resources), DataOf(resources, e), ExsvcOf(x), DataOf(resources, e'),
                  ExsvcOf(x'));
    }
  }

  // ----- from items to policies -----

  lemma {:induction false} GroupHas(cfg: Config, t: Tenant, items: seq<Item>, g: string, i: nat)
    requires ValidTenant(cfg, t) && GoodItems(cfg, t, items) && AllReady(cfg, items)
    requires i < |items| && GroupKey(items[i].rule) == g
    ensures ItemPath(cfg, t, items[i]) in GroupUses(cfg, items, g)
  {
    hide GoodItem, ItemReady, EntryPath, ItemPath, ItemId, ValidTenant;
    var n := |items| - 1;
    if i < n {
      PrefixGood(cfg, t, items, n);
      GroupHas(cfg, t, items[..n], g, i);
    } else {
      EntryIsPath(cfg, t, items[n]);
    }
  }

  lemma EntryIsPath(cfg: Config, t: Tenant, item: Item)
    requires ValidTenant(cfg, t) && GoodItem(cfg, t, item)
    ensures ItemReady(cfg, item) && EntryPath(cfg, item) == ItemPath(cfg, t, item)
  {
    hide GoodItem, ValidTenant, ListAttr, Attr, UsePath;
    GoodItemReady(cfg, t, item);
    ItemAttrs(cfg, t, item);
    ItemSlashFree(cfg, t, item);
    UsePathIs(cfg, t, item, ListAttr(cfg, item.rule, item.exsvc));
  }

  /** Within a group the paths come in the order of the items. */
  lemma {:induction false} GroupInOrder(cfg: Config, t: Tenant, items: seq<Item>, g: string, i: nat, j: nat)
    requires ValidTenant(cfg, t) && GoodItems(cfg, t, items) && AllReady(cfg, items)
    requires i < j < |items| && GroupKey(items[i].rule) == g && GroupKey(items[j].rule) == g
    ensures Before(GroupUses(cfg, items, g), ItemPath(cfg, t, items[i]), ItemPath(cfg, t, items[j]))
  {
    hide GoodItem, ItemReady, EntryPath, ItemPath, ItemId, ValidTenant, Before;
    var n := |items| - 1;
    var u, v := ItemPath(cfg, t, items[i]), ItemPath(cfg, t, items[j]);
    PrefixGood(cfg, t, items, n);
    EntryIsPath(cfg, t, items[n]);
    BeforeConcat(GroupUses(cfg, items[..n], g), [EntryPath(cfg, items[n])], u, v);
    if j < n {
      GroupInOrder(cfg, t, items[..n], g, i, j);
    } else {
      GroupHas(cfg, t, items[..n], g, i);
    }
  }

  /** One more group goes before what its policy lists, and leaves the other policies alone. */
  lemma PrependedUses(cfg: Config, t: Tenant, items: seq<Item>, app: App, item: Item, ty: string)
    requires ValidTenant(cfg, t) && TenantForPartition(cfg, t.name) == Some(t)
    requires GoodItem(cfg, t, item) && AllReady(cfg, items) && ty in Types(t)
    requires |Split(GroupKey(item.rule), '|')| >= 2
    ensures var g := GroupKey(item.rule);
            Uses(cfg, t, PrependGroup(cfg, app, g, GroupUses(cfg, items, g)), ty)
            == (if item.rule.ty == ty then GroupUses(cfg, items, g) else []) + Uses(cfg, t, app, ty)
  {
    hide GoodItem, GroupKey, PolicyAttr, Split, GroupUses, GroupTenant, TenantForPartition, ValidTenant, AllReady,
         Types;
    GroupPolicy(cfg, t, item);
    DefaultKeys(cfg, t);
    ItemTypes(cfg, t, item);
    assert [] + Uses(cfg, t, app, ty) == Uses(cfg, t, app, ty);
  }

  /** Once its group is visited, the order of two items is the policy's. */
  lemma {:induction false} GrownInOrder(cfg: Config, t: Tenant, items: seq<Item>, order: seq<string>, app: App, i: nat,
                                        j: nat)
    requires ValidTenant(cfg, t) && TenantForPartition(cfg, t.name) == Some(t)
    requires GoodItems(cfg, t, items) && AllReady(cfg, items) && GroupNames(order)
    requires forall g :: g in order ==> g in GroupKeys(items)
    requires i < j < |items| && GroupKey(items[i].rule) == GroupKey(items[j].rule) && GroupKey(items[i].rule) in order
    ensures Before(Uses(cfg, t, PrependAll(cfg, app, items, order), items[i].rule.ty), ItemPath(cfg, t, items[i]),
                   ItemPath(cfg, t, items[j]))
  {
    hide GoodItem, AllReady, GroupKey, Split, GroupUses, ItemPath, ItemId, ValidTenant, Before, Uses, PrependGroup,
         TenantForPartition, Types;
    var n, ty := |order| - 1, items[i].rule.ty;
    var g := order[n];
    assert g in order;
    var m :| 0 <= m < |items| && GroupKey(items[m].rule) == g;
    var before := PrependAll(cfg, app, items, order[..n]);
    assert order == order[..n] + [g];
    ItemTypes(cfg, t, items[i]);
    PrependedUses(cfg, t, items, before, items[m], ty);
    var u, v := ItemPath(cfg, t, items[i]), ItemPath(cfg, t, items[j]);
    var front := if items[m].rule.ty == ty then GroupUses(cfg, items, g) else [];
    BeforeConcat(front, Uses(cfg, t, before, ty), u, v);
    if GroupKey(items[i].rule) == g {
      SameGroupType(cfg, t, items[i], items[m]);
      GroupInOrder(cfg, t, items, g, i, j);
    } else {
      GrownInOrder(cfg, t, items, order[..n], app, i, j);
    }
  }

  lemma SameGroupType(cfg: Config, t: Tenant, item: Item, item': Item)
    requires ValidTenant(cfg, t) && TenantForPartition(cfg, t.name) == Some(t)
    requires GoodItem(cfg, t, item) && GoodItem(cfg, t, item') && GroupKey(item.rule) == GroupKey(item'.rule)
    ensures item.rule.ty == item'.rule.ty
  {
    hide GoodItem, GroupKey, Split, GroupTenant, TenantForPartition, ValidTenant;
    GroupPolicy(cfg, t, item);
    GroupPolicy(cfg, t, item');
    assert [item.rule.ty, item.rule.namespace][0] == [item'.rule.ty, item'.rule.namespace][0];
  }

  lemma DeltaInOrder(cfg: Config, t: Tenant, items: seq<Item>, order: seq<string>, i: nat, j: nat)
    requires GeneratedDelta(cfg, t, items, order)
    requires i < j < |items| && GroupKey(items[i].rule) == GroupKey(items[j].rule)
    ensures Before(Uses(cfg, t, Delta(cfg, t, items, order), items[i].rule.ty), ItemPath(cfg, t, items[i]),
                   ItemPath(cfg, t, items[j]))
  {
    hide GoodItem, AllReady, GroupKey, Generated, ItemPath, ItemId, ValidTenant, Before, PrependAll, DefaultApp,
         GroupNames,
         TenantForPartition, WithInfrastructure, KeyKind, PolicyKey, Types;
    var ty := items[i].rule.ty;
    var grown := PrependAll(cfg, Generated(cfg, DefaultApp(cfg, t.name, t), items), items, order);
    assert GroupKey(items[i].rule) in GroupKeys(items);
    GrownInOrder(cfg, t, items, order, Generated(cfg, DefaultApp(cfg, t.name, t), items), i, j);
    ItemTypes(cfg, t, items[i]);
    OverInfra(cfg, t, grown);
    InfrastructureTyped(cfg, t);
    InfraKeys(cfg, t, WithInfrastructure(cfg, t, map[]));
  }

  /**
   * In the policies of a delta, and so of a first sync, the entries of one namespace's rules stand in the order in
   * which the resources list the rules, and name the external services of each rule.
   */
  lemma OrderFollowsResources(cfg: Config, t: Tenant, resources: Resources, items: seq<Item>, order: seq<string>,
                              e: Egress, x: ExternalService, e': Egress, x': ExternalService)
    requires GeneratedDelta(cfg, t, items, order) && ItemsOf(DealtRules(t.name, resources), items)
    requires Handed(t.name, resources, e, x) && Handed(t.name, resources, e', x')
    requires Precedes(resources, e, x, e', x') && NamespaceOf(e) == NamespaceOf(e')
    ensures var uses := Uses(cfg, t, Delta(cfg, t, items, order), TypeOfRule(e));
            Before(uses, EntryOf(cfg, t, e, x), EntryOf(cfg, t, e', x'))
  {
    hide GoodItems, AllReady, Visits, Delta, ValidTenant, DealtRules, Pairs, DataOf, ExsvcOf,
         Handed, EntryOf, ItemPath, Before, Uses, NamespaceOf;
    PairsInOrder(t.name, resources, e, x, e', x');
    var pairs := Pairs(DealtRules(t.name, resources));
    var i, j :| 0 <= i < j < |pairs| && pairs[i] == (DataOf(resources, e), ExsvcOf(x))
                && pairs[j] == (DataOf(resources, e'), ExsvcOf(x'));
    assert (items[i].rule, items[i].exsvc) == pairs[i] && (items[j].rule, items[j].exsvc) == pairs[j];
    ItemEntry(cfg, t, resources, e, x, items[i]);
    ItemEntry(cfg, t, resources, e', x', items[j]);
    DataSay(resources, e);
    DataSay(resources, e');
    DeltaInOrder(cfg, t, items, order, i, j);
  }
}
