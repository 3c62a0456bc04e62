/**
 * Two requests for the same rules.  Each request generates its delta anew, and Go's map iteration may take the port
 * groups of an external service, and the groups of rule lists, in another order.
 */
module Resync {
  import opened Model
  import opened Naming
  import opened PolicyMerge
  import opened Engine
  import opened EngineLaws
  import opened States
  import opened Runs
  import opened Exchange
  import opened Generate
  import opened Deltas
  import opened Guarantees
  import opened Meaning

  /** The same rules and external services, whatever the orders. */
  predicate SameWork(items: seq<Item>, items': seq<Item>) {
    && |items| == |items'|
    && forall i :: 0 <= i < |items| ==> items[i].rule == items'[i].rule && items[i].exsvc == items'[i].exsvc
  }

  predicate SamePortOrders(items: seq<Item>, items': seq<Item>)
    requires |items| == |items'|
  {
    forall i :: 0 <= i < |items| ==> items[i].order == items'[i].order
  }

  /** Two requests that carry the same resources. */
  lemma SameResources(partition: string, resources: Resources, items: seq<Item>, items': seq<Item>)
    requires ItemsOf(DealtRules(partition, resources), items) && ItemsOf(DealtRules(partition, resources), items')
    ensures SameWork(items, items')
  {
    hide DealtRules, Pairs;
    var pairs := Pairs(DealtRules(partition, resources));
    assert forall i :: 0 <= i < |items| ==> (items[i].rule, items[i].exsvc) == pairs[i];
    assert forall i :: 0 <= i < |items| ==> (items'[i].rule, items'[i].exsvc) == pairs[i];
  }

  // ----- the two deltas -----

  /** Two visits of one item define the same objects, but for the order of rules. */
  lemma SameItemObjs(cfg: Config, t: Tenant, item: Item, item': Item, k: string)
    requires ValidTenant(cfg, t) && GoodItem(cfg, t, item) && GoodItem(cfg, t, item')
    requires item.rule == item'.rule && item.exsvc == item'.exsvc
    requires KeyKind(cfg, t, k) != RuleListKind
    ensures ItemReady(cfg, item) && ItemReady(cfg, item')
    ensures Lookup(ItemObjs(cfg, item), k) == Lookup(ItemObjs(cfg, item'), k)
  {
    hide ItemObjs, NewRules, ValidTenant, Decode, KeyKind, ListAttr, DestAttr, SrcAttr, PortAttr, ValidOwner,
         TenantForNamespace, AddressObj, Visits;
    ItemObjsAre(cfg, t, item);
    ItemObjsAre(cfg, t, item');
    ItemKinds(cfg, t, item);
    ItemListValues(cfg, t, item);
    ItemListValues(cfg, t, item');
  }

  lemma {:induction false} SameGenerated(cfg: Config, t: Tenant, items: seq<Item>, items': seq<Item>, k: string)
    requires ValidTenant(cfg, t) && GoodItems(cfg, t, items) && GoodItems(cfg, t, items')
    requires AllReady(cfg, items) && AllReady(cfg, items') && SameWork(items, items')
    requires KeyKind(cfg, t, k) != RuleListKind
    ensures Lookup(Generated(cfg, DefaultApp(cfg, t.name, t), items), k)
            == Lookup(Generated(cfg, DefaultApp(cfg, t.name, t), items'), k)
  {
    hide GoodItem, ItemObjs, DefaultApp, ValidTenant, KeyKind, ItemReady, ItemId;
    if items != [] {
      var n := |items| - 1;
      PrefixGood(cfg, t, items, n);
      PrefixGood(cfg, t, items', n);
      SameGenerated(cfg, t, items[..n], items'[..n], k);
      SameItemObjs(cfg, t, items[n], items'[n], k);
    }
  }

  /** Beside rule lists and policies the two deltas are equal. */
  lemma SameDeltaObjects(cfg: Config, t: Tenant, items: seq<Item>, order: seq<string>, items': seq<Item>,
                         order': seq<string>, k: string)
    requires GeneratedDelta(cfg, t, items, order) && GeneratedDelta(cfg, t, items', order') && SameWork(items, items')
    requires KeyKind(cfg, t, k) !in {RuleListKind, PolicyKind}
    ensures Lookup(Delta(cfg, t, items, order), k) == Lookup(Delta(cfg, t, items', order'), k)
  {
    hide GoodItems, AllReady, Visits, Delta, ValidTenant, KeyKind, Generated, DefaultApp, WithInfrastructure, SameWork;
    if KeyKind(cfg, t, k) in {AddressKind, PortKind} {
      SameGenerated(cfg, t, items, items', k);
      DeltaObjects(cfg, t, items, order, k);
      DeltaObjects(cfg, t, items', order', k);
    } else {
      DeltaElsewhere(cfg, t, items, order, k);
      DeltaElsewhere(cfg, t, items', order', k);
    }
  }

  lemma SameItemKeys(cfg: Config, items: seq<Item>, items': seq<Item>, k: string)
    requires SameWork(items, items')
    ensures ItemKey(cfg, items, k) <==> ItemKey(cfg, items', k)
  {
    hide Attr;
    forall i | 0 <= i < |items|
      ensures Attr(cfg, ItemId(items[i])) == Attr(cfg, ItemId(items'[i]))
    {
    }
    if ItemKey(cfg, items, k) {
      var i :| 0 <= i < |items| && k == Attr(cfg, ItemId(items[i]));
      assert k == Attr(cfg, ItemId(items'[i]));
    }
    if ItemKey(cfg, items', k) {
      var i :| 0 <= i < |items'| && k == Attr(cfg, ItemId(items'[i]));
      assert k == Attr(cfg, ItemId(items[i]));
    }
  }

  /** The two deltas have the same rule lists. */
  lemma SameRuleLists(cfg: Config, t: Tenant, items: seq<Item>, order: seq<string>, items': seq<Item>,
                      order': seq<string>, k: string)
    requires GeneratedDelta(cfg, t, items, order) && GeneratedDelta(cfg, t, items', order') && SameWork(items, items')
    ensures var a, b := Delta(cfg, t, items, order), Delta(cfg, t, items', order');
            (k in a && a[k].RuleList?) <==> (k in b && b[k].RuleList?)
  {
    hide GoodItems, AllReady, Visits, Delta, ValidTenant, SameWork, ItemKey, DenyAllAttr;
    DeltaRuleLists(cfg, t, items, order, k);
    DeltaRuleLists(cfg, t, items', order', k);
    SameItemKeys(cfg, items, items', k);
  }

  /** An entry of a policy of the first application is one of the second, if they have the same rule lists. */
  lemma EntryCarriesOver(cfg: Config, t: Tenant, a: App, b: App, ty: string, u: string)
    requires PolicyExact(cfg, t, a, ty) && PolicyExact(cfg, t, b, ty)
    requires var k := Origin(u); k in a && a[k].RuleList? ==> k in b && b[k].RuleList?
    ensures u in Uses(cfg, t, a, ty) ==> u in Uses(cfg, t, b, ty)
  {
    hide Uses, Origin, PartitionPath, TypeOf, DenyAllAttr, PolicyKey;
    if u in Uses(cfg, t, a, ty) {
      assert u == PartitionPath(t.name, Origin(u));
    }
  }

  lemma SamePolicyEntries(cfg: Config, t: Tenant, items: seq<Item>, order: seq<string>, items': seq<Item>,
                          order': seq<string>, ty: string, u: string)
    requires GeneratedDelta(cfg, t, items, order) && GeneratedDelta(cfg, t, items', order') && SameWork(items, items')
    requires ty in Types(t)
    ensures u in Uses(cfg, t, Delta(cfg, t, items, order), ty) <==> u in Uses(cfg, t, Delta(cfg, t, items', order'), ty)
  {
    hide GoodItems, AllReady, Visits, Delta, ValidTenant, SameWork, PolicyExact, RulesLocal, Exact, KeyKind, Uses,
         Origin, Types;
    var a, b := Delta(cfg, t, items, order), Delta(cfg, t, items', order');
    DeltaWellFormed(cfg, t, items, order);
    DeltaWellFormed(cfg, t, items', order');
    SameRuleLists(cfg, t, items, order, items', order', Origin(u));
    EntryCarriesOver(cfg, t, a, b, ty, u);
    EntryCarriesOver(cfg, t, b, a, ty, u);
  }

  /** One key of the two deltas. */
  lemma SameDeltaKey(cfg: Config, t: Tenant, items: seq<Item>, order: seq<string>, items': seq<Item>,
                     order': seq<string>, k: string)
    requires GeneratedDelta(cfg, t, items, order) && GeneratedDelta(cfg, t, items', order') && SameWork(items, items')
    ensures var a, b := Delta(cfg, t, items, order), Delta(cfg, t, items', order');
            && (k in a <==> k in b)
            && (k in a && k in b ==> KindOf(a[k]) == KindOf(b[k]))
            && (k in a && k in b && a[k].Policy? && b[k].Policy? ==> forall u :: u in a[k].uses <==> u in b[k].uses)
  {
    hide GoodItems, AllReady, Visits, Delta, ValidTenant, SameWork, PolicyExact, RulesLocal, Exact, KeyKind, Uses,
         PolicyKey, Types;
    var a, b := Delta(cfg, t, items, order), Delta(cfg, t, items', order');
    DeltaWellFormed(cfg, t, items, order);
    DeltaWellFormed(cfg, t, items', order');
    TypedAgree(cfg, t, a, b);
    assert k in a ==> KindOf(a[k]) == KeyKind(cfg, t, k);
    assert k in b ==> KindOf(b[k]) == KeyKind(cfg, t, k);
    if KeyKind(cfg, t, k) == PolicyKind {
      var ty := PolicyKeyType(cfg, t, k);
      PolicyOf(cfg, t, a, ty);
      PolicyOf(cfg, t, b, ty);
      forall u
        ensures u in Uses(cfg, t, a, ty) <==> u in Uses(cfg, t, b, ty)
      {
        SamePolicyEntries(cfg, t, items, order, items', order', ty, u);
      }
    } else if KeyKind(cfg, t, k) == RuleListKind {
      SameRuleLists(cfg, t, items, order, items', order', k);
    } else {
      SameDeltaObjects(cfg, t, items, order, items', order', k);
    }
  }

  /** Deltas of the same rules differ in the order of policy entries and of rules inside rule lists only. */
  lemma SameWorkShape(cfg: Config, t: Tenant, items: seq<Item>, order: seq<string>, items': seq<Item>,
                      order': seq<string>)
    requires GeneratedDelta(cfg, t, items, order) && GeneratedDelta(cfg, t, items', order') && SameWork(items, items')
    ensures SameShape(Delta(cfg, t, items, order), Delta(cfg, t, items', order'))
  {
    hide GoodItems, AllReady, Visits, Delta, ValidTenant, SameWork;
    var a, b := Delta(cfg, t, items, order), Delta(cfg, t, items', order');
    forall k
      ensures k in a <==> k in b
      ensures k in a && k in b ==> KindOf(a[k]) == KindOf(b[k])
      ensures k in a && k in b && a[k].Policy? && b[k].Policy? ==> forall u :: u in a[k].uses <==> u in b[k].uses
    {
      SameDeltaKey(cfg, t, items, order, items', order', k);
    }
  }

  // ----- rule order -----

  /** A rule's name tells its port group. */
  lemma RuleNameTells(cfg: Config, r: RuleData, x: Exsvc, key: string, key': string)
    requires Resolves(cfg, r.namespace) && key in x.destPorts && key' in x.destPorts
    requires NewRule(cfg, r, x, key, x.destPorts[key]) == NewRule(cfg, r, x, key', x.destPorts[key'])
    ensures key == key'
  {
    var prefix := r.action + "_" + x.name + "_";
    assert (prefix + key)[|prefix|..] == key && (prefix + key')[|prefix|..] == key';
  }

  lemma {:induction false} NewRulesTell(cfg: Config, r: RuleData, x: Exsvc, order: seq<string>, order': seq<string>)
    requires Resolves(cfg, r.namespace)
    requires (forall k :: k in order ==> k in x.destPorts) && (forall k :: k in order' ==> k in x.destPorts)
    ensures NewRules(cfg, r, x, order) == NewRules(cfg, r, x, order') <==> order == order'
  {
    hide NewRule, Resolves;
    var a, b := NewRules(cfg, r, x, order), NewRules(cfg, r, x, order');
    if order != [] && order' != [] && a == b {
      var n, n' := |order| - 1, |order'| - 1;
      var init, init' := NewRules(cfg, r, x, order[..n]), NewRules(cfg, r, x, order'[..n']);
      assert a[|a| - 1] == b[|b| - 1] && a[..|a| - 1] == init && b[..|b| - 1] == init';
      RuleNameTells(cfg, r, x, order[n], order'[n']);
      NewRulesTell(cfg, r, x, order[..n], order'[..n']);
      assert order == order[..n] + [order[n]] && order' == order'[..n'] + [order'[n']];
    }
  }

  /** The two deltas ask for the same objects exactly when the ports were visited in the same orders. */
  lemma SameObjectsIffOrders(cfg: Config, t: Tenant, items: seq<Item>, order: seq<string>, items': seq<Item>,
                             order': seq<string>)
    requires GeneratedDelta(cfg, t, items, order) && GeneratedDelta(cfg, t, items', order') && SameWork(items, items')
    ensures SameObjects(Delta(cfg, t, items, order), Delta(cfg, t, items', order')) <==> SamePortOrders(items, items')
  {
    hide GoodItem, AllReady, Visits, Delta, ValidTenant, NewRules, Attr, ItemId, DenyAllAttr, KeyKind, ItemKey;
    var a, b := Delta(cfg, t, items, order), Delta(cfg, t, items', order');
    forall i | 0 <= i < |items|
      ensures var k := Attr(cfg, ItemId(items[i]));
              k in a && k in b && a[k].RuleList? && (a[k] == b[k] <==> items[i].order == items'[i].order)
    {
      ItemOrderTells(cfg, t, items, order, items', order', i);
    }
    if SamePortOrders(items, items') {
      forall k | k in a && k in b && !a[k].Scalar? && !a[k].Policy?
        ensures a[k] == b[k]
      {
        SharedObject(cfg, t, items, order, items', order', k);
        if ItemKey(cfg, items, k) {
          ItemOfKey(cfg, items, k);
        }
      }
    }
  }

  lemma ItemOfKey(cfg: Config, items: seq<Item>, k: string)
    requires ItemKey(cfg, items, k)
    ensures exists i :: 0 <= i < |items| && k == Attr(cfg, ItemId(items[i]))
  {
  }

  lemma ItemOrderTells(cfg: Config, t: Tenant, items: seq<Item>, order: seq<string>, items': seq<Item>,
                       order': seq<string>, i: nat)
    requires GeneratedDelta(cfg, t, items, order) && GeneratedDelta(cfg, t, items', order') && SameWork(items, items')
    requires i < |items|
    ensures var a, b, k := Delta(cfg, t, items, order), Delta(cfg, t, items', order'), Attr(cfg, ItemId(items[i]));
            k in a && k in b && a[k].RuleList? && (a[k] == b[k] <==> items[i].order == items'[i].order)
  {
    hide GoodItem, Delta, ValidTenant, NewRules, Attr, GroupNames;
    DeltaRules(cfg, t, items, order, i);
    DeltaRules(cfg, t, items', order', i);
    assert ItemId(items[i]) == ItemId(items'[i]);
    NewRulesTell(cfg, items[i].rule, items[i].exsvc, items[i].order, items'[i].order);
  }

  /** An object that is neither a policy nor an item's rule list is the same in both. */
  lemma SharedObject(cfg: Config, t: Tenant, items: seq<Item>, order: seq<string>, items': seq<Item>,
                     order': seq<string>, k: string)
    requires GeneratedDelta(cfg, t, items, order) && GeneratedDelta(cfg, t, items', order') && SameWork(items, items')
    ensures var a, b := Delta(cfg, t, items, order), Delta(cfg, t, items', order');
            k in a && k in b && !a[k].Policy? && !ItemKey(cfg, items, k) ==> a[k] == b[k]
  {
    hide GoodItems, AllReady, Visits, Delta, ValidTenant, SameWork, PolicyExact, RulesLocal, Exact, KeyKind, ItemKey,
         DenyAllAttr;
    var a, b := Delta(cfg, t, items, order), Delta(cfg, t, items', order');
    DeltaWellFormed(cfg, t, items, order);
    DeltaWellFormed(cfg, t, items', order');
    assert k in a ==> KindOf(a[k]) == KeyKind(cfg, t, k);
    if k in a && a[k].RuleList? {
      DeltaRuleLists(cfg, t, items, order, k);
    } else if k in a && !a[k].Policy? {
      SameDeltaObjects(cfg, t, items, order, items', order', k);
    }
  }

  // ----- synchronising again -----

  /**
   * The second of two synchronisations of the same rules is left unposted exactly when the port groups of every
   * external service were visited in the same order; the order of the policy groups does not matter.
   */
  lemma SecondSyncUnposted(cfg: Config, t: Tenant, src: Option<App>, items: seq<Item>, order: seq<string>,
                           items': seq<Item>, order': seq<string>)
    requires GeneratedDelta(cfg, t, items, order) && GeneratedDelta(cfg, t, items', order') && SameWork(items, items')
    requires src.Some? ==> KindsAgree(src.value, Delta(cfg, t, items, order))
    ensures var next := Next(cfg, t, false, src, Delta(cfg, t, items, order));
            Answered(cfg, t, false, next, Delta(cfg, t, items', order')) == NoPost <==> SamePortOrders(items, items')
  {
    hide GoodItems, AllReady, Visits, Delta, ValidTenant, SameWork, Next, Answered, WellFormed, KindsAgree,
         SelfContained, DenyOrdered, SameObjects, SameShape, SamePortOrders;
    var a, b := Delta(cfg, t, items, order), Delta(cfg, t, items', order');
    SameWorkShape(cfg, t, items, order, items', order');
    SameObjectsIffOrders(cfg, t, items, order, items', order');
    WellFormedDelta(cfg, t, items, order);
    WellFormedDelta(cfg, t, items', order');
    SecondAddExact(cfg, t, src, a, b);
  }

  lemma WellFormedDelta(cfg: Config, t: Tenant, items: seq<Item>, order: seq<string>)
    requires GeneratedDelta(cfg, t, items, order)
    ensures SelfContained(cfg, Delta(cfg, t, items, order)) && DenyOrdered(cfg, Delta(cfg, t, items, order))
  {
    hide GoodItems, AllReady, Visits, Delta, ValidTenant, KeyKind, RulesLocal, PolicyExact, SelfContained, DenyOrdered;
    DeltaWellFormed(cfg, t, items, order);
    WellFormedContained(cfg, t, Delta(cfg, t, items, order));
    DeltaOrdered(cfg, t, Delta(cfg, t, items, order));
  }

  predicate OneGroupEach(items: seq<Item>) {
    forall i :: 0 <= i < |items| ==> |items[i].exsvc.destPorts| == 1
  }

  lemma OneOrder(order: seq<string>, order': seq<string>, keys: set<string>)
    requires Visits(order, keys) && Visits(order', keys) && |keys| == 1
    ensures order == order'
  {
    VisitLength(order, keys);
    VisitLength(order', keys);
    assert order[0] in order && order'[0] in order';
    assert |keys - {order[0]}| == 0;
    assert order'[0] in keys - {order[0]} || order'[0] == order[0];
  }

  /** An item may be visited in any order. */
  lemma Reordered(cfg: Config, t: Tenant, items: seq<Item>, order: seq<string>, i: nat, visit: seq<string>)
    requires GeneratedDelta(cfg, t, items, order) && i < |items| && Visits(visit, items[i].exsvc.destPorts.Keys)
    ensures var items' := items[i := items[i].(order := visit)];
            GeneratedDelta(cfg, t, items', order) && SameWork(items, items')
  {
    hide Visits, ValidTenant, ValidOwner, TenantForNamespace, GroupNames, NoDuplicates;
    var items' := items[i := items[i].(order := visit)];
    forall j | 0 <= j < |items|
      ensures GoodItem(cfg, t, items'[j]) && ItemReady(cfg, items'[j])
      ensures GroupKey(items'[j].rule) == GroupKey(items[j].rule) && ItemId(items'[j]) == ItemId(items[j])
    {
      assert GoodItem(cfg, t, items[j]);
    }
    assert GroupKeys(items') == GroupKeys(items);
  }

  /** Two keys may be visited the other way round. */
  lemma SwappedVisit(order: seq<string>, keys: set<string>) returns (order': seq<string>)
    requires Visits(order, keys) && |keys| >= 2
    ensures Visits(order', keys) && order' != order
  {
    VisitLength(order, keys);
    order' := order[0 := order[1]][1 := order[0]];
    assert multiset(order') == multiset(order);
    forall k
      ensures k in order' <==> k in order
    {
      assert k in multiset(order') <==> k in multiset(order);
    }
  }

  /**
   * Synchronising the same rules again is never posted exactly when every external service has one port group; any
   * service with two may come in another order, and then is posted again.
   */
  lemma NeverPostedAgain(cfg: Config, t: Tenant, src: Option<App>, items: seq<Item>, order: seq<string>)
    requires GeneratedDelta(cfg, t, items, order)
    requires src.Some? ==> KindsAgree(src.value, Delta(cfg, t, items, order))
    ensures (forall items': seq<Item>, order': seq<string> ::
               GeneratedDelta(cfg, t, items', order') && SameWork(items, items') ==>
               Answered(cfg, t, false, Next(cfg, t, false, src, Delta(cfg, t, items, order)),
                        Delta(cfg, t, items', order')) == NoPost)
            <==> OneGroupEach(items)
  {
    hide GoodItem, Delta, ValidTenant, Next, Answered, Visits, KindsAgree, GroupNames;
    if OneGroupEach(items) {
      forall items': seq<Item>, order': seq<string> | GeneratedDelta(cfg, t, items', order') && SameWork(items, items')
        ensures Answered(cfg, t, false, Next(cfg, t, false, src, Delta(cfg, t, items, order)),
                         Delta(cfg, t, items', order')) == NoPost
      {
        forall i | 0 <= i < |items|
          ensures items[i].order == items'[i].order
        {
          OneOrder(items[i].order, items'[i].order, items[i].exsvc.destPorts.Keys);
        }
        SecondSyncUnposted(cfg, t, src, items, order, items', order');
      }
    } else {
      var i :| 0 <= i < |items| && |items[i].exsvc.destPorts| != 1;
      TwoGroups(cfg, t, items[i]);
      var visit := SwappedVisit(items[i].order, items[i].exsvc.destPorts.Keys);
      Reordered(cfg, t, items, order, i, visit);
      var items' := items[i := items[i].(order := visit)];
      assert items'[i].order != items[i].order;
      SecondSyncUnposted(cfg, t, src, items, order, items', order);
    }
  }

  lemma TwoGroups(cfg: Config, t: Tenant, item: Item)
    requires GoodItem(cfg, t, item) && |item.exsvc.destPorts| != 1
    ensures |item.exsvc.destPorts.Keys| >= 2
  {
    assert |item.exsvc.destPorts.Keys| == |item.exsvc.destPorts|;
  }

  // ----- deleting by name -----

  /** Items with the same rule lists by name; addresses, ports and actions may differ. */
  ghost predicate SameNames(cfg: Config, items: seq<Item>, items': seq<Item>) {
    forall k :: ItemKey(cfg, items, k) <==> ItemKey(cfg, items', k)
  }

  lemma SameWorkSameNames(cfg: Config, items: seq<Item>, items': seq<Item>)
    requires SameWork(items, items')
    ensures SameNames(cfg, items, items')
  {
    hide ItemKey;
    forall k
      ensures ItemKey(cfg, items, k) <==> ItemKey(cfg, items', k)
    {
      SameItemKeys(cfg, items, items', k);
    }
  }

  /** Deltas with the same rule lists, by name. */
  ghost predicate SameLists(a: App, b: App) {
    forall k :: (k in a && a[k].RuleList?) <==> (k in b && b[k].RuleList?)
  }

  lemma NamesGiveLists(cfg: Config, t: Tenant, items: seq<Item>, order: seq<string>, items': seq<Item>,
                       order': seq<string>)
    requires GeneratedDelta(cfg, t, items, order) && GeneratedDelta(cfg, t, items', order')
    requires SameNames(cfg, items, items')
    ensures SameLists(Delta(cfg, t, items, order), Delta(cfg, t, items', order'))
  {
    hide GoodItems, AllReady, Visits, Delta, ValidTenant, ItemKey, DenyAllAttr;
    forall k
      ensures var a, b := Delta(cfg, t, items, order), Delta(cfg, t, items', order');
              (k in a && a[k].RuleList?) <==> (k in b && b[k].RuleList?)
    {
      DeltaRuleLists(cfg, t, items, order, k);
      DeltaRuleLists(cfg, t, items', order', k);
    }
  }

  lemma DeletedRuleLists(cfg: Config, t: Tenant, src: App, a: App, b: App, k: string)
    requires ValidTenant(cfg, t) && Typed(cfg, t, src) && Typed(cfg, t, a) && Typed(cfg, t, b) && SameLists(a, b)
    ensures var m, m' := Merge(cfg, t, true, src, a), Merge(cfg, t, true, src, b);
            && ((k in m && m[k].RuleList?) <==> (k in m' && m'[k].RuleList?))
            && (k in m && m[k].RuleList? ==> m[k] == m'[k])
  {
    hide KeyKind, Merge, DenyAllAttr;
    TypedAgree(cfg, t, src, a);
    TypedAgree(cfg, t, src, b);
    TypedSkips(cfg, t, src);
    KeptRuleList(cfg, t, src, a, k);
    KeptRuleList(cfg, t, src, b, k);
    assert k in src && k in a && src[k].RuleList? ==> a[k].RuleList?;
    assert k in src && k in b && src[k].RuleList? ==> b[k].RuleList?;
  }

  lemma DeletedReference(cfg: Config, t: Tenant, src: App, a: App, b: App, l: string)
    requires ValidTenant(cfg, t) && Typed(cfg, t, src) && Typed(cfg, t, a) && Typed(cfg, t, b) && SameLists(a, b)
    requires Referenced(Merge(cfg, t, true, src, a), l)
    ensures Referenced(Merge(cfg, t, true, src, b), l)
  {
    hide KeyKind, Merge, RulesRefs, SameLists;
    var k :| k in Merge(cfg, t, true, src, a) && l in Refs(Merge(cfg, t, true, src, a)[k]);
    DeletedRuleLists(cfg, t, src, a, b, k);
  }

  lemma DeletedLists(cfg: Config, t: Tenant, src: App, a: App, b: App, l: string)
    requires ValidTenant(cfg, t) && Typed(cfg, t, src) && Typed(cfg, t, a) && Typed(cfg, t, b) && SameLists(a, b)
    requires WellFormed(cfg, t, Merge(cfg, t, true, src, a)) && WellFormed(cfg, t, Merge(cfg, t, true, src, b))
    requires KeyKind(cfg, t, l) in {AddressKind, PortKind}
    ensures Lookup(Merge(cfg, t, true, src, a), l) == Lookup(Merge(cfg, t, true, src, b), l)
  {
    hide KeyKind, Merge, RulesRefs, SameLists, PolicyExact, RulesLocal, DenyAllAttr;
    var m, m' := Merge(cfg, t, true, src, a), Merge(cfg, t, true, src, b);
    TypedAgree(cfg, t, src, a);
    TypedAgree(cfg, t, src, b);
    assert l in m ==> KindOf(m[l]) == KeyKind(cfg, t, l);
    assert l in m' ==> KindOf(m'[l]) == KeyKind(cfg, t, l);
    if l in m {
      assert m[l].IsList();
      DeletedReference(cfg, t, src, a, b, l);
      ListValue(cfg, t, true, src, a, l);
      ListValue(cfg, t, true, src, b, l);
    } else if l in m' {
      assert m'[l].IsList();
      assert SameLists(b, a) by { ListsBack(a, b); }
      DeletedReference(cfg, t, src, b, a, l);
      assert false;
    }
  }

  lemma DeletedPolicy(cfg: Config, t: Tenant, src: App, a: App, b: App, ty: string)
    requires ValidTenant(cfg, t) && WellFormed(cfg, t, src) && WellFormed(cfg, t, a) && WellFormed(cfg, t, b)
    requires SameLists(a, b) && ty in Types(t)
    ensures Lookup(Merge(cfg, t, true, src, a), PolicyKey(cfg, t, ty))
            == Lookup(Merge(cfg, t, true, src, b), PolicyKey(cfg, t, ty))
  {
    hide KeyKind, Merge, Exact, RulesLocal, DenyAllAttr, Uses, MergeUses, PolicyKey, SameLists, PartitionPath, Origin,
         TypeOf;
    TypedSkips(cfg, t, src);
    MergedUses(cfg, t, true, src, a, ty);
    MergedUses(cfg, t, true, src, b, ty);
    forall u
      ensures u in Uses(cfg, t, a, ty) <==> u in Uses(cfg, t, b, ty)
    {
      ListsAt(a, b, Origin(u));
      EntryCarriesOver(cfg, t, a, b, ty, u);
      EntryCarriesOver(cfg, t, b, a, ty, u);
    }
    DeleteByMembers(DenyAllAttr(cfg), Uses(cfg, t, src, ty), Uses(cfg, t, a, ty), Uses(cfg, t, b, ty));
  }

  lemma ListsBack(a: App, b: App)
    requires SameLists(a, b)
    ensures SameLists(b, a)
  {
  }

  lemma ListsAt(a: App, b: App, k: string)
    ensures SameLists(a, b) ==> ((k in a && a[k].RuleList?) <==> (k in b && b[k].RuleList?))
  {
  }

  /** Covered deletes that name the same rule lists give the same application; what else they carry does not matter. */
  lemma DeleteByNames(cfg: Config, t: Tenant, src: App, a: App, b: App)
    requires ValidTenant(cfg, t) && WellFormed(cfg, t, src) && WellFormed(cfg, t, a) && WellFormed(cfg, t, b)
    requires Covers(src, a) && Covers(src, b) && SameLists(a, b)
    ensures Merge(cfg, t, true, src, a) == Merge(cfg, t, true, src, b)
  {
    hide Merge, Covers, KeyKind, PolicyExact, RulesLocal, Exact, SameLists, DenyAllAttr, PolicyKey;
    MergeWellFormed(cfg, t, true, src, a);
    MergeWellFormed(cfg, t, true, src, b);
    var m, m' := Merge(cfg, t, true, src, a), Merge(cfg, t, true, src, b);
    forall k
      ensures Lookup(m, k) == Lookup(m', k)
    {
      match KeyKind(cfg, t, k) {
        case RuleListKind =>
          DeletedRuleLists(cfg, t, src, a, b, k);
          assert k in m ==> KindOf(m[k]) == KeyKind(cfg, t, k);
          assert k in m' ==> KindOf(m'[k]) == KeyKind(cfg, t, k);
        case PolicyKind =>
          var ty := PolicyKeyType(cfg, t, k);
          DeletedPolicy(cfg, t, src, a, b, ty);
        case AddressKind => DeletedLists(cfg, t, src, a, b, k);
        case PortKind => DeletedLists(cfg, t, src, a, b, k);
        case _ =>
          OtherKey(cfg, t, true, src, a, k);
          OtherKey(cfg, t, true, src, b, k);
      }
    }
    SameLookup(m, m');
  }

  /** Every owner of the second items is one of the first. */
  lemma NamesShareOwners(cfg: Config, t: Tenant, items: seq<Item>, items': seq<Item>, i: nat) returns (j: nat)
    requires ValidTenant(cfg, t) && GoodItems(cfg, t, items) && GoodItems(cfg, t, items')
    requires SameNames(cfg, items, items') && i < |items'|
    ensures j < |items| && OwnerOf(items[j].rule) == OwnerOf(items'[i].rule)
  {
    hide ValidTenant, Attr, Decode, GoodItem, OwnerOf;
    var k := Attr(cfg, ItemId(items'[i]));
    assert ItemKey(cfg, items', k);
    j :| 0 <= j < |items| && k == Attr(cfg, ItemId(items[j]));
    DecodedItem(cfg, t, items[j]);
    DecodedItem(cfg, t, items'[i]);
  }

  // ----- deleting again what was added -----

  /** What was added is covered by a delete of the same names, where nothing of the rules was there before. */
  lemma AddedIsCovered(cfg: Config, t: Tenant, src: App, items: seq<Item>, order: seq<string>, items': seq<Item>,
                       order': seq<string>)
    requires GeneratedDelta(cfg, t, items, order) && GeneratedDelta(cfg, t, items', order')
    requires SameNames(cfg, items, items') && WellFormed(cfg, t, src) && OwnersAbsent(cfg, src, items)
    ensures Covers(Merge(cfg, t, false, src, Delta(cfg, t, items, order)), Delta(cfg, t, items', order'))
  {
    hide GoodItem, AllReady, Visits, Delta, ValidTenant, Merge, Refs, Decode, KeyKind, PolicyExact, Exact, ItemKey,
         DenyAllAttr, GroupNames, TypeOf, RuleListKey, OwnerOf, SameNames;
    var a, b := Delta(cfg, t, items, order), Delta(cfg, t, items', order');
    DeltaWellFormed(cfg, t, items, order);
    DeltaWellFormed(cfg, t, items', order');
    TypedAgree(cfg, t, src, a);
    NamesGiveLists(cfg, t, items, order, items', order');
    var added := Merge(cfg, t, false, src, a);
    forall k, l | k in added && added[k].RuleList? && l in Refs(added[k]) && l in b
      ensures k in b
    {
      AddedRuleList(cfg, t, src, a, k);
      if k !in a {
        ForeignUse(cfg, t, src, items, items', order', k, l);
      }
    }
  }

  /** A rule list of the source uses no list of rules that are not in the source. */
  lemma ForeignUse(cfg: Config, t: Tenant, src: App, items: seq<Item>, items': seq<Item>, order': seq<string>,
                   k: string, l: string)
    requires GeneratedDelta(cfg, t, items', order') && GoodItems(cfg, t, items) && SameNames(cfg, items, items')
    requires WellFormed(cfg, t, src) && OwnersAbsent(cfg, src, items)
    requires k in src && src[k].RuleList? && l in Refs(src[k])
    ensures l !in Delta(cfg, t, items', order')
  {
    hide GoodItem, AllReady, Visits, Delta, ValidTenant, RulesRefs, Decode, KeyKind, PolicyExact, ItemKey, DenyAllAttr,
         GroupNames, TypeOf, RuleListKey, OwnerOf, SameNames;
    var b := Delta(cfg, t, items', order');
    assert RuleListKey(cfg, k);
    if l in b {
      DeltaWellFormed(cfg, t, items', order');
      TypedAgree(cfg, t, src, b);
      assert Referenced(src, l);
      assert b[l].IsList();
      var i := RuleSpecificOwner(cfg, t, items', order', l);
      var j := NamesShareOwners(cfg, t, items, items', i);
    }
  }

  /**
   * Deleting rules that were new when they were added gives back the application exactly, whatever the orders, and
   * even if addresses, ports or actions have changed in between, as long as the same rule lists are named.
   */
  lemma RulesRoundTrip(cfg: Config, t: Tenant, src: App, items: seq<Item>, order: seq<string>, items': seq<Item>,
                       order': seq<string>)
    requires GeneratedDelta(cfg, t, items, order) && GeneratedDelta(cfg, t, items', order')
    requires SameNames(cfg, items, items') && WellFormed(cfg, t, src)
    requires OwnersAbsent(cfg, src, items) && InfraMatches(cfg, src, Delta(cfg, t, items, order))
    ensures var added := Next(cfg, t, false, Some(src), Delta(cfg, t, items, order));
            Next(cfg, t, true, added, Delta(cfg, t, items', order')) == Some(src)
  {
    hide GoodItems, AllReady, Visits, Delta, ValidTenant, SameNames, WellFormed, InfraMatches, OwnersAbsent, SameLists,
         Covers, Merge, GroupNames;
    var a, b := Delta(cfg, t, items, order), Delta(cfg, t, items', order');
    NamesGiveLists(cfg, t, items, order, items', order');
    DeltaWellFormed(cfg, t, items, order);
    DeltaWellFormed(cfg, t, items', order');
    SameOrderRoundTrip(cfg, t, src, items, order);
    AddAlwaysMerges(cfg, t, src, a);
    MergeWellFormed(cfg, t, false, src, a);
    assert SameNames(cfg, items, items) by { NamesOfOne(cfg, items); }
    AddedIsCovered(cfg, t, src, items, order, items, order);
    AddedIsCovered(cfg, t, src, items, order, items', order');
    DeleteByNames(cfg, t, Merge(cfg, t, false, src, a), a, b);
  }

  lemma NamesOfOne(cfg: Config, items: seq<Item>)
    ensures SameNames(cfg, items, items)
  {
  }

  // ----- adds and deletes of different rules, with free orders -----

  /**
   * Adding one rule and deleting another commute exactly, when both deletes are covered and name the same rule lists;
   * orders and contents of the two deletes are free.
   */
  lemma FreeDeleteCommutes(cfg: Config, t: Tenant, src: App, items: seq<Item>, order: seq<string>, gone: seq<Item>,
                           goneOrder: seq<string>, gone': seq<Item>, goneOrder': seq<string>)
    requires GeneratedDelta(cfg, t, items, order) && GeneratedDelta(cfg, t, gone, goneOrder)
    requires GeneratedDelta(cfg, t, gone', goneOrder') && SameNames(cfg, gone, gone') && DisjointOwners(items, gone)
    requires WellFormed(cfg, t, src)
    requires Covers(src, Delta(cfg, t, gone, goneOrder)) && Covers(src, Delta(cfg, t, gone', goneOrder'))
    ensures var added, deleted := Delta(cfg, t, items, order), Delta(cfg, t, gone, goneOrder);
            Next(cfg, t, false, Next(cfg, t, true, Some(src), deleted), added)
            == Next(cfg, t, true, Next(cfg, t, false, Some(src), added), Delta(cfg, t, gone', goneOrder'))
  {
    hide GoodItems, AllReady, Visits, Delta, ValidTenant, SameNames, SameLists, Covers, Merge, GroupNames,
         DisjointOwners,
         Independent, Exact, KeyKind, RulesLocal, PolicyExact, DenyAllAttr;
    var added, b, b' := Delta(cfg, t, items, order), Delta(cfg, t, gone, goneOrder), Delta(cfg, t, gone', goneOrder');
    NamesGiveLists(cfg, t, gone, goneOrder, gone', goneOrder');
    DeltaWellFormed(cfg, t, items, order);
    DeltaWellFormed(cfg, t, gone, goneOrder);
    DeltaWellFormed(cfg, t, gone', goneOrder');
    OwnersStayDisjoint(cfg, t, items, gone, gone');
    DifferentRules(cfg, t, items, order, gone, goneOrder);
    DifferentRules(cfg, t, items, order, gone', goneOrder');
    DifferentRulesCommute(cfg, t, src, items, order, gone, goneOrder);
    CoversAfterAdd(cfg, t, src, b, added);
    CoversAfterAdd(cfg, t, src, b', added);
    AddAlwaysMerges(cfg, t, src, added);
    MergeWellFormed(cfg, t, false, src, added);
    DeleteByNames(cfg, t, Merge(cfg, t, false, src, added), b, b');
  }

  lemma OwnersStayDisjoint(cfg: Config, t: Tenant, items: seq<Item>, gone: seq<Item>, gone': seq<Item>)
    requires ValidTenant(cfg, t) && GoodItems(cfg, t, gone) && GoodItems(cfg, t, gone')
    requires SameNames(cfg, gone, gone') && DisjointOwners(items, gone)
    ensures DisjointOwners(items, gone')
  {
    hide ValidTenant, GoodItems, SameNames, OwnerOf;
    forall i, j | 0 <= i < |items| && 0 <= j < |gone'|
      ensures OwnerOf(items[i].rule) != OwnerOf(gone'[j].rule)
    {
      var n := NamesShareOwners(cfg, t, gone, gone', j);
    }
  }
}
