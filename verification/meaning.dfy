/** What a synchronised rule means on the device: which packets its rule list decides, in terms of the rule data. */
module Meaning {
  import opened Model
  import opened Naming
  import opened Engine
  import opened EngineLaws
  import opened States
  import opened FirstMatch
  import Runs
  import opened Ports
  import opened Generate
  import opened Deltas
  import opened Guarantees

  /**
   * What the generator puts into the rules of a rule list.  A rule without source addresses is given no source
   * list, and a group without a protocol is given no ports: such rules leave the source, or the port, open.
   */
  predicate Programmed(cfg: Config, r: RuleData, x: Exsvc, holds: (string, Obj) -> bool, p: Packet) {
    && holds(p.destination, AddressObj(cfg, x.destAddress))
    && (r.ty in {NS, SVC} && r.srcAddr != [] ==> holds(p.source, AddressObj(cfg, r.srcAddr)))
    && exists key :: key in x.destPorts && GroupProgrammed(x.destPorts[key], holds, p)
  }

  predicate GroupProgrammed(g: PortGroup, holds: (string, Obj) -> bool, p: Packet) {
    g.protocol == "" || ((g.protocol == "any" || g.protocol == p.protocol) && holds(p.port, PortList(g.ports)))
  }

  /** Two items of one rule carry the same rule. */
  predicate RulesOnce(items: seq<Item>) {
    forall i, j :: 0 <= i < |items| && 0 <= j < |items| && OwnerOf(items[i].rule) == OwnerOf(items[j].rule) ==>
      items[i].rule == items[j].rule
  }

  // ----- the lists of one item -----

  lemma {:induction false} PortObjsValue(cfg: Config, t: Tenant, item: Item, order: seq<string>, key: string)
    requires ValidTenant(cfg, t) && GoodItem(cfg, t, item) && NoDuplicates(order) && key in order
    requires forall k :: k in order ==> k in item.exsvc.destPorts
    requires item.exsvc.destPorts[key].protocol != ""
    ensures Lookup(PortObjs(cfg, item.rule, item.exsvc, order), PortAttr(cfg, item.rule, item.exsvc, key))
            == Some(PortList(item.exsvc.destPorts[key].ports))
  {
    hide PortAttr, GoodItem, ValidTenant, Decode, KeyKind;
    var n := |order| - 1;
    assert order == order[..n] + [order[n]];
    if key != order[n] {
      PortObjsValue(cfg, t, item, order[..n], key);
      ItemKinds(cfg, t, item);
    }
  }

  /** Address lists share their names with no other object of the item. */
  lemma AddressNamesApart(cfg: Config, t: Tenant, item: Item, a: string)
    requires ValidTenant(cfg, t) && GoodItem(cfg, t, item) && KeyKind(cfg, t, a) == AddressKind
    ensures a != ListAttr(cfg, item.rule, item.exsvc) && a !in PortObjs(cfg, item.rule, item.exsvc, item.order)
  {
    hide PortAttr, ListAttr, DestAttr, SrcAttr, ValidTenant, Decode, KeyKind, PortObjs, ValidOwner, TenantForNamespace;
    ItemKinds(cfg, t, item);
    PortObjsAre(cfg, item.rule, item.exsvc, item.order);
  }

  lemma ItemAddressValues(cfg: Config, t: Tenant, item: Item)
    requires ValidTenant(cfg, t) && GoodItem(cfg, t, item)
    ensures var r, x, objs := item.rule, item.exsvc, ItemObjs(cfg, item);
            && Lookup(objs, DestAttr(cfg, r, x)) == Some(AddressObj(cfg, x.destAddress))
            && (SrcAttr(cfg, r) != "" ==> Lookup(objs, SrcAttr(cfg, r)) == Some(AddressObj(cfg, r.srcAddr)))
  {
    hide SrcAttr, DestAttr, PortAttr, ListAttr, ValidTenant, Decode, KeyKind, PortObjs, AddressObj, NewRules,
         ValidOwner, TenantForNamespace;
    var r, x := item.rule, item.exsvc;
    ItemKinds(cfg, t, item);
    AddressNamesApart(cfg, t, item, DestAttr(cfg, r, x));
    if SrcAttr(cfg, r) != "" {
      AddressNamesApart(cfg, t, item, SrcAttr(cfg, r));
      assert DestId(r, x) != SrcId(r);
    }
  }

  lemma ItemPortValue(cfg: Config, t: Tenant, item: Item, key: string)
    requires ValidTenant(cfg, t) && GoodItem(cfg, t, item)
    requires key in item.exsvc.destPorts && item.exsvc.destPorts[key].protocol != ""
    ensures Lookup(ItemObjs(cfg, item), PortAttr(cfg, item.rule, item.exsvc, key))
            == Some(PortList(item.exsvc.destPorts[key].ports))
  {
    hide SrcAttr, DestAttr, PortAttr, ListAttr, ValidTenant, Decode, KeyKind, PortObjs, AddressObjs, NewRules,
         ValidOwner, TenantForNamespace;
    ItemKinds(cfg, t, item);
    PortObjsValue(cfg, t, item, item.order, key);
  }

  /** Each list of an item, by value. */
  lemma ItemListValues(cfg: Config, t: Tenant, item: Item)
    requires ValidTenant(cfg, t) && GoodItem(cfg, t, item)
    ensures var r, x, objs := item.rule, item.exsvc, ItemObjs(cfg, item);
            && Lookup(objs, DestAttr(cfg, r, x)) == Some(AddressObj(cfg, x.destAddress))
            && (SrcAttr(cfg, r) != "" ==> Lookup(objs, SrcAttr(cfg, r)) == Some(AddressObj(cfg, r.srcAddr)))
            && (forall key :: key in x.destPorts && x.destPorts[key].protocol != "" ==>
                  Lookup(objs, PortAttr(cfg, r, x, key)) == Some(PortList(x.destPorts[key].ports)))
  {
    hide SrcAttr, DestAttr, PortAttr, ItemObjs, ValidTenant, AddressObj, ValidOwner, TenantForNamespace;
    ItemAddressValues(cfg, t, item);
    forall key | key in item.exsvc.destPorts && item.exsvc.destPorts[key].protocol != "" {
      ItemPortValue(cfg, t, item, key);
    }
  }

  // ----- the lists of the delta -----

  /** A name that one item's list has and another item's list has too is their common source list. */
  lemma SharedList(cfg: Config, t: Tenant, items: seq<Item>, i: nat, n: nat, a: string)
    requires ValidTenant(cfg, t) && GoodItems(cfg, t, items) && i < n < |items|
    requires ItemList(cfg, items[i], a) && ItemList(cfg, items[n], a)
    ensures OwnerOf(items[i].rule) == OwnerOf(items[n].rule)
    ensures SrcAttr(cfg, items[i].rule) == a && SrcAttr(cfg, items[n].rule) == a && a != ""
  {
    hide SrcAttr, DestAttr, PortAttr, ListAttr, ValidTenant, Decode, KeyKind, GoodItem, OwnerOf;
    ItemKinds(cfg, t, items[i]);
    ItemKinds(cfg, t, items[n]);
  }

  /** Where a later item writes a list of an earlier one, it writes the same value. */
  lemma SameListValue(cfg: Config, t: Tenant, items: seq<Item>, i: nat, n: nat, a: string)
    requires ValidTenant(cfg, t) && GoodItems(cfg, t, items) && RulesOnce(items) && i < n < |items|
    requires ItemReady(cfg, items[i]) && ItemReady(cfg, items[n]) && ItemList(cfg, items[i], a)
    ensures a in ItemObjs(cfg, items[n]) ==> Lookup(ItemObjs(cfg, items[n]), a) == Lookup(ItemObjs(cfg, items[i]), a)
  {
    hide GoodItem, ItemObjs, ItemList, ValidTenant, ItemReady, ItemId, OwnerOf, SrcAttr, DestAttr, PortAttr,
         AddressObj, KeyKind, ListAttr;
    ListInItem(cfg, t, items[n], a);
    ListInItem(cfg, t, items[i], a);
    if ItemList(cfg, items[n], a) {
      SharedList(cfg, t, items, i, n, a);
      ItemAddressValues(cfg, t, items[i]);
      ItemAddressValues(cfg, t, items[n]);
    }
  }

  lemma {:induction false} GeneratedLists(cfg: Config, t: Tenant, items: seq<Item>, i: nat, a: string)
    requires ValidTenant(cfg, t) && GoodItems(cfg, t, items) && AllReady(cfg, items) && RulesOnce(items) && i < |items|
    requires ItemList(cfg, items[i], a)
    ensures Lookup(Generated(cfg, DefaultApp(cfg, t.name, t), items), a) == Lookup(ItemObjs(cfg, items[i]), a)
  {
    hide GoodItem, ItemObjs, ItemList, DefaultApp, ValidTenant, ItemReady, ItemId, RulesOnce, KeyKind, ListAttr;
    var n := |items| - 1;
    PrefixGood(cfg, t, items, n);
    ListInItem(cfg, t, items[i], a);
    if i < n {
      assert items[..n][i] == items[i];
      RulesOncePrefix(items);
      GeneratedLists(cfg, t, items[..n], i, a);
      SameListValue(cfg, t, items, i, n, a);
    }
  }

  lemma RulesOncePrefix(items: seq<Item>)
    requires RulesOnce(items) && items != []
    ensures RulesOnce(items[..|items| - 1])
  {
    hide OwnerOf;
  }

  lemma ListInItem(cfg: Config, t: Tenant, item: Item, a: string)
    requires ValidTenant(cfg, t) && GoodItem(cfg, t, item)
    ensures ItemReady(cfg, item)
    ensures ItemList(cfg, item, a) ==> a in ItemObjs(cfg, item)
    ensures a in ItemObjs(cfg, item) ==> ItemList(cfg, item, a) || a == ListAttr(cfg, item.rule, item.exsvc)
    ensures ItemList(cfg, item, a) ==> KeyKind(cfg, t, a) in {AddressKind, PortKind}
    ensures KeyKind(cfg, t, ListAttr(cfg, item.rule, item.exsvc)) == RuleListKind
  {
    hide ItemObjs, NewRules, ValidTenant, Decode, KeyKind, ListAttr, DestAttr, SrcAttr, PortAttr, ValidOwner,
         TenantForNamespace;
    ItemObjsAre(cfg, t, item);
    ItemKinds(cfg, t, item);
  }

  /** In the delta, every list of an item has the addresses or ports that the rule and the service give it. */
  lemma DeltaLists(cfg: Config, t: Tenant, items: seq<Item>, order: seq<string>, i: nat)
    requires GeneratedDelta(cfg, t, items, order) && RulesOnce(items) && i < |items|
    ensures var delta, r, x := Delta(cfg, t, items, order), items[i].rule, items[i].exsvc;
            && Lookup(delta, DestAttr(cfg, r, x)) == Some(AddressObj(cfg, x.destAddress))
            && (SrcAttr(cfg, r) != "" ==> Lookup(delta, SrcAttr(cfg, r)) == Some(AddressObj(cfg, r.srcAddr)))
            && (forall key :: key in x.destPorts && x.destPorts[key].protocol != "" ==>
                  Lookup(delta, PortAttr(cfg, r, x, key)) == Some(PortList(x.destPorts[key].ports)))
  {
    hide GoodItem, Delta, Generated, DestAttr, SrcAttr, PortAttr, ItemObjs, AddressObj, ValidTenant, KeyKind, Visits,
         DefaultApp, ItemReady, ItemId, RulesOnce, Decode;
    var r, x := items[i].rule, items[i].exsvc;
    ItemListValues(cfg, t, items[i]);
    forall a | ItemList(cfg, items[i], a)
      ensures Lookup(Delta(cfg, t, items, order), a) == Lookup(ItemObjs(cfg, items[i]), a)
    {
      ListInItem(cfg, t, items[i], a);
      GeneratedLists(cfg, t, items, i, a);
      DeltaObjects(cfg, t, items, order, a);
    }
    assert ItemList(cfg, items[i], DestAttr(cfg, r, x));
    assert SrcAttr(cfg, r) != "" ==> ItemList(cfg, items[i], SrcAttr(cfg, r));
    assert forall key :: key in x.destPorts && x.destPorts[key].protocol != "" ==>
           ItemList(cfg, items[i], PortAttr(cfg, r, x, key));
  }

  // ----- the verdict of a rule list -----

  lemma OneList(app: App, holds: (string, Obj) -> bool, value: string, use: string, o: Obj)
    requires Lookup(app, Origin(use)) == Some(o)
    ensures InLists(app, holds, value, [use]) == holds(value, o)
  {
    hide Origin;
    assert [use][0] == use;
  }

  /** The rule of one port group matches what was put into it. */
  lemma RuleMeans(cfg: Config, t: Tenant, items: seq<Item>, order: seq<string>, i: nat, key: string,
                  holds: (string, Obj) -> bool, p: Packet)
    requires GeneratedDelta(cfg, t, items, order) && RulesOnce(items) && i < |items| && key in items[i].exsvc.destPorts
    requires Resolves(cfg, items[i].rule.namespace)
    ensures var r, x := items[i].rule, items[i].exsvc;
            RuleMatches(Delta(cfg, t, items, order), holds, p, NewRule(cfg, r, x, key, x.destPorts[key])) <==>
              && holds(p.destination, AddressObj(cfg, x.destAddress))
              && (SrcAttr(cfg, r) != "" ==> holds(p.source, AddressObj(cfg, r.srcAddr)))
              && GroupProgrammed(x.destPorts[key], holds, p)
  {
    hide GoodItem, Delta, DestAttr, SrcAttr, PortAttr, AddressObj, ValidTenant, Visits, UsePath, Origin, InLists,
         RulesOnce;
    var delta, r, x := Delta(cfg, t, items, order), items[i].rule, items[i].exsvc;
    DeltaLists(cfg, t, items, order, i);
    ItemSlashFree(cfg, t, items[i]);
    UsePathIs(cfg, t, items[i], DestAttr(cfg, r, x));
    OneList(delta, holds, p.destination, UsePath(cfg, r, DestAttr(cfg, r, x)), AddressObj(cfg, x.destAddress));
    NoLists(delta, holds, p.port);
    NoLists(delta, holds, p.source);
    if SrcAttr(cfg, r) != "" {
      UsePathIs(cfg, t, items[i], SrcAttr(cfg, r));
      OneList(delta, holds, p.source, UsePath(cfg, r, SrcAttr(cfg, r)), AddressObj(cfg, r.srcAddr));
    }
    if x.destPorts[key].protocol != "" {
      UsePathIs(cfg, t, items[i], PortAttr(cfg, r, x, key));
      OneList(delta, holds, p.port, UsePath(cfg, r, PortAttr(cfg, r, x, key)), PortList(x.destPorts[key].ports));
    }
  }

  lemma NoLists(app: App, holds: (string, Obj) -> bool, value: string)
    ensures InLists(app, holds, value, [])
  {
  }

  /** All rules of a list have the rule's action, so the order in which they were made does not matter. */
  lemma {:induction false} RulesDecide(cfg: Config, app: App, holds: (string, Obj) -> bool, p: Packet, r: RuleData,
                                       x: Exsvc, order: seq<string>)
    requires Resolves(cfg, r.namespace) && forall key :: key in order ==> key in x.destPorts
    ensures FirstRule(app, holds, p, NewRules(cfg, r, x, order)) ==
              if exists key :: key in order && RuleMatches(app, holds, p, NewRule(cfg, r, x, key, x.destPorts[key]))
              then Some(r.action) else None
  {
    if order != [] {
      var n := |order| - 1;
      assert order == order[..n] + [order[n]];
      RulesDecide(cfg, app, holds, p, r, x, order[..n]);
      var rules := NewRules(cfg, r, x, order);
      assert rules[..|rules| - 1] == NewRules(cfg, r, x, order[..n]);
      assert NewRule(cfg, r, x, order[n], x.destPorts[order[n]]).action == r.action;
      hide NewRule, RuleMatches, Resolves;
    }
  }

  /** A generated rule list decides exactly what the generator put into it, with the rule's action. */
  lemma GeneratedVerdict(cfg: Config, t: Tenant, items: seq<Item>, order: seq<string>, i: nat,
                         holds: (string, Obj) -> bool, p: Packet)
    requires GeneratedDelta(cfg, t, items, order) && RulesOnce(items) && i < |items|
    ensures EntryVerdict(Delta(cfg, t, items, order), holds, p, ItemPath(cfg, t, items[i])) ==
              if Programmed(cfg, items[i].rule, items[i].exsvc, holds, p)
              then Some(Verdict(ItemPath(cfg, t, items[i]), items[i].rule.action)) else None
  {
    hide GoodItem, Delta, Attr, ItemId, AddressObj, ValidTenant, Origin, ItemPath, RuleMatches, NewRule,
         GroupProgrammed, RulesOnce, NewRules, SrcAddressAttr;
    var item, delta := items[i], Delta(cfg, t, items, order);
    var r, x := item.rule, item.exsvc;
    GoodItemReady(cfg, t, item);
    PathOfItem(cfg, t, item);
    DeltaRules(cfg, t, items, order, i);
    RulesDecide(cfg, delta, holds, p, r, x, item.order);
    forall key | key in x.destPorts
      ensures RuleMatches(delta, holds, p, NewRule(cfg, r, x, key, x.destPorts[key])) <==>
                && holds(p.destination, AddressObj(cfg, x.destAddress))
                && (SrcAttr(cfg, r) != "" ==> holds(p.source, AddressObj(cfg, r.srcAddr)))
                && GroupProgrammed(x.destPorts[key], holds, p)
    {
      RuleMeans(cfg, t, items, order, i, key, holds, p);
    }
    SrcAttrIff(cfg, r);
  }

  lemma SrcAttrIff(cfg: Config, r: RuleData)
    ensures SrcAttr(cfg, r) != "" <==> r.ty in {NS, SVC} && r.srcAddr != []
  {
    if r.ty in {NS, SVC} {
      SrcAttrNotEmpty(cfg, r);
    }
  }

  /**
   * After a sync the device's rule list decides the same packets.  The state before need not be well formed, as
   * long as it holds objects of the same kind under the delta's keys.
   */
  lemma SyncedVerdict(cfg: Config, t: Tenant, src: Option<App>, items: seq<Item>, order: seq<string>, i: nat,
                      holds: (string, Obj) -> bool, p: Packet)
    requires GeneratedDelta(cfg, t, items, order) && RulesOnce(items) && i < |items|
    requires src.Some? ==> KindsAgree(src.value, Delta(cfg, t, items, order))
    ensures var next := Next(cfg, t, false, src, Delta(cfg, t, items, order));
            next.Some? && EntryVerdict(next.value, holds, p, ItemPath(cfg, t, items[i])) ==
              if Programmed(cfg, items[i].rule, items[i].exsvc, holds, p)
              then Some(Verdict(ItemPath(cfg, t, items[i]), items[i].rule.action)) else None
  {
    hide GoodItem, Delta, Attr, ItemId, ValidTenant, Origin, ItemPath, NewRules, Next, KeyKind, RulesLocal,
         PolicyExact, RulesRefs, EntryVerdict, Visits, Programmed, RulesOnce, KindsAgree, SelfContained, KindOf;
    var delta, use := Delta(cfg, t, items, order), ItemPath(cfg, t, items[i]);
    var k, next := Attr(cfg, ItemId(items[i])), Next(cfg, t, false, src, delta);
    GeneratedVerdict(cfg, t, items, order, i, holds, p);
    DeltaWellFormed(cfg, t, items, order);
    Runs.WellFormedContained(cfg, t, delta);
    PathOfItem(cfg, t, items[i]);
    DeltaRules(cfg, t, items, order, i);
    AddStores(cfg, t, src, delta, k);
    forall a | a in Refs(delta[k])
      ensures Lookup(delta, a) == Lookup(next.value, a)
    {
      assert Referenced(delta, a);
      AddStores(cfg, t, src, delta, a);
    }
    VerdictFrame(delta, next.value, holds, p, use);
  }
}
