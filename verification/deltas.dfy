/** Every generated delta is well formed: the generator defines all it refers to and lists all it defines. */
module Deltas {
  import opened Model
  import opened Text
  import opened Naming
  import opened PolicyMerge
  import opened Engine
  import opened EngineLaws
  import opened States
  import opened Runs
  import opened Generate

  function OwnerOf(r: RuleData): Owner {
    Owner(r.ty, r.namespace, r.name)
  }

  /** Names as Kubernetes admits them, a namespace of the tenant, and at least the portless group. */
  predicate GoodItem(cfg: Config, t: Tenant, item: Item) {
    var r, x := item.rule, item.exsvc;
    && ItemReady(cfg, item)
    && ValidOwner(OwnerOf(r)) && PlainName(x.name) && PlainName(r.epName)
    && (r.ty != SVC ==> r.epName == "")
    && r.ty in Types(t)
    && (if r.namespace == "" then t.name == COMMON else TenantForNamespace(cfg, r.namespace) == Some(t))
    && x.destPorts != map[]
    && (forall key :: key in x.destPorts ==> '/' !in key)
  }

  function ItemId(item: Item): Id {
    RuleListId(OwnerOf(item.rule), item.exsvc.name)
  }

  /** External services are listed once per rule, and no two rules share type, namespace and name. */
  predicate GoodItems(cfg: Config, t: Tenant, items: seq<Item>) {
    && (forall i :: 0 <= i < |items| ==> GoodItem(cfg, t, items[i]))
    && (forall i, j :: 0 <= i < j < |items| ==> ItemId(items[i]) != ItemId(items[j]))
  }

  // ----- one item -----

  function ItemPath(cfg: Config, t: Tenant, item: Item): string {
    PartitionPath(t.name, Attr(cfg, ItemId(item)))
  }

  lemma UsePathIs(cfg: Config, t: Tenant, item: Item, attr: string)
    requires ValidTenant(cfg, t) && GoodItem(cfg, t, item) && attr != "" && '/' !in attr
    ensures UsePath(cfg, item.rule, attr) == PartitionPath(t.name, attr)
    ensures Origin(UsePath(cfg, item.rule, attr)) == attr
  {
    hide ItemReady;
    PathParts(t.name, attr);
  }

  function SrcId(r: RuleData): Id {
    SrcAddressId(OwnerOf(r), r.epName)
  }

  function DestId(r: RuleData, x: Exsvc): Id {
    DestAddressId(OwnerOf(r), x.name)
  }

  function PortId(r: RuleData, x: Exsvc, key: string): Id {
    DestPortId(OwnerOf(r), x.name, key)
  }

  /** The names of an item's objects are what their identities encode to. */
  lemma ItemAttrs(cfg: Config, t: Tenant, item: Item)
    requires ValidTenant(cfg, t) && GoodItem(cfg, t, item)
    ensures var r, x := item.rule, item.exsvc;
            && ListAttr(cfg, r, x) == Attr(cfg, ItemId(item)) && ValidId(ItemId(item))
            && DestAttr(cfg, r, x) == Attr(cfg, DestId(r, x)) && ValidId(DestId(r, x))
            && (SrcAttr(cfg, r) != "" ==> SrcAttr(cfg, r) == Attr(cfg, SrcId(r)) && ValidId(SrcId(r)))
            && (forall key :: key in x.destPorts ==>
                  PortAttr(cfg, r, x, key) == Attr(cfg, PortId(r, x, key)) && ValidId(PortId(r, x, key)))
  {
    hide ItemReady, RuleListAttr, DestAddressAttr, DestPortAttr, SrcAddressAttr;
  }

  /** The lists an item's rule list refers to. */
  ghost predicate ItemList(cfg: Config, item: Item, a: string) {
    var r, x := item.rule, item.exsvc;
    || (SrcAttr(cfg, r) != "" && a == SrcAttr(cfg, r))
    || a == DestAttr(cfg, r, x)
    || (exists key :: key in x.destPorts && x.destPorts[key].protocol != "" && a == PortAttr(cfg, r, x, key))
  }

  predicate SlashFreeAttrs(cfg: Config, item: Item) {
    var r, x := item.rule, item.exsvc;
    && '/' !in SrcAttr(cfg, r)
    && DestAttr(cfg, r, x) != "" && '/' !in DestAttr(cfg, r, x)
    && (forall key :: key in x.destPorts ==> PortAttr(cfg, r, x, key) != "" && '/' !in PortAttr(cfg, r, x, key))
  }

  lemma ItemSlashFree(cfg: Config, t: Tenant, item: Item)
    requires ValidTenant(cfg, t) && GoodItem(cfg, t, item)
    ensures SlashFreeAttrs(cfg, item)
    ensures '/' !in ListAttr(cfg, item.rule, item.exsvc) && ListAttr(cfg, item.rule, item.exsvc) != ""
  {
    hide Attr, ValidId, SrcAttr, DestAttr, PortAttr, ListAttr, GoodItem, OwnerOf;
    var r, x := item.rule, item.exsvc;
    ItemAttrs(cfg, t, item);
    AttrShape(cfg, ItemId(item));
    AttrShape(cfg, DestId(r, x));
    if SrcAttr(cfg, r) != "" {
      AttrShape(cfg, SrcId(r));
    }
    forall key | key in x.destPorts
      ensures PortAttr(cfg, r, x, key) != "" && '/' !in PortAttr(cfg, r, x, key)
    {
      AttrShape(cfg, PortId(r, x, key));
    }
  }

  lemma OriginsOfOne(u: string)
    ensures OriginSet([u]) == {Origin(u)}
  {
    assert [u][..0] == [];
    assert OriginSet([]) == {};
  }

  /** The references of the rule for one port group. */
  lemma RuleRefs(cfg: Config, t: Tenant, item: Item, key: string)
    requires ValidTenant(cfg, t) && GoodItem(cfg, t, item) && SlashFreeAttrs(cfg, item) && key in item.exsvc.destPorts
    ensures var r, x := item.rule, item.exsvc;
            OriginSet(RuleUses(NewRule(cfg, r, x, key, x.destPorts[key])))
            == {DestAttr(cfg, r, x)}
               + (if x.destPorts[key].protocol == "" then {} else {PortAttr(cfg, r, x, key)})
               + (if SrcAttr(cfg, r) == "" then {} else {SrcAttr(cfg, r)})
  {
    var r, x := item.rule, item.exsvc;
    var dest, port, src := DestAttr(cfg, r, x), PortAttr(cfg, r, x, key), SrcAttr(cfg, r);
    var rule := NewRule(cfg, r, x, key, x.destPorts[key]);
    hide GoodItem, UsePath, Origin, DestAttr, PortAttr, SrcAttr;
    OriginSetConcat(rule.destination.addressLists, rule.destination.portLists);
    OriginSetConcat(rule.destination.addressLists + rule.destination.portLists, rule.source.addressLists);
    UsePathIs(cfg, t, item, dest);
    OriginsOfOne(UsePath(cfg, r, dest));
    assert OriginSet([]) == {};
    if x.destPorts[key].protocol != "" {
      UsePathIs(cfg, t, item, port);
      OriginsOfOne(UsePath(cfg, r, port));
    }
    if src != "" {
      UsePathIs(cfg, t, item, src);
      OriginsOfOne(UsePath(cfg, r, src));
    }
  }

  lemma RulesRefsStep(cfg: Config, r: RuleData, x: Exsvc, order: seq<string>)
    requires Resolves(cfg, r.namespace) && order != [] && forall key :: key in order ==> key in x.destPorts
    ensures var key := order[|order| - 1];
            RulesRefs(NewRules(cfg, r, x, order))
            == RulesRefs(NewRules(cfg, r, x, order[..|order| - 1]))
               + OriginSet(RuleUses(NewRule(cfg, r, x, key, x.destPorts[key])))
  {
    hide NewRule, RuleUses, OriginSet, Resolves;
    var rules := NewRules(cfg, r, x, order);
    assert rules[..|rules| - 1] == NewRules(cfg, r, x, order[..|order| - 1]);
  }

  lemma {:induction false} RulesRefsAre(cfg: Config, t: Tenant, item: Item, order: seq<string>, a: string)
    requires ValidTenant(cfg, t) && GoodItem(cfg, t, item) && SlashFreeAttrs(cfg, item)
    requires forall key :: key in order ==> key in item.exsvc.destPorts
    ensures var r, x := item.rule, item.exsvc;
            a in RulesRefs(NewRules(cfg, r, x, order)) <==>
              order != [] && (a == DestAttr(cfg, r, x) || (SrcAttr(cfg, r) != "" && a == SrcAttr(cfg, r))
                              || exists key :: key in order && x.destPorts[key].protocol != ""
                                   && a == PortAttr(cfg, r, x, key))
  {
    hide ValidTenant, ValidOwner, TenantForNamespace, SlashFreeAttrs, DestAttr, PortAttr, SrcAttr, RuleUses,
         OriginSet, NewRule;
    if order != [] {
      var n := |order| - 1;
      assert order == order[..n] + [order[n]];
      RulesRefsAre(cfg, t, item, order[..n], a);
      RulesRefsStep(cfg, item.rule, item.exsvc, order);
      RuleRefs(cfg, t, item, order[n]);
      hide RulesRefs, NewRules;
    } else {
      assert RulesRefs([]) == {};
    }
  }

  /** A rule list refers to exactly the lists the generator defines beside it. */
  lemma ItemRefs(cfg: Config, t: Tenant, item: Item, a: string)
    requires ValidTenant(cfg, t) && GoodItem(cfg, t, item)
    ensures a in Refs(RuleList(NewRules(cfg, item.rule, item.exsvc, item.order))) <==> ItemList(cfg, item, a)
  {
    ItemSlashFree(cfg, t, item);
    RulesRefsAre(cfg, t, item, item.order, a);
    hide NewRules, SlashFreeAttrs, DestAttr, PortAttr, SrcAttr, RulesRefs;
    var some :| some in item.exsvc.destPorts;
    assert some in item.order;
  }

  lemma ItemKinds(cfg: Config, t: Tenant, item: Item)
    requires ValidTenant(cfg, t) && GoodItem(cfg, t, item)
    ensures var r, x := item.rule, item.exsvc;
            && KeyKind(cfg, t, ListAttr(cfg, r, x)) == RuleListKind && Decode(cfg, ListAttr(cfg, r, x)) == ItemId(item)
            && KeyKind(cfg, t, DestAttr(cfg, r, x)) == AddressKind && Decode(cfg, DestAttr(cfg, r, x)) == DestId(r, x)
            && (SrcAttr(cfg, r) != "" ==>
                  KeyKind(cfg, t, SrcAttr(cfg, r)) == AddressKind && Decode(cfg, SrcAttr(cfg, r)) == SrcId(r))
            && (forall key :: key in x.destPorts ==>
                  KeyKind(cfg, t, PortAttr(cfg, r, x, key)) == PortKind
                    && Decode(cfg, PortAttr(cfg, r, x, key)) == PortId(r, x, key))
  {
    hide KeyKind, Decode, Attr, ValidId, SrcAttr, DestAttr, PortAttr, ListAttr, GoodItem, OwnerOf;
    var r, x := item.rule, item.exsvc;
    ItemAttrs(cfg, t, item);
    AttrKind(cfg, t, ItemId(item));
    AttrKind(cfg, t, DestId(r, x));
    if SrcAttr(cfg, r) != "" {
      AttrKind(cfg, t, SrcId(r));
    }
    forall key | key in x.destPorts
      ensures KeyKind(cfg, t, PortAttr(cfg, r, x, key)) == PortKind
              && Decode(cfg, PortAttr(cfg, r, x, key)) == PortId(r, x, key)
    {
      AttrKind(cfg, t, PortId(r, x, key));
    }
  }

  lemma {:induction false} PortObjsAre(cfg: Config, r: RuleData, x: Exsvc, order: seq<string>)
    requires forall key :: key in order ==> key in x.destPorts
    ensures forall k :: k in PortObjs(cfg, r, x, order) ==> PortObjs(cfg, r, x, order)[k].PortList?
    ensures forall k :: k in PortObjs(cfg, r, x, order) <==>
                        exists key :: key in order && x.destPorts[key].protocol != "" && k == PortAttr(cfg, r, x, key)
  {
    hide PortAttr;
    if order != [] {
      var n := |order| - 1;
      assert order == order[..n] + [order[n]];
      PortObjsAre(cfg, r, x, order[..n]);
    }
  }

  /** The objects of one item: its rule list, and the lists it refers to, each under a key of its kind. */
  lemma ItemObjsAre(cfg: Config, t: Tenant, item: Item)
    requires ValidTenant(cfg, t) && GoodItem(cfg, t, item)
    ensures var objs, key := ItemObjs(cfg, item), ListAttr(cfg, item.rule, item.exsvc);
            && Lookup(objs, key) == Some(RuleList(NewRules(cfg, item.rule, item.exsvc, item.order)))
            && (forall k :: k in objs && k != key ==> objs[k].IsList())
            && (forall k :: k != key ==> (k in objs <==> ItemList(cfg, item, k)))
            && !ItemList(cfg, item, key)
            && Typed(cfg, t, objs)
  {
    hide KeyKind, Decode, SrcAttr, DestAttr, PortAttr, ListAttr, NewRules, PortObjs, AddressObjs, ItemList,
         ValidTenant, ValidOwner, TenantForNamespace;
    var r, x := item.rule, item.exsvc;
    var lists := AddressObjs(cfg, r, x) + PortObjs(cfg, r, x, item.order);
    ItemListsAre(cfg, t, item);
    assert KindOf(RuleList(NewRules(cfg, r, x, item.order))) == RuleListKind;
    ItemKinds(cfg, t, item);
    assert ListAttr(cfg, r, x) !in lists;
  }

  lemma AddressObjsAre(cfg: Config, r: RuleData, x: Exsvc)
    ensures forall k :: k in AddressObjs(cfg, r, x) <==>
              (k == DestAttr(cfg, r, x) || (SrcAttr(cfg, r) != "" && k == SrcAttr(cfg, r)))
    ensures forall k :: k in AddressObjs(cfg, r, x) ==> AddressObjs(cfg, r, x)[k].AddressList?
  {
    hide SrcAttr, DestAttr;
  }

  lemma AddressObjsTyped(cfg: Config, t: Tenant, item: Item)
    requires ValidTenant(cfg, t) && GoodItem(cfg, t, item)
    ensures Typed(cfg, t, AddressObjs(cfg, item.rule, item.exsvc))
  {
    hide KeyKind, Decode, SrcAttr, DestAttr, PortAttr, ListAttr, AddressObjs, ValidTenant, ValidOwner,
         TenantForNamespace;
    AddressObjsAre(cfg, item.rule, item.exsvc);
    ItemKinds(cfg, t, item);
  }

  lemma PortObjsTyped(cfg: Config, t: Tenant, item: Item, order: seq<string>)
    requires ValidTenant(cfg, t) && GoodItem(cfg, t, item) && forall key :: key in order ==> key in item.exsvc.destPorts
    ensures Typed(cfg, t, PortObjs(cfg, item.rule, item.exsvc, order))
  {
    hide KeyKind, Decode, SrcAttr, DestAttr, PortAttr, ListAttr, PortObjs, ValidTenant, GoodItem, ItemId, DestId,
         SrcId, PortId;
    var r, x := item.rule, item.exsvc;
    PortObjsAre(cfg, r, x, order);
    ItemKinds(cfg, t, item);
    forall k | k in PortObjs(cfg, r, x, order)
      ensures KeyKind(cfg, t, k) == PortKind
    {
      var key :| key in order && x.destPorts[key].protocol != "" && k == PortAttr(cfg, r, x, key);
    }
  }

  lemma ItemListsAre(cfg: Config, t: Tenant, item: Item)
    requires ValidTenant(cfg, t) && GoodItem(cfg, t, item)
    ensures var lists := AddressObjs(cfg, item.rule, item.exsvc) + PortObjs(cfg, item.rule, item.exsvc, item.order);
            && (forall k :: k in lists <==> ItemList(cfg, item, k))
            && (forall k :: k in lists ==> lists[k].IsList())
            && Typed(cfg, t, lists)
  {
    hide KeyKind, SrcAttr, DestAttr, PortAttr, PortObjs, AddressObjs, ValidTenant, ValidOwner, TenantForNamespace;
    AddressObjsAre(cfg, item.rule, item.exsvc);
    PortObjsAre(cfg, item.rule, item.exsvc, item.order);
    AddressObjsTyped(cfg, t, item);
    PortObjsTyped(cfg, t, item, item.order);
  }

  // ----- all items -----

  /** Objects that refer to each other only, laid over others with other rule lists. */
  lemma UnionExact(a: App, b: App)
    requires Exact(a) && Exact(b) && KindsAgree(a, b)
    requires forall k :: k in a && k in b ==> !b[k].RuleList?
    ensures Exact(a + b)
  {
    hide Refs;
    forall x
      ensures Referenced(a + b, x) <==> Referenced(a, x) || Referenced(b, x)
    {
      if Referenced(a, x) {
        var k :| k in a && x in Refs(a[k]);
        assert NoRefs(a[k]) || (a + b)[k] == a[k];
      }
      if Referenced(b, x) {
        var k :| k in b && x in Refs(b[k]);
        assert (a + b)[k] == b[k];
      }
    }
  }

  predicate NoRefs(o: Obj)
    ensures NoRefs(o) ==> Refs(o) == {}
  {
    !o.RuleList?
  }

  lemma ItemExact(cfg: Config, t: Tenant, item: Item)
    requires ValidTenant(cfg, t) && GoodItem(cfg, t, item)
    ensures Exact(ItemObjs(cfg, item))
  {
    hide ItemList, ItemObjs, NewRules, RulesRefs, KeyKind, ValidTenant, ValidOwner, TenantForNamespace;
    var objs, key := ItemObjs(cfg, item), ListAttr(cfg, item.rule, item.exsvc);
    ItemObjsAre(cfg, t, item);
    forall a
      ensures Referenced(objs, a) <==> a in objs && objs[a].IsList()
    {
      ItemRefs(cfg, t, item, a);
      if ItemList(cfg, item, a) {
        assert a in Refs(objs[key]);
      }
    }
  }

  lemma ItemListKey(cfg: Config, t: Tenant, item: Item)
    requires ValidTenant(cfg, t) && GoodItem(cfg, t, item)
    ensures var key := ListAttr(cfg, item.rule, item.exsvc);
            && RuleListKey(cfg, key) && TypeOf(cfg, key) == item.rule.ty
            && Decode(cfg, key) == ItemId(item)
  {
    hide KeyKind, Decode, ListAttr, DestAttr, SrcAttr, PortAttr, Attr, ValidId, ValidTenant, ValidOwner,
         TenantForNamespace;
    ItemKinds(cfg, t, item);
    ItemAttrs(cfg, t, item);
  }

  lemma ItemRulesLocal(cfg: Config, t: Tenant, item: Item)
    requires ValidTenant(cfg, t) && GoodItem(cfg, t, item)
    ensures RulesLocal(cfg, t, ItemObjs(cfg, item))
  {
    hide ItemObjs, NewRules, RulesRefs, KeyKind, Decode, ListAttr, DestAttr, SrcAttr, PortAttr, RuleListKey, TypeOf,
         ValidTenant, ValidOwner, TenantForNamespace, OwnerOf;
    var objs, key := ItemObjs(cfg, item), ListAttr(cfg, item.rule, item.exsvc);
    ItemObjsAre(cfg, t, item);
    ItemListKey(cfg, t, item);
    NoSourcePorts(cfg, item, item.order);
    var group :| group in item.exsvc.destPorts;
    assert group in item.order;
    forall a | a in Refs(objs[key])
      ensures Belongs(ItemId(item), Decode(cfg, a))
    {
      ItemRefs(cfg, t, item, a);
      ItemKinds(cfg, t, item);
    }
  }

  lemma {:induction false} NoSourcePorts(cfg: Config, item: Item, order: seq<string>)
    requires ItemReady(cfg, item) && forall key :: key in order ==> key in item.exsvc.destPorts
    ensures |NewRules(cfg, item.rule, item.exsvc, order)| == |order|
    ensures forall r :: r in NewRules(cfg, item.rule, item.exsvc, order) ==> r.source.portLists == []
  {
    if order != [] {
      NoSourcePorts(cfg, item, order[..|order| - 1]);
    }
  }

  /** The names of the items' rule lists. */
  predicate ItemKey(cfg: Config, items: seq<Item>, k: string) {
    exists i :: 0 <= i < |items| && k == Attr(cfg, ItemId(items[i]))
  }

  /** The rule lists are deny-all's and the items'. */
  ghost predicate Inventory(cfg: Config, items: seq<Item>, app: App) {
    forall k :: (k in app && app[k].RuleList?) <==> (k == DenyAllAttr(cfg) || ItemKey(cfg, items, k))
  }

  /** The policies are those of the default application. */
  predicate DefaultPolicies(cfg: Config, t: Tenant, app: App) {
    forall ty :: ty in Types(t) ==>
      Lookup(app, PolicyKey(cfg, t, ty))
        == Some(Policy(if ty == SVC then [PartitionPath(t.name, DenyAllAttr(cfg))] else []))
  }

  ghost predicate Sound(cfg: Config, t: Tenant, app: App) {
    Typed(cfg, t, app) && Exact(app) && RulesLocal(cfg, t, app) && Lookup(app, DenyAllAttr(cfg)) == Some(DENY_ALL_LIST)
  }

  /** What holds after the objects of some items were laid over the default application. */
  ghost predicate Assembled(cfg: Config, t: Tenant, items: seq<Item>, app: App) {
    Sound(cfg, t, app) && Inventory(cfg, items, app) && DefaultPolicies(cfg, t, app)
  }

  lemma AssembledNothing(cfg: Config, t: Tenant)
    requires ValidTenant(cfg, t)
    ensures Assembled(cfg, t, [], DefaultApp(cfg, t.name, t))
  {
    hide KeyKind, DefaultApp, RulesLocal, PolicyExact, PartitionPath, PolicyKey, DenyAllAttr, Attr;
    DefaultWellFormed(cfg, t);
    DefaultValues(cfg, t);
  }

  lemma PrefixGood(cfg: Config, t: Tenant, items: seq<Item>, n: nat)
    requires GoodItems(cfg, t, items) && n <= |items|
    ensures GoodItems(cfg, t, items[..n]) && AllReady(cfg, items)
  {
    hide GoodItem, ItemId, ItemReady;
    forall i | 0 <= i < |items|
      ensures ItemReady(cfg, items[i])
    {
      GoodItemReady(cfg, t, items[i]);
    }
  }

  lemma GoodItemReady(cfg: Config, t: Tenant, item: Item)
    requires GoodItem(cfg, t, item)
    ensures ItemReady(cfg, item)
  {
  }

  /** The name of one item's rule list is taken by no other item, nor by deny-all. */
  lemma ItemKeyIsNew(cfg: Config, t: Tenant, items: seq<Item>, n: nat)
    requires ValidTenant(cfg, t) && GoodItems(cfg, t, items) && n < |items|
    ensures var key := Attr(cfg, ItemId(items[n]));
            key != DenyAllAttr(cfg) && !ItemKey(cfg, items[..n], key)
  {
    hide GoodItem, Attr, Decode, ItemId, Canonical;
    ItemIdValid(cfg, t, items[n]);
    DenyDistinct(cfg, ItemId(items[n]));
    forall i | 0 <= i < n
      ensures Attr(cfg, ItemId(items[i])) != Attr(cfg, ItemId(items[n]))
    {
      ItemIdValid(cfg, t, items[i]);
      AttrInjective(cfg, ItemId(items[i]), ItemId(items[n]));
    }
  }

  lemma ItemIdValid(cfg: Config, t: Tenant, item: Item)
    requires GoodItem(cfg, t, item)
    ensures ValidId(ItemId(item)) && ItemId(item).RuleListId? && Canonical(cfg, ItemId(item)) == ItemId(item)
  {
  }

  lemma DenyDistinct(cfg: Config, id: Id)
    requires ClusterNames(cfg) && ValidId(id) && id.RuleListId?
    ensures Attr(cfg, id) != DenyAllAttr(cfg)
  {
    AttrInjective(cfg, id, DenyAllId);
  }

  lemma SoundStep(cfg: Config, t: Tenant, item: Item, app: App)
    requires ValidTenant(cfg, t) && GoodItem(cfg, t, item) && Sound(cfg, t, app)
    requires var key := ListAttr(cfg, item.rule, item.exsvc); key !in app && key != DenyAllAttr(cfg)
    ensures Sound(cfg, t, app + ItemObjs(cfg, item))
  {
    hide ItemObjs, NewRules, KeyKind, ItemList, ListAttr, ValidTenant, DenyAllAttr, ValidOwner, TenantForNamespace,
         Exact, RulesLocal;
    var objs := ItemObjs(cfg, item);
    ItemObjsAre(cfg, t, item);
    ItemExact(cfg, t, item);
    ItemRulesLocal(cfg, t, item);
    TypedAgree(cfg, t, app, objs);
    UnionExact(app, objs);
    UnionLocal(cfg, t, app, objs);
    assert DenyAllAttr(cfg) !in objs;
  }

  lemma InventoryStep(cfg: Config, items: seq<Item>, item: Item, app: App, objs: App)
    requires Inventory(cfg, items, app) && KindsAgree(app, objs)
    requires forall k :: (k in objs && objs[k].RuleList?) <==> k == Attr(cfg, ItemId(item))
    ensures Inventory(cfg, items + [item], app + objs)
  {
    hide DenyAllAttr, Attr, ItemId;
    var more := items + [item];
    forall k
      ensures ItemKey(cfg, more, k) <==> ItemKey(cfg, items, k) || k == Attr(cfg, ItemId(item))
    {
      assert more[|items|] == item;
      if ItemKey(cfg, items, k) {
        var i :| 0 <= i < |items| && k == Attr(cfg, ItemId(items[i]));
        assert more[i] == items[i];
      }
    }
    hide ItemKey;
  }

  lemma AssembledStep(cfg: Config, t: Tenant, items: seq<Item>, item: Item, app: App)
    requires ValidTenant(cfg, t) && GoodItem(cfg, t, item) && Assembled(cfg, t, items, app)
    requires Attr(cfg, ItemId(item)) != DenyAllAttr(cfg) && !ItemKey(cfg, items, Attr(cfg, ItemId(item)))
    ensures Assembled(cfg, t, items + [item], app + ItemObjs(cfg, item))
  {
    hide ItemObjs, NewRules, KeyKind, ItemList, ListAttr, ValidTenant, DenyAllAttr, ValidOwner, TenantForNamespace,
         Exact, RulesLocal,
         Attr, ItemId, ItemKey, PolicyKey, PartitionPath;
    var objs, key := ItemObjs(cfg, item), ListAttr(cfg, item.rule, item.exsvc);
    ItemAttrs(cfg, t, item);
    ItemObjsAre(cfg, t, item);
    TypedAgree(cfg, t, app, objs);
    KeyNotTaken(cfg, t, items, app, objs, key);
    SoundStep(cfg, t, item, app);
    InventoryStep(cfg, items, item, app, objs);
    NoPolicyKey(cfg, t, objs);
  }

  lemma KeyNotTaken(cfg: Config, t: Tenant, items: seq<Item>, app: App, objs: App, key: string)
    requires Inventory(cfg, items, app) && KindsAgree(app, objs)
    requires key in objs && objs[key].RuleList? && key != DenyAllAttr(cfg) && !ItemKey(cfg, items, key)
    ensures key !in app
  {
  }

  lemma UnionLocal(cfg: Config, t: Tenant, a: App, b: App)
    requires RulesLocal(cfg, t, a) && RulesLocal(cfg, t, b)
    ensures RulesLocal(cfg, t, a + b)
  {
    hide Refs, RuleListKey, TypeOf, Decode;
    assert forall k :: k in a && a[k].RuleList? ==> RuleListKey(cfg, k);
    assert forall k :: k in b && b[k].RuleList? ==> RuleListKey(cfg, k);
  }

  lemma NoPolicyKey(cfg: Config, t: Tenant, objs: App)
    requires ValidTenant(cfg, t) && Typed(cfg, t, objs) && forall k :: k in objs ==> !objs[k].Policy?
    ensures forall ty :: ty in Types(t) ==> PolicyKey(cfg, t, ty) !in objs
  {
    hide KeyKind, PolicyKey, Decode;
    forall ty | ty in Types(t)
      ensures PolicyKey(cfg, t, ty) !in objs
    {
      PolicyKeyKind(cfg, t, ty);
    }
  }

  lemma {:induction false} GeneratedIsAssembled(cfg: Config, t: Tenant, items: seq<Item>)
    requires ValidTenant(cfg, t) && GoodItems(cfg, t, items) && AllReady(cfg, items)
    ensures Assembled(cfg, t, items, Generated(cfg, DefaultApp(cfg, t.name, t), items))
  {
    hide Assembled, ItemObjs, DefaultApp, GoodItem, ItemReady, ValidTenant, Attr, DenyAllAttr, ItemId;
    if items == [] {
      AssembledNothing(cfg, t);
    } else {
      var n := |items| - 1;
      PrefixGood(cfg, t, items, n);
      GeneratedIsAssembled(cfg, t, items[..n]);
      ItemKeyIsNew(cfg, t, items, n);
      AssembledStep(cfg, t, items[..n], items[n], Generated(cfg, DefaultApp(cfg, t.name, t), items[..n]));
      assert items[..n] + [items[n]] == items;
    }
  }

  // ----- policies -----

  lemma PathOfItem(cfg: Config, t: Tenant, item: Item)
    requires ValidTenant(cfg, t) && GoodItem(cfg, t, item)
    ensures EntryPath(cfg, item) == ItemPath(cfg, t, item)
    ensures Origin(ItemPath(cfg, t, item)) == Attr(cfg, ItemId(item))
    ensures ItemPath(cfg, t, item) != PartitionPath(t.name, DenyAllAttr(cfg))
  {
    hide Attr, ItemId, PartitionPath, Origin, UsePath, ListAttr, DenyAllAttr, ValidOwner, TenantForNamespace, Decode;
    ItemAttrs(cfg, t, item);
    ItemSlashFree(cfg, t, item);
    UsePathIs(cfg, t, item, ListAttr(cfg, item.rule, item.exsvc));
    DenyKey(cfg, t);
    ItemIdValid(cfg, t, item);
    DenyDistinct(cfg, ItemId(item));
  }

  /** Different items have different paths. */
  lemma PathsDiffer(cfg: Config, t: Tenant, items: seq<Item>, i: nat, j: nat)
    requires ValidTenant(cfg, t) && GoodItems(cfg, t, items) && i < |items| && j < |items|
    ensures ItemPath(cfg, t, items[i]) == ItemPath(cfg, t, items[j]) ==> i == j
  {
    hide Attr, ItemId, GoodItem, Decode, Origin, PartitionPath, ItemPath, Canonical;
    PathOfItem(cfg, t, items[i]);
    PathOfItem(cfg, t, items[j]);
    ItemIdValid(cfg, t, items[i]);
    ItemIdValid(cfg, t, items[j]);
    AttrInjective(cfg, ItemId(items[i]), ItemId(items[j]));
  }

  /** The path is that of an item in one group. */
  predicate InGroup(cfg: Config, t: Tenant, items: seq<Item>, group: string, u: string) {
    exists i :: 0 <= i < |items| && GroupKey(items[i].rule) == group && u == ItemPath(cfg, t, items[i])
  }

  lemma {:induction false} GroupUsesAre(cfg: Config, t: Tenant, items: seq<Item>, group: string)
    requires ValidTenant(cfg, t) && GoodItems(cfg, t, items) && AllReady(cfg, items)
    ensures forall u :: u in GroupUses(cfg, items, group) <==> InGroup(cfg, t, items, group, u)
    ensures NoDuplicates(GroupUses(cfg, items, group))
  {
    hide GoodItem, ItemReady, ItemId, ItemPath, EntryPath, GroupKey, ValidTenant;
    if items != [] {
      var n := |items| - 1;
      PrefixGood(cfg, t, items, n);
      GroupUsesAre(cfg, t, items[..n], group);
      PathOfItem(cfg, t, items[n]);
      var rest := GroupUses(cfg, items[..n], group);
      forall u
        ensures InGroup(cfg, t, items, group, u)
            <==> (InGroup(cfg, t, items[..n], group, u)
                  || (GroupKey(items[n].rule) == group && u == ItemPath(cfg, t, items[n])))
      {
        InGroupStep(cfg, t, items, group, u);
      }
      assert ItemPath(cfg, t, items[n]) !in rest by {
        if InGroup(cfg, t, items[..n], group, ItemPath(cfg, t, items[n])) {
          var i :| 0 <= i < n && GroupKey(items[..n][i].rule) == group
            && ItemPath(cfg, t, items[n]) == ItemPath(cfg, t, items[..n][i]);
          PathsDiffer(cfg, t, items, i, n);
        }
      }
    }
  }

  lemma InGroupStep(cfg: Config, t: Tenant, items: seq<Item>, group: string, u: string)
    requires items != []
    ensures var n := |items| - 1;
            InGroup(cfg, t, items, group, u)
            <==> (InGroup(cfg, t, items[..n], group, u)
                  || (GroupKey(items[n].rule) == group && u == ItemPath(cfg, t, items[n])))
  {
    hide ItemPath, GroupKey;
    var n := |items| - 1;
    if InGroup(cfg, t, items[..n], group, u) {
      var i :| 0 <= i < n && GroupKey(items[..n][i].rule) == group && u == ItemPath(cfg, t, items[..n][i]);
      assert items[i] == items[..n][i];
    }
    if InGroup(cfg, t, items, group, u) {
      var i :| 0 <= i < |items| && GroupKey(items[i].rule) == group && u == ItemPath(cfg, t, items[i]);
      assert i < n ==> items[..n][i] == items[i];
    }
  }

  lemma NoBar(ty: string)
    requires ty in {GLOBAL, NS, SVC}
    ensures '|' !in ty
  {
  }

  /** A group's name gives back its type and namespace, and its policy is the tenant's of that type. */
  lemma GroupPolicy(cfg: Config, t: Tenant, item: Item)
    requires ValidTenant(cfg, t) && TenantForPartition(cfg, t.name) == Some(t) && GoodItem(cfg, t, item)
    ensures Split(GroupKey(item.rule), '|') == [item.rule.ty, item.rule.namespace]
    ensures GroupTenant(cfg, GroupKey(item.rule)) == Some(t)
  {
    hide ItemReady, TenantForNamespace, TenantForPartition, ValidTenant;
    var r := item.rule;
    NoBar(r.ty);
    SplitHead(r.ty, r.namespace, '|');
    SplitPlain(r.namespace, '|');
    assert GroupKey(r) == r.ty + ['|'] + r.namespace;
    hide Split, GroupKey;
  }

  /** The path is that of an item of the type, in one of the groups visited so far. */
  predicate Visited(cfg: Config, t: Tenant, items: seq<Item>, order: seq<string>, ty: string, u: string) {
    exists i :: 0 <= i < |items| && items[i].rule.ty == ty && GroupKey(items[i].rule) in order
      && u == ItemPath(cfg, t, items[i])
  }

  /** A policy after some groups were put before its default entries. */
  ghost predicate PolicyGrown(cfg: Config, t: Tenant, items: seq<Item>, order: seq<string>, app: App, ty: string) {
    var uses, denyPath := Uses(cfg, t, app, ty), PartitionPath(t.name, DenyAllAttr(cfg));
    && Lookup(app, PolicyKey(cfg, t, ty)) == Some(Policy(uses))
    && NoDuplicates(uses)
    && (forall u :: u in uses <==> (ty == SVC && u == denyPath) || Visited(cfg, t, items, order, ty, u))
    && (ty == SVC ==> uses != [] && uses[|uses| - 1] == denyPath)
  }

  /** All else is as before. */
  ghost predicate SameButPolicies(cfg: Config, t: Tenant, before: App, after: App) {
    forall k :: (forall ty :: ty in Types(t) ==> k != PolicyKey(cfg, t, ty)) ==> Lookup(after, k) == Lookup(before, k)
  }

  /** What one group adds to a policy of its type. */
  lemma GrowOwn(cfg: Config, t: Tenant, items: seq<Item>, order: seq<string>, app: App, item: Item)
    requires ValidTenant(cfg, t) && TenantForPartition(cfg, t.name) == Some(t)
    requires GoodItems(cfg, t, items) && AllReady(cfg, items) && item in items
    requires GroupKey(item.rule) !in order && PolicyGrown(cfg, t, items, order, app, item.rule.ty)
    ensures var g := GroupKey(item.rule);
            PolicyGrown(cfg, t, items, order + [g], app[PolicyKey(cfg, t, item.rule.ty) :=
              Policy(GroupUses(cfg, items, g) + Uses(cfg, t, app, item.rule.ty))], item.rule.ty)
  {
    hide GoodItem, GroupKey, ItemPath, PolicyKey, PartitionPath, DenyAllAttr, Split, GroupUses, AllReady, ItemId,
         TenantForPartition;
    var g, ty := GroupKey(item.rule), item.rule.ty;
    var listed, added := Uses(cfg, t, app, ty), GroupUses(cfg, items, g);
    GroupUsesAre(cfg, t, items, g);
    forall u | u in added
      ensures u !in listed
    {
      AddedIsNew(cfg, t, items, order, ty, g, u);
    }
    NoDuplicatesConcat(added, listed);
    forall u
      ensures Visited(cfg, t, items, order + [g], ty, u)
              <==> Visited(cfg, t, items, order, ty, u) || InGroup(cfg, t, items, g, u)
    {
      VisitedStep(cfg, t, items, order, item, ty, u);
    }
    hide Visited, InGroup;
    assert forall u :: u in added + listed <==> u in added || u in listed;
  }

  lemma AddedIsNew(cfg: Config, t: Tenant, items: seq<Item>, order: seq<string>, ty: string, g: string, u: string)
    requires ValidTenant(cfg, t) && GoodItems(cfg, t, items) && g !in order && InGroup(cfg, t, items, g, u)
    ensures !Visited(cfg, t, items, order, ty, u) && u != PartitionPath(t.name, DenyAllAttr(cfg))
  {
    hide GoodItem, GroupKey, ItemPath, PartitionPath, DenyAllAttr, ItemId, ValidTenant;
    var i :| 0 <= i < |items| && GroupKey(items[i].rule) == g && u == ItemPath(cfg, t, items[i]);
    PathOfItem(cfg, t, items[i]);
    if Visited(cfg, t, items, order, ty, u) {
      var j :| 0 <= j < |items| && items[j].rule.ty == ty && GroupKey(items[j].rule) in order
        && u == ItemPath(cfg, t, items[j]);
      PathsDiffer(cfg, t, items, i, j);
    }
  }

  lemma VisitedStep(cfg: Config, t: Tenant, items: seq<Item>, order: seq<string>, item: Item, ty: string, u: string)
    requires ValidTenant(cfg, t) && TenantForPartition(cfg, t.name) == Some(t) && GoodItems(cfg, t, items)
             && item in items
    ensures var g := GroupKey(item.rule);
            Visited(cfg, t, items, order + [g], ty, u)
            <==> Visited(cfg, t, items, order, ty, u) || (ty == item.rule.ty && InGroup(cfg, t, items, g, u))
  {
    hide GoodItem, GroupKey, ItemPath, ItemId, ValidTenant, Split, TenantForPartition, GroupTenant;
    var g := GroupKey(item.rule);
    forall i | 0 <= i < |items| && GroupKey(items[i].rule) == g
      ensures items[i].rule.ty == item.rule.ty
    {
      GroupPolicy(cfg, t, items[i]);
      GroupPolicy(cfg, t, item);
    }
    assert forall h :: h in order + [g] <==> h in order || h == g;
  }

  /** Each group in turn goes before the entries of its policy and leaves the others alone. */
  lemma {:induction false} AllGroupsGrown(cfg: Config, t: Tenant, items: seq<Item>, order: seq<string>, app: App)
    requires ValidTenant(cfg, t) && TenantForPartition(cfg, t.name) == Some(t)
    requires GoodItems(cfg, t, items) && AllReady(cfg, items) && GroupNames(order)
    requires NoDuplicates(order) && forall g :: g in order ==> g in GroupKeys(items)
    requires DefaultPolicies(cfg, t, app)
    ensures var grown := PrependAll(cfg, app, items, order);
            && SameButPolicies(cfg, t, app, grown)
            && forall ty :: ty in Types(t) ==> PolicyGrown(cfg, t, items, order, grown, ty)
  {
    hide GoodItem, ItemPath, PolicyKey, PartitionPath, DenyAllAttr, Split, GroupUses, AllReady, ItemId,
         TenantForPartition,
         GroupTenant, PrependGroup, ValidTenant, GroupKey, Types;
    if order == [] {
      forall ty | ty in Types(t)
        ensures PolicyGrown(cfg, t, items, order, app, ty)
      {
        assert Uses(cfg, t, app, ty) == if ty == SVC then [PartitionPath(t.name, DenyAllAttr(cfg))] else [];
      }
    } else {
      var n := |order| - 1;
      var g := order[n];
      assert order == order[..n] + [g] && g in order;
      AllGroupsGrown(cfg, t, items, order[..n], app);
      var i :| 0 <= i < |items| && GroupKey(items[i].rule) == g;
      GrowStep(cfg, t, items, order[..n], app, PrependAll(cfg, app, items, order[..n]), items[i]);
    }
  }

  lemma GrowStep(cfg: Config, t: Tenant, items: seq<Item>, order: seq<string>, base: App, app: App, item: Item)
    requires ValidTenant(cfg, t) && TenantForPartition(cfg, t.name) == Some(t)
    requires GoodItems(cfg, t, items) && AllReady(cfg, items) && item in items
    requires GroupKey(item.rule) !in order && SameButPolicies(cfg, t, base, app)
             && |Split(GroupKey(item.rule), '|')| >= 2
    requires forall ty :: ty in Types(t) ==> PolicyGrown(cfg, t, items, order, app, ty)
    ensures var g := GroupKey(item.rule);
            var grown := PrependGroup(cfg, app, g, GroupUses(cfg, items, g));
            && SameButPolicies(cfg, t, base, grown)
            && forall ty :: ty in Types(t) ==> PolicyGrown(cfg, t, items, order + [g], grown, ty)
  {
    hide ItemPath, PartitionPath, DenyAllAttr, Split, GroupUses, AllReady, ItemId, TenantForPartition, PolicyAttr,
         GroupTenant, ValidTenant, GroupKey, Visited, ItemReady, ValidOwner, TenantForNamespace, Types;
    var g := GroupKey(item.rule);
    GroupPolicy(cfg, t, item);
    DefaultKeys(cfg, t);
    assert item.rule.ty in Types(t);
    GrowOwn(cfg, t, items, order, app, item);
    hide GoodItem;
    var grown := PrependGroup(cfg, app, g, GroupUses(cfg, items, g));
    forall ty | ty in Types(t) && ty != item.rule.ty
      ensures PolicyGrown(cfg, t, items, order + [g], grown, ty)
    {
      assert Lookup(grown, PolicyKey(cfg, t, ty)) == Lookup(app, PolicyKey(cfg, t, ty));
      GrowOther(cfg, t, items, order, app, grown, item, ty);
    }
  }

  /** A group leaves the policies of other types alone. */
  lemma GrowOther(cfg: Config, t: Tenant, items: seq<Item>, order: seq<string>, app: App, grown: App, item: Item,
                  ty: string)
    requires ValidTenant(cfg, t) && TenantForPartition(cfg, t.name) == Some(t) && GoodItems(cfg, t, items)
    requires ty != item.rule.ty && item in items && PolicyGrown(cfg, t, items, order, app, ty)
    requires Lookup(grown, PolicyKey(cfg, t, ty)) == Lookup(app, PolicyKey(cfg, t, ty))
    ensures PolicyGrown(cfg, t, items, order + [GroupKey(item.rule)], grown, ty)
  {
    hide GroupKey, Visited, PartitionPath, DenyAllAttr, PolicyKey, ValidTenant, TenantForPartition, GoodItems;
    forall u
      ensures Visited(cfg, t, items, order + [GroupKey(item.rule)], ty, u) <==> Visited(cfg, t, items, order, ty, u)
    {
      VisitedStep(cfg, t, items, order, item, ty, u);
    }
    assert Uses(cfg, t, grown, ty) == Uses(cfg, t, app, ty);
  }

  // ----- the whole delta -----

  lemma AllVisited(cfg: Config, t: Tenant, items: seq<Item>, order: seq<string>, ty: string, i: nat)
    requires GroupOrder(items, order) && i < |items| && items[i].rule.ty == ty
    ensures Visited(cfg, t, items, order, ty, ItemPath(cfg, t, items[i]))
  {
    hide ItemPath, GroupKey;
    assert GroupKey(items[i].rule) in GroupKeys(items);
  }

  lemma ItemType(cfg: Config, t: Tenant, item: Item)
    requires ValidTenant(cfg, t) && GoodItem(cfg, t, item)
    ensures TypeOf(cfg, Attr(cfg, ItemId(item))) == item.rule.ty
  {
    hide Attr, Decode;
    ItemIdValid(cfg, t, item);
    DecodeAttr(cfg, ItemId(item));
  }

  lemma GrownPolicyExact(cfg: Config, t: Tenant, items: seq<Item>, order: seq<string>, app: App, ty: string)
    requires ValidTenant(cfg, t) && GoodItems(cfg, t, items) && GroupOrder(items, order) && ty in Types(t)
    requires Inventory(cfg, items, app) && PolicyGrown(cfg, t, items, order, app, ty)
    ensures PolicyExact(cfg, t, app, ty)
  {
    hide GoodItem, ItemPath, Attr, ItemId, DenyAllAttr, PartitionPath, Origin, TypeOf, PolicyKey, ValidTenant,
         GroupKey, Types;
    var deny := DenyAllAttr(cfg);
    DenyKey(cfg, t);
    forall u | u in Uses(cfg, t, app, ty)
      ensures u == PartitionPath(t.name, Origin(u)) && Origin(u) in app && app[Origin(u)].RuleList?
              && TypeOf(cfg, Origin(u)) == ty
    {
      if Visited(cfg, t, items, order, ty, u) {
        var i :| 0 <= i < |items| && items[i].rule.ty == ty && GroupKey(items[i].rule) in order
          && u == ItemPath(cfg, t, items[i]);
        PathOfItem(cfg, t, items[i]);
        ItemType(cfg, t, items[i]);
        assert ItemKey(cfg, items, Attr(cfg, ItemId(items[i])));
        ItemPathIs(cfg, t, items[i]);
      }
    }
    forall k | k in app && app[k].RuleList? && TypeOf(cfg, k) == ty
      ensures PartitionPath(t.name, k) in Uses(cfg, t, app, ty)
    {
      if k != deny {
        var i :| 0 <= i < |items| && k == Attr(cfg, ItemId(items[i]));
        ItemType(cfg, t, items[i]);
        AllVisited(cfg, t, items, order, ty, i);
        ItemPathIs(cfg, t, items[i]);
      }
    }
  }

  lemma ItemPathIs(cfg: Config, t: Tenant, item: Item)
    ensures ItemPath(cfg, t, item) == PartitionPath(t.name, Attr(cfg, ItemId(item)))
  {
  }

  /** Changing policies into policies touches no rule list and no list. */
  lemma PoliciesOnly(cfg: Config, t: Tenant, items: seq<Item>, before: App, after: App)
    requires ValidTenant(cfg, t) && Assembled(cfg, t, items, before) && SameButPolicies(cfg, t, before, after)
    requires forall ty :: ty in Types(t) ==>
             Lookup(after, PolicyKey(cfg, t, ty)) == Some(Policy(Uses(cfg, t, after, ty)))
    ensures Sound(cfg, t, after) && Inventory(cfg, items, after)
  {
    hide KeyKind, PolicyKey, DenyAllAttr, ItemKey, Uses, RulesRefs, PartitionPath, Types;
    DefaultKeys(cfg, t);
    forall k
      ensures Lookup(before, k) == Lookup(after, k)
           || (k in before && before[k].Policy? && k in after && after[k].Policy? && KeyKind(cfg, t, k) == PolicyKind)
    {
      if exists ty :: ty in Types(t) && k == PolicyKey(cfg, t, ty) {
        var ty :| ty in Types(t) && k == PolicyKey(cfg, t, ty);
        assert Lookup(before, k).Some? && Lookup(after, k).Some?;
      }
    }
    SameRules(cfg, t, items, before, after);
  }

  lemma SameRules(cfg: Config, t: Tenant, items: seq<Item>, before: App, after: App)
    requires Sound(cfg, t, before) && Inventory(cfg, items, before)
    requires forall k :: (Lookup(before, k) == Lookup(after, k)
                          || (k in before && before[k].Policy? && k in after && after[k].Policy?
                               && KeyKind(cfg, t, k) == PolicyKind))
    ensures Sound(cfg, t, after) && Inventory(cfg, items, after)
  {
    hide KeyKind, DenyAllAttr, ItemKey, RulesRefs, RulesLocal;
    forall k
      ensures k in before && !before[k].Policy? ==> k in after && after[k] == before[k]
      ensures k in after && !after[k].Policy? ==> k in before && before[k] == after[k]
    {
      assert Lookup(before, k) == Lookup(after, k)
             || (k in before && before[k].Policy? && k in after && after[k].Policy?);
    }
    assert Lookup(before, DenyAllAttr(cfg)) == Some(DENY_ALL_LIST);
    forall a
      ensures Referenced(before, a) <==> Referenced(after, a)
    {
      if Referenced(before, a) {
        var k :| k in before && a in Refs(before[k]);
        assert k in after && after[k] == before[k];
      }
      if Referenced(after, a) {
        var k :| k in after && a in Refs(after[k]);
        assert k in before && after[k] == before[k];
      }
    }
    forall k | k in after
      ensures KindOf(after[k]) == KeyKind(cfg, t, k)
    {
      assert Lookup(before, k) == Lookup(after, k) || KeyKind(cfg, t, k) == PolicyKind;
    }
    SameLocal(cfg, t, before, after);
  }

  lemma SameLocal(cfg: Config, t: Tenant, before: App, after: App)
    requires RulesLocal(cfg, t, before)
    requires forall k :: k in after && !after[k].Policy? ==> k in before && before[k] == after[k]
    ensures RulesLocal(cfg, t, after)
  {
    hide RuleListKey, TypeOf, Decode, Refs;
    assert forall k :: k in before && before[k].RuleList? ==> RuleListKey(cfg, k);
  }

  lemma InfrastructureTyped(cfg: Config, t: Tenant)
    requires ValidTenant(cfg, t)
    ensures Typed(cfg, t, WithInfrastructure(cfg, t, map[])) && OnlyInfra(WithInfrastructure(cfg, t, map[]))
  {
    hide Decode, Attr, ValidId, GatewayPoolAttr, VirtualAddressAttr, VirtualServerAttr;
    FixedInfra(cfg, t);
  }

  lemma FixedInfra(cfg: Config, t: Tenant)
    requires ValidTenant(cfg, t)
    ensures KeyKind(cfg, t, GatewayPoolAttr(cfg)) == InfraKind
    ensures KeyKind(cfg, t, VirtualAddressAttr(cfg)) == InfraKind
    ensures KeyKind(cfg, t, VirtualServerAttr(cfg)) == InfraKind
  {
    hide KeyKind, Under, Join;
    FixedKinds(cfg, t, GatewayPoolId);
    FixedKinds(cfg, t, VirtualAddressId);
    FixedKinds(cfg, t, VirtualServerId);
  }

  predicate OnlyInfra(infra: App) {
    forall k :: k in infra ==> infra[k].Infra? || infra[k].LogObject?
  }

  lemma InfraKeys(cfg: Config, t: Tenant, infra: App)
    requires ValidTenant(cfg, t) && Typed(cfg, t, infra) && OnlyInfra(infra)
    ensures DenyAllAttr(cfg) !in infra && forall ty :: ty in Types(t) ==> PolicyKey(cfg, t, ty) !in infra
  {
    hide KeyKind, DenyAllAttr, PolicyKey, Types;
    DefaultKeys(cfg, t);
  }

  lemma OverInfraPolicy(cfg: Config, t: Tenant, app: App, infra: App, ty: string)
    requires PolicyExact(cfg, t, app, ty) && KindsAgree(app, infra) && OnlyInfra(infra)
             && PolicyKey(cfg, t, ty) !in infra
    ensures PolicyExact(cfg, t, app + infra, ty)
  {
    hide DenyAllAttr, TypeOf, PolicyKey, PartitionPath, Origin;
    assert Uses(cfg, t, app + infra, ty) == Uses(cfg, t, app, ty);
  }

  /** Infrastructure laid over a well-formed application leaves it well formed. */
  lemma OverInfrastructure(cfg: Config, t: Tenant, app: App, infra: App)
    requires ValidTenant(cfg, t) && WellFormed(cfg, t, app) && Typed(cfg, t, infra) && OnlyInfra(infra)
    ensures WellFormed(cfg, t, app + infra)
  {
    hide KeyKind, DenyAllAttr, RulesRefs, RulesLocal, PolicyExact, PolicyKey, Types, ValidTenant;
    TypedAgree(cfg, t, app, infra);
    InfraKeys(cfg, t, infra);
    assert Exact(infra);
    UnionExact(app, infra);
    forall ty | ty in Types(t) { OverInfraPolicy(cfg, t, app, infra, ty); }
    assert RulesLocal(cfg, t, infra) by { NoRulesLocal(cfg, t, infra); }
    UnionLocal(cfg, t, app, infra);
  }

  lemma NoRulesLocal(cfg: Config, t: Tenant, infra: App)
    requires OnlyInfra(infra)
    ensures RulesLocal(cfg, t, infra)
  {
  }

  /** Every generated delta is well formed, whatever order ports and groups were visited in. */
  lemma DeltaWellFormed(cfg: Config, t: Tenant, items: seq<Item>, order: seq<string>)
    requires ValidTenant(cfg, t) && TenantForPartition(cfg, t.name) == Some(t)
    requires GoodItems(cfg, t, items) && AllReady(cfg, items) && GroupOrder(items, order)
    ensures WellFormed(cfg, t, Delta(cfg, t, items, order))
  {
    hide GoodItem, AllReady, KeyKind, DenyAllAttr, RulesLocal, PolicyExact, Exact, Inventory, DefaultApp, PrependAll,
         PolicyKey, PartitionPath, SameButPolicies, Types, Visited, GroupKeys, ValidTenant, Generated, Uses,
         WithInfrastructure, TenantForPartition, GroupNames, NoDuplicates;
    var generated := Generated(cfg, DefaultApp(cfg, t.name, t), items);
    GeneratedIsAssembled(cfg, t, items);
    AllGroupsGrown(cfg, t, items, order, generated);
    var grown := PrependAll(cfg, generated, items, order);
    PoliciesOnly(cfg, t, items, generated, grown);
    forall ty | ty in Types(t)
      ensures PolicyExact(cfg, t, grown, ty)
    {
      GrownPolicyExact(cfg, t, items, order, grown, ty);
    }
    InfrastructureTyped(cfg, t);
    OverInfrastructure(cfg, t, grown, WithInfrastructure(cfg, t, map[]));
    OverInfra(cfg, t, grown);
  }

  lemma OverInfra(cfg: Config, t: Tenant, app: App)
    ensures WithInfrastructure(cfg, t, app) == app + WithInfrastructure(cfg, t, map[])
  {
    hide GatewayPoolAttr, VirtualAddressAttr, VirtualServerAttr, LogDecl;
  }
}
