/** What the run theorems mean for rules: independence, coverage, and what an incomplete delete breaks. */
module Guarantees {
  import opened Model
  import opened Text
  import opened Naming
  import opened PolicyMerge
  import opened Engine
  import opened EngineLaws
  import opened States
  import opened Runs
  import opened Exchange
  import opened Generate
  import opened Deltas

  /** A delta as the generator makes it for tenant `t`. */
  ghost predicate GeneratedDelta(cfg: Config, t: Tenant, items: seq<Item>, order: seq<string>) {
    && ValidTenant(cfg, t) && TenantForPartition(cfg, t.name) == Some(t)
    && GoodItems(cfg, t, items) && AllReady(cfg, items) && GroupOrder(items, order)
  }

  // ----- what a delta holds -----

  /** Between the objects of the items and the delta, only policies and infrastructure are written. */
  lemma DeltaObjects(cfg: Config, t: Tenant, items: seq<Item>, order: seq<string>, k: string)
    requires GeneratedDelta(cfg, t, items, order)
    requires KeyKind(cfg, t, k) in {RuleListKind, AddressKind, PortKind}
    ensures Lookup(Delta(cfg, t, items, order), k) == Lookup(Generated(cfg, DefaultApp(cfg, t.name, t), items), k)
  {
    hide GoodItem, AllReady, KeyKind, DenyAllAttr, DefaultApp, PrependAll, PolicyKey, PartitionPath, Types, ValidTenant,
         Generated, PolicyGrown, Sound, Inventory, ItemId, GroupKeys, TenantForPartition, WithInfrastructure;
    var generated := Generated(cfg, DefaultApp(cfg, t.name, t), items);
    GeneratedIsAssembled(cfg, t, items);
    AllGroupsGrown(cfg, t, items, order, generated);
    var grown := PrependAll(cfg, generated, items, order);
    InfrastructureTyped(cfg, t);
    DefaultKeys(cfg, t);
    var infra := WithInfrastructure(cfg, t, map[]);
    OverInfra(cfg, t, grown);
    assert k !in infra;
    assert forall ty :: ty in Types(t) ==> k != PolicyKey(cfg, t, ty);
  }

  /** The rule lists of a delta are deny-all's and one for each external service of each rule. */
  lemma DeltaRuleLists(cfg: Config, t: Tenant, items: seq<Item>, order: seq<string>, k: string)
    requires GeneratedDelta(cfg, t, items, order)
    ensures var delta := Delta(cfg, t, items, order);
            (k in delta && delta[k].RuleList?) <==> (k == DenyAllAttr(cfg) || ItemKey(cfg, items, k))
  {
    hide GoodItem, AllReady, KeyKind, DenyAllAttr, DefaultApp, ItemId, Generated, Delta, Visits, ItemKey;
    var delta, generated := Delta(cfg, t, items, order), Generated(cfg, DefaultApp(cfg, t.name, t), items);
    GeneratedIsAssembled(cfg, t, items);
    DeltaWellFormed(cfg, t, items, order);
    if k in delta && delta[k].RuleList? {
      assert KeyKind(cfg, t, k) == RuleListKind;
      DeltaObjects(cfg, t, items, order, k);
    }
    if k in generated && generated[k].RuleList? {
      assert KeyKind(cfg, t, k) == RuleListKind;
      DeltaObjects(cfg, t, items, order, k);
    }
  }

  lemma {:induction false} GeneratedRules(cfg: Config, t: Tenant, items: seq<Item>, i: nat)
    requires ValidTenant(cfg, t) && GoodItems(cfg, t, items) && AllReady(cfg, items) && i < |items|
    ensures Lookup(Generated(cfg, DefaultApp(cfg, t.name, t), items), Attr(cfg, ItemId(items[i])))
            == Some(RuleList(NewRules(cfg, items[i].rule, items[i].exsvc, items[i].order)))
  {
    hide GoodItem, ItemObjs, NewRules, DefaultApp, Attr, ItemId, ValidTenant, ItemReady, ItemKey;
    var n := |items| - 1;
    PrefixGood(cfg, t, items, n);
    GoodItemReady(cfg, t, items[n]);
    if i < n {
      GeneratedRules(cfg, t, items[..n], i);
      assert items[..n][i] == items[i];
      OthersApart(cfg, t, items, i, n);
    } else {
      OwnRules(cfg, t, items[n]);
    }
  }

  lemma OwnRules(cfg: Config, t: Tenant, item: Item)
    requires ValidTenant(cfg, t) && GoodItem(cfg, t, item)
    ensures Lookup(ItemObjs(cfg, item), Attr(cfg, ItemId(item)))
            == Some(RuleList(NewRules(cfg, item.rule, item.exsvc, item.order)))
  {
    hide ItemObjs, NewRules, Attr, ItemId, ValidTenant, KeyKind, ListAttr, DestAttr, SrcAttr, PortAttr, ItemList,
         ValidOwner, TenantForNamespace;
    ItemAttrs(cfg, t, item);
    ItemObjsAre(cfg, t, item);
  }

  /** No item writes the rule list of another. */
  lemma OthersApart(cfg: Config, t: Tenant, items: seq<Item>, i: nat, n: nat)
    requires ValidTenant(cfg, t) && GoodItems(cfg, t, items) && i < n < |items|
    requires ItemReady(cfg, items[n])
    ensures Attr(cfg, ItemId(items[i])) !in ItemObjs(cfg, items[n])
  {
    hide GoodItem, ItemReady, ItemObjs, NewRules, Attr, ItemId, ValidTenant, KeyKind, ListAttr, DestAttr, SrcAttr,
         PortAttr, ItemList;
    ItemAttrs(cfg, t, items[n]);
    ItemObjsAre(cfg, t, items[n]);
    ItemKeyKind(cfg, t, items[i]);
    TypedRuleList(cfg, t, ItemObjs(cfg, items[n]), Attr(cfg, ItemId(items[i])));
    ItemKeyIsNew(cfg, t, items, n);
    assert items[..n][i] == items[i];
    assert ItemKey(cfg, items[..n], Attr(cfg, ItemId(items[i])));
  }

  /** A rule list of a delta holds one rule for each port group of its external service. */
  lemma DeltaRules(cfg: Config, t: Tenant, items: seq<Item>, order: seq<string>, i: nat)
    requires GeneratedDelta(cfg, t, items, order) && i < |items|
    ensures Lookup(Delta(cfg, t, items, order), Attr(cfg, ItemId(items[i])))
            == Some(RuleList(NewRules(cfg, items[i].rule, items[i].exsvc, items[i].order)))
  {
    hide GoodItem, NewRules, DefaultApp, Attr, ItemId, ValidTenant, KeyKind, ListAttr, DestAttr, SrcAttr, PortAttr,
         Generated, Delta, Visits;
    ItemAttrs(cfg, t, items[i]);
    ItemKinds(cfg, t, items[i]);
    GeneratedRules(cfg, t, items, i);
    DeltaObjects(cfg, t, items, order, Attr(cfg, ItemId(items[i])));
  }

  // ----- rules that have nothing to do with each other -----

  predicate DisjointOwners(items: seq<Item>, items': seq<Item>) {
    forall i, j :: 0 <= i < |items| && 0 <= j < |items'| ==> OwnerOf(items[i].rule) != OwnerOf(items'[j].rule)
  }

  /** Every rule-specific key of a delta names one of its rules. */
  lemma RuleSpecificOwner(cfg: Config, t: Tenant, items: seq<Item>, order: seq<string>, k: string) returns (i: nat)
    requires GeneratedDelta(cfg, t, items, order) && RuleSpecific(cfg, Delta(cfg, t, items, order), k)
    ensures i < |items| && Decode(cfg, k).OfRule() && Decode(cfg, k).owner == OwnerOf(items[i].rule)
  {
    hide GoodItem, Delta, Decode, DenyAllAttr, Visits, Attr, ItemId, KeyKind, PolicyExact, ValidTenant, RulesRefs,
         RuleListKey, TypeOf, OwnerOf;
    var delta := Delta(cfg, t, items, order);
    DeltaWellFormed(cfg, t, items, order);
    var j := k;
    if delta[k].IsList() {
      assert Referenced(delta, k);
      j :| j in delta && k in Refs(delta[j]);
    }
    assert j != DenyAllAttr(cfg) by {
      DenyRefersToNothing();
    }
    assert RuleListKey(cfg, j);
    DeltaRuleLists(cfg, t, items, order, j);
    i :| 0 <= i < |items| && j == Attr(cfg, ItemId(items[i]));
    DecodedItem(cfg, t, items[i]);
  }

  lemma DecodedItem(cfg: Config, t: Tenant, item: Item)
    requires ValidTenant(cfg, t) && GoodItem(cfg, t, item)
    ensures var id := Decode(cfg, Attr(cfg, ItemId(item))); id.RuleListId? && id.owner == OwnerOf(item.rule)
  {
    hide Attr, Decode;
    ItemIdValid(cfg, t, item);
    DecodeAttr(cfg, ItemId(item));
  }

  /** Deltas of different rules are independent: neither names an object of the other's rules. */
  lemma DifferentRules(cfg: Config, t: Tenant, items: seq<Item>, order: seq<string>, items': seq<Item>,
                       order': seq<string>)
    requires GeneratedDelta(cfg, t, items, order) && GeneratedDelta(cfg, t, items', order')
             && DisjointOwners(items, items')
    ensures Independent(cfg, Delta(cfg, t, items, order), Delta(cfg, t, items', order'))
  {
    hide GoodItem, Delta, Decode, DenyAllAttr, Visits, KeyKind, PolicyExact, RulesLocal, Exact, ValidTenant;
    var a, b := Delta(cfg, t, items, order), Delta(cfg, t, items', order');
    DeltaWellFormed(cfg, t, items, order);
    DeltaWellFormed(cfg, t, items', order');
    TypedAgree(cfg, t, a, b);
    forall k | RuleSpecific(cfg, a, k)
      ensures k !in b
    {
      var i := RuleSpecificOwner(cfg, t, items, order, k);
      if k in b {
        var j := RuleSpecificOwner(cfg, t, items', order', k);
      }
    }
  }

  /** Adding one rule and deleting another commute exactly; the deleted one must be covered. */
  lemma DifferentRulesCommute(cfg: Config, t: Tenant, src: App, items: seq<Item>, order: seq<string>, gone: seq<Item>,
                              goneOrder: seq<string>)
    requires GeneratedDelta(cfg, t, items, order) && GeneratedDelta(cfg, t, gone, goneOrder)
             && DisjointOwners(items, gone)
    requires WellFormed(cfg, t, src) && Covers(src, Delta(cfg, t, gone, goneOrder))
    ensures var added, deleted := Delta(cfg, t, items, order), Delta(cfg, t, gone, goneOrder);
            Next(cfg, t, false, Next(cfg, t, true, Some(src), deleted), added)
            == Next(cfg, t, true, Next(cfg, t, false, Some(src), added), deleted)
  {
    hide Delta, WellFormed, Covers, Next, Independent, DisjointOwners, GoodItems, Visits, AllReady;
    DifferentRules(cfg, t, items, order, gone, goneOrder);
    DeltaWellFormed(cfg, t, items, order);
    DeltaWellFormed(cfg, t, gone, goneOrder);
    AddDeleteCommutes(cfg, t, src, Delta(cfg, t, gone, goneOrder), Delta(cfg, t, items, order));
  }

  /** Items define rule lists and lists only. */
  lemma {:induction false} GeneratedElsewhere(cfg: Config, t: Tenant, items: seq<Item>, k: string)
    requires ValidTenant(cfg, t) && GoodItems(cfg, t, items) && AllReady(cfg, items)
    requires KeyKind(cfg, t, k) !in {RuleListKind, AddressKind, PortKind}
    ensures Lookup(Generated(cfg, DefaultApp(cfg, t.name, t), items), k) == Lookup(DefaultApp(cfg, t.name, t), k)
  {
    hide GoodItem, ItemObjs, DefaultApp, ValidTenant, KeyKind, NewRules, ListAttr, ItemList, ItemReady, ItemId;
    if items != [] {
      var n := |items| - 1;
      PrefixGood(cfg, t, items, n);
      GoodItemReady(cfg, t, items[n]);
      GeneratedElsewhere(cfg, t, items[..n], k);
      ItemObjsAre(cfg, t, items[n]);
    }
  }

  lemma GrownElsewhere(cfg: Config, t: Tenant, items: seq<Item>, order: seq<string>, k: string)
    requires GeneratedDelta(cfg, t, items, order)
    requires KeyKind(cfg, t, k) !in {RuleListKind, AddressKind, PortKind, PolicyKind}
    ensures Lookup(PrependAll(cfg, Generated(cfg, DefaultApp(cfg, t.name, t), items), items, order), k)
            == Lookup(DefaultApp(cfg, t.name, t), k)
  {
    hide GoodItem, AllReady, KeyKind, DenyAllAttr, DefaultApp, PrependAll, PolicyKey, PartitionPath, Types, ValidTenant,
         Generated, PolicyGrown, Sound, Inventory, ItemId, GroupKeys, TenantForPartition, GroupNames;
    GeneratedIsAssembled(cfg, t, items);
    AllGroupsGrown(cfg, t, items, order, Generated(cfg, DefaultApp(cfg, t.name, t), items));
    DefaultKeys(cfg, t);
    GeneratedElsewhere(cfg, t, items, k);
  }

  /** What a delta holds beside rules and policies depends on the configuration alone. */
  lemma DeltaElsewhere(cfg: Config, t: Tenant, items: seq<Item>, order: seq<string>, k: string)
    requires GeneratedDelta(cfg, t, items, order)
    requires KeyKind(cfg, t, k) !in {RuleListKind, AddressKind, PortKind, PolicyKind}
    ensures Lookup(Delta(cfg, t, items, order), k)
            == Lookup(WithInfrastructure(cfg, t, DefaultApp(cfg, t.name, t)), k)
  {
    hide GoodItems, AllReady, KeyKind, DefaultApp, PrependAll, Generated, WithInfrastructure, ValidTenant, Visits,
         TenantForPartition;
    GrownElsewhere(cfg, t, items, order, k);
    OverInfra(cfg, t, DefaultApp(cfg, t.name, t));
    OverInfra(cfg, t, PrependAll(cfg, Generated(cfg, DefaultApp(cfg, t.name, t), items), items, order));
  }

  /** A key that independent deltas share names deny-all, a policy or infrastructure. */
  lemma SharedKey(cfg: Config, t: Tenant, a: App, b: App, k: string)
    requires WellFormed(cfg, t, a) && WellFormed(cfg, t, b) && Independent(cfg, a, b)
    requires k in a && k in b && !a[k].Policy?
    ensures KeyKind(cfg, t, k) !in {RuleListKind, AddressKind, PortKind, PolicyKind} || a[k] == b[k]
  {
    hide KeyKind, DenyAllAttr, RulesLocal, PolicyExact, Exact;
    assert KindOf(a[k]) == KeyKind(cfg, t, k);
    assert !RuleSpecific(cfg, a, k);
  }

  /** Deltas of different rules ask for the same value wherever they share a key that is no policy. */
  lemma DifferentRulesAgree(cfg: Config, t: Tenant, items: seq<Item>, order: seq<string>, items': seq<Item>,
                            order': seq<string>)
    requires GeneratedDelta(cfg, t, items, order) && GeneratedDelta(cfg, t, items', order')
    requires DisjointOwners(items, items')
    ensures Consistent(Delta(cfg, t, items, order), Delta(cfg, t, items', order'))
  {
    hide GoodItems, Delta, ValidTenant, DefaultApp, KeyKind, DenyAllAttr, WithInfrastructure, Visits, AllReady,
         DisjointOwners, WellFormed, Independent, GroupNames;
    var a, b := Delta(cfg, t, items, order), Delta(cfg, t, items', order');
    DeltaWellFormed(cfg, t, items, order);
    DeltaWellFormed(cfg, t, items', order');
    DifferentRules(cfg, t, items, order, items', order');
    forall k | k in a && k in b && !a[k].Policy?
      ensures a[k] == b[k]
    {
      SharedKey(cfg, t, a, b, k);
      if a[k] != b[k] {
        DeltaElsewhere(cfg, t, items, order, k);
        DeltaElsewhere(cfg, t, items', order', k);
      }
    }
  }

  /** Adding different rules in either order gives the same application up to the order of policy entries. */
  lemma DifferentAddsCommute(cfg: Config, t: Tenant, src: App, items: seq<Item>, order: seq<string>, items': seq<Item>,
                             order': seq<string>)
    requires GeneratedDelta(cfg, t, items, order) && GeneratedDelta(cfg, t, items', order')
    requires DisjointOwners(items, items') && WellFormed(cfg, t, src)
    ensures var a, b := Delta(cfg, t, items, order), Delta(cfg, t, items', order');
            var ab := Next(cfg, t, false, Next(cfg, t, false, Some(src), a), b);
            var ba := Next(cfg, t, false, Next(cfg, t, false, Some(src), b), a);
            ab.Some? && ba.Some? && SameUpToOrder(ab.value, ba.value)
  {
    hide GoodItems, Delta, ValidTenant, WellFormed, Next, Visits, AllReady, SameUpToOrder, GroupNames, Consistent;
    DisjointBack(items, items');
    DifferentRulesAgree(cfg, t, items, order, items', order');
    DifferentRulesAgree(cfg, t, items', order', items, order);
    DeltaWellFormed(cfg, t, items, order);
    DeltaWellFormed(cfg, t, items', order');
    AddsCommuteUpToOrder(cfg, t, src, Delta(cfg, t, items, order), Delta(cfg, t, items', order'));
  }

  lemma DisjointBack(items: seq<Item>, items': seq<Item>)
    requires DisjointOwners(items, items')
    ensures DisjointOwners(items', items)
  {
    hide OwnerOf;
  }

  // ----- what a delete must carry -----

  /** Of each rule it names, the delta carries every rule list that the source has. */
  predicate WholeRules(cfg: Config, src: App, delta: App) {
    forall k, k' ::
      (k in src && src[k].RuleList? && k' in delta && delta[k'].RuleList?
       && Decode(cfg, k).RuleListId? && Decode(cfg, k').RuleListId? && Decode(cfg, k).owner == Decode(cfg, k').owner)
      ==> k in delta
  }

  /** A delete that names whole rules covers what it removes. */
  lemma WholeRulesCover(cfg: Config, t: Tenant, src: App, delta: App)
    requires WellFormed(cfg, t, src) && WellFormed(cfg, t, delta) && WholeRules(cfg, src, delta)
    ensures Covers(src, delta)
  {
    hide Decode, KeyKind, PolicyExact, RulesRefs, RuleListKey, TypeOf, DenyAllAttr;
    TypedAgree(cfg, t, src, delta);
    forall k, a | k in src && src[k].RuleList? && a in Refs(src[k]) && a in delta
      ensures k in delta
    {
      assert Referenced(src, a);
      assert delta[a].IsList();
      assert Referenced(delta, a);
      var k' :| k' in delta && a in Refs(delta[k']);
      assert RuleListKey(cfg, k) && RuleListKey(cfg, k');
    }
  }

  /** Whoever uses the source list of a deleted rule is deleted with it. */
  predicate SourcesCovered(cfg: Config, src: App, gone: seq<Item>) {
    forall k, g :: k in src && src[k].RuleList? && 0 <= g < |gone|
                   && SrcAttr(cfg, gone[g].rule) != "" && SrcAttr(cfg, gone[g].rule) in Refs(src[k])
      ==> ItemKey(cfg, gone, k)
  }

  /** The rule list that a list of a delta belongs to, if it is not a source list. */
  lemma ListUser(cfg: Config, t: Tenant, gone: seq<Item>, order: seq<string>, a: string) returns (g: nat)
    requires GeneratedDelta(cfg, t, gone, order) && Referenced(Delta(cfg, t, gone, order), a)
    ensures g < |gone| && ItemList(cfg, gone[g], a)
  {
    hide GoodItem, Delta, Decode, DenyAllAttr, Visits, Attr, ItemId, KeyKind, PolicyExact, ValidTenant, RulesRefs,
         RuleListKey, TypeOf, ItemList, NewRules;
    var delta := Delta(cfg, t, gone, order);
    var j :| j in delta && a in Refs(delta[j]);
    assert j != DenyAllAttr(cfg) by {
      DeltaWellFormed(cfg, t, gone, order);
      DenyRefersToNothing();
    }
    DeltaRuleLists(cfg, t, gone, order, j);
    g :| 0 <= g < |gone| && j == Attr(cfg, ItemId(gone[g]));
    DeltaRules(cfg, t, gone, order, g);
    ItemRefs(cfg, t, gone[g], a);
  }

  /** A source rule list that uses a list of a deleted item uses its source list, or is the item's own. */
  lemma UserIsCovered(cfg: Config, t: Tenant, src: App, gone: seq<Item>, g: nat, k: string, a: string)
    requires ValidTenant(cfg, t) && RulesLocal(cfg, t, src) && g < |gone| && GoodItem(cfg, t, gone[g])
    requires k in src && src[k].RuleList? && a in Refs(src[k]) && ItemList(cfg, gone[g], a)
    requires SourcesCovered(cfg, src, gone)
    ensures ItemKey(cfg, gone, k)
  {
    hide GoodItem, Decode, Attr, KeyKind, ValidTenant, SrcAttr, DestAttr, PortAttr, ListAttr, Refs, TypeOf;
    ItemKinds(cfg, t, gone[g]);
    assert RuleListKey(cfg, k);
    if a != SrcAttr(cfg, gone[g].rule) || a == "" {
      assert Decode(cfg, k) == ItemId(gone[g]);
    }
  }

  /**
   * Source lists belong to the rule, not to the external service: a delete leaves no reference dangling exactly when
   * it takes along all users of the source lists it removes.
   */
  lemma DeleteOfRules(cfg: Config, t: Tenant, src: App, gone: seq<Item>, order: seq<string>)
    requires GeneratedDelta(cfg, t, gone, order) && WellFormed(cfg, t, src)
    ensures var m := Merge(cfg, t, true, src, Delta(cfg, t, gone, order));
            && (Exact(m) <==> SourcesCovered(cfg, src, gone))
            && (WellFormed(cfg, t, m) <==> SourcesCovered(cfg, src, gone))
    ensures Covers(src, Delta(cfg, t, gone, order)) <==> SourcesCovered(cfg, src, gone)
  {
    hide GoodItem, Delta, Merge, Decode, ValidTenant, Attr, ItemId, KeyKind, PolicyExact, SourcesCovered, ItemKey,
         DenyAllAttr, RulesRefs, GroupNames, Visits, RuleListKey, TypeOf;
    var delta := Delta(cfg, t, gone, order);
    DeltaWellFormed(cfg, t, gone, order);
    TypedAgree(cfg, t, src, delta);
    TypedSkips(cfg, t, src);
    DeleteExactIffCovers(cfg, t, src, delta);
    MergeWellFormed(cfg, t, true, src, delta);
    if SourcesCovered(cfg, src, gone) {
      forall k, a | k in src && src[k].RuleList? && a in Refs(src[k]) && a in delta
        ensures k in delta
      {
        assert Referenced(src, a);
        assert Referenced(delta, a);
        var g := ListUser(cfg, t, gone, order, a);
        UserIsCovered(cfg, t, src, gone, g, k, a);
        DeltaRuleLists(cfg, t, gone, order, k);
      }
    }
    if Covers(src, delta) {
      CoversSources(cfg, t, src, gone, order);
    }
  }

  lemma CoversSources(cfg: Config, t: Tenant, src: App, gone: seq<Item>, order: seq<string>)
    requires GeneratedDelta(cfg, t, gone, order) && WellFormed(cfg, t, src) && Covers(src, Delta(cfg, t, gone, order))
    ensures SourcesCovered(cfg, src, gone)
  {
    hide GoodItem, Delta, Decode, ValidTenant, Attr, ItemId, KeyKind, PolicyExact, ItemKey, DenyAllAttr, RulesRefs,
         GroupNames, Visits, RuleListKey, TypeOf, SrcAttr, NewRules;
    var delta := Delta(cfg, t, gone, order);
    DeltaWellFormed(cfg, t, gone, order);
    TypedAgree(cfg, t, src, delta);
    DenyRefersToNothing();
    forall k, g | k in src && src[k].RuleList? && 0 <= g < |gone|
                  && SrcAttr(cfg, gone[g].rule) != "" && SrcAttr(cfg, gone[g].rule) in Refs(src[k])
      ensures ItemKey(cfg, gone, k)
    {
      var a := SrcAttr(cfg, gone[g].rule);
      DeltaRules(cfg, t, gone, order, g);
      ItemRefs(cfg, t, gone[g], a);
      assert Referenced(delta, a);
      ExactDefines(delta, a);
      DeltaRuleLists(cfg, t, gone, order, k);
    }
  }

  lemma ExactDefines(app: App, a: string)
    requires Exact(app) && Referenced(app, a)
    ensures a in app
  {
  }

  lemma ItemKeyKind(cfg: Config, t: Tenant, item: Item)
    requires ValidTenant(cfg, t) && GoodItem(cfg, t, item)
    ensures KeyKind(cfg, t, Attr(cfg, ItemId(item))) == RuleListKind
  {
    hide KeyKind, Attr, ItemId, ListAttr, DestAttr, SrcAttr, PortAttr, Decode, ValidTenant, ValidOwner,
         TenantForNamespace;
    ItemAttrs(cfg, t, item);
    ItemKinds(cfg, t, item);
  }

  lemma TypedRuleList(cfg: Config, t: Tenant, app: App, k: string)
    requires Typed(cfg, t, app) && KeyKind(cfg, t, k) == RuleListKind
    ensures k in app ==> app[k].RuleList?
  {
    hide KeyKind;
  }

  // ----- rules added, synchronised again, deleted -----

  /** Well-formed policies have deny-all at their end already. */
  lemma DeltaOrdered(cfg: Config, t: Tenant, delta: App)
    requires ValidTenant(cfg, t) && WellFormed(cfg, t, delta)
    ensures DenyOrdered(cfg, delta)
  {
    hide KeyKind, Exact, RulesLocal, PolicyExact, DenyAllAttr, PolicyKey, Contains, ValidTenant;
    forall k | k in delta && delta[k].Policy?
      ensures DenyToEnd(DenyAllAttr(cfg), delta[k].uses) == delta[k].uses
    {
      var ty := PolicyKeyType(cfg, t, k);
      PolicyShaped(cfg, t, delta, ty);
      ShapedInOrder(DenyAllAttr(cfg), delta[k].uses);
    }
  }

  lemma ShapedInOrder(deny: string, uses: seq<string>)
    requires Shaped(deny, uses)
    ensures DenyToEnd(deny, uses) == uses
  {
    hide Contains;
    if DenyTail(deny, uses) == [] {
      assert BeforeDeny(deny, uses) == uses;
      NoDenySameOrder(deny, uses);
    } else {
      DenyAlreadyLast(deny, uses);
    }
  }

  /** Nothing of these rules is in the application. */
  predicate OwnersAbsent(cfg: Config, app: App, items: seq<Item>) {
    forall k, i :: k in app && Decode(cfg, k).OfRule() && 0 <= i < |items| ==>
      Decode(cfg, k).owner != OwnerOf(items[i].rule)
  }

  /** Deleting the very delta that was added gives back the application exactly, if its rules were new. */
  lemma SameOrderRoundTrip(cfg: Config, t: Tenant, src: App, items: seq<Item>, order: seq<string>)
    requires GeneratedDelta(cfg, t, items, order) && WellFormed(cfg, t, src)
    requires OwnersAbsent(cfg, src, items) && InfraMatches(cfg, src, Delta(cfg, t, items, order))
    ensures var delta := Delta(cfg, t, items, order);
            Next(cfg, t, true, Next(cfg, t, false, Some(src), delta), delta) == Some(src)
  {
    hide GoodItems, AllReady, Visits, Delta, WellFormed, ValidTenant, InfraMatches, Next, Decode, RuleSpecific;
    var delta := Delta(cfg, t, items, order);
    DeltaWellFormed(cfg, t, items, order);
    forall k | RuleSpecific(cfg, delta, k)
      ensures k !in src
    {
      var i := RuleSpecificOwner(cfg, t, items, order, k);
    }
    AddDeleteRoundTrip(cfg, t, src, delta);
  }

  /** A request made from rules; a delete takes along the users of the source lists it removes. */
  ghost predicate RuleSync(cfg: Config, t: Tenant, src: Option<App>, sync: Sync) {
    exists items, order ::
      && GeneratedDelta(cfg, t, items, order) && sync.delta == Delta(cfg, t, items, order)
      && (sync.isDelete && src.Some? ==> SourcesCovered(cfg, src.value, items))
  }

  /** Any run of rule requests, from nothing or from the default application, stays well formed. */
  lemma {:induction false} RuleRunsAreGood(cfg: Config, t: Tenant, start: Option<App>, syncs: seq<Sync>)
    requires ValidTenant(cfg, t) && start in {None, Some(DefaultApp(cfg, t.name, t))}
    requires forall i :: 0 <= i < |syncs| ==> RuleSync(cfg, t, After(cfg, t, start, syncs[..i]), syncs[i])
    ensures GoodState(cfg, t, After(cfg, t, start, syncs))
  {
    hide WellFormed, Next, RuleSync, DefaultApp, ValidTenant;
    if syncs == [] {
      DefaultWellFormed(cfg, t);
    } else {
      var n := |syncs| - 1;
      assert forall i :: 0 <= i < n ==> syncs[..n][..i] == syncs[..i] && syncs[..n][i] == syncs[i];
      RuleRunsAreGood(cfg, t, start, syncs[..n]);
      RuleSyncAdmissible(cfg, t, After(cfg, t, start, syncs[..n]), syncs[n]);
      NextIsGood(cfg, t, After(cfg, t, start, syncs[..n]), syncs[n]);
    }
  }

  lemma RuleSyncAdmissible(cfg: Config, t: Tenant, src: Option<App>, sync: Sync)
    requires GoodState(cfg, t, src) && RuleSync(cfg, t, src, sync)
    ensures Admissible(cfg, t, src, sync)
  {
    hide GoodItems, Visits, SourcesCovered, WellFormed, Covers, Delta, ValidTenant, Exact, Merge;
    var items, order :| GeneratedDelta(cfg, t, items, order) && sync.delta == Delta(cfg, t, items, order)
                        && (sync.isDelete && src.Some? ==> SourcesCovered(cfg, src.value, items));
    DeltaWellFormed(cfg, t, items, order);
    if sync.isDelete && src.Some? {
      DeleteOfRules(cfg, t, src.value, items, order);
    }
  }
}
