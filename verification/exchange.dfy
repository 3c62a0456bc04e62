/** How adds and deletes undo each other, and when they may change places. */
module Exchange {
  import opened Model
  import opened Text
  import opened Naming
  import opened PolicyMerge
  import opened Engine
  import opened EngineLaws
  import opened States
  import opened Runs

  /** A rule's own objects: its lists and its rule lists, deny-all apart. */
  predicate RuleSpecific(cfg: Config, app: App, k: string) {
    k in app && (app[k].IsList() || (app[k].RuleList? && k != DenyAllAttr(cfg)))
  }

  /** None of the delta's own objects is in the source yet. */
  predicate FreshRules(cfg: Config, src: App, delta: App) {
    forall k :: RuleSpecific(cfg, delta, k) ==> k !in src
  }

  /** The infrastructure on the device is what the configuration asks for. */
  predicate InfraMatches(cfg: Config, src: App, delta: App) {
    forall k :: k in delta && !delta[k].Policy? && !RuleSpecific(cfg, delta, k) ==> Lookup(src, k) == Some(delta[k])
  }

  // ----- facts about one key -----

  lemma PolicyKeyType(cfg: Config, t: Tenant, k: string) returns (ty: string)
    requires ValidTenant(cfg, t) && KeyKind(cfg, t, k) == PolicyKind
    ensures ty in Types(t) && k == PolicyKey(cfg, t, ty)
  {
    hide Decode, Attr, ValidId, PolicyKey;
    ty := Decode(cfg, k).ty;
  }

  /** Infrastructure and log objects are never deleted. */
  lemma InfraIsSkipped(cfg: Config, t: Tenant, k: string)
    requires ValidTenant(cfg, t) && KeyKind(cfg, t, k) in {InfraKind, LogKind}
    ensures k in SkipKeys(cfg, t)
  {
    hide Decode, ValidId, Under, Join, PolicyKey;
  }

  lemma PolicyShaped(cfg: Config, t: Tenant, app: App, ty: string)
    requires ValidTenant(cfg, t) && RulesLocal(cfg, t, app) && PolicyExact(cfg, t, app, ty)
    ensures Shaped(DenyAllAttr(cfg), Uses(cfg, t, app, ty))
  {
    hide Contains, DenyAllAttr, Decode, RuleListKey, PartitionPath, Origin, RulesLocal, Uses;
    DenyOnlyLast(cfg, t, app, ty);
  }

  /** Two well-formed applications agree on deny-all. */
  lemma DenyShared(cfg: Config, t: Tenant, src: App, delta: App, ty: string)
    requires ValidTenant(cfg, t)
    requires PolicyExact(cfg, t, src, ty) && RulesLocal(cfg, t, delta) && PolicyExact(cfg, t, delta, ty)
    ensures DenyKnown(DenyAllAttr(cfg), Uses(cfg, t, src, ty), Uses(cfg, t, delta, ty))
  {
    hide Contains, DenyAllAttr, Decode, RuleListKey, PartitionPath, Origin, RulesLocal, Uses;
    DenyOnlyLast(cfg, t, delta, ty);
  }

  /** Entries that are not deny-all stand for rule-specific rule lists. */
  lemma EntryIsRuleSpecific(cfg: Config, t: Tenant, app: App, ty: string, u: string)
    requires ValidTenant(cfg, t) && RulesLocal(cfg, t, app) && PolicyExact(cfg, t, app, ty)
    requires u in Uses(cfg, t, app, ty) && !Contains(u, DenyAllAttr(cfg))
    ensures RuleSpecific(cfg, app, Origin(u))
  {
    hide Contains, DenyAllAttr, Decode, RuleListKey, PartitionPath, Origin, Uses;
    RuleListPath(cfg, t, Origin(u));
  }

  // ----- add, then delete -----

  /** The application after an add of fresh rules, key by key. */
  lemma FreshAddAt(cfg: Config, t: Tenant, src: App, delta: App, k: string)
    requires WellFormed(cfg, t, src) && WellFormed(cfg, t, delta)
    requires FreshRules(cfg, src, delta) && InfraMatches(cfg, src, delta)
    requires k !in delta || !delta[k].Policy?
    ensures MergedAt(cfg, t, false, src, delta, k)
            == if RuleSpecific(cfg, delta, k) then Some(delta[k]) else Lookup(src, k)
  {
    hide KeyKind, RulesLocal, PolicyExact, Exact, DenyAllAttr, SkipKeys;
  }

  /** Nothing of an add of fresh rules is swept. */
  lemma FreshAddKept(cfg: Config, t: Tenant, src: App, delta: App)
    requires ValidTenant(cfg, t) && WellFormed(cfg, t, src) && WellFormed(cfg, t, delta)
    requires FreshRules(cfg, src, delta) && InfraMatches(cfg, src, delta)
    ensures Merge(cfg, t, false, src, delta) == Overlay(cfg, t, false, src, delta)
  {
    hide KeyKind, RulesLocal, PolicyExact, DenyAllAttr, Refs, SkipKeys, Referenced, MergedAt;
    var overlay := Overlay(cfg, t, false, src, delta);
    TypedAgree(cfg, t, src, delta);
    WellFormedContained(cfg, t, src);
    WellFormedContained(cfg, t, delta);
    forall k | k in overlay
      ensures Kept(cfg, overlay, k)
    {
      assert MergedAt(cfg, t, false, src, delta, k) == Some(overlay[k]);
      FreshAddKeptAt(cfg, t, src, delta, k);
    }
    SweepNothing(cfg, overlay);
  }

  lemma FreshAddKeptAt(cfg: Config, t: Tenant, src: App, delta: App, k: string)
    requires ValidTenant(cfg, t) && WellFormed(cfg, t, src) && WellFormed(cfg, t, delta)
    requires FreshRules(cfg, src, delta) && InfraMatches(cfg, src, delta)
    requires KindsAgree(src, delta) && SelfContained(cfg, src) && SelfContained(cfg, delta)
    requires k in Overlay(cfg, t, false, src, delta)
    ensures Kept(cfg, Overlay(cfg, t, false, src, delta), k)
  {
    hide KeyKind, RulesLocal, PolicyExact, DenyAllAttr, SkipKeys, RulesRefs;
    var overlay := Overlay(cfg, t, false, src, delta);
    if k in delta {
      DeltaIsKept(cfg, t, src, delta, k);
    } else {
      assert Kept(cfg, src, k);
      if src[k].IsList() {
        var j :| j in src && k in Refs(src[j]);
        DenyRefersToNothing();
        FreshAddAt(cfg, t, src, delta, j);
        assert overlay[j] == src[j];
      }
    }
  }

  /** Add and delete of the same delta leave one key as it was. */
  lemma RoundTripAt(cfg: Config, t: Tenant, src: App, delta: App, k: string)
    requires ValidTenant(cfg, t) && WellFormed(cfg, t, src) && WellFormed(cfg, t, delta)
    requires FreshRules(cfg, src, delta) && InfraMatches(cfg, src, delta)
    ensures MergedAt(cfg, t, true, Overlay(cfg, t, false, src, delta), delta, k) == Lookup(src, k)
  {
    hide RulesLocal, PolicyExact, Exact, SkipKeys, KeyKind, DenyAllAttr;
    TypedSkips(cfg, t, delta);
    OverlayAt(cfg, t, false, src, delta);
    var overlay := Overlay(cfg, t, false, src, delta);
    hide Overlay;
    assert Lookup(overlay, k) == MergedAt(cfg, t, false, src, delta, k);
    if k in delta {
      if delta[k].Policy? {
        PolicyRoundTrip(cfg, t, src, delta, k);
      } else {
        FreshAddAt(cfg, t, src, delta, k);
        if delta[k].Infra? || delta[k].LogObject? {
          InfraIsSkipped(cfg, t, k);
        } else if delta[k].RuleList? && k == DenyAllAttr(cfg) {
          DenyIsSkipped(cfg, t);
        }
      }
    }
  }

  lemma DenyIsSkipped(cfg: Config, t: Tenant)
    ensures DenyAllAttr(cfg) in SkipKeys(cfg, t)
  {
  }

  lemma PolicyRoundTrip(cfg: Config, t: Tenant, src: App, delta: App, k: string)
    requires ValidTenant(cfg, t) && WellFormed(cfg, t, src) && WellFormed(cfg, t, delta)
    requires FreshRules(cfg, src, delta) && k in delta && delta[k].Policy?
    ensures k in src && src[k].Policy? && k !in SkipKeys(cfg, t)
    ensures MergedPolicy(cfg, true, MergedPolicy(cfg, false, src[k], delta[k]), delta[k]) == src[k]
  {
    hide RulesLocal, KeyKind, Exact, DenyAllAttr, Contains, Origin, PartitionPath, SkipKeys, PolicyKey, MergeUses;
    var deny := DenyAllAttr(cfg);
    var ty := PolicyKeyType(cfg, t, k);
    PolicyOf(cfg, t, src, ty);
    PolicyOf(cfg, t, delta, ty);
    TypedSkips(cfg, t, delta);
    PolicyShaped(cfg, t, src, ty);
    DenyShared(cfg, t, src, delta, ty);
    forall u | u in delta[k].uses && u in src[k].uses
      ensures Contains(u, deny)
    {
      assert Origin(u) in src;
      if !Contains(u, deny) {
        EntryIsRuleSpecific(cfg, t, delta, ty, u);
      }
    }
    AddThenDelete(deny, src[k].uses, delta[k].uses);
  }

  /** Deleting a freshly added delta gives back the application exactly, the order of its policies included. */
  lemma AddDeleteRoundTrip(cfg: Config, t: Tenant, src: App, delta: App)
    requires ValidTenant(cfg, t) && WellFormed(cfg, t, src) && WellFormed(cfg, t, delta)
    requires FreshRules(cfg, src, delta) && InfraMatches(cfg, src, delta)
    ensures Next(cfg, t, true, Next(cfg, t, false, Some(src), delta), delta) == Some(src)
  {
    hide WellFormed, Sweep, MergedAt, IsDiff;
    AddAlwaysMerges(cfg, t, src, delta);
    FreshAddKept(cfg, t, src, delta);
    var added := Overlay(cfg, t, false, src, delta);
    OverlayAt(cfg, t, true, added, delta);
    forall k
      ensures Lookup(Overlay(cfg, t, true, added, delta), k) == Lookup(src, k)
    {
      RoundTripAt(cfg, t, src, delta, k);
    }
    SameLookup(Overlay(cfg, t, true, added, delta), src);
    WellFormedSweep(cfg, t, src);
  }

  lemma WellFormedSweep(cfg: Config, t: Tenant, app: App)
    requires WellFormed(cfg, t, app)
    ensures Sweep(cfg, app) == app
  {
    hide KeyKind, PolicyExact, RulesLocal;
    WellFormedContained(cfg, t, app);
    SweepNothing(cfg, app);
  }

  // ----- independent requests -----

  /** Neither delta touches an object that belongs to the other's rules. */
  predicate Independent(cfg: Config, a: App, b: App) {
    forall k :: RuleSpecific(cfg, a, k) ==> k !in b
  }

  /** Keys outside rules and policies: a delete leaves them alone, an add may write them. */
  lemma OtherKey(cfg: Config, t: Tenant, isDelete: bool, src: App, delta: App, k: string)
    requires ValidTenant(cfg, t) && Typed(cfg, t, src) && Typed(cfg, t, delta)
    requires KeyKind(cfg, t, k) in {ScalarKind, InfraKind, LogKind, NoKind}
    ensures Lookup(Merge(cfg, t, isDelete, src, delta), k)
            == if isDelete || k !in delta then Lookup(src, k)
              else MergedValue(cfg, t, false, k, Lookup(src, k), delta[k])
  {
    hide KeyKind, SkipKeys;
    if KeyKind(cfg, t, k) in {InfraKind, LogKind} {
      InfraIsSkipped(cfg, t, k);
      if KeyKind(cfg, t, k) == LogKind {
        LogKindOnlyIfEnabled(cfg, t, k);
      }
    }
    OverlayAt(cfg, t, isDelete, src, delta);
  }

  /** Rule lists after a delete and an add of independent rules, in either order. */
  lemma CommuteRuleList(cfg: Config, t: Tenant, src: App, gone: App, added: App, k: string)
    requires ValidTenant(cfg, t) && Typed(cfg, t, src) && Typed(cfg, t, gone) && Typed(cfg, t, added)
    requires Independent(cfg, added, gone) && Lookup(src, DenyAllAttr(cfg)) == Some(DENY_ALL_LIST)
    ensures var m1 := Merge(cfg, t, false, Merge(cfg, t, true, src, gone), added);
            var m2 := Merge(cfg, t, true, Merge(cfg, t, false, src, added), gone);
            && ((k in m1 && m1[k].RuleList?) <==> (k in m2 && m2[k].RuleList?))
            && (k in m1 && m1[k].RuleList? ==> m1[k] == m2[k])
  {
    hide KeyKind, Merge, DenyAllAttr;
    TypedAgree(cfg, t, src, gone);
    TypedAgree(cfg, t, src, added);
    TypedSkips(cfg, t, src);
    var less, more := Merge(cfg, t, true, src, gone), Merge(cfg, t, false, src, added);
    MergedTyped(cfg, t, true, src, gone);
    MergedTyped(cfg, t, false, src, added);
    TypedAgree(cfg, t, less, added);
    TypedAgree(cfg, t, more, gone);
    TypedSkips(cfg, t, more);
    KeptRuleList(cfg, t, src, gone, k);
    AddedRuleList(cfg, t, less, added, k);
    AddedRuleList(cfg, t, src, added, k);
    KeptRuleList(cfg, t, more, gone, k);
  }

  /** The lists a merge leaves have the value the delta gives them, else the source's. */
  lemma ListValue(cfg: Config, t: Tenant, isDelete: bool, src: App, delta: App, a: string)
    requires KindsAgree(src, delta)
    requires var m := Merge(cfg, t, isDelete, src, delta); a in m && m[a].IsList()
    ensures isDelete ==> a in src && (a !in delta || a in SkipKeys(cfg, t))
    ensures var m := Merge(cfg, t, isDelete, src, delta);
            if a in delta && !isDelete then m[a] == delta[a] else a in src && m[a] == src[a]
  {
    hide SkipKeys;
  }

  lemma CommuteList(cfg: Config, t: Tenant, src: App, gone: App, added: App, a: string)
    requires ValidTenant(cfg, t) && Typed(cfg, t, src) && Typed(cfg, t, gone) && Typed(cfg, t, added)
    requires var m1 := Merge(cfg, t, false, Merge(cfg, t, true, src, gone), added); a in m1 && m1[a].IsList()
    requires var m2 := Merge(cfg, t, true, Merge(cfg, t, false, src, added), gone); a in m2 && m2[a].IsList()
    ensures Merge(cfg, t, false, Merge(cfg, t, true, src, gone), added)[a]
            == Merge(cfg, t, true, Merge(cfg, t, false, src, added), gone)[a]
  {
    hide KeyKind, Merge, SkipKeys;
    var less, more := Merge(cfg, t, true, src, gone), Merge(cfg, t, false, src, added);
    MergedTyped(cfg, t, true, src, gone);
    MergedTyped(cfg, t, false, src, added);
    TypedAgree(cfg, t, src, gone);
    TypedAgree(cfg, t, src, added);
    TypedAgree(cfg, t, less, added);
    TypedAgree(cfg, t, more, gone);
    ListValue(cfg, t, false, less, added, a);
    ListValue(cfg, t, true, more, gone, a);
    ListValue(cfg, t, false, src, added, a);
    if a !in added {
      ListValue(cfg, t, true, src, gone, a);
    }
  }

  lemma CommutePolicy(cfg: Config, t: Tenant, src: App, gone: App, added: App, ty: string)
    requires ValidTenant(cfg, t) && ty in Types(t)
    requires WellFormed(cfg, t, src) && WellFormed(cfg, t, gone) && WellFormed(cfg, t, added)
    requires Independent(cfg, added, gone)
    ensures Lookup(Merge(cfg, t, false, Merge(cfg, t, true, src, gone), added), PolicyKey(cfg, t, ty))
            == Lookup(Merge(cfg, t, true, Merge(cfg, t, false, src, added), gone), PolicyKey(cfg, t, ty))
  {
    hide KeyKind, Merge, Exact, DenyAllAttr, Contains, Origin, PartitionPath, PolicyKey, MergeUses, Uses, RulesLocal,
         Independent;
    var less, more := Merge(cfg, t, true, src, gone), Merge(cfg, t, false, src, added);
    MergedTyped(cfg, t, true, src, gone);
    MergedTyped(cfg, t, false, src, added);
    TypedSkips(cfg, t, src);
    TypedSkips(cfg, t, less);
    TypedSkips(cfg, t, more);
    MergedPolicyExact(cfg, t, true, src, gone, ty);
    MergedPolicyExact(cfg, t, false, src, added, ty);
    MergedUses(cfg, t, true, src, gone, ty);
    MergedUses(cfg, t, false, src, added, ty);
    MergedUses(cfg, t, false, less, added, ty);
    MergedUses(cfg, t, true, more, gone, ty);
    CommuteUses(cfg, t, src, gone, added, ty);
  }

  lemma CommuteUses(cfg: Config, t: Tenant, src: App, gone: App, added: App, ty: string)
    requires ValidTenant(cfg, t) && ty in Types(t) && Independent(cfg, added, gone)
    requires RulesLocal(cfg, t, src) && PolicyExact(cfg, t, src, ty)
    requires PolicyExact(cfg, t, gone, ty)
    requires RulesLocal(cfg, t, added) && PolicyExact(cfg, t, added, ty)
    ensures var deny, srcUses := DenyAllAttr(cfg), Uses(cfg, t, src, ty);
            var goneUses, addedUses := Uses(cfg, t, gone, ty), Uses(cfg, t, added, ty);
            MergeUses(deny, false, MergeUses(deny, true, srcUses, goneUses), addedUses)
            == MergeUses(deny, true, MergeUses(deny, false, srcUses, addedUses), goneUses)
  {
    hide DenyAllAttr, Contains, Origin, PartitionPath, PolicyKey, MergeUses, Uses, RulesLocal, Decode, TypeOf;
    var deny, srcUses := DenyAllAttr(cfg), Uses(cfg, t, src, ty);
    var goneUses, addedUses := Uses(cfg, t, gone, ty), Uses(cfg, t, added, ty);
    PolicyShaped(cfg, t, src, ty);
    DenyShared(cfg, t, src, added, ty);
    forall u | u in goneUses && u in addedUses
      ensures Contains(u, deny)
    {
      assert Origin(u) in gone;
      if !Contains(u, deny) {
        EntryIsRuleSpecific(cfg, t, added, ty, u);
      }
    }
    AddDeleteCommute(deny, srcUses, goneUses, addedUses);
  }

  lemma OwnListsElsewhere(cfg: Config, gone: App, added: App, k: string, a: string)
    requires Exact(added) && Independent(cfg, added, gone) && k in added && a in Refs(added[k])
    ensures a !in gone
  {
    assert Referenced(added, a);
    assert RuleSpecific(cfg, added, a);
  }

  /** Adding independent rules does not spoil the coverage of a delete. */
  lemma CoversAfterAdd(cfg: Config, t: Tenant, src: App, gone: App, added: App)
    requires Typed(cfg, t, src) && Typed(cfg, t, added) && Exact(added)
    requires Independent(cfg, added, gone) && Covers(src, gone)
    ensures Covers(Merge(cfg, t, false, src, added), gone)
  {
    hide KeyKind, Merge, Refs, DenyAllAttr;
    TypedAgree(cfg, t, src, added);
    var more := Merge(cfg, t, false, src, added);
    forall k, a | k in more && more[k].RuleList? && a in Refs(more[k]) && a in gone
      ensures k in gone
    {
      AddedRuleList(cfg, t, src, added, k);
      if k in added {
        OwnListsElsewhere(cfg, gone, added, k, a);
      }
    }
  }

  /** Adding one rule and deleting another, covered one: either order gives the same application exactly. */
  lemma AddDeleteCommutes(cfg: Config, t: Tenant, src: App, gone: App, added: App)
    requires ValidTenant(cfg, t) && WellFormed(cfg, t, src) && WellFormed(cfg, t, gone) && WellFormed(cfg, t, added)
    requires Independent(cfg, added, gone) && Covers(src, gone)
    ensures Next(cfg, t, false, Next(cfg, t, true, Some(src), gone), added)
            == Next(cfg, t, true, Next(cfg, t, false, Some(src), added), gone)
  {
    hide WellFormed, Merge, Covers, Independent;
    var less, more := Merge(cfg, t, true, src, gone), Merge(cfg, t, false, src, added);
    MergeWellFormed(cfg, t, true, src, gone);
    MergeWellFormed(cfg, t, false, src, added);
    AddAlwaysMerges(cfg, t, src, added);
    AddAlwaysMerges(cfg, t, less, added);
    CommutedIsWellFormed(cfg, t, src, gone, added);
    var m1, m2 := Merge(cfg, t, false, less, added), Merge(cfg, t, true, more, gone);
    forall k
      ensures Lookup(m1, k) == Lookup(m2, k)
    {
      CommuteAt(cfg, t, src, gone, added, k);
    }
    SameLookup(m1, m2);
  }

  lemma CommutedIsWellFormed(cfg: Config, t: Tenant, src: App, gone: App, added: App)
    requires ValidTenant(cfg, t) && WellFormed(cfg, t, src) && WellFormed(cfg, t, gone) && WellFormed(cfg, t, added)
    requires Independent(cfg, added, gone) && Covers(src, gone)
    ensures WellFormed(cfg, t, Merge(cfg, t, false, Merge(cfg, t, true, src, gone), added))
    ensures WellFormed(cfg, t, Merge(cfg, t, true, Merge(cfg, t, false, src, added), gone))
  {
    hide Merge, Covers, Independent, KeyKind, PolicyExact, RulesLocal, Exact;
    MergeWellFormed(cfg, t, true, src, gone);
    MergeWellFormed(cfg, t, false, src, added);
    CoversAfterAdd(cfg, t, src, gone, added);
    MergeWellFormed(cfg, t, false, Merge(cfg, t, true, src, gone), added);
    MergeWellFormed(cfg, t, true, Merge(cfg, t, false, src, added), gone);
  }

  lemma CommuteAt(cfg: Config, t: Tenant, src: App, gone: App, added: App, k: string)
    requires ValidTenant(cfg, t) && WellFormed(cfg, t, src) && WellFormed(cfg, t, gone) && WellFormed(cfg, t, added)
    requires Independent(cfg, added, gone)
    requires WellFormed(cfg, t, Merge(cfg, t, false, Merge(cfg, t, true, src, gone), added))
    requires WellFormed(cfg, t, Merge(cfg, t, true, Merge(cfg, t, false, src, added), gone))
    ensures Lookup(Merge(cfg, t, false, Merge(cfg, t, true, src, gone), added), k)
            == Lookup(Merge(cfg, t, true, Merge(cfg, t, false, src, added), gone), k)
  {
    hide Merge, Independent, KeyKind, PolicyExact, RulesLocal, DenyAllAttr, SkipKeys, PolicyKey, Refs;
    var less, more := Merge(cfg, t, true, src, gone), Merge(cfg, t, false, src, added);
    var m1, m2 := Merge(cfg, t, false, less, added), Merge(cfg, t, true, more, gone);
    MergedTyped(cfg, t, true, src, gone);
    MergedTyped(cfg, t, false, src, added);
    match KeyKind(cfg, t, k) {
      case RuleListKind =>
        CommuteRuleList(cfg, t, src, gone, added, k);
      case PolicyKind =>
        var ty := PolicyKeyType(cfg, t, k);
        CommutePolicy(cfg, t, src, gone, added, ty);
      case AddressKind =>
        CommuteListAt(cfg, t, src, gone, added, k);
      case PortKind =>
        CommuteListAt(cfg, t, src, gone, added, k);
      case _ =>
        OtherKey(cfg, t, true, src, gone, k);
        OtherKey(cfg, t, false, less, added, k);
        OtherKey(cfg, t, false, src, added, k);
        OtherKey(cfg, t, true, more, gone, k);
    }
  }

  lemma CommuteListAt(cfg: Config, t: Tenant, src: App, gone: App, added: App, a: string)
    requires ValidTenant(cfg, t) && WellFormed(cfg, t, src) && Typed(cfg, t, gone) && Typed(cfg, t, added)
    requires Independent(cfg, added, gone) && KeyKind(cfg, t, a) in {AddressKind, PortKind}
    requires WellFormed(cfg, t, Merge(cfg, t, false, Merge(cfg, t, true, src, gone), added))
    requires WellFormed(cfg, t, Merge(cfg, t, true, Merge(cfg, t, false, src, added), gone))
    ensures Lookup(Merge(cfg, t, false, Merge(cfg, t, true, src, gone), added), a)
            == Lookup(Merge(cfg, t, true, Merge(cfg, t, false, src, added), gone), a)
  {
    hide Merge, Independent, KeyKind, PolicyExact, RulesLocal, DenyAllAttr, RulesRefs;
    var m1 := Merge(cfg, t, false, Merge(cfg, t, true, src, gone), added);
    var m2 := Merge(cfg, t, true, Merge(cfg, t, false, src, added), gone);
    SameReferences(cfg, t, src, gone, added, a);
    if a in m1 {
      assert m1[a].IsList();
      CommuteList(cfg, t, src, gone, added, a);
    }
  }

  lemma SameReferences(cfg: Config, t: Tenant, src: App, gone: App, added: App, a: string)
    requires ValidTenant(cfg, t) && Typed(cfg, t, src) && Typed(cfg, t, gone) && Typed(cfg, t, added)
    requires Independent(cfg, added, gone) && Lookup(src, DenyAllAttr(cfg)) == Some(DENY_ALL_LIST)
    ensures Referenced(Merge(cfg, t, false, Merge(cfg, t, true, src, gone), added), a)
            <==> Referenced(Merge(cfg, t, true, Merge(cfg, t, false, src, added), gone), a)
  {
    hide Merge, Independent, KeyKind, DenyAllAttr, RulesRefs;
    var m1 := Merge(cfg, t, false, Merge(cfg, t, true, src, gone), added);
    var m2 := Merge(cfg, t, true, Merge(cfg, t, false, src, added), gone);
    if Referenced(m1, a) {
      var k :| k in m1 && a in Refs(m1[k]);
      CommuteRuleList(cfg, t, src, gone, added, k);
    }
    if Referenced(m2, a) {
      var k :| k in m2 && a in Refs(m2[k]);
      CommuteRuleList(cfg, t, src, gone, added, k);
    }
  }

  // ----- two adds -----

  /** Equal but for the order of the entries inside policies. */
  predicate SameUpToOrder(a: App, b: App) {
    && a.Keys == b.Keys
    && forall k :: k in a ==>
         if a[k].Policy? then b[k].Policy? && multiset(a[k].uses) == multiset(b[k].uses) else a[k] == b[k]
  }

  /** Two deltas ask for the same value wherever both ask for something other than a policy. */
  predicate Consistent(a: App, b: App) {
    forall k :: k in a && k in b && !a[k].Policy? ==> a[k] == b[k]
  }

  /** An add, key by key, where nothing is swept. */
  lemma AddsAt(cfg: Config, t: Tenant, src: App, a: App, b: App, k: string)
    requires ValidTenant(cfg, t) && WellFormed(cfg, t, src) && WellFormed(cfg, t, a) && WellFormed(cfg, t, b)
    requires Consistent(a, b)
    requires KeyKind(cfg, t, k) !in {PolicyKind, AddressKind, PortKind}
    ensures Lookup(Merge(cfg, t, false, Merge(cfg, t, false, src, a), b), k)
            == Lookup(Merge(cfg, t, false, Merge(cfg, t, false, src, b), a), k)
  {
    hide Merge, KeyKind, PolicyExact, RulesLocal, DenyAllAttr, SkipKeys, Refs, Exact;
    var ma, mb := Merge(cfg, t, false, src, a), Merge(cfg, t, false, src, b);
    MergedTyped(cfg, t, false, src, a);
    MergedTyped(cfg, t, false, src, b);
    MergedTyped(cfg, t, false, ma, b);
    MergedTyped(cfg, t, false, mb, a);
    if KeyKind(cfg, t, k) == RuleListKind {
      AddsRuleList(cfg, t, src, a, b, k);
    } else {
      OtherKey(cfg, t, false, src, a, k);
      OtherKey(cfg, t, false, ma, b, k);
      OtherKey(cfg, t, false, src, b, k);
      OtherKey(cfg, t, false, mb, a, k);
    }
  }

  lemma AddsRuleList(cfg: Config, t: Tenant, src: App, a: App, b: App, k: string)
    requires Typed(cfg, t, src) && Typed(cfg, t, a) && Typed(cfg, t, b) && Consistent(a, b)
    ensures var mab := Merge(cfg, t, false, Merge(cfg, t, false, src, a), b);
            var mba := Merge(cfg, t, false, Merge(cfg, t, false, src, b), a);
            && ((k in mab && mab[k].RuleList?) <==> (k in mba && mba[k].RuleList?))
            && (k in mab && mab[k].RuleList? ==> mab[k] == mba[k])
  {
    hide Merge, KeyKind;
    var ma, mb := Merge(cfg, t, false, src, a), Merge(cfg, t, false, src, b);
    MergedTyped(cfg, t, false, src, a);
    MergedTyped(cfg, t, false, src, b);
    TypedAgree(cfg, t, src, a);
    TypedAgree(cfg, t, src, b);
    TypedAgree(cfg, t, ma, b);
    TypedAgree(cfg, t, mb, a);
    AddedRuleList(cfg, t, src, a, k);
    AddedRuleList(cfg, t, src, b, k);
    AddedRuleList(cfg, t, ma, b, k);
    AddedRuleList(cfg, t, mb, a, k);
  }

  lemma AddsReferences(cfg: Config, t: Tenant, src: App, a: App, b: App, list: string)
    requires Typed(cfg, t, src) && Typed(cfg, t, a) && Typed(cfg, t, b) && Consistent(a, b)
    requires Referenced(Merge(cfg, t, false, Merge(cfg, t, false, src, a), b), list)
    ensures Referenced(Merge(cfg, t, false, Merge(cfg, t, false, src, b), a), list)
  {
    hide Merge, KeyKind, RulesRefs;
    var mab := Merge(cfg, t, false, Merge(cfg, t, false, src, a), b);
    var k :| k in mab && list in Refs(mab[k]);
    AddsRuleList(cfg, t, src, a, b, k);
  }

  lemma AddsList(cfg: Config, t: Tenant, src: App, a: App, b: App, list: string)
    requires Typed(cfg, t, src) && Typed(cfg, t, a) && Typed(cfg, t, b) && Consistent(a, b)
    requires var mab := Merge(cfg, t, false, Merge(cfg, t, false, src, a), b);
             Exact(mab) && list in mab && mab[list].IsList()
    requires Exact(Merge(cfg, t, false, Merge(cfg, t, false, src, b), a))
    ensures Lookup(Merge(cfg, t, false, Merge(cfg, t, false, src, b), a), list)
            == Some(Merge(cfg, t, false, Merge(cfg, t, false, src, a), b)[list])
  {
    hide Merge, KeyKind, SkipKeys;
    var ma, mb := Merge(cfg, t, false, src, a), Merge(cfg, t, false, src, b);
    AddsReferences(cfg, t, src, a, b, list);
    MergedTyped(cfg, t, false, src, a);
    MergedTyped(cfg, t, false, src, b);
    TypedAgree(cfg, t, src, a);
    TypedAgree(cfg, t, src, b);
    TypedAgree(cfg, t, ma, b);
    TypedAgree(cfg, t, mb, a);
    ListValue(cfg, t, false, ma, b, list);
    ListValue(cfg, t, false, mb, a, list);
    if list !in b {
      ListValue(cfg, t, false, src, a, list);
    }
    if list !in a {
      ListValue(cfg, t, false, src, b, list);
    }
  }

  lemma AddsPolicy(cfg: Config, t: Tenant, src: App, a: App, b: App, ty: string)
    requires ValidTenant(cfg, t) && ty in Types(t)
    requires WellFormed(cfg, t, src) && WellFormed(cfg, t, a) && WellFormed(cfg, t, b)
    ensures var mab := Merge(cfg, t, false, Merge(cfg, t, false, src, a), b);
            var mba := Merge(cfg, t, false, Merge(cfg, t, false, src, b), a);
            && Lookup(mab, PolicyKey(cfg, t, ty)) == Some(Policy(Uses(cfg, t, mab, ty)))
            && Lookup(mba, PolicyKey(cfg, t, ty)) == Some(Policy(Uses(cfg, t, mba, ty)))
            && multiset(Uses(cfg, t, mab, ty)) == multiset(Uses(cfg, t, mba, ty))
  {
    hide KeyKind, Merge, Exact, DenyAllAttr, PolicyKey, MergeUses, Uses, RulesLocal;
    var ma, mb := Merge(cfg, t, false, src, a), Merge(cfg, t, false, src, b);
    MergedTyped(cfg, t, false, src, a);
    MergedTyped(cfg, t, false, src, b);
    TypedSkips(cfg, t, src);
    TypedSkips(cfg, t, ma);
    TypedSkips(cfg, t, mb);
    MergedPolicyExact(cfg, t, false, src, a, ty);
    MergedPolicyExact(cfg, t, false, src, b, ty);
    MergedUses(cfg, t, false, src, a, ty);
    MergedUses(cfg, t, false, src, b, ty);
    MergedUses(cfg, t, false, ma, b, ty);
    MergedUses(cfg, t, false, mb, a, ty);
    AddsCommute(DenyAllAttr(cfg), Uses(cfg, t, src, ty), Uses(cfg, t, a, ty), Uses(cfg, t, b, ty));
  }

  lemma AddsMatchAt(cfg: Config, t: Tenant, src: App, a: App, b: App, k: string)
    requires ValidTenant(cfg, t) && WellFormed(cfg, t, src) && WellFormed(cfg, t, a) && WellFormed(cfg, t, b)
    requires Consistent(a, b) && Consistent(b, a)
    requires WellFormed(cfg, t, Merge(cfg, t, false, Merge(cfg, t, false, src, a), b))
    requires WellFormed(cfg, t, Merge(cfg, t, false, Merge(cfg, t, false, src, b), a))
    requires k in Merge(cfg, t, false, Merge(cfg, t, false, src, a), b)
    ensures var mab := Merge(cfg, t, false, Merge(cfg, t, false, src, a), b);
            var mba := Merge(cfg, t, false, Merge(cfg, t, false, src, b), a);
            && k in mba
            && if mab[k].Policy? then mba[k].Policy? && multiset(mab[k].uses) == multiset(mba[k].uses)
                 else mab[k] == mba[k]
  {
    hide KeyKind, Merge, PolicyExact, RulesLocal, PolicyKey, DenyAllAttr, SkipKeys, Refs;
    var mab := Merge(cfg, t, false, Merge(cfg, t, false, src, a), b);
    if mab[k].Policy? {
      var ty := PolicyKeyType(cfg, t, k);
      AddsPolicy(cfg, t, src, a, b, ty);
    } else if mab[k].IsList() {
      AddsList(cfg, t, src, a, b, k);
    } else {
      AddsAt(cfg, t, src, a, b, k);
    }
  }

  /** Adding two rules in either order gives the same application up to the order of policy entries. */
  lemma AddsCommuteUpToOrder(cfg: Config, t: Tenant, src: App, a: App, b: App)
    requires ValidTenant(cfg, t) && WellFormed(cfg, t, src) && WellFormed(cfg, t, a) && WellFormed(cfg, t, b)
    requires Consistent(a, b) && Consistent(b, a)
    ensures var ab := Next(cfg, t, false, Next(cfg, t, false, Some(src), a), b);
            var ba := Next(cfg, t, false, Next(cfg, t, false, Some(src), b), a);
            ab.Some? && ba.Some? && SameUpToOrder(ab.value, ba.value)
  {
    hide WellFormed, Merge, Consistent;
    var ma, mb := Merge(cfg, t, false, src, a), Merge(cfg, t, false, src, b);
    MergeWellFormed(cfg, t, false, src, a);
    MergeWellFormed(cfg, t, false, src, b);
    MergeWellFormed(cfg, t, false, ma, b);
    MergeWellFormed(cfg, t, false, mb, a);
    AddAlwaysMerges(cfg, t, src, a);
    AddAlwaysMerges(cfg, t, src, b);
    AddAlwaysMerges(cfg, t, ma, b);
    AddAlwaysMerges(cfg, t, mb, a);
    var mab, mba := Merge(cfg, t, false, ma, b), Merge(cfg, t, false, mb, a);
    forall k | k in mab { AddsMatchAt(cfg, t, src, a, b, k); }
    forall k | k in mba { AddsMatchAt(cfg, t, src, b, a, k); }
  }
}
