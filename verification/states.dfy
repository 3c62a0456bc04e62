/**
 * Well-formed applications.  The same predicate describes what the device holds and what a delta declares; it is
 * closed under adding, and under deleting exactly when the delete covers the lists it removes.
 */
module States {
  import opened Model
  import opened Text
  import opened Naming
  import opened PolicyMerge
  import opened Engine
  import opened EngineLaws

  /** What the naming scheme and the substring test for deny-all rely on. */
  predicate ValidTenant(cfg: Config, t: Tenant) {
    && ClusterNames(cfg)
    && PartitionName(t.name) && !Contains(t.name, DenyAllAttr(cfg))
    && '_' !in t.routeDomainName && '/' !in t.routeDomainName
    && (forall k :: k in t.logObjects ==>
          && (t.logObjects[k].Infra? || t.logObjects[k].LogObject?)
          && Decode(cfg, k) == UnknownId && k !in {CLASS_KEY, TEMPLATE_KEY})
  }

  /** The kind of object that a key names; a key that is no valid encoding names nothing. */
  function KeyKind(cfg: Config, t: Tenant, k: string): Kind {
    if k in {CLASS_KEY, TEMPLATE_KEY} then ScalarKind
    else if k in LogDecl(cfg, t) then KindOf(LogDecl(cfg, t)[k])
    else
      var id := Decode(cfg, k);
      if ValidId(id) && Attr(cfg, id) == k then IdKind(cfg, t, id) else NoKind
  }

  function IdKind(cfg: Config, t: Tenant, id: Id): Kind {
    match id
    case RuleListId(_, _) => RuleListKind
    case DenyAllId => RuleListKind
    case DestAddressId(_, _) => AddressKind
    case SrcAddressId(_, _) => AddressKind
    case DestPortId(_, _, _) => PortKind
    case PolicyId(ty, _) => if ty in Types(t) && Attr(cfg, id) == PolicyKey(cfg, t, ty) then PolicyKind else NoKind
    case UnknownId => NoKind
    case _ => InfraKind
  }

  /** The policies of a partition: the global one exists in Common only. */
  function Types(t: Tenant): set<string> {
    if t.name == COMMON then {GLOBAL, NS, SVC} else {NS, SVC}
  }

  predicate Typed(cfg: Config, t: Tenant, app: App) {
    forall k {:trigger KeyKind(cfg, t, k)} :: k in app ==> KindOf(app[k]) == KeyKind(cfg, t, k)
  }

  /** The lists an application holds are exactly those its rule lists refer to: none dangles, none is garbage. */
  ghost predicate Exact(app: App) {
    forall a :: Referenced(app, a) <==> a in app && app[a].IsList()
  }

  /** The key is the valid encoding of a rule list or of deny-all. */
  predicate RuleListKey(cfg: Config, k: string) {
    var id := Decode(cfg, k);
    (id.RuleListId? || id.DenyAllId?) && ValidId(id) && Attr(cfg, id) == k
  }

  /** The policy type that a rule list belongs to; deny-all belongs to the service policy. */
  function TypeOf(cfg: Config, k: string): string {
    match Decode(cfg, k)
    case RuleListId(o, _) => o.ty
    case DenyAllId => SVC
    case _ => ""
  }

  function Uses(cfg: Config, t: Tenant, app: App, ty: string): seq<string> {
    var key := PolicyKey(cfg, t, ty);
    if key in app && app[key].Policy? then app[key].uses else []
  }

  /**
   * The entries of one policy, read back as paths, are the rule lists of its type; deny-all closes the service
   * policy.
   */
  predicate PolicyExact(cfg: Config, t: Tenant, app: App, ty: string) {
    var uses := Uses(cfg, t, app, ty);
    && PolicyKey(cfg, t, ty) in app
    && NoDuplicates(uses)
    && (forall u :: u in uses ==> u == PartitionPath(t.name, Origin(u))
                                  && Origin(u) in app && app[Origin(u)].RuleList? && TypeOf(cfg, Origin(u)) == ty)
    && (forall k {:trigger PartitionPath(t.name, k)} ::
          k in app && app[k].RuleList? && TypeOf(cfg, k) == ty ==> PartitionPath(t.name, k) in uses)
    && (ty == SVC ==> uses != [] && uses[|uses| - 1] == PartitionPath(t.name, DenyAllAttr(cfg)))
  }

  /** Rule lists have valid names and some rules, refer to their own lists only, and use no source ports. */
  predicate RulesLocal(cfg: Config, t: Tenant, app: App) {
    forall k {:trigger RuleListKey(cfg, k)} :: k in app && app[k].RuleList? ==>
      && RuleListKey(cfg, k)
      && TypeOf(cfg, k) in Types(t)
      && app[k].rules != []
      && (forall r :: r in app[k].rules ==> r.source.portLists == [])
      && (forall a :: a in Refs(app[k]) ==> Belongs(Decode(cfg, k), Decode(cfg, a)))
  }

  /** A list is of the rule list's own rule; destination lists are of its own external service. */
  predicate Belongs(list: Id, id: Id) {
    && list.RuleListId? && id.OfRule() && id.owner == list.owner
    && (id.DestAddressId? || id.DestPortId? ==> id.exsvc == list.exsvc)
  }

  ghost predicate WellFormed(cfg: Config, t: Tenant, app: App) {
    && Typed(cfg, t, app)
    && Exact(app)
    && RulesLocal(cfg, t, app)
    && (forall ty :: ty in Types(t) ==> PolicyExact(cfg, t, app, ty))
    && Lookup(app, DenyAllAttr(cfg)) == Some(DENY_ALL_LIST)
  }

  /** Well formed, but for references that dangle and lists that are garbage. */
  ghost predicate Orderly(cfg: Config, t: Tenant, app: App) {
    && Typed(cfg, t, app)
    && RulesLocal(cfg, t, app)
    && (forall ty :: ty in Types(t) ==> PolicyExact(cfg, t, app, ty))
    && Lookup(app, DenyAllAttr(cfg)) == Some(DENY_ALL_LIST)
  }

  // ----- keys -----

  lemma NotLogKey(cfg: Config, t: Tenant, k: string)
    requires ValidTenant(cfg, t) && !Decode(cfg, k).UnknownId?
    ensures k !in LogDecl(cfg, t)
  {
    hide Decode, Contains, DenyAllAttr;
  }

  lemma AttrKind(cfg: Config, t: Tenant, id: Id)
    requires ValidTenant(cfg, t) && ValidId(id) && Canonical(cfg, id) == id
    requires id.PolicyId? ==> '/' !in id.routeDomain
    ensures Decode(cfg, Attr(cfg, id)) == id
    ensures KeyKind(cfg, t, Attr(cfg, id)) == IdKind(cfg, t, id)
  {
    hide Decode, Attr, IdKind, LogDecl, Contains, DenyAllAttr;
    assert !id.UnknownId?;
    hide ValidId;
    DecodeAttr(cfg, id);
    AttrShape(cfg, id);
    hide Canonical, ClusterNames;
    NotLogKey(cfg, t, Attr(cfg, id));
    hide ValidTenant;
    assert '_' !in CLASS_KEY && '_' !in TEMPLATE_KEY;
  }

  function PolicyIdOf(cfg: Config, t: Tenant, ty: string): Id {
    PolicyId(ty, if ty == GLOBAL then "" else if cfg.supportRouteDomain then t.routeDomainName else "rd")
  }

  lemma PolicyKeyKind(cfg: Config, t: Tenant, ty: string)
    requires ValidTenant(cfg, t) && ty in Types(t)
    ensures KeyKind(cfg, t, PolicyKey(cfg, t, ty)) == PolicyKind
    ensures Decode(cfg, PolicyKey(cfg, t, ty)) == PolicyIdOf(cfg, t, ty)
  {
    var id := PolicyIdOf(cfg, t, ty);
    assert PolicyKey(cfg, t, ty) == Attr(cfg, id);
    hide Decode;
    AttrKind(cfg, t, id);
  }

  lemma FixedKinds(cfg: Config, t: Tenant, id: Id)
    requires ValidTenant(cfg, t) && id in {DenyAllId, VirtualServerId, VirtualAddressId, GatewayPoolId}
    ensures KeyKind(cfg, t, Attr(cfg, id)) == if id.DenyAllId? then RuleListKind else InfraKind
  {
    hide KeyKind;
    AttrKind(cfg, t, id);
  }

  /** Of the keys a delete skips, only deny-all names a rule list, and none a list or a policy. */
  predicate SkipsNoLists(cfg: Config, t: Tenant, app: App) {
    forall k :: k in app && k in SkipKeys(cfg, t) ==>
      && !app[k].Policy? && !app[k].IsList()
      && (app[k].RuleList? <==> k == DenyAllAttr(cfg))
  }

  lemma SkippedKind(cfg: Config, t: Tenant, k: string)
    requires ValidTenant(cfg, t) && k in SkipKeys(cfg, t) && k != DenyAllAttr(cfg)
    ensures KeyKind(cfg, t, k) in {ScalarKind, LogKind, InfraKind}
  {
    hide Decode, ValidId, Under, Join;
    if k !in {CLASS_KEY, TEMPLATE_KEY} && k !in LogDecl(cfg, t) {
      hide KeyKind;
      if k == VirtualServerAttr(cfg) {
        FixedKinds(cfg, t, VirtualServerId);
      } else if k == VirtualAddressAttr(cfg) {
        FixedKinds(cfg, t, VirtualAddressId);
      } else {
        FixedKinds(cfg, t, GatewayPoolId);
      }
    }
  }

  lemma TypedSkips(cfg: Config, t: Tenant, app: App)
    requires ValidTenant(cfg, t) && Typed(cfg, t, app)
    ensures SkipsNoLists(cfg, t, app)
  {
    hide KeyKind;
    forall k | k in app && k in SkipKeys(cfg, t)
      ensures !app[k].Policy? && !app[k].IsList() && (app[k].RuleList? <==> k == DenyAllAttr(cfg))
    {
      if k == DenyAllAttr(cfg) {
        FixedKinds(cfg, t, DenyAllId);
      } else {
        SkippedKind(cfg, t, k);
      }
    }
  }

  /** The deny-all key is skipped by deletes; its path is the only one the merge takes for deny-all. */
  lemma RuleListPath(cfg: Config, t: Tenant, k: string)
    requires ValidTenant(cfg, t) && RuleListKey(cfg, k)
    ensures Origin(PartitionPath(t.name, k)) == k
    ensures Contains(PartitionPath(t.name, k), DenyAllAttr(cfg)) <==> k == DenyAllAttr(cfg)
  {
    var id := Decode(cfg, k);
    AttrShape(cfg, id);
    PathParts(t.name, k);
    DenyPathRecognised(cfg, t.name, id);
    DecodeAttr(cfg, DenyAllId);
  }

  // ----- rule lists and lists of a merge -----

  lemma TypedAgree(cfg: Config, t: Tenant, src: App, delta: App)
    requires Typed(cfg, t, src) && Typed(cfg, t, delta)
    ensures KindsAgree(src, delta)
  {
    hide KeyKind;
    assert forall k :: k in src && k in delta ==>
        KindOf(src[k]) == KeyKind(cfg, t, k) && KindOf(delta[k]) == KeyKind(cfg, t, k);
  }

  lemma MergedTyped(cfg: Config, t: Tenant, isDelete: bool, src: App, delta: App)
    requires Typed(cfg, t, src) && Typed(cfg, t, delta)
    ensures Typed(cfg, t, Merge(cfg, t, isDelete, src, delta))
  {
  }

  /** Which rule lists an add leaves, and with what rules. */
  lemma AddedRuleList(cfg: Config, t: Tenant, src: App, delta: App, k: string)
    requires KindsAgree(src, delta)
    ensures var m := Merge(cfg, t, false, src, delta);
            && ((k in m && m[k].RuleList?) <==> ((k in src && src[k].RuleList?) || (k in delta && delta[k].RuleList?)))
            && (k in m && m[k].RuleList? ==> m[k] == if k in delta then delta[k] else src[k])
  {
  }

  /** Which rule lists a delete leaves. */
  lemma KeptRuleList(cfg: Config, t: Tenant, src: App, delta: App, k: string)
    requires KindsAgree(src, delta) && SkipsNoLists(cfg, t, src)
    ensures var m := Merge(cfg, t, true, src, delta);
            && ((k in m && m[k].RuleList?) <==>
                  (k in src && src[k].RuleList? && (k !in delta || k == DenyAllAttr(cfg))))
            && (k in m && m[k].RuleList? ==> m[k] == src[k])
  {
  }

  // ----- exactness of references -----

  lemma NoGarbage(cfg: Config, t: Tenant, isDelete: bool, src: App, delta: App)
    ensures var m := Merge(cfg, t, isDelete, src, delta);
            forall a :: a in m && m[a].IsList() ==> Referenced(m, a)
  {
    var m := Merge(cfg, t, isDelete, src, delta);
    SweepIsExact(cfg, Overlay(cfg, t, isDelete, src, delta));
    assert forall a :: a in m ==> Kept(cfg, m, a);
  }

  lemma ListSurvives(cfg: Config, t: Tenant, isDelete: bool, src: App, delta: App, a: string)
    requires var o := MergedAt(cfg, t, isDelete, src, delta, a); o.Some? && o.value.IsList()
    requires Referenced(Merge(cfg, t, isDelete, src, delta), a)
    ensures Lookup(Merge(cfg, t, isDelete, src, delta), a) == MergedAt(cfg, t, isDelete, src, delta, a)
  {
    SweepKeepsReferences(cfg, Overlay(cfg, t, isDelete, src, delta), a);
  }

  lemma AddedList(cfg: Config, t: Tenant, src: App, delta: App, a: string)
    requires KindsAgree(src, delta)
    requires (a in src && src[a].IsList()) || (a in delta && delta[a].IsList())
    ensures var o := if a in delta then delta[a] else src[a];
            MergedAt(cfg, t, false, src, delta, a) == Some(o) && o.IsList()
  {
  }

  lemma AddNoDangling(cfg: Config, t: Tenant, src: App, delta: App, a: string)
    requires KindsAgree(src, delta) && Exact(src) && Exact(delta)
    requires Referenced(Merge(cfg, t, false, src, delta), a)
    ensures Lookup(Merge(cfg, t, false, src, delta), a) == Some(if a in delta then delta[a] else src[a])
    ensures (if a in delta then delta[a] else src[a]).IsList()
  {
    var m := Merge(cfg, t, false, src, delta);
    var k :| k in m && a in Refs(m[k]);
    AddedRuleList(cfg, t, src, delta, k);
    if k in delta {
      assert Referenced(delta, a);
    } else {
      assert Referenced(src, a);
    }
    AddedList(cfg, t, src, delta, a);
    ListSurvives(cfg, t, false, src, delta, a);
  }

  /** An add of an exact delta to an exact application is exact again. */
  lemma AddExact(cfg: Config, t: Tenant, src: App, delta: App)
    requires KindsAgree(src, delta) && Exact(src) && Exact(delta)
    ensures Exact(Merge(cfg, t, false, src, delta))
  {
    NoGarbage(cfg, t, false, src, delta);
    forall a | Referenced(Merge(cfg, t, false, src, delta), a) { AddNoDangling(cfg, t, src, delta, a); }
  }

  /** Every dangling reference of the source is mended: its rule list is replaced, or its list is supplied. */
  predicate Repairs(src: App, delta: App) {
    forall k, a :: k in src && src[k].RuleList? && k !in delta && a in Refs(src[k]) ==>
      (a in src && src[a].IsList()) || (a in delta && delta[a].IsList())
  }

  lemma RepairedReference(cfg: Config, t: Tenant, src: App, delta: App, a: string)
    requires KindsAgree(src, delta) && Exact(delta) && Repairs(src, delta)
    requires Referenced(Merge(cfg, t, false, src, delta), a)
    ensures var m := Merge(cfg, t, false, src, delta); a in m && m[a].IsList()
  {
    hide Merge;
    var m := Merge(cfg, t, false, src, delta);
    var k :| k in m && a in Refs(m[k]);
    AddedRuleList(cfg, t, src, delta, k);
    if k in delta {
      assert Referenced(delta, a);
    }
    AddedList(cfg, t, src, delta, a);
    ListSurvives(cfg, t, false, src, delta, a);
  }

  lemma KeptReference(cfg: Config, t: Tenant, src: App, delta: App, k: string, a: string)
    requires KindsAgree(src, delta) && Exact(Merge(cfg, t, false, src, delta))
    requires k in src && src[k].RuleList? && k !in delta && a in Refs(src[k])
    ensures (a in src && src[a].IsList()) || (a in delta && delta[a].IsList())
  {
    var m := Merge(cfg, t, false, src, delta);
    AddedRuleList(cfg, t, src, delta, k);
    assert Referenced(m, a);
    assert MergedAt(cfg, t, false, src, delta, a) == Some(m[a]);
  }

  /** An add makes a source with dangling references exact again exactly when it mends them all. */
  lemma AddExactIffRepairs(cfg: Config, t: Tenant, src: App, delta: App)
    requires KindsAgree(src, delta) && Exact(delta)
    ensures Exact(Merge(cfg, t, false, src, delta)) <==> Repairs(src, delta)
  {
    hide Merge, KindsAgree, Refs;
    NoGarbage(cfg, t, false, src, delta);
    if Repairs(src, delta) {
      forall a | Referenced(Merge(cfg, t, false, src, delta), a) { RepairedReference(cfg, t, src, delta, a); }
    }
    if Exact(Merge(cfg, t, false, src, delta)) {
      forall k, a | k in src && src[k].RuleList? && k !in delta && a in Refs(src[k])
        ensures (a in src && src[a].IsList()) || (a in delta && delta[a].IsList())
      {
        KeptReference(cfg, t, src, delta, k, a);
      }
    }
  }

  /** Every surviving rule list keeps its lists: whoever refers to a list of the delta is in the delta. */
  predicate Covers(src: App, delta: App) {
    forall k, a :: k in src && src[k].RuleList? && a in Refs(src[k]) && a in delta ==> k in delta
  }

  /** Of a rule list that refers to nothing, like deny-all, nothing can be taken away. */
  lemma DenyRefersToNothing()
    ensures Refs(DENY_ALL_LIST) == {}
  {
    var rules := DENY_ALL_LIST.rules;
    assert rules[..|rules| - 1] == [];
    assert RuleUses(rules[0]) == [];
  }

  lemma DeleteNoDangling(cfg: Config, t: Tenant, src: App, delta: App, a: string)
    requires KindsAgree(src, delta) && SkipsNoLists(cfg, t, src) && Exact(src) && Covers(src, delta)
    requires Lookup(src, DenyAllAttr(cfg)) == Some(DENY_ALL_LIST)
    requires Referenced(Merge(cfg, t, true, src, delta), a)
    ensures a in src && a !in delta && src[a].IsList()
    ensures Lookup(Merge(cfg, t, true, src, delta), a) == Some(src[a])
  {
    var m := Merge(cfg, t, true, src, delta);
    var k :| k in m && a in Refs(m[k]);
    DenyRefersToNothing();
    KeptRuleList(cfg, t, src, delta, k);
    assert Referenced(src, a);
    ListSurvives(cfg, t, true, src, delta, a);
  }

  lemma UncoveredDangles(cfg: Config, t: Tenant, src: App, delta: App, k: string, a: string)
    requires KindsAgree(src, delta) && SkipsNoLists(cfg, t, src) && Exact(src)
    requires k in src && src[k].RuleList? && a in Refs(src[k]) && a in delta && k !in delta
    ensures var m := Merge(cfg, t, true, src, delta); Referenced(m, a) && a !in m
  {
    KeptRuleList(cfg, t, src, delta, k);
    assert Referenced(src, a);
    assert src[a].IsList() && a !in SkipKeys(cfg, t);
  }

  /** A delete leaves dangling references exactly when its delta does not cover the lists it removes. */
  lemma DeleteExactIffCovers(cfg: Config, t: Tenant, src: App, delta: App)
    requires KindsAgree(src, delta) && SkipsNoLists(cfg, t, src) && Exact(src)
    requires Lookup(src, DenyAllAttr(cfg)) == Some(DENY_ALL_LIST)
    ensures Exact(Merge(cfg, t, true, src, delta)) <==> Covers(src, delta)
  {
    NoGarbage(cfg, t, true, src, delta);
    if Covers(src, delta) {
      forall a | Referenced(Merge(cfg, t, true, src, delta), a) { DeleteNoDangling(cfg, t, src, delta, a); }
    } else {
      var k, a :| k in src && src[k].RuleList? && a in Refs(src[k]) && a in delta && k !in delta;
      UncoveredDangles(cfg, t, src, delta, k, a);
    }
  }

  // ----- policies -----

  lemma PolicyOf(cfg: Config, t: Tenant, app: App, ty: string)
    requires ValidTenant(cfg, t) && Typed(cfg, t, app) && ty in Types(t) && PolicyExact(cfg, t, app, ty)
    ensures Lookup(app, PolicyKey(cfg, t, ty)) == Some(Policy(Uses(cfg, t, app, ty)))
  {
    PolicyKeyKind(cfg, t, ty);
    hide KeyKind;
    assert KindOf(app[PolicyKey(cfg, t, ty)]) == PolicyKind;
  }

  /** A policy of the merged application is the merge of the two policies. */
  lemma MergedUses(cfg: Config, t: Tenant, isDelete: bool, src: App, delta: App, ty: string)
    requires ValidTenant(cfg, t) && ty in Types(t) && SkipsNoLists(cfg, t, src)
    requires Typed(cfg, t, src) && PolicyExact(cfg, t, src, ty)
    requires Typed(cfg, t, delta) && PolicyExact(cfg, t, delta, ty)
    ensures var m := Merge(cfg, t, isDelete, src, delta);
            && Lookup(m, PolicyKey(cfg, t, ty)) == Some(Policy(Uses(cfg, t, m, ty)))
            && Uses(cfg, t, m, ty)
               == MergeUses(DenyAllAttr(cfg), isDelete, Uses(cfg, t, src, ty), Uses(cfg, t, delta, ty))
  {
    PolicyOf(cfg, t, src, ty);
    PolicyOf(cfg, t, delta, ty);
  }

  /** In a well-formed application the entry for a rule list is there, or not, as the rule list is. */
  lemma EntryIffRuleList(cfg: Config, t: Tenant, app: App, ty: string, k: string)
    requires ValidTenant(cfg, t) && PolicyExact(cfg, t, app, ty) && RuleListKey(cfg, k) && TypeOf(cfg, k) == ty
    ensures PartitionPath(t.name, k) in Uses(cfg, t, app, ty) <==> k in app && app[k].RuleList?
  {
    RuleListPath(cfg, t, k);
  }

  /** Both kinds of request keep the entries of a policy in step with the rule lists of its type. */
  lemma MergedPolicyExact(cfg: Config, t: Tenant, isDelete: bool, src: App, delta: App, ty: string)
    requires ValidTenant(cfg, t) && ty in Types(t) && SkipsNoLists(cfg, t, src)
    requires Typed(cfg, t, src) && RulesLocal(cfg, t, src) && PolicyExact(cfg, t, src, ty)
    requires Typed(cfg, t, delta) && RulesLocal(cfg, t, delta) && PolicyExact(cfg, t, delta, ty)
    ensures PolicyExact(cfg, t, Merge(cfg, t, isDelete, src, delta), ty)
  {
    hide Decode, TypeOf, RuleListKey, Merge, MergeUses, Uses, PartitionPath, Origin, Contains, DenyAllAttr;
    var m, deny := Merge(cfg, t, isDelete, src, delta), DenyAllAttr(cfg);
    var srcUses, deltaUses := Uses(cfg, t, src, ty), Uses(cfg, t, delta, ty);
    TypedAgree(cfg, t, src, delta);
    MergedUses(cfg, t, isDelete, src, delta, ty);
    MergeFacts(deny, isDelete, srcUses, deltaUses);
    var uses := Uses(cfg, t, m, ty);
    forall u | u in uses
      ensures u == PartitionPath(t.name, Origin(u)) && TypeOf(cfg, Origin(u)) == ty
      ensures Origin(u) in m && m[Origin(u)].RuleList?
    {
      MergedEntry(cfg, t, isDelete, src, delta, ty, u);
    }
    forall k | k in m && m[k].RuleList? && TypeOf(cfg, k) == ty
      ensures PartitionPath(t.name, k) in uses
    {
      MergedEntryBack(cfg, t, isDelete, src, delta, ty, k);
    }
    if ty == SVC {
      var d := PartitionPath(t.name, deny);
      DenyKey(cfg, t);
      assert d in uses;
      var last := uses[|uses| - 1];
      assert Contains(last, deny) && last in uses;
      MergedEntry(cfg, t, isDelete, src, delta, ty, last);
      RuleListPath(cfg, t, Origin(last));
    }
  }

  lemma DenyKey(cfg: Config, t: Tenant)
    requires ValidTenant(cfg, t)
    ensures RuleListKey(cfg, DenyAllAttr(cfg)) && TypeOf(cfg, DenyAllAttr(cfg)) == SVC
    ensures Contains(PartitionPath(t.name, DenyAllAttr(cfg)), DenyAllAttr(cfg))
    ensures Origin(PartitionPath(t.name, DenyAllAttr(cfg))) == DenyAllAttr(cfg)
  {
    DecodeAttr(cfg, DenyAllId);
    RuleListPath(cfg, t, DenyAllAttr(cfg));
  }

  lemma MergedEntry(cfg: Config, t: Tenant, isDelete: bool, src: App, delta: App, ty: string, u: string)
    requires ValidTenant(cfg, t) && ty in Types(t) && SkipsNoLists(cfg, t, src) && KindsAgree(src, delta)
    requires RulesLocal(cfg, t, src) && PolicyExact(cfg, t, src, ty)
    requires RulesLocal(cfg, t, delta) && PolicyExact(cfg, t, delta, ty)
    requires u in MergeUses(DenyAllAttr(cfg), isDelete, Uses(cfg, t, src, ty), Uses(cfg, t, delta, ty))
    ensures var m := Merge(cfg, t, isDelete, src, delta); Origin(u) in m && m[Origin(u)].RuleList?
    ensures u == PartitionPath(t.name, Origin(u)) && TypeOf(cfg, Origin(u)) == ty && RuleListKey(cfg, Origin(u))
  {
    hide Decode, TypeOf, RuleListKey, Merge, MergeUses, Uses, PartitionPath, Origin, Contains, DenyAllAttr;
    var k := Origin(u);
    MergeFacts(DenyAllAttr(cfg), isDelete, Uses(cfg, t, src, ty), Uses(cfg, t, delta, ty));
    assert (k in src && src[k].RuleList?) || (k in delta && delta[k].RuleList?);
    RuleListPath(cfg, t, k);
    if isDelete {
      KeptRuleList(cfg, t, src, delta, k);
    } else {
      AddedRuleList(cfg, t, src, delta, k);
    }
  }

  lemma MergedEntryBack(cfg: Config, t: Tenant, isDelete: bool, src: App, delta: App, ty: string, k: string)
    requires ValidTenant(cfg, t) && ty in Types(t) && SkipsNoLists(cfg, t, src) && KindsAgree(src, delta)
    requires RulesLocal(cfg, t, src) && PolicyExact(cfg, t, src, ty)
    requires RulesLocal(cfg, t, delta) && PolicyExact(cfg, t, delta, ty)
    requires var m := Merge(cfg, t, isDelete, src, delta); k in m && m[k].RuleList? && TypeOf(cfg, k) == ty
    ensures PartitionPath(t.name, k)
            in MergeUses(DenyAllAttr(cfg), isDelete, Uses(cfg, t, src, ty), Uses(cfg, t, delta, ty))
  {
    hide Decode, TypeOf, RuleListKey, Merge, MergeUses, Uses, PartitionPath, Origin, Contains, DenyAllAttr;
    MergeFacts(DenyAllAttr(cfg), isDelete, Uses(cfg, t, src, ty), Uses(cfg, t, delta, ty));
    if isDelete {
      KeptRuleList(cfg, t, src, delta, k);
      RuleListPath(cfg, t, k);
    } else {
      AddedRuleList(cfg, t, src, delta, k);
    }
  }

  lemma MergedRulesLocal(cfg: Config, t: Tenant, isDelete: bool, src: App, delta: App)
    requires KindsAgree(src, delta) && SkipsNoLists(cfg, t, src)
    requires RulesLocal(cfg, t, src) && RulesLocal(cfg, t, delta)
    ensures RulesLocal(cfg, t, Merge(cfg, t, isDelete, src, delta))
  {
    hide Decode, TypeOf, RuleListKey, Refs, Merge, DenyAllAttr;
    var m := Merge(cfg, t, isDelete, src, delta);
    forall k | k in m && m[k].RuleList?
      ensures (k in src && m[k] == src[k]) || (k in delta && m[k] == delta[k])
    {
      if isDelete {
        KeptRuleList(cfg, t, src, delta, k);
      } else {
        AddedRuleList(cfg, t, src, delta, k);
      }
    }
    assert forall k :: k in m && m[k].RuleList? ==> RuleListKey(cfg, k);
  }

  /** Deny-all's own rule list survives both kinds of request. */
  lemma MergedDenyAll(cfg: Config, t: Tenant, isDelete: bool, src: App, delta: App)
    requires KindsAgree(src, delta) && SkipsNoLists(cfg, t, src)
    requires Lookup(src, DenyAllAttr(cfg)) == Some(DENY_ALL_LIST)
             && Lookup(delta, DenyAllAttr(cfg)) == Some(DENY_ALL_LIST)
    ensures Lookup(Merge(cfg, t, isDelete, src, delta), DenyAllAttr(cfg)) == Some(DENY_ALL_LIST)
  {
  }

  /** No request panics on applications whose rule lists have rules. */
  lemma OrderlyDoesNotPanic(cfg: Config, t: Tenant, isDelete: bool, src: Option<App>, delta: App)
    requires (src.Some? ==> RulesLocal(cfg, t, src.value)) && RulesLocal(cfg, t, delta)
    ensures !Panics(cfg, t, isDelete, src, delta)
  {
    hide TypeOf, Decode, Refs, RuleListKey;
    if src.Some? {
      var overlay := Overlay(cfg, t, isDelete, src.value, delta);
      forall k | k in overlay && overlay[k].RuleList?
        ensures overlay[k].rules != []
      {
        assert RuleListKey(cfg, k) || !RuleListKey(cfg, k);
      }
    }
  }

  /** Whatever becomes of references, both kinds of request keep all else in order. */
  lemma MergeOrderly(cfg: Config, t: Tenant, isDelete: bool, src: App, delta: App)
    requires ValidTenant(cfg, t) && Orderly(cfg, t, src) && Orderly(cfg, t, delta)
    ensures Orderly(cfg, t, Merge(cfg, t, isDelete, src, delta))
  {
    hide KeyKind, PolicyExact, RulesLocal, Merge;
    TypedAgree(cfg, t, src, delta);
    TypedSkips(cfg, t, src);
    MergedTyped(cfg, t, isDelete, src, delta);
    MergedRulesLocal(cfg, t, isDelete, src, delta);
    forall ty | ty in Types(t)
      ensures PolicyExact(cfg, t, Merge(cfg, t, isDelete, src, delta), ty)
    {
      MergedPolicyExact(cfg, t, isDelete, src, delta, ty);
    }
    MergedDenyAll(cfg, t, isDelete, src, delta);
  }

  /** An add brings an application that only dangles back into good order exactly when it mends every reference. */
  lemma AddRestores(cfg: Config, t: Tenant, src: App, delta: App)
    requires ValidTenant(cfg, t) && Orderly(cfg, t, src) && WellFormed(cfg, t, delta)
    ensures WellFormed(cfg, t, Merge(cfg, t, false, src, delta)) <==> Repairs(src, delta)
  {
    hide KeyKind, PolicyExact, RulesLocal, Merge, Exact, Repairs;
    TypedAgree(cfg, t, src, delta);
    MergeOrderly(cfg, t, false, src, delta);
    AddExactIffRepairs(cfg, t, src, delta);
  }

  /**
   * Well-formedness is kept by every add of a well-formed delta, and by a delete exactly when the delta covers
   * the lists it removes.
   */
  lemma MergeWellFormed(cfg: Config, t: Tenant, isDelete: bool, src: App, delta: App)
    requires ValidTenant(cfg, t) && WellFormed(cfg, t, src) && WellFormed(cfg, t, delta)
    ensures WellFormed(cfg, t, Merge(cfg, t, isDelete, src, delta)) <==> (isDelete ==> Covers(src, delta))
  {
    hide KeyKind, PolicyExact, RulesLocal, Merge, Exact, Covers;
    TypedAgree(cfg, t, src, delta);
    TypedSkips(cfg, t, src);
    MergeOrderly(cfg, t, isDelete, src, delta);
    if isDelete {
      DeleteExactIffCovers(cfg, t, src, delta);
    } else {
      AddExact(cfg, t, src, delta);
    }
  }
}
