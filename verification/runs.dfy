/** Whole runs of add and delete requests against one partition. */
module Runs {
  import opened Model
  import opened Text
  import opened Naming
  import opened Engine
  import opened EngineLaws
  import opened States

  datatype Sync = Sync(isDelete: bool, delta: App)

  /** A request the controller may send: a generated delta, and for a delete one that covers what it removes. */
  ghost predicate Admissible(cfg: Config, t: Tenant, src: Option<App>, sync: Sync) {
    WellFormed(cfg, t, sync.delta) && (sync.isDelete && src.Some? ==> Covers(src.value, sync.delta))
  }

  /** A partition that was never set up, or one in good order. */
  ghost predicate GoodState(cfg: Config, t: Tenant, src: Option<App>) {
    src.Some? ==> WellFormed(cfg, t, src.value)
  }

  function After(cfg: Config, t: Tenant, start: Option<App>, syncs: seq<Sync>): Option<App> {
    if syncs == [] then start
    else
      var n := |syncs| - 1;
      Next(cfg, t, syncs[n].isDelete, After(cfg, t, start, syncs[..n]), syncs[n].delta)
  }

  ghost predicate AdmissibleRun(cfg: Config, t: Tenant, start: Option<App>, syncs: seq<Sync>) {
    forall i :: 0 <= i < |syncs| ==> Admissible(cfg, t, After(cfg, t, start, syncs[..i]), syncs[i])
  }

  lemma ScalarKeys(cfg: Config, t: Tenant)
    ensures KeyKind(cfg, t, CLASS_KEY) == ScalarKind && KeyKind(cfg, t, TEMPLATE_KEY) == ScalarKind
  {
    hide Decode, Attr, ValidId;
  }

  /** The keys of the default application name what they hold, and are pairwise distinct. */
  lemma DefaultKeys(cfg: Config, t: Tenant)
    requires ValidTenant(cfg, t)
    ensures KeyKind(cfg, t, DenyAllAttr(cfg)) == RuleListKind
    ensures forall ty :: ty in Types(t) ==> KeyKind(cfg, t, PolicyKey(cfg, t, ty)) == PolicyKind
    ensures forall ty, ty' :: ty in Types(t) && ty' in Types(t) && ty != ty' ==>
            PolicyKey(cfg, t, ty) != PolicyKey(cfg, t, ty')
  {
    hide KeyKind, Decode, PolicyKey, Under, Join;
    FixedKinds(cfg, t, DenyAllId);
    forall ty | ty in Types(t)
      ensures Decode(cfg, PolicyKey(cfg, t, ty)) == PolicyIdOf(cfg, t, ty)
      ensures KeyKind(cfg, t, PolicyKey(cfg, t, ty)) == PolicyKind
    {
      PolicyKeyKind(cfg, t, ty);
    }
  }

  /** The default application, key by key. */
  lemma DefaultValues(cfg: Config, t: Tenant)
    requires ValidTenant(cfg, t)
    ensures var app, deny := DefaultApp(cfg, t.name, t), DenyAllAttr(cfg);
            && Typed(cfg, t, app)
            && Lookup(app, deny) == Some(DENY_ALL_LIST)
            && (forall ty :: ty in Types(t) ==>
                  Lookup(app, PolicyKey(cfg, t, ty))
                    == Some(Policy(if ty == SVC then [PartitionPath(t.name, deny)] else [])))
            && (forall k :: k in app && app[k].RuleList? ==> k == deny)
            && (forall k :: k in app ==> !app[k].IsList())
  {
    hide KeyKind, DenyAllAttr, PolicyKey, PartitionPath, ValidTenant;
    DefaultKeys(cfg, t);
    ScalarKeys(cfg, t);
  }

  /** Beside policies the default application says that it is a shared AS3 application, and has one rule: to drop. */
  lemma DefaultScalars(cfg: Config, t: Tenant)
    requires ValidTenant(cfg, t)
    ensures var deny := Lookup(DefaultApp(cfg, t.name, t), DenyAllAttr(cfg));
            && deny.Some? && deny.value.RuleList? && |deny.value.rules| == 1
            && var rule := deny.value.rules[0];
               rule.name == "deny_all_rule" && rule.protocol == "any" && rule.action == "drop" && !rule.logging
    ensures var app := DefaultApp(cfg, t.name, t);
            Lookup(app, "class") == Some(Scalar("Application")) && Lookup(app, "template") == Some(Scalar("shared"))
  {
    hide KeyKind, ValidTenant, DenyAllAttr, PolicyKey, PartitionPath;
    DefaultKeys(cfg, t);
    ScalarKeys(cfg, t);
  }

  /** The application posted for an empty partition is well formed. */
  lemma DefaultWellFormed(cfg: Config, t: Tenant)
    requires ValidTenant(cfg, t)
    ensures WellFormed(cfg, t, DefaultApp(cfg, t.name, t))
  {
    hide KeyKind, Decode, DenyAllAttr, PartitionPath, RuleListKey, RulesRefs, Origin, TypeOf, DefaultApp, PolicyKey;
    var app, deny := DefaultApp(cfg, t.name, t), DenyAllAttr(cfg);
    DefaultValues(cfg, t);
    DenyKey(cfg, t);
    DenyRefersToNothing();
    assert Exact(app);
    assert RulesLocal(cfg, t, app);
    forall ty | ty in Types(t)
      ensures PolicyExact(cfg, t, app, ty)
    {
      assert Uses(cfg, t, app, ty) == if ty == SVC then [PartitionPath(t.name, deny)] else [];
    }
  }

  /** Where every surviving key has its old value, an exact source loses nothing. */
  lemma NothingSwept(cfg: Config, t: Tenant, src: App, delta: App, k: string)
    requires KindsAgree(src, delta) && SelfContained(cfg, src) && k in src
    requires var m := Merge(cfg, t, false, src, delta);
             && (forall k' :: k' in m ==> k' in src && m[k'] == src[k'])
             && (forall k' :: k' in src && k' !in m ==>
                   (src[k'].IsList() && !Referenced(m, k')) || (src[k'].LogObject? && !cfg.logProfile))
    ensures k in Merge(cfg, t, false, src, delta)
  {
    assert Kept(cfg, src, k);
    if src[k].IsList() {
      var j :| j in src && k in Refs(src[j]);
      AddedRuleList(cfg, t, src, delta, j);
      hide Merge;
      assert Referenced(Merge(cfg, t, false, src, delta), k);
    }
  }

  /** In a well-formed state the merged application is what the device ends up with, posted or not. */
  lemma AddAlwaysMerges(cfg: Config, t: Tenant, src: App, delta: App)
    requires WellFormed(cfg, t, src) && WellFormed(cfg, t, delta)
    ensures Next(cfg, t, false, Some(src), delta) == Some(Merge(cfg, t, false, src, delta))
  {
    hide Merge, KeyKind, RulesLocal, PolicyExact, Refs, IsDiff, Kept, Referenced;
    if Answered(cfg, t, false, Some(src), delta) == NoPost {
      TypedAgree(cfg, t, src, delta);
      WellFormedContained(cfg, t, delta);
      SkippedPostIsSound(cfg, t, src, delta);
      WellFormedContained(cfg, t, src);
      forall k | k in src { NothingSwept(cfg, t, src, delta, k); }
      assert Merge(cfg, t, false, src, delta) == src;
    }
  }

  lemma WellFormedContained(cfg: Config, t: Tenant, app: App)
    requires Typed(cfg, t, app) && Exact(app)
    ensures SelfContained(cfg, app)
  {
    forall k | k in app
      ensures Kept(cfg, app, k)
    {
      if app[k].LogObject? {
        LogKindOnlyIfEnabled(cfg, t, k);
      }
    }
  }

  lemma LogKindOnlyIfEnabled(cfg: Config, t: Tenant, k: string)
    requires KeyKind(cfg, t, k) == LogKind
    ensures cfg.logProfile
  {
    hide Decode, ValidId, Attr;
  }

  /** One request from a good state leads to a good state; a delete that covers too little does not. */
  lemma NextIsGood(cfg: Config, t: Tenant, src: Option<App>, sync: Sync)
    requires ValidTenant(cfg, t) && GoodState(cfg, t, src) && WellFormed(cfg, t, sync.delta)
    ensures GoodState(cfg, t, Next(cfg, t, sync.isDelete, src, sync.delta)) <==> Admissible(cfg, t, src, sync)
  {
    hide WellFormed, Covers, Merge;
    if src.Some? {
      MergeWellFormed(cfg, t, sync.isDelete, src.value, sync.delta);
    }
  }

  /**
   * Every state an admissible run reaches is well formed: no reference dangles and no list is garbage, policies
   * list exactly their rule lists without duplicates, and deny-all is the last and only deny-all entry.
   */
  lemma {:induction false} RunIsGood(cfg: Config, t: Tenant, start: Option<App>, syncs: seq<Sync>)
    requires ValidTenant(cfg, t) && GoodState(cfg, t, start) && AdmissibleRun(cfg, t, start, syncs)
    ensures GoodState(cfg, t, After(cfg, t, start, syncs))
  {
    hide Next, WellFormed, Covers, Merge;
    if syncs != [] {
      var n := |syncs| - 1;
      forall i | 0 <= i < n
        ensures Admissible(cfg, t, After(cfg, t, start, syncs[..n][..i]), syncs[..n][i])
      {
        assert syncs[..n][..i] == syncs[..i];
      }
      RunIsGood(cfg, t, start, syncs[..n]);
      NextIsGood(cfg, t, After(cfg, t, start, syncs[..n]), syncs[n]);
    }
  }

  /** Spelled out for a run from nothing, or from the default application. */
  lemma ReachableStates(cfg: Config, t: Tenant, start: Option<App>, syncs: seq<Sync>, a: string, ty: string)
    requires ValidTenant(cfg, t) && start in {None, Some(DefaultApp(cfg, t.name, t))}
    requires AdmissibleRun(cfg, t, start, syncs) && After(cfg, t, start, syncs).Some? && ty in Types(t)
    ensures var app := After(cfg, t, start, syncs).value;
            var uses, denyPath := Uses(cfg, t, app, ty), PartitionPath(t.name, DenyAllAttr(cfg));
            && (Referenced(app, a) <==> a in app && app[a].IsList())
            && NoDuplicates(uses)
            && (forall u :: u in uses ==> u == PartitionPath(t.name, Origin(u)) && Origin(u) in app
                                          && app[Origin(u)].RuleList? && TypeOf(cfg, Origin(u)) == ty)
            && (forall k :: RuleListKey(cfg, k) && TypeOf(cfg, k) == ty ==>
                  (PartitionPath(t.name, k) in uses <==> k in app && app[k].RuleList?))
            && (forall i :: 0 <= i < |uses| ==>
                  (Contains(uses[i], DenyAllAttr(cfg)) <==> ty == SVC && i == |uses| - 1))
            && (ty == SVC ==> uses != [] && uses[|uses| - 1] == denyPath)
  {
    hide KeyKind, Decode, PartitionPath, Refs, Origin, RuleListKey, TypeOf, DefaultApp, DenyAllAttr, Contains;
    DefaultWellFormed(cfg, t);
    RunIsGood(cfg, t, start, syncs);
    var app := After(cfg, t, start, syncs).value;
    var uses := Uses(cfg, t, app, ty);
    forall k | RuleListKey(cfg, k) && TypeOf(cfg, k) == ty
      ensures PartitionPath(t.name, k) in uses <==> k in app && app[k].RuleList?
    {
      EntryIffRuleList(cfg, t, app, ty, k);
    }
    DenyOnlyLast(cfg, t, app, ty);
  }

  /** Deny-all is recognised in the service policy's last entry and nowhere else. */
  lemma DenyOnlyLast(cfg: Config, t: Tenant, app: App, ty: string)
    requires ValidTenant(cfg, t) && RulesLocal(cfg, t, app) && PolicyExact(cfg, t, app, ty)
    ensures var uses := Uses(cfg, t, app, ty);
            forall i :: 0 <= i < |uses| ==> (Contains(uses[i], DenyAllAttr(cfg)) <==> ty == SVC && i == |uses| - 1)
  {
    hide Decode, DenyAllAttr, PartitionPath, Origin, RuleListKey, TypeOf, Uses, Contains;
    var uses := Uses(cfg, t, app, ty);
    DenyKey(cfg, t);
    forall i | 0 <= i < |uses|
      ensures Contains(uses[i], DenyAllAttr(cfg)) <==> ty == SVC && i == |uses| - 1
    {
      assert uses[i] in uses;
      RuleListPath(cfg, t, Origin(uses[i]));
    }
  }
}
