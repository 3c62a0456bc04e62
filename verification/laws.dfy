/** Laws of the engine that hold for every source application, however it came about. */
module EngineLaws {
  import opened Model
  import opened Naming
  import opened PolicyMerge
  import opened Engine

  datatype Kind = ScalarKind | PolicyKind | RuleListKind | AddressKind | PortKind | LogKind | InfraKind | NoKind

  function KindOf(o: Obj): Kind {
    match o
    case Scalar(_) => ScalarKind
    case Policy(_) => PolicyKind
    case RuleList(_) => RuleListKind
    case AddressList(_, _) => AddressKind
    case PortList(_) => PortKind
    case LogObject(_) => LogKind
    case Infra(_) => InfraKind
  }

  predicate KindsAgree(src: App, delta: App) {
    forall k :: k in src && k in delta ==> KindOf(src[k]) == KindOf(delta[k])
  }

  /** Nothing in the delta would be swept from the delta itself. */
  predicate SelfContained(cfg: Config, delta: App) {
    forall k :: k in delta ==> Kept(cfg, delta, k)
  }

  // ----- the sweep -----

  /** Sweeping removes no rule list, so it changes no reference. */
  lemma SweepKeepsReferences(cfg: Config, app: App, a: string)
    ensures Referenced(Sweep(cfg, app), a) <==> Referenced(app, a)
  {
    if Referenced(app, a) {
      var k :| k in app && a in Refs(app[k]);
      assert k in Sweep(cfg, app);
    }
  }

  /** After a sweep no list is garbage, and sweeping again changes nothing. */
  lemma SweepIsExact(cfg: Config, app: App)
    ensures SelfContained(cfg, Sweep(cfg, app))
    ensures Sweep(cfg, Sweep(cfg, app)) == Sweep(cfg, app)
  {
    var swept := Sweep(cfg, app);
    forall k | k in swept
      ensures Kept(cfg, swept, k)
    {
      SweepKeepsReferences(cfg, app, k);
    }
  }

  lemma SweepNothing(cfg: Config, app: App)
    requires SelfContained(cfg, app)
    ensures Sweep(cfg, app) == app
  {
  }

  lemma {:induction false} OriginsHaveNoSlash(uses: seq<string>)
    ensures forall a :: a in OriginSet(uses) ==> '/' !in a
  {
    if uses != [] {
      OriginsHaveNoSlash(uses[..|uses| - 1]);
    }
  }

  lemma {:induction false} RefsHaveNoSlash(rules: seq<Rule>)
    ensures forall a :: a in RulesRefs(rules) ==> '/' !in a
  {
    if rules != [] {
      RefsHaveNoSlash(rules[..|rules| - 1]);
      OriginsHaveNoSlash(RuleUses(rules[|rules| - 1]));
    }
  }

  /** A list whose name holds a slash is swept, whatever refers to it: no path is read back as its name. */
  lemma SlashedListIsSwept(cfg: Config, app: App, k: string)
    requires '/' in k && k in app && app[k].IsList()
    ensures !Referenced(app, k) && k !in Sweep(cfg, app)
  {
    hide RulesRefs;
    if j :| j in app && k in Refs(app[j]) {
      RefsHaveNoSlash(app[j].rules);
    }
  }

  // ----- frame of a delete -----

  /** A delete takes away no more than its delta, unreferenced lists and disabled log objects; it adds nothing. */
  lemma DeleteFrame(cfg: Config, t: Tenant, src: App, delta: App, k: string)
    ensures var m := Merge(cfg, t, true, src, delta);
            && (k in m ==> k in src)
            && (k in src && k !in delta ==>
                  if k in m then m[k] == src[k]
                  else (src[k].IsList() && !Referenced(m, k)) || (src[k].LogObject? && !cfg.logProfile))
            && (k in src && src[k].Policy? ==> k in m && m[k].Policy?)
            && (k in src && k in SkipKeys(cfg, t) && !src[k].IsList() && (src[k].LogObject? ==> cfg.logProfile) ==>
                  k in m && m[k] == src[k])
  {
    SweepKeepsReferences(cfg, Overlay(cfg, t, true, src, delta), k);
  }

  // ----- change detection -----

  /**
   * When an add is answered without a post, the source already holds everything the delta asks for, and the
   * merged map is the source less unreferenced lists and disabled log objects.
   */
  lemma SkippedPostIsSound(cfg: Config, t: Tenant, src: App, delta: App)
    requires KindsAgree(src, delta) && SelfContained(cfg, delta)
    requires Answered(cfg, t, false, Some(src), delta) == NoPost
    ensures forall k :: k in delta && !delta[k].Scalar? && !delta[k].Policy? ==> k in src && src[k] == delta[k]
    ensures forall k, u :: k in delta && delta[k].Policy? && u in delta[k].uses
                           ==> k in src && src[k].Policy? && u in src[k].uses
    ensures var m := Merge(cfg, t, false, src, delta);
            && (forall k :: k in m ==> k in src && m[k] == src[k])
            && (forall k :: k in src && k !in m ==>
                  (src[k].IsList() && !Referenced(m, k)) || (src[k].LogObject? && !cfg.logProfile))
  {
    var overlay := Overlay(cfg, t, false, src, delta);
    var m := Sweep(cfg, overlay);
    forall k | k in delta && !delta[k].Scalar?
      ensures k in m
      ensures !delta[k].Policy? ==> m[k] == delta[k]
    {
      DeltaIsKept(cfg, t, src, delta, k);
    }
    forall k, u | k in delta && delta[k].Policy? && u in delta[k].uses
      ensures k in src && src[k].Policy? && u in src[k].uses
    {
      assert k in m;
      if k in src {
        AddMembers(DenyAllAttr(cfg), src[k].uses, delta[k].uses);
      }
    }
    forall k | k in src && k !in m
      ensures (src[k].IsList() && !Referenced(m, k)) || (src[k].LogObject? && !cfg.logProfile)
    {
      SweepKeepsReferences(cfg, overlay, k);
    }
  }

  /** After an add, a policy lists the entries of both sides and nothing else. */
  lemma AddMembers(deny: string, src: seq<string>, delta: seq<string>)
    ensures forall u :: u in MergeUses(deny, false, src, delta) <==> u in src || u in delta
  {
    FreshMembers(src, delta);
    DenyToEndMembers(deny, src + Fresh(src, delta));
  }

  /** The references of the delta's rule lists are references of the merged application. */
  lemma DeltaIsKept(cfg: Config, t: Tenant, src: App, delta: App, k: string)
    requires KindsAgree(src, delta) && SelfContained(cfg, delta) && k in delta
    ensures var overlay := Overlay(cfg, t, false, src, delta);
            k in overlay && Kept(cfg, overlay, k)
            && (!delta[k].Scalar? && !delta[k].Policy? ==> overlay[k] == delta[k])
  {
    var overlay := Overlay(cfg, t, false, src, delta);
    assert Kept(cfg, delta, k);
    if delta[k].IsList() {
      var j :| j in delta && k in Refs(delta[j]);
      assert overlay[j] == delta[j];
    }
  }

  /** After an add the partition holds the delta's objects, posted or not, whatever it held under those keys. */
  lemma AddStores(cfg: Config, t: Tenant, src: Option<App>, delta: App, k: string)
    requires SelfContained(cfg, delta) && (src.Some? ==> KindsAgree(src.value, delta))
    requires k in delta && !delta[k].Scalar? && !delta[k].Policy?
    ensures var next := Next(cfg, t, false, src, delta); next.Some? && Lookup(next.value, k) == Some(delta[k])
  {
    hide Overlay, IsDiff, Referenced, KindsAgree;
    if src.Some? {
      DeltaIsKept(cfg, t, src.value, delta, k);
      if Answered(cfg, t, false, src, delta) == NoPost {
        SkippedPostIsSound(cfg, t, src.value, delta);
      }
    }
  }

  /** After an add a policy lists the delta's entries, posted or not. */
  lemma AddLists(cfg: Config, t: Tenant, src: Option<App>, delta: App, k: string, u: string)
    requires SelfContained(cfg, delta) && (src.Some? ==> KindsAgree(src.value, delta))
    requires k in delta && delta[k].Policy? && u in delta[k].uses
    ensures var next := Next(cfg, t, false, src, delta);
            next.Some? && k in next.value && next.value[k].Policy? && u in next.value[k].uses
  {
    hide IsDiff, Referenced, MergeUses;
    if src.Some? {
      if Answered(cfg, t, false, src, delta) == NoPost {
        SkippedPostIsSound(cfg, t, src.value, delta);
      } else if k in src.value {
        AddMembers(DenyAllAttr(cfg), src.value[k].uses, delta[k].uses);
      }
    }
  }

  /** Log objects stay when the logging profile is configured, and go with any request when it is not. */
  lemma LogObjectsFollowProfile(cfg: Config, t: Tenant, isDelete: bool, src: App, delta: App, k: string)
    ensures var m := Merge(cfg, t, isDelete, src, delta);
            && (!cfg.logProfile && k in m ==> !m[k].LogObject?)
            && (cfg.logProfile && k in src && src[k].LogObject? && k !in delta ==> k in m && m[k] == src[k])
  {
    hide Referenced;
  }

  /** Scalars are never overwritten, nor deleted. */
  lemma ScalarsStay(cfg: Config, t: Tenant, isDelete: bool, src: App, delta: App, k: string)
    requires k in src && src[k].Scalar?
    ensures Lookup(Merge(cfg, t, isDelete, src, delta), k) == Some(src[k])
  {
    hide Referenced;
  }

  // ----- idempotence -----

  /** Every policy has its deny-all entry, if any, at the end. */
  predicate DenyOrdered(cfg: Config, delta: App) {
    forall k :: k in delta && delta[k].Policy? ==> DenyToEnd(DenyAllAttr(cfg), delta[k].uses) == delta[k].uses
  }

  lemma AddToItself(deny: string, uses: seq<string>)
    requires DenyToEnd(deny, uses) == uses
    ensures MergeUses(deny, false, uses, uses) == uses
  {
    FreshMembers(uses, uses);
    assert Fresh(uses, uses) == [] by {
      assert Fresh(uses, uses) == [] || Fresh(uses, uses)[0] in Fresh(uses, uses);
    }
    assert uses + [] == uses;
  }

  /** A second add leaves each of the delta's keys as the first one left it. */
  lemma AddIsStable(cfg: Config, t: Tenant, src: App, delta: App, k: string)
    requires SelfContained(cfg, delta) && DenyOrdered(cfg, delta) && KindsAgree(src, delta) && k in delta
    ensures var m := Merge(cfg, t, false, src, delta);
            k in m && MergedAt(cfg, t, false, m, delta, k) == Some(m[k])
  {
    DeltaIsKept(cfg, t, src, delta, k);
    if delta[k].Policy? {
      if k in src {
        AddFixedPoint(DenyAllAttr(cfg), src[k].uses, delta[k].uses);
      } else {
        AddToItself(DenyAllAttr(cfg), delta[k].uses);
      }
    }
  }

  /** Adding the same delta to its own result changes nothing, so the second request is not posted. */
  lemma AddIsIdempotent(cfg: Config, t: Tenant, src: Option<App>, delta: App)
    requires SelfContained(cfg, delta) && DenyOrdered(cfg, delta)
    requires src.Some? ==> KindsAgree(src.value, delta)
    ensures var next := Next(cfg, t, false, src, delta);
            next.Some? && Answered(cfg, t, false, next, delta) == NoPost
  {
    if src.None? {
      forall k | k in delta && delta[k].Policy? { AddToItself(DenyAllAttr(cfg), delta[k].uses); }
      assert Overlay(cfg, t, false, delta, delta) == delta;
      SweepNothing(cfg, delta);
    } else {
      var m := Merge(cfg, t, false, src.value, delta);
      forall k | k in delta { AddIsStable(cfg, t, src.value, delta, k); }
      assert Overlay(cfg, t, false, m, delta) == m;
      SweepIsExact(cfg, Overlay(cfg, t, false, src.value, delta));
    }
  }

  // ----- two deltas of the same shape -----

  /** The same keys, kinds and policy entries; the order of entries, and the values of other objects, may differ. */
  ghost predicate SameShape(a: App, b: App) {
    && a.Keys == b.Keys
    && KindsAgree(a, b)
    && (forall k, u :: k in a && k in b && a[k].Policy? && b[k].Policy? ==> (u in a[k].uses <==> u in b[k].uses))
  }

  /** What two deltas of one shape ask for beside policies is the same. */
  predicate SameObjects(a: App, b: App) {
    forall k :: k in a && k in b && !a[k].Scalar? && !a[k].Policy? ==> a[k] == b[k]
  }

  /** After an add the delta's keys hold objects of their kinds, and policies have deny-all in its place. */
  lemma AddedKey(cfg: Config, t: Tenant, src: Option<App>, delta: App, k: string)
    requires SelfContained(cfg, delta) && DenyOrdered(cfg, delta) && (src.Some? ==> KindsAgree(src.value, delta))
    requires k in delta
    ensures var next := Next(cfg, t, false, src, delta);
            && next.Some? && k in next.value && KindOf(next.value[k]) == KindOf(delta[k])
            && (next.value[k].Policy? ==>
                  DenyToEnd(DenyAllAttr(cfg), next.value[k].uses) == next.value[k].uses)
  {
    hide Referenced, MergeUses, DenyToEnd;
    if src.Some? {
      var m := Merge(cfg, t, false, src.value, delta);
      DeltaIsKept(cfg, t, src.value, delta, k);
      assert k in m;
      if k in src.value && delta[k].Policy? {
        MergedOrdered(DenyAllAttr(cfg), src.value[k].uses, delta[k].uses);
      }
    }
  }

  lemma MergedOrdered(deny: string, src: seq<string>, delta: seq<string>)
    ensures DenyToEnd(deny, MergeUses(deny, false, src, delta)) == MergeUses(deny, false, src, delta)
  {
    DenyToEndTwice(deny, src + Fresh(src, delta));
  }

  /** Adding a delta that asks for nothing new to what an add of the same shape left is not posted. */
  lemma SecondAddUnposted(cfg: Config, t: Tenant, src: Option<App>, a: App, b: App)
    requires SelfContained(cfg, a) && DenyOrdered(cfg, a) && (src.Some? ==> KindsAgree(src.value, a))
    requires SameShape(a, b) && SameObjects(a, b)
    ensures Answered(cfg, t, false, Next(cfg, t, false, src, a), b) == NoPost
  {
    hide Next, DenyToEnd, MergeUses, SelfContained, DenyOrdered, KindsAgree, Referenced;
    var next := Next(cfg, t, false, src, a);
    if k :| k in a {
      AddedKey(cfg, t, src, a, k);
    } else {
      NextOfNothing(cfg, t, src, a);
    }
    forall k | k in next.value || k in b
      ensures MergedAt(cfg, t, false, next.value, b, k) == Lookup(next.value, k)
    {
      if k in b {
        SecondAddAt(cfg, t, src, a, b, k);
      }
    }
  }

  lemma NextOfNothing(cfg: Config, t: Tenant, src: Option<App>, delta: App)
    ensures Next(cfg, t, false, src, delta).Some?
  {
  }

  lemma SecondAddAt(cfg: Config, t: Tenant, src: Option<App>, a: App, b: App, k: string)
    requires SelfContained(cfg, a) && DenyOrdered(cfg, a) && (src.Some? ==> KindsAgree(src.value, a))
    requires SameShape(a, b) && SameObjects(a, b) && k in b
    ensures var next := Next(cfg, t, false, src, a);
            next.Some? && MergedAt(cfg, t, false, next.value, b, k) == Lookup(next.value, k)
  {
    hide Next, DenyToEnd, MergeUses, SelfContained, DenyOrdered;
    AddedKey(cfg, t, src, a, k);
    var next := Next(cfg, t, false, src, a).value;
    if a[k].Policy? {
      forall u | u in b[k].uses
        ensures u in next[k].uses
      {
        AddLists(cfg, t, src, a, k, u);
      }
      AddNothing(DenyAllAttr(cfg), next[k].uses, b[k].uses);
    } else if !a[k].Scalar? {
      AddStores(cfg, t, src, a, k);
    }
  }

  /** Of two deltas of one shape, the second is left unposted exactly when both ask for the same objects. */
  lemma SecondAddExact(cfg: Config, t: Tenant, src: Option<App>, a: App, b: App)
    requires SelfContained(cfg, a) && DenyOrdered(cfg, a) && (src.Some? ==> KindsAgree(src.value, a))
    requires SelfContained(cfg, b) && SameShape(a, b)
    ensures Answered(cfg, t, false, Next(cfg, t, false, src, a), b) == NoPost <==> SameObjects(a, b)
  {
    hide Next, Answered, DenyToEnd, SelfContained, DenyOrdered;
    if SameObjects(a, b) {
      SecondAddUnposted(cfg, t, src, a, b);
    }
    var next := Next(cfg, t, false, src, a);
    NextOfNothing(cfg, t, src, a);
    if Answered(cfg, t, false, next, b) == NoPost {
      forall k | k in next.value && k in b
        ensures KindOf(next.value[k]) == KindOf(b[k])
      {
        AddedKey(cfg, t, src, a, k);
      }
      SkippedPostIsSound(cfg, t, next.value, b);
      forall k | k in a && !a[k].Scalar? && !a[k].Policy?
        ensures a[k] == b[k]
      {
        AddStores(cfg, t, src, a, k);
      }
    }
  }

  /** A delete depends on the shape of its delta alone, where the source's policies are duplicate-free. */
  lemma DeleteByShape(cfg: Config, t: Tenant, src: App, a: App, b: App)
    requires KindsAgree(src, a) && SameShape(a, b)
    requires forall k :: k in src && src[k].Policy? ==> NoDuplicates(src[k].uses)
    ensures Merge(cfg, t, true, src, a) == Merge(cfg, t, true, src, b)
  {
    hide MergeUses, Kept;
    forall k
      ensures MergedAt(cfg, t, true, src, a, k) == MergedAt(cfg, t, true, src, b, k)
    {
      if k in src && k in a && src[k].Policy? {
        assert NoDuplicates(src[k].uses);
        DeleteByMembers(DenyAllAttr(cfg), src[k].uses, a[k].uses, b[k].uses);
      }
    }
    OverlayAt(cfg, t, true, src, a);
    OverlayAt(cfg, t, true, src, b);
    SameLookup(Overlay(cfg, t, true, src, a), Overlay(cfg, t, true, src, b));
  }
}
