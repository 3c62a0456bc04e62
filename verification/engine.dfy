/**
 * The desired-state engine: a delta declaration is laid over, or taken out of, the application read from the
 * device; lists that no rule refers to are swept; the result is posted unless nothing changed.
 */
module Engine {
  import opened Model
  import opened Naming
  import opened PolicyMerge

  // ----- fixed objects -----

  const DENY_ALL_LIST := RuleList([Rule("any", "deny_all_rule", "", Endpoint([], []), Endpoint([], []), "drop", false)])

  /** The log objects configured for a tenant: none unless the logging profile is switched on. */
  function LogDecl(cfg: Config, t: Tenant): App {
    if cfg.logProfile then t.logObjects else map[]
  }

  /** What a delete never touches. */
  function SkipKeys(cfg: Config, t: Tenant): set<string> {
    {CLASS_KEY, TEMPLATE_KEY, VirtualServerAttr(cfg), VirtualAddressAttr(cfg), GatewayPoolAttr(cfg), DenyAllAttr(cfg)}
    + LogDecl(cfg, t).Keys
  }

  function PolicyKey(cfg: Config, t: Tenant, ty: string): string {
    PolicyAttr(cfg, ty, t.routeDomainName)
  }

  /**
   * The application of a partition nothing was ever posted to: empty policies, deny-all in the service policy.
   * `t` is the configuration found for the partition.
   */
  function DefaultApp(cfg: Config, partition: string, t: Tenant): App {
    var base: App := map[CLASS_KEY := Scalar("Application"), TEMPLATE_KEY := Scalar("shared")];
    var global := if partition == COMMON then base[PolicyKey(cfg, t, GLOBAL) := Policy([])] else base;
    global[PolicyKey(cfg, t, NS) := Policy([])]
          [PolicyKey(cfg, t, SVC) := Policy([PartitionPath(partition, DenyAllAttr(cfg))])]
          [DenyAllAttr(cfg) := DENY_ALL_LIST]
  }

  /** `routeDomain` is the tenant's default route domain, if it is declared. */
  datatype TenantDecl = TenantDecl(routeDomain: Option<int>, shared: Option<App>)

  /** The tenants of a declaration. */
  type Body = map<string, TenantDecl>

  /** The source dereferences both configurations without a check. */
  predicate Configured(cfg: Config, partition: string) {
    TenantForPartition(cfg, COMMON).Some? && TenantForPartition(cfg, partition).Some?
  }

  function NewTenant(cfg: Config, partition: string, shared: Option<App>): TenantDecl
    requires Configured(cfg, partition)
  {
    var t := TenantForPartition(cfg, partition).value;
    TenantDecl(if cfg.supportRouteDomain && partition != COMMON then Some(t.routeDomainId) else None, shared)
  }

  /** The body that posts one application: a default declaration of Common, the partition, and Common removed. */
  function NewBody(cfg: Config, partition: string, shared: Option<App>): Body
    requires Configured(cfg, partition)
  {
    var common := TenantForPartition(cfg, COMMON).value;
    var body: Body := map[COMMON := NewTenant(cfg, COMMON, Some(DefaultApp(cfg, COMMON, common)))];
    var posted := body[partition := NewTenant(cfg, partition, shared)];
    if cfg.supportRouteDomain && partition != COMMON then posted - {COMMON} else posted
  }

  // ----- references and the sweep -----

  function OriginSet(uses: seq<string>): set<string> {
    if uses == [] then {} else OriginSet(uses[..|uses| - 1]) + {Origin(uses[|uses| - 1])}
  }

  /** The lists a rule refers to as the sweep sees them: it does not look at source ports. */
  function RuleUses(r: Rule): seq<string> {
    r.destination.addressLists + r.destination.portLists + r.source.addressLists
  }

  function RulesRefs(rules: seq<Rule>): set<string> {
    if rules == [] then {} else RulesRefs(rules[..|rules| - 1]) + OriginSet(RuleUses(rules[|rules| - 1]))
  }

  function Refs(o: Obj): set<string> {
    if o.RuleList? then RulesRefs(o.rules) else {}
  }

  predicate Referenced(app: App, a: string) {
    exists k :: k in app && a in Refs(app[k])
  }

  predicate Kept(cfg: Config, app: App, k: string)
    requires k in app
  {
    match app[k]
    case AddressList(_, _) => Referenced(app, k)
    case PortList(_) => Referenced(app, k)
    case LogObject(_) => cfg.logProfile
    case _ => true
  }

  function Sweep(cfg: Config, app: App): App {
    map k | k in app && Kept(cfg, app, k) :: app[k]
  }

  /** Every rule list has rules.  One without is encoded without the property, and the sweep panics on it. */
  predicate HoldsRules(app: App) {
    forall k :: k in app && app[k].RuleList? ==> app[k].rules != []
  }

  // ----- merge and subtract, one key at a time -----

  /**
   * What decoding an object as a policy yields: a rule list's rules carry no path, so each reads as an empty
   * one; a scalar does not decode.
   */
  function PolicyView(o: Obj): Option<seq<string>> {
    match o
    case Scalar(_) => None
    case Policy(uses) => Some(uses)
    case RuleList(rules) => Some(seq(|rules|, _ => ""))
    case _ => Some([])
  }

  function MergedPolicy(cfg: Config, isDelete: bool, src: Obj, delta: Obj): Obj
    requires src.Policy?
  {
    match PolicyView(delta)
    case None => src
    case Some(uses) => Policy(MergeUses(DenyAllAttr(cfg), isDelete, src.uses, uses))
  }

  function Lookup(app: App, k: string): Option<Obj> {
    if k in app then Some(app[k]) else None
  }

  /** What one key of the delta does to the source's value of that key, if it has one. */
  function MergedValue(cfg: Config, t: Tenant, isDelete: bool, k: string, src: Option<Obj>, delta: Obj): Option<Obj> {
    match src
    case None => if isDelete then None else Some(delta)
    case Some(o) =>
      if o.Scalar? then src
      else if isDelete && k in SkipKeys(cfg, t) then src
      else if o.Policy? then Some(MergedPolicy(cfg, isDelete, o, delta))
      else if isDelete then None
      else Some(delta)
  }

  /** The value of one key after the merge loop, if it has one. */
  function MergedAt(cfg: Config, t: Tenant, isDelete: bool, src: App, delta: App, k: string): Option<Obj> {
    if k in delta then MergedValue(cfg, t, isDelete, k, Lookup(src, k), delta[k]) else Lookup(src, k)
  }

  function Overlay(cfg: Config, t: Tenant, isDelete: bool, src: App, delta: App): App {
    map k | k in src.Keys + delta.Keys && MergedAt(cfg, t, isDelete, src, delta, k).Some?
      :: MergedAt(cfg, t, isDelete, src, delta, k).value
  }

  function Merge(cfg: Config, t: Tenant, isDelete: bool, src: App, delta: App): App {
    Sweep(cfg, Overlay(cfg, t, isDelete, src, delta))
  }

  /** One-sided: keys that only the old map has are not a difference. */
  predicate IsDiff(before: App, after: App) {
    exists k :: k in after && (k !in before || after[k] != before[k])
  }

  datatype Answer = NoPost | Post(shared: Option<App>)

  /** `None` is a partition without a Shared application; deleting from it posts a null one. */
  function Answered(cfg: Config, t: Tenant, isDelete: bool, src: Option<App>, delta: App): Answer {
    match src
    case None => Post(if isDelete then None else Some(delta))
    case Some(app) =>
      var merged := Merge(cfg, t, isDelete, app, delta);
      if !isDelete && !IsDiff(app, merged) then NoPost else Post(Some(merged))
  }

  /** The sweep meets a rule list without rules; only a partition that has an application is swept. */
  predicate Panics(cfg: Config, t: Tenant, isDelete: bool, src: Option<App>, delta: App) {
    src.Some? && !HoldsRules(Overlay(cfg, t, isDelete, src.value, delta))
  }

  /** The partition's application after the request, when the post succeeds. */
  function Next(cfg: Config, t: Tenant, isDelete: bool, src: Option<App>, delta: App): Option<App> {
    match Answered(cfg, t, isDelete, src, delta)
    case NoPost => src
    case Post(shared) => shared
  }

  // ----- the algorithms -----

  method CollectOrigins(uses: seq<string>, seen: set<string>) returns (flags: set<string>)
    ensures flags == seen + OriginSet(uses)
  {
    flags := seen;
    for i := 0 to |uses|
      invariant flags == seen + OriginSet(uses[..i])
    {
      assert uses[..i + 1][..i] == uses[..i];
      flags := flags + {Origin(uses[i])};
    }
    assert uses[..|uses|] == uses;
  }

  lemma {:induction false} OriginSetConcat(a: seq<string>, b: seq<string>)
    ensures OriginSet(a + b) == OriginSet(a) + OriginSet(b)
  {
    if b == [] {
      assert a + b == a;
    } else {
      var n := |b| - 1;
      OriginSetConcat(a, b[..n]);
      assert (a + b)[..|a| + n] == a + b[..n];
    }
  }

  method CollectRefs(rules: seq<Rule>, seen: set<string>) returns (flags: set<string>)
    ensures flags == seen + RulesRefs(rules)
  {
    flags := seen;
    for i := 0 to |rules|
      invariant flags == seen + RulesRefs(rules[..i])
    {
      assert rules[..i + 1][..i] == rules[..i];
      var r := rules[i];
      OriginSetConcat(r.destination.addressLists, r.destination.portLists);
      OriginSetConcat(r.destination.addressLists + r.destination.portLists, r.source.addressLists);
      flags := CollectOrigins(r.destination.addressLists, flags);
      flags := CollectOrigins(r.destination.portLists, flags);
      flags := CollectOrigins(r.source.addressLists, flags);
    }
    assert rules[..|rules|] == rules;
  }

  /** A Shared application under construction: a map that is updated in place. */
  class Application {
    var objects: App

    constructor (objects: App)
      ensures this.objects == objects
    {
      this.objects := objects;
    }

    /** One step of the merge loop. */
    method MergeKey(cfg: Config, t: Tenant, isDelete: bool, key: string, delta: Obj)
      modifies this
      ensures forall k :: k != key ==> Lookup(objects, k) == Lookup(old(objects), k)
      ensures Lookup(objects, key) == MergedValue(cfg, t, isDelete, key, Lookup(old(objects), key), delta)
    {
      if key in objects {
        var value := objects[key];
        if value.Scalar? {
          return;
        }
        if isDelete && key in SkipKeys(cfg, t) {
          return;
        }
        if value.Policy? {
          var view := PolicyView(delta);
          if view.Some? {
            var uses := MergePolicy(DenyAllAttr(cfg), isDelete, value.uses, view.value);
            objects := objects[key := Policy(uses)];
          }
        } else if isDelete {
          objects := objects - {key};
        } else {
          objects := objects[key := delta];
        }
      } else if !isDelete {
        objects := objects[key := delta];
      }
    }

    /** Marks what rule lists refer to, then deletes the unmarked lists. */
    method ClearUpUnreferenced(cfg: Config) returns (panicked: bool)
      modifies this
      ensures panicked <==> !HoldsRules(old(objects))
      ensures !panicked ==> objects == Sweep(cfg, old(objects))
    {
      var referred, lists;
      panicked, referred, lists := Mark(cfg);
      if panicked {
        return;
      }
      DeleteUnreferenced(referred, lists);
    }

    /** The second loop of the sweep. */
    method DeleteUnreferenced(referred: set<string>, lists: set<string>)
      modifies this
      ensures objects == map k | k in old(objects) && (k in lists ==> k in referred) :: old(objects)[k]
    {
      var app := objects;
      var todo := lists;
      while todo != {}
        invariant todo <= lists
        invariant objects == map k | k in app && (k in lists - todo ==> k in referred) :: app[k]
        decreases todo
      {
        var key :| key in todo;
        todo := todo - {key};
        if key !in referred {
          objects := objects - {key};
        }
      }
    }

    /** The first loop of the sweep; the keys come in any order, and disabled log objects go on the way. */
    method Mark(cfg: Config) returns (panicked: bool, referred: set<string>, lists: set<string>)
      modifies this
      ensures panicked <==> !HoldsRules(old(objects))
      ensures !panicked ==>
                && (forall a :: a in referred <==> Referenced(old(objects), a))
                && (forall k :: k in lists <==> k in old(objects) && old(objects)[k].IsList())
                && objects == map k | k in old(objects)
                     && (!old(objects)[k].LogObject? || cfg.logProfile) :: old(objects)[k]
    {
      hide RulesRefs;
      var app := objects;
      panicked, referred, lists := false, {}, {};
      var todo := app.Keys;
      while todo != {}
        invariant todo <= app.Keys && !panicked
        invariant forall k :: k in app && k !in todo && app[k].RuleList? ==> app[k].rules != []
        invariant forall a :: a in referred <==> exists k :: k in app && k !in todo && a in Refs(app[k])
        invariant forall k :: k in lists <==> k in app && k !in todo && app[k].IsList()
        invariant objects == map k | k in app && (k in todo || !app[k].LogObject? || cfg.logProfile) :: app[k]
        decreases todo
      {
        var key :| key in todo;
        todo := todo - {key};
        panicked, referred, lists := MarkKey(cfg, key, app[key], referred, lists);
        if panicked {
          return;
        }
      }
    }

    /** One step of the first loop: flags for one object, or the end of a disabled log object. */
    method MarkKey(cfg: Config, key: string, o: Obj, seen: set<string>, before: set<string>)
      returns (panicked: bool, referred: set<string>, lists: set<string>)
      modifies this
      ensures panicked <==> o.RuleList? && o.rules == []
      ensures !panicked ==>
                && referred == seen + Refs(o)
                && lists == before + (if o.IsList() then {key} else {})
                && objects == if o.LogObject? && !cfg.logProfile then old(objects) - {key} else old(objects)
    {
      panicked, referred, lists := false, seen, before;
      match o {
        case RuleList(rules) =>
          if rules == [] {
            return true, referred, lists;
          }
          referred := CollectRefs(rules, referred);
        case AddressList(_, _) => lists := lists + {key};
        case PortList(_) => lists := lists + {key};
        case LogObject(_) => if !cfg.logProfile { objects := objects - {key}; }
        case _ =>
      }
    }
  }

  lemma OverlayAt(cfg: Config, t: Tenant, isDelete: bool, src: App, delta: App)
    ensures forall k :: Lookup(Overlay(cfg, t, isDelete, src, delta), k) == MergedAt(cfg, t, isDelete, src, delta, k)
  {
  }

  lemma SameLookup(a: App, b: App)
    requires forall k :: Lookup(a, k) == Lookup(b, k)
    ensures a == b
  {
    forall k
      ensures k in a <==> k in b
      ensures k in a ==> a[k] == b[k]
    {
      assert Lookup(a, k) == Lookup(b, k);
    }
  }

  method FindDiff(before: App, after: App) returns (diff: bool)
    ensures diff == IsDiff(before, after)
  {
    var todo := after.Keys;
    while todo != {}
      invariant todo <= after.Keys
      invariant forall k :: k in after.Keys - todo ==> k in before && after[k] == before[k]
      decreases todo
    {
      var k :| k in todo;
      todo := todo - {k};
      if k !in before {
        return true;
      }
      if after[k] != before[k] {
        return true;
      }
    }
    return false;
  }

  datatype Request = NoRequest | PostBody(body: Body) | Panic

  /** The whole request body for one delta, whatever order the delta's keys are visited in. */
  method FullResource(cfg: Config, partition: string, isDelete: bool, src: Option<App>, delta: App)
    returns (request: Request)
    requires Configured(cfg, partition)
    ensures var t := TenantForPartition(cfg, partition).value;
            request == if Panics(cfg, t, isDelete, src, delta) then Panic
                       else match Answered(cfg, t, isDelete, src, delta)
                            case NoPost => NoRequest
                            case Post(shared) => PostBody(NewBody(cfg, partition, shared))
  {
    var t := TenantForPartition(cfg, partition).value;
    if src.None? {
      if !isDelete {
        return PostBody(NewBody(cfg, partition, Some(delta)));
      }
      return PostBody(NewBody(cfg, partition, None));
    }
    var origin := src.value;
    var srcApp := new Application(origin);
    var todo := delta.Keys;
    while todo != {}
      invariant todo <= delta.Keys
      invariant forall k :: k in todo ==> Lookup(srcApp.objects, k) == Lookup(origin, k)
      invariant forall k :: k !in todo ==> Lookup(srcApp.objects, k) == MergedAt(cfg, t, isDelete, origin, delta, k)
      decreases todo
    {
      var key :| key in todo;
      todo := todo - {key};
      srcApp.MergeKey(cfg, t, isDelete, key, delta[key]);
    }
    OverlayAt(cfg, t, isDelete, origin, delta);
    SameLookup(srcApp.objects, Overlay(cfg, t, isDelete, origin, delta));
    var panicked := srcApp.ClearUpUnreferenced(cfg);
    if panicked {
      return Panic;
    }
    var diff := FindDiff(origin, srcApp.objects);
    if !diff && !isDelete {
      return NoRequest;
    }
    return PostBody(NewBody(cfg, partition, Some(srcApp.objects)));
  }
}
