/**
 * What a whole policy decides, over runs of requests: the first listed rule that asks for the packet, in the custom
 * resources' words, and in the service policy deny-all for the rest.
 */
module Policies {
  import opened Model
  import opened Text
  import opened Naming
  import opened PolicyMerge
  import opened Engine
  import opened EngineLaws
  import opened States
  import opened Runs
  import opened FirstMatch
  import opened Generate
  import opened Selection
  import opened Deltas
  import opened Guarantees
  import opened Meaning
  import opened Intake
  import opened Intent

  /** A rule and an external service that it names, as a request carried them: what one entry of a policy stands for. */
  datatype Duty = Duty(resources: Resources, egress: Egress, service: ExternalService)

  function EntryFor(cfg: Config, t: Tenant, d: Duty): string {
    EntryOf(cfg, t, d.egress, d.service)
  }

  function TypeFor(d: Duty): string {
    TypeOfRule(d.egress)
  }

  function ActionFor(d: Duty): string {
    ActionOf(d.egress)
  }

  function DenyPath(cfg: Config, t: Tenant): string {
    PartitionPath(t.name, DenyAllAttr(cfg))
  }

  /** The duty's rule list was given the packet. */
  function Sayer(cfg: Config, matches: (string, string) -> bool, p: Packet): Duty -> bool {
    (d: Duty) => SaidFor(cfg, d.resources, d.egress, d.service, matches, p)
  }

  /** The duty's rule asks for the packet. */
  ghost function Asker(matches: (string, string) -> bool, p: Packet): Duty -> bool {
    (d: Duty) => Intended(d.resources, d.egress, d.service, matches, p)
  }

  ghost predicate Lists(cfg: Config, t: Tenant, duties: iset<Duty>, ty: string, use: string, d: Duty) {
    d in duties && TypeFor(d) == ty && use == EntryFor(cfg, t, d)
  }

  /** The policies list the duties' entries, and beside them deny-all at most. */
  ghost predicate ListsThese(cfg: Config, t: Tenant, app: App, duties: iset<Duty>) {
    && (forall ty, u :: ty in Types(t) && u in Uses(cfg, t, app, ty) ==>
          u == DenyPath(cfg, t) || exists d :: Lists(cfg, t, duties, ty, u, d))
    && (forall d :: d in duties ==>
          && TypeFor(d) in Types(t)
          && EntryFor(cfg, t, d) in Uses(cfg, t, app, TypeFor(d))
          && EntryFor(cfg, t, d) != DenyPath(cfg, t))
  }

  /** At its entry the duty decides the packets that its rule list was given, and no others. */
  predicate DecidesFor(cfg: Config, t: Tenant, app: App, d: Duty, matches: (string, string) -> bool, p: Packet) {
    EntryVerdict(app, ByElement(matches), p, EntryFor(cfg, t, d))
    == if Sayer(cfg, matches, p)(d) then Some(Verdict(EntryFor(cfg, t, d), ActionFor(d))) else None
  }

  ghost predicate Fulfils(cfg: Config, t: Tenant, app: App, d: Duty) {
    forall matches, p :: DecidesFor(cfg, t, app, d, matches, p)
  }

  /** The application is in good order, its policies list the duties, and each entry decides as it should. */
  ghost predicate Honours(cfg: Config, t: Tenant, app: App, duties: iset<Duty>) {
    && WellFormed(cfg, t, app)
    && ListsThese(cfg, t, app, duties)
    && (forall d :: d in duties ==> Fulfils(cfg, t, app, d))
  }

  // ----- the decision of a policy -----

  /** A duty of the type that wants the packet stands at the entry. */
  ghost predicate WantedAt(cfg: Config, t: Tenant, duties: iset<Duty>, ty: string, use: string, wants: Duty -> bool) {
    exists d :: Lists(cfg, t, duties, ty, use, d) && wants(d)
  }

  ghost predicate FirstWanted(cfg: Config, t: Tenant, duties: iset<Duty>, ty: string, uses: seq<string>, n: nat,
                              wants: Duty -> bool) {
    && n < |uses| && WantedAt(cfg, t, duties, ty, uses[n], wants)
    && forall m :: 0 <= m < n ==> !WantedAt(cfg, t, duties, ty, uses[m], wants)
  }

  /**
   * The policy's decision: the action of the first listed rule that wants the packet; if none wants it, the service
   * policy drops it and the others leave it undecided.
   */
  ghost predicate DecidesBy(cfg: Config, t: Tenant, app: App, duties: iset<Duty>, ty: string,
                            matches: (string, string) -> bool, p: Packet, wants: Duty -> bool) {
    var uses := Uses(cfg, t, app, ty);
    var decision := Decide(app, ByElement(matches), p, uses);
    && (forall n: nat, d ::
          (FirstWanted(cfg, t, duties, ty, uses, n, wants) && Lists(cfg, t, duties, ty, uses[n], d) && wants(d)) ==>
            decision == Some(Verdict(uses[n], ActionFor(d))))
    && ((forall u :: !WantedAt(cfg, t, duties, ty, u, wants)) ==>
          decision == if ty == SVC then Some(Verdict(DenyPath(cfg, t), "drop")) else None)
  }

  /** The first entry with a verdict decides. */
  lemma {:induction false} DecideAt(app: App, holds: (string, Obj) -> bool, p: Packet, uses: seq<string>, n: nat)
    requires n < |uses| && EntryVerdict(app, holds, p, uses[n]).Some?
    requires forall m :: 0 <= m < n ==> EntryVerdict(app, holds, p, uses[m]).None?
    ensures Decide(app, holds, p, uses) == EntryVerdict(app, holds, p, uses[n])
  {
    hide EntryVerdict;
    var last := |uses| - 1;
    if n < last {
      DecideAt(app, holds, p, uses[..last], n);
    } else {
      DecideNone(app, holds, p, uses[..last]);
    }
  }

  lemma {:induction false} DecideNone(app: App, holds: (string, Obj) -> bool, p: Packet, uses: seq<string>)
    requires forall m :: 0 <= m < |uses| ==> EntryVerdict(app, holds, p, uses[m]).None?
    ensures Decide(app, holds, p, uses).None?
  {
    hide EntryVerdict;
    if uses != [] {
      DecideNone(app, holds, p, uses[..|uses| - 1]);
    }
  }

  /** An entry has a verdict exactly when its duty wants the packet, deny-all apart. */
  lemma VerdictIffWanted(cfg: Config, t: Tenant, app: App, duties: iset<Duty>, ty: string, use: string,
                         matches: (string, string) -> bool, p: Packet)
    requires Honours(cfg, t, app, duties) && ty in Types(t)
    requires use in Uses(cfg, t, app, ty) && use != DenyPath(cfg, t)
    ensures EntryVerdict(app, ByElement(matches), p, use).Some?
            <==> WantedAt(cfg, t, duties, ty, use, Sayer(cfg, matches, p))
  {
    hide WellFormed, Uses, DenyPath, EntryVerdict, Sayer, EntryFor, TypeFor, ActionFor, ByElement, Types;
    var d :| Lists(cfg, t, duties, ty, use, d);
    assert DecidesFor(cfg, t, app, d, matches, p);
    if d' :| Lists(cfg, t, duties, ty, use, d') && Sayer(cfg, matches, p)(d') {
      assert DecidesFor(cfg, t, app, d', matches, p);
    }
  }

  /** An application that honours its duties decides every packet by the first duty whose rule list was given it. */
  lemma PolicyDecides(cfg: Config, t: Tenant, app: App, duties: iset<Duty>, ty: string,
                      matches: (string, string) -> bool, p: Packet)
    requires ValidTenant(cfg, t) && Honours(cfg, t, app, duties) && ty in Types(t)
    ensures DecidesBy(cfg, t, app, duties, ty, matches, p, Sayer(cfg, matches, p))
  {
    hide ValidTenant, Honours, Uses, DenyPath, EntryVerdict, Lists, Sayer, ByElement, WantedAt, Types, Decide;
    var uses, wants := Uses(cfg, t, app, ty), Sayer(cfg, matches, p);
    forall n: nat, d | FirstWanted(cfg, t, duties, ty, uses, n, wants) && Lists(cfg, t, duties, ty, uses[n], d)
                       && wants(d)
      ensures Decide(app, ByElement(matches), p, uses) == Some(Verdict(uses[n], ActionFor(d)))
    {
      WantedDecides(cfg, t, app, duties, ty, matches, p, n, d);
    }
    if forall u :: !WantedAt(cfg, t, duties, ty, u, wants) {
      UnwantedDecides(cfg, t, app, duties, ty, matches, p);
    }
  }

  lemma WantedDecides(cfg: Config, t: Tenant, app: App, duties: iset<Duty>, ty: string,
                      matches: (string, string) -> bool, p: Packet, n: nat, d: Duty)
    requires ValidTenant(cfg, t) && Honours(cfg, t, app, duties) && ty in Types(t)
    requires var uses := Uses(cfg, t, app, ty);
             && FirstWanted(cfg, t, duties, ty, uses, n, Sayer(cfg, matches, p))
             && Lists(cfg, t, duties, ty, uses[n], d)
    requires Sayer(cfg, matches, p)(d)
    ensures var uses := Uses(cfg, t, app, ty);
            Decide(app, ByElement(matches), p, uses) == Some(Verdict(uses[n], ActionFor(d)))
  {
    hide ValidTenant, WellFormed, Uses, DenyPath, EntryVerdict, Sayer, ActionFor, TypeFor, EntryFor, ByElement,
         WantedAt,
         Types, Decide;
    var uses := Uses(cfg, t, app, ty);
    assert DecidesFor(cfg, t, app, d, matches, p);
    DenyLastOnly(cfg, t, app, ty);
    forall m | 0 <= m < n
      ensures EntryVerdict(app, ByElement(matches), p, uses[m]).None?
    {
      assert uses[m] in uses;
      VerdictIffWanted(cfg, t, app, duties, ty, uses[m], matches, p);
    }
    DecideAt(app, ByElement(matches), p, uses, n);
  }

  lemma UnwantedDecides(cfg: Config, t: Tenant, app: App, duties: iset<Duty>, ty: string,
                        matches: (string, string) -> bool, p: Packet)
    requires ValidTenant(cfg, t) && Honours(cfg, t, app, duties) && ty in Types(t)
    requires forall u :: !WantedAt(cfg, t, duties, ty, u, Sayer(cfg, matches, p))
    ensures Decide(app, ByElement(matches), p, Uses(cfg, t, app, ty))
            == if ty == SVC then Some(Verdict(DenyPath(cfg, t), "drop")) else None
  {
    hide WellFormed, Uses, EntryVerdict, ByElement, WantedAt, ListsThese, Fulfils, Types, Decide, DenyPath, Contains,
         Sayer;
    var uses := Uses(cfg, t, app, ty);
    DenyLastOnly(cfg, t, app, ty);
    var before := if ty == SVC then uses[..|uses| - 1] else uses;
    forall m | 0 <= m < |before|
      ensures EntryVerdict(app, ByElement(matches), p, before[m]).None?
    {
      assert before[m] == uses[m] && uses[m] in uses;
      VerdictIffWanted(cfg, t, app, duties, ty, uses[m], matches, p);
    }
    DecideNone(app, ByElement(matches), p, before);
    if ty == SVC {
      ServicePolicyDecides(cfg, t, app, ByElement(matches), p);
      assert DenyPath(cfg, t) == PartitionPath(t.name, DenyAllAttr(cfg)) by { DenyPathIs(cfg, t); }
    }
  }

  lemma DenyPathIs(cfg: Config, t: Tenant)
    ensures DenyPath(cfg, t) == PartitionPath(t.name, DenyAllAttr(cfg))
  {
  }

  /** The deny-all path is the last entry of the service policy and no other entry. */
  lemma DenyLastOnly(cfg: Config, t: Tenant, app: App, ty: string)
    requires ValidTenant(cfg, t) && WellFormed(cfg, t, app) && ty in Types(t)
    ensures var uses := Uses(cfg, t, app, ty);
            && (ty == SVC ==> uses != [])
            && forall i :: 0 <= i < |uses| ==> (uses[i] == DenyPath(cfg, t) <==> ty == SVC && i == |uses| - 1)
  {
    hide Typed, Exact, RulesLocal, Contains, DenyAllAttr, PartitionPath, Uses, Origin, TypeOf, Types, Decode,
         RuleListKey;
    DenyOnlyLast(cfg, t, app, ty);
    DenyKey(cfg, t);
  }

  ghost predicate Enforceables(duties: iset<Duty>, ty: string) {
    forall d :: d in duties && TypeFor(d) == ty ==> Enforceable(d.resources, d.egress, d.service)
  }

  /** Where the duties of a policy are enforceable, it decides by the first rule that asks for the packet. */
  lemma PolicyEnforces(cfg: Config, t: Tenant, app: App, duties: iset<Duty>, ty: string,
                       matches: (string, string) -> bool, p: Packet)
    requires ValidTenant(cfg, t) && Honours(cfg, t, app, duties) && ty in Types(t) && Enforceables(duties, ty)
    ensures DecidesBy(cfg, t, app, duties, ty, matches, p, Asker(matches, p))
  {
    hide ValidTenant, Honours, Uses, DenyPath, EntryFor, ActionFor, ByElement, Types, Decide, SaidFor, Intended,
         Enforceable, TypeFor;
    PolicyDecides(cfg, t, app, duties, ty, matches, p);
    var said, asked := Sayer(cfg, matches, p), Asker(matches, p);
    forall d | d in duties && TypeFor(d) == ty
      ensures said(d) <==> asked(d)
    {
      EnforceableIsSaid(cfg, d.resources, d.egress, d.service, matches, p);
    }
    forall u
      ensures WantedAt(cfg, t, duties, ty, u, said) <==> WantedAt(cfg, t, duties, ty, u, asked)
    {
      SameWants(cfg, t, duties, ty, u, said, asked);
    }
    SameDecision(cfg, t, app, duties, ty, matches, p, said, asked);
  }

  lemma SameWants(cfg: Config, t: Tenant, duties: iset<Duty>, ty: string, use: string, wants: Duty -> bool,
                  wants': Duty -> bool)
    requires forall d :: d in duties && TypeFor(d) == ty ==> (wants(d) <==> wants'(d))
    ensures WantedAt(cfg, t, duties, ty, use, wants) <==> WantedAt(cfg, t, duties, ty, use, wants')
  {
    hide TypeFor, EntryFor;
  }

  lemma SameDecision(cfg: Config, t: Tenant, app: App, duties: iset<Duty>, ty: string,
                     matches: (string, string) -> bool, p: Packet, wants: Duty -> bool, wants': Duty -> bool)
    requires DecidesBy(cfg, t, app, duties, ty, matches, p, wants)
    requires forall d :: d in duties && TypeFor(d) == ty ==> (wants(d) <==> wants'(d))
    requires forall u :: WantedAt(cfg, t, duties, ty, u, wants) <==> WantedAt(cfg, t, duties, ty, u, wants')
    ensures DecidesBy(cfg, t, app, duties, ty, matches, p, wants')
  {
    hide Uses, DenyPath, EntryFor, ActionFor, ByElement, Decide, TypeFor, WantedAt;
    var uses := Uses(cfg, t, app, ty);
    forall n: nat | FirstWanted(cfg, t, duties, ty, uses, n, wants')
      ensures FirstWanted(cfg, t, duties, ty, uses, n, wants)
    {
    }
  }

  // ----- one request -----

  /** The rules and services of one request. */
  ghost function Requested(t: Tenant, resources: Resources): iset<Duty> {
    iset d: Duty | d.resources == resources && Handed(t.name, resources, d.egress, d.service)
  }

  /** The duties whose entries the delta does not name. */
  ghost function Remaining(cfg: Config, t: Tenant, duties: iset<Duty>, delta: App): iset<Duty> {
    iset d | d in duties && EntryFor(cfg, t, d) !in Uses(cfg, t, delta, TypeFor(d))
  }

  lemma EntryNotDeny(cfg: Config, t: Tenant, item: Item)
    requires ValidTenant(cfg, t) && GoodItem(cfg, t, item)
    ensures ItemPath(cfg, t, item) != DenyPath(cfg, t)
  {
    hide GoodItem, Attr, Contains, DenyAllAttr;
    ItemIdValid(cfg, t, item);
    ItemKeyKind(cfg, t, item);
    DecodeAttr(cfg, ItemId(item));
    DecodeAttr(cfg, DenyAllId);
    assert Attr(cfg, DenyAllId) == DenyAllAttr(cfg) by { DenyAttrIs(cfg); }
    AttrShape(cfg, ItemId(item));
    AttrShape(cfg, DenyAllId);
    PathParts(t.name, Attr(cfg, ItemId(item)));
    PathParts(t.name, DenyAllAttr(cfg));
  }

  lemma DenyAttrIs(cfg: Config)
    ensures Attr(cfg, DenyAllId) == DenyAllAttr(cfg)
  {
  }

  /** An entry of a delta's policy is deny-all's, or that of an item of the type. */
  lemma EntryHasItem(cfg: Config, t: Tenant, items: seq<Item>, order: seq<string>, ty: string, u: string)
    returns (i: nat)
    requires GeneratedDelta(cfg, t, items, order) && ty in Types(t)
    requires u in Uses(cfg, t, Delta(cfg, t, items, order), ty) && u != DenyPath(cfg, t)
    ensures i < |items| && items[i].rule.ty == ty && u == ItemPath(cfg, t, items[i])
  {
    hide GoodItem, AllReady, Visits, Delta, ValidTenant, Typed, Exact, RulesLocal, Attr, ItemId, Uses, Origin, TypeOf,
         DenyAllAttr, PartitionPath, Types;
    var delta := Delta(cfg, t, items, order);
    DeltaWellFormed(cfg, t, items, order);
    var k := Origin(u);
    assert u == PartitionPath(t.name, k) && k in delta && delta[k].RuleList? && TypeOf(cfg, k) == ty;
    DeltaRuleLists(cfg, t, items, order, k);
    i :| 0 <= i < |items| && k == Attr(cfg, ItemId(items[i]));
    ItemType(cfg, t, items[i]);
  }

  /** The policies of a delta list the rules of its request. */
  lemma DeltaLists(cfg: Config, t: Tenant, resources: Resources, items: seq<Item>, order: seq<string>)
    requires GeneratedDelta(cfg, t, items, order)
    requires GoodResources(cfg, t, resources) && ItemsOf(DealtRules(t.name, resources), items)
    ensures ListsThese(cfg, t, Delta(cfg, t, items, order), Requested(t, resources))
  {
    hide GoodItem, AllReady, Visits, Delta, ValidTenant, GoodResources, DealtRules, ItemsOf, Handed, DataOf, ExsvcOf,
         EntryOf, DenyPath, Uses, ItemPath, Types;
    var delta, duties := Delta(cfg, t, items, order), Requested(t, resources);
    ItemsAreHanded(t.name, resources, items);
    forall ty, u | ty in Types(t) && u in Uses(cfg, t, delta, ty) && u != DenyPath(cfg, t)
      ensures exists d :: Lists(cfg, t, duties, ty, u, d)
    {
      var i := EntryHasItem(cfg, t, items, order, ty, u);
      assert Made(items, items[i].rule, items[i].exsvc);
      var e, x :| Handed(t.name, resources, e, x) && items[i].rule == DataOf(resources, e)
                  && items[i].exsvc == ExsvcOf(x);
      ItemEntry(cfg, t, resources, e, x, items[i]);
      assert Lists(cfg, t, duties, ty, u, Duty(resources, e, x));
    }
    forall d | d in duties
      ensures TypeFor(d) in Types(t)
      ensures EntryFor(cfg, t, d) in Uses(cfg, t, delta, TypeFor(d)) && EntryFor(cfg, t, d) != DenyPath(cfg, t)
    {
      var i := DutyHasItem(cfg, t, resources, items, d);
      EntryIsListed(cfg, t, None, items, order, i);
      EntryNotDeny(cfg, t, items[i]);
      ItemTypes(cfg, t, items[i]);
    }
  }

  lemma DutyHasItem(cfg: Config, t: Tenant, resources: Resources, items: seq<Item>, d: Duty) returns (i: nat)
    requires ItemsMatch(t.name, resources, items) && d in Requested(t, resources)
    ensures i < |items| && items[i].rule == DataOf(resources, d.egress) && items[i].exsvc == ExsvcOf(d.service)
    ensures ItemPath(cfg, t, items[i]) == EntryFor(cfg, t, d)
    ensures items[i].rule.ty == TypeFor(d) && items[i].rule.action == ActionFor(d)
  {
    hide Handed, DataOf, ExsvcOf, EntryOf, ItemPath;
    assert Wanted(t.name, resources, DataOf(resources, d.egress), ExsvcOf(d.service));
    i :| 0 <= i < |items| && items[i].rule == DataOf(resources, d.egress) && items[i].exsvc == ExsvcOf(d.service);
    ItemEntry(cfg, t, resources, d.egress, d.service, items[i]);
  }

  /** After a sync the request's duties are fulfilled, whatever was there before. */
  lemma RequestedFulfilled(cfg: Config, t: Tenant, src: Option<App>, resources: Resources, items: seq<Item>,
                           order: seq<string>, d: Duty)
    requires GeneratedDelta(cfg, t, items, order)
    requires GoodResources(cfg, t, resources) && ItemsOf(DealtRules(t.name, resources), items)
    requires src.Some? ==> KindsAgree(src.value, Delta(cfg, t, items, order))
    requires d in Requested(t, resources)
    ensures var next := Next(cfg, t, false, src, Delta(cfg, t, items, order));
            next.Some? && Fulfils(cfg, t, next.value, d)
  {
    hide GoodItems, AllReady, Visits, Delta, ValidTenant, GoodResources, DealtRules, ItemsOf, Handed, DataOf, ExsvcOf,
         EntryOf, ItemPath, Next, KindsAgree, EntryVerdict, ByElement, Programmed, RulesOnce, ItemsMatch, EntryFor;
    ItemsAreHanded(t.name, resources, items);
    ItemsShareRules(cfg, t, resources, items);
    var i := DutyHasItem(cfg, t, resources, items, d);
    var next := Next(cfg, t, false, src, Delta(cfg, t, items, order));
    SyncedVerdict(cfg, t, src, items, order, i, ByElement(Marked()), Packet("", "", "", ""));
    forall matches, p
      ensures DecidesFor(cfg, t, next.value, d, matches, p)
    {
      SyncedVerdict(cfg, t, src, items, order, i, ByElement(matches), p);
    }
  }

  /** Whoever uses a list that the delta changes is in the delta. */
  ghost predicate Complete(cfg: Config, t: Tenant, src: App, delta: App) {
    forall ty, u :: ty in Types(t) && u in Uses(cfg, t, src, ty) && Touched(cfg, src, delta, u) ==>
      u in Uses(cfg, t, delta, ty)
  }

  /** Which is so when the delta carries every user of the lists that it has. */
  lemma CoveringIsComplete(cfg: Config, t: Tenant, src: App, delta: App)
    requires ValidTenant(cfg, t) && WellFormed(cfg, t, src) && WellFormed(cfg, t, delta) && Covers(src, delta)
    ensures Complete(cfg, t, src, delta)
  {
    hide KeyKind, Exact, RulesLocal, Origin, PartitionPath, TypeOf, DenyAllAttr, Uses, Refs;
    TypedAgree(cfg, t, src, delta);
    forall ty, u | ty in Types(t) && u in Uses(cfg, t, src, ty) && Touched(cfg, src, delta, u)
      ensures u in Uses(cfg, t, delta, ty)
    {
      assert PolicyExact(cfg, t, src, ty) && PolicyExact(cfg, t, delta, ty);
      assert u == PartitionPath(t.name, Origin(u));
    }
  }

  lemma AddedEntries(cfg: Config, t: Tenant, src: App, delta: App, ty: string)
    requires ValidTenant(cfg, t) && WellFormed(cfg, t, src) && WellFormed(cfg, t, delta) && ty in Types(t)
    ensures forall u :: u in Uses(cfg, t, Merge(cfg, t, false, src, delta), ty) <==>
                          u in Uses(cfg, t, src, ty) || u in Uses(cfg, t, delta, ty)
  {
    hide KeyKind, Exact, RulesLocal, PolicyExact, Uses, MergeUses, Merge, DenyAllAttr, PolicyKey;
    TypedSkips(cfg, t, src);
    MergedUses(cfg, t, false, src, delta, ty);
    AddMembers(DenyAllAttr(cfg), Uses(cfg, t, src, ty), Uses(cfg, t, delta, ty));
  }

  lemma DeletedEntries(cfg: Config, t: Tenant, src: App, delta: App, ty: string)
    requires ValidTenant(cfg, t) && WellFormed(cfg, t, src) && WellFormed(cfg, t, delta) && ty in Types(t)
    ensures forall u :: u in Uses(cfg, t, Merge(cfg, t, true, src, delta), ty) <==>
                          u in Uses(cfg, t, src, ty) && (u !in Uses(cfg, t, delta, ty) || u == DenyPath(cfg, t))
  {
    hide KeyKind, Exact, Typed, Uses, Merge, DenyAllAttr, PolicyKey, Contains, Origin, PartitionPath, RulesLocal;
    var deny, srcUses := DenyAllAttr(cfg), Uses(cfg, t, src, ty);
    DeletedUses(cfg, t, src, delta, ty);
    WithoutMembers(deny, srcUses, Uses(cfg, t, delta, ty));
    DenyOnlyLast(cfg, t, src, ty);
    DenyKey(cfg, t);
    forall u | u in srcUses
      ensures Contains(u, deny) <==> u == DenyPath(cfg, t)
    {
      var i :| 0 <= i < |srcUses| && srcUses[i] == u;
    }
  }

  /** An add hands over the entries it names to its own duties and leaves the others as they are. */
  lemma AddHonours(cfg: Config, t: Tenant, src: App, duties: iset<Duty>, resources: Resources, items: seq<Item>,
                   order: seq<string>)
    requires GeneratedDelta(cfg, t, items, order) && Honours(cfg, t, src, duties)
    requires GoodResources(cfg, t, resources) && ItemsOf(DealtRules(t.name, resources), items)
    requires Complete(cfg, t, src, Delta(cfg, t, items, order))
    ensures var delta := Delta(cfg, t, items, order);
            var next := Next(cfg, t, false, Some(src), delta);
            next.Some? && Honours(cfg, t, next.value, Remaining(cfg, t, duties, delta) + Requested(t, resources))
  {
    hide GoodItems, AllReady, Visits, Delta, ValidTenant, GoodResources, DealtRules, ItemsOf, Merge, WellFormed,
         Fulfils,
         ListsThese, Complete, Requested, GroupNames;
    var delta := Delta(cfg, t, items, order);
    DeltaWellFormed(cfg, t, items, order);
    AddAlwaysMerges(cfg, t, src, delta);
    MergeWellFormed(cfg, t, false, src, delta);
    WellFormedAgree(cfg, t, src, delta);
    DeltaLists(cfg, t, resources, items, order);
    AddListsThese(cfg, t, src, duties, delta, Requested(t, resources));
    forall d | d in Requested(t, resources)
      ensures Fulfils(cfg, t, Merge(cfg, t, false, src, delta), d)
    {
      RequestedFulfilled(cfg, t, Some(src), resources, items, order, d);
    }
    forall d | d in Remaining(cfg, t, duties, delta)
      ensures Fulfils(cfg, t, Merge(cfg, t, false, src, delta), d)
    {
      RemainingFulfilled(cfg, t, src, duties, delta, d);
    }
  }

  lemma WellFormedAgree(cfg: Config, t: Tenant, a: App, b: App)
    requires WellFormed(cfg, t, a) && WellFormed(cfg, t, b)
    ensures KindsAgree(a, b)
  {
    hide KeyKind, Exact, RulesLocal, PolicyExact;
    TypedAgree(cfg, t, a, b);
  }

  lemma AddListsThese(cfg: Config, t: Tenant, src: App, duties: iset<Duty>, delta: App, own: iset<Duty>)
    requires ValidTenant(cfg, t) && WellFormed(cfg, t, src) && WellFormed(cfg, t, delta)
    requires ListsThese(cfg, t, src, duties) && ListsThese(cfg, t, delta, own)
    ensures ListsThese(cfg, t, Merge(cfg, t, false, src, delta), Remaining(cfg, t, duties, delta) + own)
  {
    hide ValidTenant, WellFormed, Merge, Uses, DenyPath, TypeFor, EntryFor, Types;
    var all := Remaining(cfg, t, duties, delta) + own;
    forall ty | ty in Types(t)
      ensures forall u :: u in Uses(cfg, t, Merge(cfg, t, false, src, delta), ty) <==>
                            u in Uses(cfg, t, src, ty) || u in Uses(cfg, t, delta, ty)
    {
      AddedEntries(cfg, t, src, delta, ty);
    }
    forall ty, u | ty in Types(t) && u in Uses(cfg, t, Merge(cfg, t, false, src, delta), ty) && u != DenyPath(cfg, t)
      ensures exists d :: Lists(cfg, t, all, ty, u, d)
    {
      if u in Uses(cfg, t, delta, ty) {
        var d :| Lists(cfg, t, own, ty, u, d);
        assert Lists(cfg, t, all, ty, u, d);
      } else {
        var d :| Lists(cfg, t, duties, ty, u, d);
        assert Lists(cfg, t, all, ty, u, d);
      }
    }
  }

  /** A duty whose entry the delta neither names nor touches is fulfilled as before. */
  lemma RemainingFulfilled(cfg: Config, t: Tenant, src: App, duties: iset<Duty>, delta: App, d: Duty)
    requires ValidTenant(cfg, t) && WellFormed(cfg, t, delta) && Honours(cfg, t, src, duties)
    requires Complete(cfg, t, src, delta) && d in Remaining(cfg, t, duties, delta)
    ensures Fulfils(cfg, t, Merge(cfg, t, false, src, delta), d)
  {
    hide ValidTenant, WellFormed, Merge, Uses, DenyPath, TypeFor, EntryFor, Types, Touched, EntryVerdict, ByElement,
         Sayer,
         ActionFor;
    var ty, use := TypeFor(d), EntryFor(cfg, t, d);
    PolicyOfWellFormed(cfg, t, src, ty);
    forall matches, p
      ensures DecidesFor(cfg, t, Merge(cfg, t, false, src, delta), d, matches, p)
    {
      VerdictUntouched(cfg, t, src, delta, ty, use, ByElement(matches), p);
      assert DecidesFor(cfg, t, src, d, matches, p);
    }
  }

  /** A covered delete takes its own entries and leaves the others as they are. */
  lemma DeleteHonours(cfg: Config, t: Tenant, src: App, duties: iset<Duty>, items: seq<Item>, order: seq<string>)
    requires GeneratedDelta(cfg, t, items, order) && Honours(cfg, t, src, duties)
    requires SourcesCovered(cfg, src, items)
    ensures var delta := Delta(cfg, t, items, order);
            var next := Next(cfg, t, true, Some(src), delta);
            next.Some? && Honours(cfg, t, next.value, Remaining(cfg, t, duties, delta))
  {
    hide GoodItems, AllReady, Visits, Delta, ValidTenant, Merge, WellFormed, Fulfils, ListsThese, SourcesCovered,
         Covers,
         Exact, GroupNames, Uses, TypeFor, EntryFor;
    var delta := Delta(cfg, t, items, order);
    DeltaWellFormed(cfg, t, items, order);
    DeleteOfRules(cfg, t, src, items, order);
    DeleteListsThese(cfg, t, src, duties, delta);
    forall d | d in Remaining(cfg, t, duties, delta)
      ensures Fulfils(cfg, t, Merge(cfg, t, true, src, delta), d)
    {
      SurvivorFulfilled(cfg, t, src, duties, delta, d);
    }
  }

  lemma DeleteListsThese(cfg: Config, t: Tenant, src: App, duties: iset<Duty>, delta: App)
    requires ValidTenant(cfg, t) && WellFormed(cfg, t, src) && WellFormed(cfg, t, delta)
    requires ListsThese(cfg, t, src, duties)
    ensures ListsThese(cfg, t, Merge(cfg, t, true, src, delta), Remaining(cfg, t, duties, delta))
  {
    hide ValidTenant, WellFormed, Merge, Uses, DenyPath, TypeFor, EntryFor, Types;
    var rest := Remaining(cfg, t, duties, delta);
    forall ty | ty in Types(t)
      ensures forall u :: u in Uses(cfg, t, Merge(cfg, t, true, src, delta), ty) <==>
                            u in Uses(cfg, t, src, ty) && (u !in Uses(cfg, t, delta, ty) || u == DenyPath(cfg, t))
    {
      DeletedEntries(cfg, t, src, delta, ty);
    }
    forall ty, u | ty in Types(t) && u in Uses(cfg, t, Merge(cfg, t, true, src, delta), ty) && u != DenyPath(cfg, t)
      ensures exists d :: Lists(cfg, t, rest, ty, u, d)
    {
      var d :| Lists(cfg, t, duties, ty, u, d);
      assert Lists(cfg, t, rest, ty, u, d);
    }
  }

  lemma SurvivorFulfilled(cfg: Config, t: Tenant, src: App, duties: iset<Duty>, delta: App, d: Duty)
    requires ValidTenant(cfg, t) && WellFormed(cfg, t, delta) && Honours(cfg, t, src, duties) && Covers(src, delta)
    requires d in Remaining(cfg, t, duties, delta)
    ensures Fulfils(cfg, t, Merge(cfg, t, true, src, delta), d)
  {
    hide ValidTenant, WellFormed, Merge, Uses, DenyPath, TypeFor, EntryFor, Types, EntryVerdict, ByElement, Sayer,
         ActionFor,
         Covers;
    var ty, use := TypeFor(d), EntryFor(cfg, t, d);
    DeletedEntries(cfg, t, src, delta, ty);
    forall matches, p
      ensures DecidesFor(cfg, t, Merge(cfg, t, true, src, delta), d, matches, p)
    {
      VerdictAfterDelete(cfg, t, src, delta, ty, use, ByElement(matches), p);
      assert DecidesFor(cfg, t, src, d, matches, p);
    }
  }

  // ----- whole runs -----

  /** One request: what it carries, and in which orders its delta was generated. */
  datatype RuleRequest = RuleRequest(isDelete: bool, resources: Resources, items: seq<Item>, order: seq<string>)

  /** What the partition holds, and the duties that its entries stand for. */
  datatype World = World(app: Option<App>, duties: iset<Duty>)

  /** A request that an add completes and a delete covers; what it asks for need not be enforceable. */
  ghost predicate Proper(cfg: Config, t: Tenant, src: Option<App>, q: RuleRequest) {
    && GeneratedDelta(cfg, t, q.items, q.order)
    && (q.isDelete ==> src.Some? ==> SourcesCovered(cfg, src.value, q.items))
    && (!q.isDelete ==>
          && GoodResources(cfg, t, q.resources) && ItemsOf(DealtRules(t.name, q.resources), q.items)
          && (src.Some? ==> Complete(cfg, t, src.value, Delta(cfg, t, q.items, q.order))))
  }

  ghost function StepWorld(cfg: Config, t: Tenant, w: World, q: RuleRequest): World
    requires GeneratedDelta(cfg, t, q.items, q.order)
  {
    var delta := Delta(cfg, t, q.items, q.order);
    var rest := Remaining(cfg, t, w.duties, delta);
    World(Next(cfg, t, q.isDelete, w.app, delta), if q.isDelete then rest else rest + Requested(t, q.resources))
  }

  /** A run: every request was proper where it was made. */
  ghost predicate RunsTo(cfg: Config, t: Tenant, start: World, requests: seq<RuleRequest>, end: World) {
    if requests == [] then end == start
    else
      var n := |requests| - 1;
      exists w :: RunsTo(cfg, t, start, requests[..n], w) && Proper(cfg, t, w.app, requests[n])
                  && end == StepWorld(cfg, t, w, requests[n])
  }

  ghost predicate GoodWorld(cfg: Config, t: Tenant, w: World) {
    if w.app.None? then w.duties == iset{} else Honours(cfg, t, w.app.value, w.duties)
  }

  /** A partition that nothing was posted to, or that start-up gave the default application. */
  ghost predicate InitialWorld(cfg: Config, t: Tenant, w: World) {
    w.app in {None, Some(DefaultApp(cfg, t.name, t))} && w.duties == iset{}
  }

  /** Any well-formed application whose policies list deny-all at most has no duties to honour. */
  lemma NoDuties(cfg: Config, t: Tenant, app: App)
    requires WellFormed(cfg, t, app)
    requires forall ty, u :: ty in Types(t) && u in Uses(cfg, t, app, ty) ==> u == DenyPath(cfg, t)
    ensures Honours(cfg, t, app, iset{})
  {
    hide WellFormed, Uses, DenyPath, TypeFor, EntryFor, Types;
  }

  lemma InitialIsGood(cfg: Config, t: Tenant, w: World)
    requires ValidTenant(cfg, t) && InitialWorld(cfg, t, w)
    ensures GoodWorld(cfg, t, w)
  {
    hide ValidTenant, DefaultApp, PartitionPath, DenyAllAttr, Types, WellFormed, PolicyKey, Honours;
    if w.app.Some? {
      DefaultValues(cfg, t);
      DefaultWellFormed(cfg, t);
      NoDuties(cfg, t, w.app.value);
    }
  }

  /** One proper request keeps a world good. */
  lemma StepIsGood(cfg: Config, t: Tenant, w: World, q: RuleRequest)
    requires ValidTenant(cfg, t) && GoodWorld(cfg, t, w) && Proper(cfg, t, w.app, q)
    ensures GoodWorld(cfg, t, StepWorld(cfg, t, w, q))
  {
    hide GoodItems, AllReady, Visits, Delta, ValidTenant, GoodResources, DealtRules, ItemsOf, Honours, SourcesCovered,
         Complete, Requested, GroupNames, Uses, TypeFor, EntryFor, Merge, IsDiff;
    if w.app.None? {
      if !q.isDelete {
        FirstSyncHonours(cfg, t, q);
        var delta := Delta(cfg, t, q.items, q.order);
        assert Remaining(cfg, t, w.duties, delta) + Requested(t, q.resources) == Requested(t, q.resources);
      }
    } else if q.isDelete {
      DeleteHonours(cfg, t, w.app.value, w.duties, q.items, q.order);
    } else {
      AddHonours(cfg, t, w.app.value, w.duties, q.resources, q.items, q.order);
    }
  }

  lemma FirstSyncHonours(cfg: Config, t: Tenant, q: RuleRequest)
    requires Proper(cfg, t, None, q) && !q.isDelete
    ensures Honours(cfg, t, Delta(cfg, t, q.items, q.order), Requested(t, q.resources))
  {
    hide GoodItems, AllReady, Visits, Delta, ValidTenant, GoodResources, DealtRules, ItemsOf, WellFormed, Fulfils,
         ListsThese, Requested, GroupNames;
    DeltaWellFormed(cfg, t, q.items, q.order);
    DeltaLists(cfg, t, q.resources, q.items, q.order);
    forall d | d in Requested(t, q.resources)
      ensures Fulfils(cfg, t, Delta(cfg, t, q.items, q.order), d)
    {
      RequestedFulfilled(cfg, t, None, q.resources, q.items, q.order, d);
    }
  }

  /** Every state of every run of proper requests honours the duties that the run has left. */
  lemma {:induction false} RunHonours(cfg: Config, t: Tenant, start: World, requests: seq<RuleRequest>, end: World)
    requires ValidTenant(cfg, t) && GoodWorld(cfg, t, start) && RunsTo(cfg, t, start, requests, end)
    ensures GoodWorld(cfg, t, end)
  {
    hide ValidTenant, GoodWorld, GeneratedDelta, GoodResources, ItemsOf, Complete, SourcesCovered, StepWorld;
    if requests != [] {
      var n := |requests| - 1;
      var w :| RunsTo(cfg, t, start, requests[..n], w) && Proper(cfg, t, w.app, requests[n])
               && end == StepWorld(cfg, t, w, requests[n]);
      RunHonours(cfg, t, start, requests[..n], w);
      StepIsGood(cfg, t, w, requests[n]);
    }
  }

  /**
   * In every state of a run from an empty partition or the default application each policy decides every packet by
   * the first listed rule list that was given it; and by the first rule that asks for it, where the rules that the
   * policy then stands for are enforceable.  The service policy drops the rest.
   */
  lemma RunDecides(cfg: Config, t: Tenant, start: World, requests: seq<RuleRequest>, end: World, ty: string,
                   matches: (string, string) -> bool, p: Packet)
    requires ValidTenant(cfg, t) && InitialWorld(cfg, t, start) && RunsTo(cfg, t, start, requests, end)
    requires end.app.Some? && ty in Types(t)
    ensures DecidesBy(cfg, t, end.app.value, end.duties, ty, matches, p, Sayer(cfg, matches, p))
    ensures Enforceables(end.duties, ty) ==>
              DecidesBy(cfg, t, end.app.value, end.duties, ty, matches, p, Asker(matches, p))
  {
    hide ValidTenant, InitialWorld, RunsTo, Honours, DecidesBy, Types, Enforceables;
    InitialIsGood(cfg, t, start);
    RunHonours(cfg, t, start, requests, end);
    PolicyDecides(cfg, t, end.app.value, end.duties, ty, matches, p);
    if Enforceables(end.duties, ty) {
      PolicyEnforces(cfg, t, end.app.value, end.duties, ty, matches, p);
    }
  }
}
