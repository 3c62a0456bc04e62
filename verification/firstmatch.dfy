/**
 * The meaning of a policy: its rule lists are consulted in order and the first matching rule decides.  The
 * evaluator is the reading of "deny all needs to be at the end" that the merge code relies on; how a list holds
 * an address or a port is left open (`holds`).
 */
module FirstMatch {
  import opened Model
  import opened Text
  import opened Naming
  import opened PolicyMerge
  import opened Engine
  import opened States
  import opened Exchange

  datatype Packet = Packet(protocol: string, source: string, destination: string, port: string)

  /** Which entry of the policy decided, and how. */
  datatype Verdict = Verdict(entry: string, action: string)

  function OrElse<T>(a: Option<T>, b: Option<T>): Option<T> {
    if a.Some? then a else b
  }

  /** An endpoint without lists matches everything. */
  predicate InLists(app: App, holds: (string, Obj) -> bool, value: string, uses: seq<string>) {
    uses == [] || exists i :: 0 <= i < |uses| && Origin(uses[i]) in app && holds(value, app[Origin(uses[i])])
  }

  predicate RuleMatches(app: App, holds: (string, Obj) -> bool, p: Packet, r: Rule) {
    && (r.protocol in {"", "any"} || r.protocol == p.protocol)
    && InLists(app, holds, p.destination, r.destination.addressLists)
    && InLists(app, holds, p.port, r.destination.portLists)
    && InLists(app, holds, p.source, r.source.addressLists)
  }

  function FirstRule(app: App, holds: (string, Obj) -> bool, p: Packet, rules: seq<Rule>): Option<string> {
    if rules == [] then None
    else
      var n := |rules| - 1;
      OrElse(FirstRule(app, holds, p, rules[..n]),
             if RuleMatches(app, holds, p, rules[n]) then Some(rules[n].action) else None)
  }

  function EntryVerdict(app: App, holds: (string, Obj) -> bool, p: Packet, use: string): Option<Verdict> {
    var k := Origin(use);
    if k in app && app[k].RuleList? then
      match FirstRule(app, holds, p, app[k].rules)
      case None => None
      case Some(action) => Some(Verdict(use, action))
    else None
  }

  function Decide(app: App, holds: (string, Obj) -> bool, p: Packet, uses: seq<string>): Option<Verdict> {
    if uses == [] then None
    else OrElse(Decide(app, holds, p, uses[..|uses| - 1]), EntryVerdict(app, holds, p, uses[|uses| - 1]))
  }

  // ----- the evaluator -----

  lemma {:induction false} DecideConcat(app: App, holds: (string, Obj) -> bool, p: Packet, a: seq<string>,
                                        b: seq<string>)
    ensures Decide(app, holds, p, a + b) == OrElse(Decide(app, holds, p, a), Decide(app, holds, p, b))
  {
    if b == [] {
      assert a + b == a;
    } else {
      var n := |b| - 1;
      DecideConcat(app, holds, p, a, b[..n]);
      assert (a + b)[..|a| + n] == a + b[..n];
    }
  }

  lemma {:induction false} DecidedBy(app: App, holds: (string, Obj) -> bool, p: Packet, uses: seq<string>)
    ensures Decide(app, holds, p, uses).Some? ==> Decide(app, holds, p, uses).value.entry in uses
  {
    if uses != [] {
      DecidedBy(app, holds, p, uses[..|uses| - 1]);
    }
  }

  lemma {:induction false} DecideFrame(app: App, app': App, holds: (string, Obj) -> bool, p: Packet, uses: seq<string>)
    requires forall u :: u in uses ==> EntryVerdict(app, holds, p, u) == EntryVerdict(app', holds, p, u)
    ensures Decide(app, holds, p, uses) == Decide(app', holds, p, uses)
  {
    hide EntryVerdict;
    if uses != [] {
      DecideFrame(app, app', holds, p, uses[..|uses| - 1]);
    }
  }

  /** Entries that a delete takes out matter only to the packets they decided. */
  lemma {:induction false} DecideWithout(app: App, holds: (string, Obj) -> bool, p: Packet, deny: string,
                                         uses: seq<string>, gone: seq<string>)
    ensures var before, after := Decide(app, holds, p, uses), Decide(app, holds, p, Without(deny, uses, gone));
            && (before.None? ==> after.None?)
            && (before.Some? && (before.value.entry !in gone || Contains(before.value.entry, deny)) ==> after == before)
  {
    hide EntryVerdict, Contains;
    if uses != [] {
      var n := |uses| - 1;
      DecideWithout(app, holds, p, deny, uses[..n], gone);
      VerdictBy(app, holds, p, uses[n]);
    }
  }

  lemma VerdictBy(app: App, holds: (string, Obj) -> bool, p: Packet, use: string)
    ensures var v := EntryVerdict(app, holds, p, use); v.Some? ==> v.value.entry == use
  {
  }

  // ----- the closing entry -----

  lemma DenyRuleMatches(app: App, holds: (string, Obj) -> bool, p: Packet)
    ensures FirstRule(app, holds, p, DENY_ALL_LIST.rules) == Some("drop")
  {
    var rules := DENY_ALL_LIST.rules;
    assert rules[..0] == [] && FirstRule(app, holds, p, []) == None;
    assert RuleMatches(app, holds, p, rules[0]);
  }

  /** The service policy decides every packet: what none of the other entries decides is dropped by deny-all. */
  lemma ServicePolicyDecides(cfg: Config, t: Tenant, app: App, holds: (string, Obj) -> bool, p: Packet)
    requires ValidTenant(cfg, t) && WellFormed(cfg, t, app)
    ensures var uses := Uses(cfg, t, app, SVC);
            uses != [] && Decide(app, holds, p, uses) ==
              OrElse(Decide(app, holds, p, uses[..|uses| - 1]),
                     Some(Verdict(PartitionPath(t.name, DenyAllAttr(cfg)), "drop")))
  {
    hide KeyKind, Decode, Origin, PartitionPath, DenyAllAttr, FirstRule, Uses, RulesRefs, RulesLocal, Exact, Typed;
    DenyKey(cfg, t);
    DenyRuleMatches(app, holds, p);
    assert SVC in Types(t) && PolicyExact(cfg, t, app, SVC);
  }

  // ----- what an entry's verdict depends on -----

  lemma {:induction false} OriginInSet(uses: seq<string>, i: nat)
    requires i < |uses|
    ensures Origin(uses[i]) in OriginSet(uses)
  {
    if i < |uses| - 1 {
      OriginInSet(uses[..|uses| - 1], i);
    }
  }

  lemma InListsFrame(app: App, app': App, holds: (string, Obj) -> bool, value: string, uses: seq<string>)
    requires forall a :: a in OriginSet(uses) ==> Lookup(app, a) == Lookup(app', a)
    ensures InLists(app, holds, value, uses) == InLists(app', holds, value, uses)
  {
    hide Origin, OriginSet;
    forall i | 0 <= i < |uses|
      ensures Lookup(app, Origin(uses[i])) == Lookup(app', Origin(uses[i]))
    {
      OriginInSet(uses, i);
    }
  }

  lemma {:induction false} FirstRuleFrame(app: App, app': App, holds: (string, Obj) -> bool, p: Packet,
                                          rules: seq<Rule>)
    requires forall a :: a in RulesRefs(rules) ==> Lookup(app, a) == Lookup(app', a)
    ensures FirstRule(app, holds, p, rules) == FirstRule(app', holds, p, rules)
  {
    if rules != [] {
      var r := rules[|rules| - 1];
      FirstRuleFrame(app, app', holds, p, rules[..|rules| - 1]);
      hide OriginSet, InLists;
      OriginSetConcat(r.destination.addressLists, r.destination.portLists);
      OriginSetConcat(r.destination.addressLists + r.destination.portLists, r.source.addressLists);
      InListsFrame(app, app', holds, p.destination, r.destination.addressLists);
      InListsFrame(app, app', holds, p.port, r.destination.portLists);
      InListsFrame(app, app', holds, p.source, r.source.addressLists);
    }
  }

  lemma VerdictFrame(app: App, app': App, holds: (string, Obj) -> bool, p: Packet, use: string)
    requires var k := Origin(use); k in app && app[k].RuleList? && Lookup(app', k) == Some(app[k])
    requires forall a :: a in Refs(app[Origin(use)]) ==> Lookup(app, a) == Lookup(app', a)
    ensures EntryVerdict(app, holds, p, use) == EntryVerdict(app', holds, p, use)
  {
    hide FirstRule, Origin;
    FirstRuleFrame(app, app', holds, p, app[Origin(use)].rules);
  }

  // ----- adding fresh rules -----

  /** Old entries decide as before: their rule lists and the lists those refer to are untouched. */
  lemma VerdictAfterAdd(cfg: Config, t: Tenant, src: App, delta: App, ty: string, use: string,
                        holds: (string, Obj) -> bool, p: Packet)
    requires ValidTenant(cfg, t) && WellFormed(cfg, t, src) && WellFormed(cfg, t, delta)
    requires FreshRules(cfg, src, delta) && PolicyExact(cfg, t, src, ty) && use in Uses(cfg, t, src, ty)
    ensures EntryVerdict(src, holds, p, use) == EntryVerdict(Merge(cfg, t, false, src, delta), holds, p, use)
  {
    hide KeyKind, Merge, RulesRefs, Origin, Uses, RulesLocal, PartitionPath, EntryVerdict;
    var k, m := Origin(use), Merge(cfg, t, false, src, delta);
    TypedAgree(cfg, t, src, delta);
    DenyRefersToNothing();
    AddedRuleList(cfg, t, src, delta, k);
    forall a | a in Refs(src[k])
      ensures Lookup(m, a) == Lookup(src, a)
    {
      assert Referenced(src, a);
      assert Referenced(m, a);
      AddNoDangling(cfg, t, src, delta, a);
    }
    VerdictFrame(src, m, holds, p, use);
  }

  /**
   * A packet's fate after an add of fresh rules: the old entries before deny-all first, as they were; then the
   * new entries; then deny-all, as it was.  So a decision changes only for packets that reached deny-all or
   * matched nothing.
   */
  lemma AddKeepsDecisions(cfg: Config, t: Tenant, src: App, delta: App, ty: string,
                          holds: (string, Obj) -> bool, p: Packet)
    requires ValidTenant(cfg, t) && WellFormed(cfg, t, src) && WellFormed(cfg, t, delta)
    requires FreshRules(cfg, src, delta) && ty in Types(t)
    ensures var deny, m := DenyAllAttr(cfg), Merge(cfg, t, false, src, delta);
            var srcUses, placed := Uses(cfg, t, src, ty), Placed(deny, Uses(cfg, t, src, ty), Uses(cfg, t, delta, ty));
            var before, after := Decide(src, holds, p, srcUses), Decide(m, holds, p, Uses(cfg, t, m, ty));
            && before == OrElse(Decide(src, holds, p, BeforeDeny(deny, srcUses)),
                                Decide(src, holds, p, DenyTail(deny, srcUses)))
            && after == OrElse(Decide(src, holds, p, BeforeDeny(deny, srcUses)),
                               OrElse(Decide(m, holds, p, placed), Decide(src, holds, p, DenyTail(deny, srcUses))))
            && (before != after ==> (before.None? || Contains(before.value.entry, deny))
                                    && after.Some? && after.value.entry in Uses(cfg, t, delta, ty)
                                    && after.value.entry !in srcUses)
  {
    hide WellFormed, Merge, FreshRules, Contains, DenyAllAttr, BeforeDeny, DenyTail, Placed, Uses, Origin,
         EntryVerdict, PolicyKey;
    var deny, m := DenyAllAttr(cfg), Merge(cfg, t, false, src, delta);
    var srcUses, deltaUses := Uses(cfg, t, src, ty), Uses(cfg, t, delta, ty);
    var init, placed, tail := BeforeDeny(deny, srcUses), Placed(deny, srcUses, deltaUses), DenyTail(deny, srcUses);
    AddedUses(cfg, t, src, delta, ty);
    PlacedMembers(deny, srcUses, deltaUses);
    DecideConcat(src, holds, p, init, tail);
    DecideConcat(m, holds, p, init + placed, tail);
    DecideConcat(m, holds, p, init, placed);
    forall u | u in srcUses
      ensures EntryVerdict(src, holds, p, u) == EntryVerdict(m, holds, p, u)
    {
      PolicyOfWellFormed(cfg, t, src, ty);
      VerdictAfterAdd(cfg, t, src, delta, ty, u, holds, p);
    }
    DecideFrame(src, m, holds, p, init);
    DecideFrame(src, m, holds, p, tail);
    DecidedBy(src, holds, p, tail);
    DecidedBy(m, holds, p, placed);
  }

  lemma PolicyOfWellFormed(cfg: Config, t: Tenant, app: App, ty: string)
    requires WellFormed(cfg, t, app) && ty in Types(t)
    ensures PolicyExact(cfg, t, app, ty)
  {
  }

  lemma AddedUses(cfg: Config, t: Tenant, src: App, delta: App, ty: string)
    requires ValidTenant(cfg, t) && WellFormed(cfg, t, src) && WellFormed(cfg, t, delta) && ty in Types(t)
    ensures var deny, srcUses := DenyAllAttr(cfg), Uses(cfg, t, src, ty);
            var placed := Placed(deny, srcUses, Uses(cfg, t, delta, ty));
            && Uses(cfg, t, Merge(cfg, t, false, src, delta), ty)
                 == BeforeDeny(deny, srcUses) + placed + DenyTail(deny, srcUses)
            && srcUses == BeforeDeny(deny, srcUses) + DenyTail(deny, srcUses)
            && (forall u :: u in BeforeDeny(deny, srcUses) || u in DenyTail(deny, srcUses) ==> u in srcUses)
            && (forall u :: u in DenyTail(deny, srcUses) ==> Contains(u, deny))
  {
    hide KeyKind, Merge, Contains, DenyAllAttr, BeforeDeny, DenyTail, Placed, Uses, Origin, PolicyKey, RulesLocal,
         PartitionPath;
    TypedSkips(cfg, t, src);
    MergedUses(cfg, t, false, src, delta, ty);
    PolicyShaped(cfg, t, src, ty);
    DenyShared(cfg, t, src, delta, ty);
    AddForm(DenyAllAttr(cfg), Uses(cfg, t, src, ty), Uses(cfg, t, delta, ty));
    ShapeSplit(DenyAllAttr(cfg), Uses(cfg, t, src, ty));
  }

  // ----- adding rules that may be there already -----

  /** The delta brings or replaces the entry's rule list, or changes a list that it uses. */
  predicate Touched(cfg: Config, src: App, delta: App, use: string) {
    var k := Origin(use);
    && k != DenyAllAttr(cfg)
    && (k in delta || (k in src && exists a :: a in Refs(src[k]) && a in delta && Lookup(src, a) != Some(delta[a])))
  }

  predicate TouchedVerdict(cfg: Config, src: App, delta: App, v: Option<Verdict>) {
    v.Some? && Touched(cfg, src, delta, v.value.entry)
  }

  /** An entry that the delta leaves alone decides as before. */
  lemma VerdictUntouched(cfg: Config, t: Tenant, src: App, delta: App, ty: string, use: string,
                         holds: (string, Obj) -> bool, p: Packet)
    requires ValidTenant(cfg, t) && WellFormed(cfg, t, src) && WellFormed(cfg, t, delta)
    requires PolicyExact(cfg, t, src, ty) && use in Uses(cfg, t, src, ty) && !Touched(cfg, src, delta, use)
    ensures EntryVerdict(src, holds, p, use) == EntryVerdict(Merge(cfg, t, false, src, delta), holds, p, use)
  {
    hide KeyKind, Merge, RulesRefs, Origin, Uses, RulesLocal, PartitionPath, EntryVerdict, DenyAllAttr;
    var k, m := Origin(use), Merge(cfg, t, false, src, delta);
    TypedAgree(cfg, t, src, delta);
    DenyRefersToNothing();
    AddedRuleList(cfg, t, src, delta, k);
    forall a | a in Refs(src[k])
      ensures Lookup(m, a) == Lookup(src, a)
    {
      assert Referenced(src, a);
      assert Referenced(m, a);
      AddNoDangling(cfg, t, src, delta, a);
    }
    VerdictFrame(src, m, holds, p, use);
  }

  /** Where untouched entries keep their verdicts, the decision is the same or made by a touched entry. */
  lemma {:induction false} DecideUntouched(cfg: Config, src: App, delta: App, app: App, app': App,
                                           holds: (string, Obj) -> bool, p: Packet, uses: seq<string>)
    requires forall u :: u in uses && !Touched(cfg, src, delta, u) ==>
               EntryVerdict(app, holds, p, u) == EntryVerdict(app', holds, p, u)
    ensures var v, v' := Decide(app, holds, p, uses), Decide(app', holds, p, uses);
            v == v' || TouchedVerdict(cfg, src, delta, v) || TouchedVerdict(cfg, src, delta, v')
  {
    hide EntryVerdict, Touched;
    if uses != [] {
      var n := |uses| - 1;
      DecideUntouched(cfg, src, delta, app, app', holds, p, uses[..n]);
      VerdictBy(app, holds, p, uses[n]);
      VerdictBy(app', holds, p, uses[n]);
    }
  }

  lemma {:induction false} DecideTouched(cfg: Config, src: App, delta: App, app: App, holds: (string, Obj) -> bool,
                                         p: Packet, uses: seq<string>)
    requires forall u :: u in uses ==> Touched(cfg, src, delta, u)
    ensures Decide(app, holds, p, uses).Some? ==> TouchedVerdict(cfg, src, delta, Decide(app, holds, p, uses))
  {
    hide EntryVerdict, Touched;
    DecidedBy(app, holds, p, uses);
  }

  /** The new entries of a policy are touched. */
  lemma NewEntryTouched(cfg: Config, t: Tenant, src: App, delta: App, ty: string, u: string)
    requires ValidTenant(cfg, t) && WellFormed(cfg, t, src) && WellFormed(cfg, t, delta) && ty in Types(t)
    requires u in Uses(cfg, t, delta, ty) && u !in Uses(cfg, t, src, ty)
    ensures Touched(cfg, src, delta, u)
  {
    hide KeyKind, Origin, Uses, RulesLocal, PartitionPath, DenyAllAttr, Refs, Exact;
    assert PolicyExact(cfg, t, delta, ty) && PolicyExact(cfg, t, src, ty);
    var k := Origin(u);
    assert u == PartitionPath(t.name, k) && k in delta && TypeOf(cfg, k) == ty;
    assert Lookup(src, DenyAllAttr(cfg)) == Some(DENY_ALL_LIST);
  }

  /**
   * An add of any rules, new or known, changes the fate only of packets that an entry it touches decides before or
   * after: one that the delta brings or replaces, or that uses a list that the delta changes.
   */
  lemma UpdateKeepsDecisions(cfg: Config, t: Tenant, src: App, delta: App, ty: string,
                             holds: (string, Obj) -> bool, p: Packet)
    requires ValidTenant(cfg, t) && WellFormed(cfg, t, src) && WellFormed(cfg, t, delta) && ty in Types(t)
    ensures var m := Merge(cfg, t, false, src, delta);
            var v, v' := Decide(src, holds, p, Uses(cfg, t, src, ty)), Decide(m, holds, p, Uses(cfg, t, m, ty));
            v == v' || TouchedVerdict(cfg, src, delta, v) || TouchedVerdict(cfg, src, delta, v')
  {
    hide WellFormed, Merge, Contains, DenyAllAttr, BeforeDeny, DenyTail, Placed, Uses, Touched, EntryVerdict, PolicyKey;
    var deny, m := DenyAllAttr(cfg), Merge(cfg, t, false, src, delta);
    var srcUses, deltaUses := Uses(cfg, t, src, ty), Uses(cfg, t, delta, ty);
    var init, placed, tail := BeforeDeny(deny, srcUses), Placed(deny, srcUses, deltaUses), DenyTail(deny, srcUses);
    AddedUses(cfg, t, src, delta, ty);
    PlacedMembers(deny, srcUses, deltaUses);
    DecideConcat(src, holds, p, init, tail);
    DecideConcat(m, holds, p, init + placed, tail);
    DecideConcat(m, holds, p, init, placed);
    forall u | u in srcUses && !Touched(cfg, src, delta, u)
      ensures EntryVerdict(src, holds, p, u) == EntryVerdict(m, holds, p, u)
    {
      PolicyOfWellFormed(cfg, t, src, ty);
      VerdictUntouched(cfg, t, src, delta, ty, u, holds, p);
    }
    forall u | u in placed
      ensures Touched(cfg, src, delta, u)
    {
      NewEntryTouched(cfg, t, src, delta, ty, u);
    }
    DecideUntouched(cfg, src, delta, src, m, holds, p, init);
    DecideTouched(cfg, src, delta, m, holds, p, placed);
    DecideUntouched(cfg, src, delta, src, m, holds, p, tail);
  }

  // ----- deleting covered rules -----

  lemma VerdictAfterDelete(cfg: Config, t: Tenant, src: App, delta: App, ty: string, use: string,
                           holds: (string, Obj) -> bool, p: Packet)
    requires ValidTenant(cfg, t) && WellFormed(cfg, t, src) && WellFormed(cfg, t, delta) && Covers(src, delta)
    requires ty in Types(t) && use in Uses(cfg, t, Merge(cfg, t, true, src, delta), ty)
    ensures EntryVerdict(src, holds, p, use) == EntryVerdict(Merge(cfg, t, true, src, delta), holds, p, use)
  {
    hide KeyKind, Merge, RulesRefs, Origin, Uses, RulesLocal, PartitionPath, EntryVerdict, Covers;
    var k, m := Origin(use), Merge(cfg, t, true, src, delta);
    TypedAgree(cfg, t, src, delta);
    TypedSkips(cfg, t, src);
    MergedPolicyExact(cfg, t, true, src, delta, ty);
    KeptRuleList(cfg, t, src, delta, k);
    forall a | a in Refs(src[k])
      ensures Lookup(m, a) == Lookup(src, a)
    {
      assert Referenced(m, a);
      DeleteNoDangling(cfg, t, src, delta, a);
    }
    VerdictFrame(src, m, holds, p, use);
  }

  /** A covered delete changes the fate only of packets that one of the deleted rule lists decided. */
  lemma DeleteKeepsDecisions(cfg: Config, t: Tenant, src: App, delta: App, ty: string,
                             holds: (string, Obj) -> bool, p: Packet)
    requires ValidTenant(cfg, t) && WellFormed(cfg, t, src) && WellFormed(cfg, t, delta) && Covers(src, delta)
    requires ty in Types(t)
    ensures var m := Merge(cfg, t, true, src, delta);
            var before, after := Decide(src, holds, p, Uses(cfg, t, src, ty)), Decide(m, holds, p, Uses(cfg, t, m, ty));
            before != after ==>
              before.Some? && before.value.entry in Uses(cfg, t, delta, ty)
                && !Contains(before.value.entry, DenyAllAttr(cfg))
  {
    hide WellFormed, Covers, Merge, Contains, DenyAllAttr, Uses, Origin, EntryVerdict, PolicyKey, Without;
    var deny, m := DenyAllAttr(cfg), Merge(cfg, t, true, src, delta);
    var srcUses, gone := Uses(cfg, t, src, ty), Uses(cfg, t, delta, ty);
    DeletedUses(cfg, t, src, delta, ty);
    forall u | u in Uses(cfg, t, m, ty)
      ensures EntryVerdict(src, holds, p, u) == EntryVerdict(m, holds, p, u)
    {
      VerdictAfterDelete(cfg, t, src, delta, ty, u, holds, p);
    }
    DecideFrame(src, m, holds, p, Uses(cfg, t, m, ty));
    DecideWithout(src, holds, p, deny, srcUses, gone);
  }

  lemma DeletedUses(cfg: Config, t: Tenant, src: App, delta: App, ty: string)
    requires ValidTenant(cfg, t) && WellFormed(cfg, t, src) && WellFormed(cfg, t, delta) && ty in Types(t)
    ensures Uses(cfg, t, Merge(cfg, t, true, src, delta), ty)
            == Without(DenyAllAttr(cfg), Uses(cfg, t, src, ty), Uses(cfg, t, delta, ty))
  {
    hide KeyKind, Merge, Contains, DenyAllAttr, BeforeDeny, DenyTail, Without, Uses, Origin, PolicyKey, RulesLocal,
         PartitionPath;
    var deny, srcUses, gone := DenyAllAttr(cfg), Uses(cfg, t, src, ty), Uses(cfg, t, delta, ty);
    TypedSkips(cfg, t, src);
    MergedUses(cfg, t, true, src, delta, ty);
    PolicyShaped(cfg, t, src, ty);
    DeleteForm(deny, srcUses, gone);
    ShapeSplit(deny, srcUses);
    WithoutConcat(deny, BeforeDeny(deny, srcUses), DenyTail(deny, srcUses), gone);
    WithoutNothing(deny, DenyTail(deny, srcUses), gone);
  }
}
