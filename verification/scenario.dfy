/**
 * Concrete clusters: a namespace rule with two external services, of which one is deleted, and its repair; a service
 * rule without endpoint addresses; a port without a protocol; two protocols under one port name; a slash in a port
 * name; a synchronisation that is posted again.
 */
module Scenario {
  import opened Model
  import opened Text
  import opened Naming
  import opened Engine
  import opened States
  import opened Ports
  import opened Generate
  import opened Deltas
  import opened Guarantees
  import opened Intake
  import opened EngineLaws
  import opened FirstMatch
  import opened Selection
  import opened Meaning
  import opened Intent
  import opened Resync
  import opened Tenants

  const TENANT := Tenant(COMMON, 0, "0", "", "", "", map[])

  const CFG := Config("east", "east", false, false, map[COMMON := TENANT], map["shop" := TENANT], _ => true)

  const BANK := ExternalService("shop", "bank", ["192.0.2.1"], [])

  const MAIL := ExternalService("shop", "mail", ["192.0.2.2"], [])

  const RULE := NamespaceRule("shop", "out", "accept", false, ["bank", "mail"])

  /** What a request hands over: the rule as it stands, and the external services the request is about. */
  function Deployed(services: seq<ExternalService>): Resources {
    Resources([], [RULE], [], services, [Namespace("shop", "10.1.0.0/16")], [], "kube-system")
  }

  function OutRule(exsvcs: seq<Exsvc>): RuleData {
    RuleData(NS, "out", "shop", "accept", false, ["10.1.0.0/16"], "", exsvcs)
  }

  lemma DenyShape(cfg: Config)
    requires ClusterNames(cfg)
    ensures '_' in DenyAllAttr(cfg)
  {
    AttrShape(cfg, DenyAllId);
  }

  lemma TenantIsGood()
    ensures ValidTenant(CFG, TENANT) && TenantForPartition(CFG, COMMON) == Some(TENANT)
    ensures Watched(CFG, TENANT, "shop")
  {
    hide Attr, ValidId, DenyAllAttr, Contains, Decode;
    assert ClusterNames(CFG);
    DenyShape(CFG);
    if Contains(COMMON, DenyAllAttr(CFG)) {
      ContainsChars(COMMON, DenyAllAttr(CFG));
    }
  }

  lemma ServicesAreGood()
    ensures GoodServices([BANK]) && GoodServices([BANK, MAIL])
  {
    assert BANK.name[0] != MAIL.name[0];
  }

  lemma ResourcesAreGood(services: seq<ExternalService>)
    requires services in {[BANK], [BANK, MAIL]}
    ensures GoodResources(CFG, TENANT, Deployed(services))
  {
    hide GoodServices, Watched;
    ServicesAreGood();
    TenantIsGood();
    assert "bank"[0] != "mail"[0];
    assert NoDuplicates(RULE.services);
  }

  lemma NamedOfTwo(name: string)
    ensures ServicesNamed(name, [BANK], "shop") == if name == "bank" then [ExsvcOf(BANK)] else []
    ensures ServicesNamed(name, [BANK, MAIL], "shop")
            == ServicesNamed(name, [BANK], "shop") + if name == "mail" then [ExsvcOf(MAIL)] else []
  {
    assert [BANK][..0] == [] && [BANK, MAIL][..1] == [BANK];
  }

  lemma SelectedServices(all: seq<ExternalService>)
    ensures Selected(["bank", "mail"], all, "shop")
            == ServicesNamed("bank", all, "shop") + ServicesNamed("mail", all, "shop")
  {
    assert ["bank", "mail"][..1] == ["bank"] && ["bank"][..0] == [];
    assert Selected(["bank"], all, "shop") == [] + ServicesNamed("bank", all, "shop");
  }

  lemma SelectedScenario(services: seq<ExternalService>)
    requires services in {[BANK], [BANK, MAIL]}
    ensures Selected(["bank", "mail"], services, "shop")
            == if services == [BANK] then [ExsvcOf(BANK)] else [ExsvcOf(BANK), ExsvcOf(MAIL)]
  {
    hide ExsvcOf;
    assert "bank"[0] != "mail"[0];
    NamedOfTwo("bank");
    NamedOfTwo("mail");
    SelectedServices(services);
  }

  lemma DealtScenario(services: seq<ExternalService>)
    requires services in {[BANK], [BANK, MAIL]}
    ensures var exsvcs := if services == [BANK] then [ExsvcOf(BANK)] else [ExsvcOf(BANK), ExsvcOf(MAIL)];
            && DealtRules(COMMON, Deployed(services)) == [OutRule(exsvcs)]
            && |Pairs([OutRule(exsvcs)])| == |exsvcs|
            && forall i :: 0 <= i < |exsvcs| ==> Pairs([OutRule(exsvcs)])[i] == (OutRule(exsvcs), exsvcs[i])
  {
    hide Selected, ExsvcOf, Pairs;
    var exsvcs := if services == [BANK] then [ExsvcOf(BANK)] else [ExsvcOf(BANK), ExsvcOf(MAIL)];
    SelectedScenario(services);
    assert NamespaceData(Deployed(services), RULE) == OutRule(exsvcs);
    PairsOfOne(OutRule(exsvcs));
  }

  lemma PairsOfOne(r: RuleData)
    ensures |Pairs([r])| == |r.exsvcs|
    ensures forall i :: 0 <= i < |r.exsvcs| ==> Pairs([r])[i] == (r, r.exsvcs[i])
  {
    assert [r][..0] == [];
  }

  /** The source list of the rule, which both of its rule lists use. */
  const SOURCE := SrcAddressAttr("east", NS, "shop", "out", "")

  /** The items of a request, with the one possible order of their only port group. */
  function ItemsFor(services: seq<ExternalService>): seq<Item>
    requires services in {[BANK], [BANK, MAIL]}
  {
    var bank, mail := ExsvcOf(BANK), ExsvcOf(MAIL);
    if services == [BANK] then [Item(OutRule([bank]), bank, ["any"])]
    else [Item(OutRule([bank, mail]), bank, ["any"]), Item(OutRule([bank, mail]), mail, ["any"])]
  }

  lemma PortlessService(x: ExternalService)
    requires x.ports == []
    ensures ExsvcOf(x).destPorts == map["any" := ANY_GROUP]
  {
  }

  lemma ItemsAre(services: seq<ExternalService>)
    requires services in {[BANK], [BANK, MAIL]}
    ensures ItemsFor(services) != []
    ensures forall item :: item in ItemsFor(services) ==>
              item.rule.ty == NS && item.rule.namespace == "shop" && item.order == ["any"]
              && item.exsvc.destPorts == map["any" := ANY_GROUP]
  {
    hide DestPorts;
    PortlessService(BANK);
    PortlessService(MAIL);
  }

  lemma OneGroup(items: seq<Item>)
    requires items != [] && forall item :: item in items ==> item.rule.ty == NS && item.rule.namespace == "shop"
    ensures GroupKeys(items) == {"ns|shop"}
  {
    assert NS + "|" + "shop" == "ns|shop";
    assert GroupKey(items[0].rule) in GroupKeys(items);
  }

  lemma ItemsAreReady(services: seq<ExternalService>)
    requires services in {[BANK], [BANK, MAIL]}
    ensures AllReady(CFG, ItemsFor(services)) && GroupOrder(ItemsFor(services), ["ns|shop"])
  {
    hide ValidTenant, Split, GroupKeys, TenantForNamespace, ItemsFor;
    var items := ItemsFor(services);
    TenantIsGood();
    ItemsAre(services);
    assert GroupKeys(items) == {"ns|shop"} by { OneGroup(items); }
    GroupSplits(items, "ns|shop");
  }

  lemma ItemsAreDealt(services: seq<ExternalService>)
    requires services in {[BANK], [BANK, MAIL]}
    ensures ItemsOf(DealtRules(COMMON, Deployed(services)), ItemsFor(services))
    ensures GeneratedDelta(CFG, TENANT, ItemsFor(services), ["ns|shop"])
  {
    hide ValidTenant, GoodResources, AllReady, GroupOrder, DealtRules, GoodItem, Pairs;
    TenantIsGood();
    ResourcesAreGood(services);
    DealtScenario(services);
    ItemsAreReady(services);
    ItemsAreGood(CFG, TENANT, Deployed(services), ItemsFor(services));
  }

  lemma OthersList(cfg: Config, t: Tenant, x: Item, y: Item)
    requires ClusterNames(cfg) && GoodItem(cfg, t, x) && GoodItem(cfg, t, y) && x.exsvc.name != y.exsvc.name
    ensures !ItemKey(cfg, [x], Attr(cfg, ItemId(y)))
  {
    hide GoodItem, Attr, Decode;
    ItemIdValid(cfg, t, x);
    ItemIdValid(cfg, t, y);
    AttrInjective(cfg, ItemId(x), ItemId(y));
    assert [x][0] == x;
  }

  lemma SourceIs(services: seq<ExternalService>, i: nat)
    requires services in {[BANK], [BANK, MAIL]} && i < |ItemsFor(services)|
    ensures SrcAttr(CFG, ItemsFor(services)[i].rule) == SOURCE && SOURCE != ""
  {
    SrcAttrNotEmpty(CFG, ItemsFor(services)[i].rule);
  }

  lemma NotCovered(cfg: Config, src: App, gone: seq<Item>, k: string)
    requires k in src && src[k].RuleList? && gone != [] && !ItemKey(cfg, gone, k)
    requires SrcAttr(cfg, gone[0].rule) != "" && SrcAttr(cfg, gone[0].rule) in Refs(src[k])
    ensures !SourcesCovered(cfg, src, gone)
  {
    hide SrcAttr, Refs, ItemKey;
  }

  /** The delta of a request about these external services. */
  function DeltaOf(services: seq<ExternalService>): App
    requires services in {[BANK], [BANK, MAIL]}
  {
    ItemsAreReady(services);
    Delta(CFG, TENANT, ItemsFor(services), ["ns|shop"])
  }

  /**
   * The counterexample to "a delete leaves no reference dangling": the rule is synchronised with both external
   * services, then one of them is deleted, and the rule list of the other has lost its source list.
   */
  lemma PartialDelete()
    ensures var both, bank := ItemsFor([BANK, MAIL]), ItemsFor([BANK]);
            && GeneratedDelta(CFG, TENANT, both, ["ns|shop"]) && GeneratedDelta(CFG, TENANT, bank, ["ns|shop"])
            && ItemsOf(DealtRules(COMMON, Deployed([BANK, MAIL])), both)
            && ItemsOf(DealtRules(COMMON, Deployed([BANK])), bank)
            && var src := DeltaOf([BANK, MAIL]);
               && Next(CFG, TENANT, false, None, src) == Some(src) && WellFormed(CFG, TENANT, src)
               && !Exact(Merge(CFG, TENANT, true, src, DeltaOf([BANK])))
  {
    hide ValidTenant, GoodItem, AllReady, GroupOrder, DealtRules, WellFormed, Exact, Merge, Delta, ItemsOf, ItemKey,
         Attr, NewRules, Refs, DestPorts, SrcAddressAttr, SrcAttr, SourcesCovered;
    var both, bank, order := ItemsFor([BANK, MAIL]), ItemsFor([BANK]), ["ns|shop"];
    ItemsAreDealt([BANK, MAIL]);
    ItemsAreDealt([BANK]);
    DeltaWellFormed(CFG, TENANT, both, order);
    DeltaRules(CFG, TENANT, both, order, 1);
    ItemRefs(CFG, TENANT, both[1], SOURCE);
    SourceIs([BANK, MAIL], 1);
    SourceIs([BANK], 0);
    assert bank == [bank[0]];
    assert "bank"[0] != "mail"[0];
    OthersList(CFG, TENANT, bank[0], both[1]);
    NotCovered(CFG, Delta(CFG, TENANT, both, order), bank, Attr(CFG, ItemId(both[1])));
    DeleteOfRules(CFG, TENANT, Delta(CFG, TENANT, both, order), bank, order);
  }

  /** Synchronising the rule again mends what the incomplete delete broke. */
  lemma RepairedBySync()
    ensures var src := DeltaOf([BANK, MAIL]);
            var broken := Merge(CFG, TENANT, true, src, DeltaOf([BANK]));
            !Exact(broken) && WellFormed(CFG, TENANT, Merge(CFG, TENANT, false, broken, src))
  {
    hide ValidTenant, GoodItem, AllReady, Visits, DealtRules, WellFormed, Exact, Merge, Delta, ItemsOf, ItemsFor;
    PartialDelete();
    TenantIsGood();
    DeltaWellFormed(CFG, TENANT, ItemsFor([BANK]), ["ns|shop"]);
    RepairedByWhole(CFG, TENANT, DeltaOf([BANK, MAIL]), DeltaOf([BANK]));
  }

  /** An application mends whatever a delete left of it. */
  lemma RepairedByWhole(cfg: Config, t: Tenant, src: App, gone: App)
    requires ValidTenant(cfg, t) && WellFormed(cfg, t, src) && WellFormed(cfg, t, gone)
    ensures WellFormed(cfg, t, Merge(cfg, t, false, Merge(cfg, t, true, src, gone), src))
  {
    hide Merge, Exact, KeyKind, RulesLocal, PolicyExact;
    var broken := Merge(cfg, t, true, src, gone);
    MergeOrderly(cfg, t, true, src, gone);
    forall k | k in broken
      ensures k in src
    {
      DeleteFrame(cfg, t, src, gone, k);
    }
    AddRestores(cfg, t, broken, src);
  }

  // ----- rules that say more than they ask for -----

  /** A service whose endpoints have no address yet. */
  const PAY := ServiceEgress(ServiceRule("shop", "pay", "accept", false, "till", ["bank"]))

  const NO_ADDRESS := Resources([], [], [PAY.service], [BANK], [], [Endpoints("shop", "till", [])], "kube-system")

  /** A port without a protocol. */
  const WEB := ExternalService("shop", "bank", ["192.0.2.1"], [Port("http", "", "80", "")])

  const OUT := NamespaceEgress(RULE)

  const NO_PROTOCOL := Resources([], [RULE], [], [WEB], [Namespace("shop", "10.1.0.0/16")], [], "kube-system")

  lemma NoAddressIsGood()
    ensures GoodResources(CFG, TENANT, NO_ADDRESS)
  {
    hide GoodServices, Watched;
    ServicesAreGood();
    TenantIsGood();
  }

  lemma NoAddressIsHanded()
    ensures Handed(COMMON, NO_ADDRESS, PAY, BANK) && !HasSource(NO_ADDRESS, PAY)
  {
    assert BANK in NO_ADDRESS.externalServices && PAY.service in NO_ADDRESS.serviceRules;
    assert "bank" in ServicesOf(PAY);
  }

  lemma WebIsGood()
    ensures GoodServices([WEB])
  {
    assert WEB.ports[0] == Port("http", "", "80", "");
  }

  lemma NoProtocolIsGood()
    ensures GoodResources(CFG, TENANT, NO_PROTOCOL)
  {
    hide Watched, GoodServices;
    TenantIsGood();
    WebIsGood();
    assert "bank"[0] != "mail"[0];
    assert NoDuplicates(RULE.services);
  }

  lemma NoProtocolIsHanded()
    ensures Handed(COMMON, NO_PROTOCOL, OUT, WEB) && EndsAs(WEB.ports, 0) == ""
  {
    assert WEB in NO_PROTOCOL.externalServices && RULE in NO_PROTOCOL.namespaceRules && "bank" in ServicesOf(OUT);
    EndsAsOwn(WEB.ports, 0);
  }

  /** What the rule list was given is what the device decides after a first sync. */
  lemma SaidOnDevice(resources: Resources, items: seq<Item>, order: seq<string>, e: Egress, x: ExternalService,
                     matches: (string, string) -> bool, p: Packet)
    requires GoodResources(CFG, TENANT, resources) && ItemsOf(DealtRules(COMMON, resources), items)
    requires GeneratedDelta(CFG, TENANT, items, order) && Handed(COMMON, resources, e, x)
    ensures var next, entry := Next(CFG, TENANT, false, None, Delta(CFG, TENANT, items, order)),
                               EntryOf(CFG, TENANT, e, x);
            next.Some? && EntryVerdict(next.value, ByElement(matches), p, entry)
                          == if SaidFor(CFG, resources, e, x, matches, p)
                             then Some(Verdict(entry, ActionOf(e))) else None
  {
    hide GoodItems, AllReady, Visits, Delta, Next, DataOf, Programmed, EntryVerdict, ExsvcOf, ByElement, EntryOf,
         ItemPath, RulesOnce, ValidTenant, Handed, DealtRules, GoodResources, ItemsOf;
    ItemsShareRules(CFG, TENANT, resources, items);
    ItemsAreHanded(COMMON, resources, items);
    assert Wanted(COMMON, resources, DataOf(resources, e), ExsvcOf(x));
    var i :| 0 <= i < |items| && items[i].rule == DataOf(resources, e) && items[i].exsvc == ExsvcOf(x);
    ItemEntry(CFG, TENANT, resources, e, x, items[i]);
    SyncedVerdict(CFG, TENANT, None, items, order, i, ByElement(matches), p);
  }

  /** A service rule without endpoint addresses accepts packets that come from elsewhere. */
  lemma NoAddressOpensSource() returns (items: seq<Item>, order: seq<string>, p: Packet)
    ensures ItemsOf(DealtRules(COMMON, NO_ADDRESS), items) && GeneratedDelta(CFG, TENANT, items, order)
    ensures !Intended(NO_ADDRESS, PAY, BANK, Marked(), p)
    ensures var next, entry := Next(CFG, TENANT, false, None, Delta(CFG, TENANT, items, order)),
                               EntryOf(CFG, TENANT, PAY, BANK);
            next.Some? && EntryVerdict(next.value, ByElement(Marked()), p, entry) == Some(Verdict(entry, "accept"))
  {
    hide ValidTenant, GoodItems, AllReady, Visits, ItemsOf, DealtRules, SaidFor, Intended, EntryVerdict, EntryOf, Next,
         GoodResources, Handed, Delta,
         HasSource;
    NoAddressIsGood();
    NoAddressIsHanded();
    TenantIsGood();
    items, order := Generable(CFG, TENANT, NO_ADDRESS);
    p := SourcelessSaid(CFG, NO_ADDRESS, PAY, BANK);
    SaidOnDevice(NO_ADDRESS, items, order, PAY, BANK, Marked(), p);
  }

  /** A port without a protocol opens ports that nothing asks for. */
  lemma NoProtocolOpensPorts() returns (items: seq<Item>, order: seq<string>, p: Packet)
    ensures ItemsOf(DealtRules(COMMON, NO_PROTOCOL), items) && GeneratedDelta(CFG, TENANT, items, order)
    ensures !Intended(NO_PROTOCOL, OUT, WEB, Marked(), p)
    ensures var next, entry := Next(CFG, TENANT, false, None, Delta(CFG, TENANT, items, order)),
                               EntryOf(CFG, TENANT, OUT, WEB);
            next.Some? && EntryVerdict(next.value, ByElement(Marked()), p, entry) == Some(Verdict(entry, "accept"))
  {
    hide ValidTenant, GoodItems, AllReady, Visits, ItemsOf, DealtRules, SaidFor, Intended, EntryVerdict, EntryOf, Next,
         GoodResources, Handed, Delta,
         EndsAs;
    NoProtocolIsGood();
    NoProtocolIsHanded();
    TenantIsGood();
    items, order := Generable(CFG, TENANT, NO_PROTOCOL);
    p := OpenSaid(CFG, NO_PROTOCOL, OUT, WEB, 0);
    SaidOnDevice(NO_PROTOCOL, items, order, OUT, WEB, Marked(), p);
  }

  /** Two limited ports of one name and different protocols: both end up as udp. */
  const MIX := ExternalService("shop", "bank", ["192.0.2.1"],
                               [Port("web", "tcp", "80", "slow"), Port("web", "udp", "53", "fast")])

  const MIXED := Resources([], [RULE], [], [MIX], [Namespace("shop", "10.1.0.0/16")], [], "kube-system")

  lemma MixIsGood()
    ensures GoodServices([MIX])
  {
    assert MIX.ports[0].name == "web" && MIX.ports[1].name == "web";
  }

  lemma MixedIsGood()
    ensures GoodResources(CFG, TENANT, MIXED) && Handed(COMMON, MIXED, OUT, MIX)
  {
    hide Watched, GoodServices;
    TenantIsGood();
    MixIsGood();
    assert "bank"[0] != "mail"[0];
    assert NoDuplicates(RULE.services);
    assert MIX in MIXED.externalServices && RULE in MIXED.namespaceRules && "bank" in ServicesOf(OUT);
  }

  lemma MixedEndsAsUdp()
    ensures EndsAs(MIX.ports, 0) == "udp" && EndsAs(MIX.ports, 1) == "udp"
  {
    assert Lower("tcp") == "tcp" && Lower("udp") == "udp";
    assert "web"[0] != "tcp"[0] && "web"[0] != "udp"[0];
    EndsAsLast(MIX.ports, 0, 1);
    EndsAsLast(MIX.ports, 1, 1);
  }

  /** A limited port loses its protocol to a later one of the same name, and with it the packets it asks for. */
  lemma MixedProtocolsLosePort() returns (items: seq<Item>, order: seq<string>, p: Packet)
    ensures ItemsOf(DealtRules(COMMON, MIXED), items) && GeneratedDelta(CFG, TENANT, items, order)
    ensures Intended(MIXED, OUT, MIX, Literal(), p)
    ensures var next, entry := Next(CFG, TENANT, false, None, Delta(CFG, TENANT, items, order)),
                               EntryOf(CFG, TENANT, OUT, MIX);
            next.Some? && EntryVerdict(next.value, ByElement(Literal()), p, entry) == None
  {
    hide ValidTenant, GoodItems, AllReady, Visits, ItemsOf, DealtRules, SaidFor, Intended, EntryVerdict, EntryOf, Next,
         GoodResources, Handed, Delta, EndsAs, Split, Lower;
    MixedIsGood();
    TenantIsGood();
    items, order := Generable(CFG, TENANT, MIXED);
    MixedLoses();
    p := LostNotSaid(CFG, MIXED, OUT, MIX, 0, "80");
    SaidOnDevice(MIXED, items, order, OUT, MIX, Literal(), p);
  }

  lemma MixedLoses()
    ensures forall j :: 0 <= j < |MIX.ports| && MIX.ports[j].port != "" ==> EndsAs(MIX.ports, j) != ""
    ensures "80" in Split(MIX.ports[0].port, ',') && !SaysOver(MIX.ports, Lower(MIX.ports[0].protocol), "80")
    ensures HasSource(MIXED, OUT) && MIX.addresses != []
  {
    hide EndsAs;
    MixedEndsAsUdp();
    SplitPlain("80", ',');
    assert Lower("tcp") == "tcp" && "tcp"[0] != "udp"[0];
    assert LastAt(MIXED.namespaces, "shop", MIXED.namespaces[0], 0);
    assert IsNamespace(MIXED.namespaces, "shop", MIXED.namespaces[0]);
  }

  // ----- a sync that is posted again -----

  /** Two port groups, which may be visited in either order. */
  const DNS := ExternalService("shop", "bank", ["192.0.2.1"],
                               [Port("web", "tcp", "80", ""), Port("dns", "udp", "53", "")])

  const TWO_GROUPS := Resources([], [RULE], [], [DNS], [Namespace("shop", "10.1.0.0/16")], [], "kube-system")

  lemma DnsIsGood()
    ensures GoodServices([DNS])
  {
    assert DNS.ports[0].name == "web" && DNS.ports[1].name == "dns";
  }

  lemma TwoGroupsAreGood()
    ensures GoodResources(CFG, TENANT, TWO_GROUPS) && Handed(COMMON, TWO_GROUPS, OUT, DNS)
  {
    hide Watched, GoodServices;
    TenantIsGood();
    DnsIsGood();
    assert "bank"[0] != "mail"[0];
    assert NoDuplicates(RULE.services);
    assert DNS in TWO_GROUPS.externalServices && RULE in TWO_GROUPS.namespaceRules && "bank" in ServicesOf(OUT);
  }

  lemma DnsHasTwoGroups()
    ensures |ExsvcOf(DNS).destPorts| == 2
  {
    var ports := DNS.ports;
    assert Lower("tcp") == "tcp" && Lower("udp") == "udp" && "tcp"[0] != "udp"[0];
    GroupTwo(ports[0], ports[1]);
    assert ports == [ports[0], ports[1]];
    assert GroupPorts(ports).Keys == {"tcp", "udp"};
    AnyGroupIffNoPort(ports);
    GroupsHoldPorts(ports);
    assert |GroupPorts(ports).Keys| == 2;
  }

  /** Synchronising the same resources again, with the port groups in another order, posts again. */
  lemma PostedAgain() returns (items: seq<Item>, order: seq<string>, items': seq<Item>, order': seq<string>)
    ensures GeneratedDelta(CFG, TENANT, items, order) && GeneratedDelta(CFG, TENANT, items', order')
    ensures ItemsOf(DealtRules(COMMON, TWO_GROUPS), items) && ItemsOf(DealtRules(COMMON, TWO_GROUPS), items')
    ensures Answered(CFG, TENANT, false, Next(CFG, TENANT, false, None, Delta(CFG, TENANT, items, order)),
                     Delta(CFG, TENANT, items', order')) != NoPost
  {
    hide ValidTenant, GoodItems, AllReady, Visits, DealtRules, Next, Answered, GoodResources, Handed, Delta, Pairs,
         DataOf, ExsvcOf, GroupNames;
    TwoGroupsAreGood();
    TenantIsGood();
    items, order := Generable(CFG, TENANT, TWO_GROUPS);
    ItemsAreHanded(COMMON, TWO_GROUPS, items);
    assert Wanted(COMMON, TWO_GROUPS, DataOf(TWO_GROUPS, OUT), ExsvcOf(DNS));
    var i :| 0 <= i < |items| && items[i].rule == DataOf(TWO_GROUPS, OUT) && items[i].exsvc == ExsvcOf(DNS);
    DnsHasTwoGroups();
    assert !OneGroupEach(items);
    NeverPostedAgain(CFG, TENANT, None, items, order);
    items', order' :| GeneratedDelta(CFG, TENANT, items', order') && SameWork(items, items')
                      && Answered(CFG, TENANT, false, Next(CFG, TENANT, false, None, Delta(CFG, TENANT, items, order)),
                                  Delta(CFG, TENANT, items', order')) != NoPost;
  }

  // ----- a slash in a port name -----

  /** A limited port whose name holds a slash. */
  const SLASHED := ExternalService("shop", "bank", ["192.0.2.1"], [Port("a/b", "tcp", "80", "slow")])

  /** Its port list is named after it, and is swept from every application. */
  lemma SlashedPortListIsSwept(cfg: Config, r: RuleData, app: App)
    ensures "a/b" in ExsvcOf(SLASHED).destPorts
    ensures var k := PortAttr(cfg, r, ExsvcOf(SLASHED), "a/b");
            k in app && app[k].IsList() ==> k !in Sweep(cfg, app)
  {
    hide Sweep;
    var ports := SLASHED.ports;
    assert "tcp"[0] != "a/b"[0];
    assert ports[..0] == [] && GroupPorts(ports) == AddPort(map[], ports[0]);
    AnyGroupIffNoPort(ports);
    GroupsHoldPorts(ports);
    var k := PortAttr(cfg, r, ExsvcOf(SLASHED), "a/b");
    assert k[|k| - 3..] == "a/b" && k[|k| - 2] == '/';
    if k in app && app[k].IsList() {
      SlashedListIsSwept(cfg, app, k);
    }
  }

  // ----- capital letters, actions and limits -----

  /** A protocol in capital letters, as resources spell it, and the same in small letters. */
  const CAPITAL := Port("dns-tcp", "TCP", "9090", "")

  const SMALL := Port("web", "tcp", "80", "")

  lemma CapitalGroup()
    ensures GroupPorts([CAPITAL]) == map["tcp" := PortGroup("tcp", "", ["9090"])]
  {
    hide Lower, Split;
    LowerIs("TCP", "tcp");
    SplitPlain("9090", ',');
    assert [CAPITAL][..0] == [] && GroupPorts([CAPITAL]) == AddPort(map[], CAPITAL);
    assert [] + ["9090"] == ["9090"];
  }

  /** The entry is filed and posted in small letters, and asks for packets in small letters. */
  lemma CapitalProtocol()
    ensures DestPorts([CAPITAL]) == map["tcp" := PortGroup("tcp", "", ["9090"])]
    ensures Asked([CAPITAL], Access("tcp", "", "9090"))
  {
    hide Lower, Split;
    CapitalGroup();
    assert "tcp" in GroupPorts([CAPITAL]);
    SplitPlain("9090", ',');
    assert Asks([CAPITAL][0], Access("tcp", "", "9090"));
  }

  /** Entries in capital and in small letters make one group. */
  lemma CapitalAndSmall()
    ensures DestPorts([CAPITAL, SMALL]) == map["tcp" := PortGroup("tcp", "", ["9090", "80"])]
  {
    hide Lower, Split;
    CapitalGroup();
    LowerIs("tcp", "tcp");
    SplitPlain("80", ',');
    assert [CAPITAL, SMALL][..1] == [CAPITAL];
    assert GroupPorts([CAPITAL, SMALL]) == AddPort(GroupPorts([CAPITAL]), SMALL);
    assert ["9090"] + ["80"] == ["9090", "80"];
    assert "tcp" in GroupPorts([CAPITAL, SMALL]);
  }

  /** A limited port named like a protocol takes that protocol's key; an entry of the protocol goes by its own name. */
  lemma CrossedNames()
    ensures DestPorts([Port("tcp", "udp", "53", "slow"), Port("web", "tcp", "80", "")])
            == map["tcp" := PortGroup("udp", "slow", ["53"]), "web" := PortGroup("tcp", "", ["80"])]
  {
    hide Lower, Split;
    var first, second := Port("tcp", "udp", "53", "slow"), Port("web", "tcp", "80", "");
    LowerIs("udp", "udp");
    LowerIs("tcp", "tcp");
    SplitPlain("53", ',');
    SplitPlain("80", ',');
    GroupTwo(first, second);
    assert |"slow"| == 4 && |first.port| == 2 && |second.port| == 2;
    assert "udp"[0] != "tcp"[0] && "web"[0] != "tcp"[0];
    var one := AddPort(map[], first);
    assert KeyFor(map[], first) == "tcp" && [] + ["53"] == ["53"];
    assert one == map["tcp" := PortGroup("udp", "slow", ["53"])];
    assert KeyFor(one, second) == "web" && [] + ["80"] == ["80"];
    assert AddPort(one, second) == one["web" := PortGroup("tcp", "", ["80"])];
    assert "tcp" in GroupPorts([first, second]);
  }

  /** Blanks of any kind are no namespace list. */
  lemma BlankLists()
    ensures NamesOf(TenantConf(TENANT, "")) == [] && NamesOf(TenantConf(TENANT, " \t\n")) == []
  {
    hide Split;
  }

  lemma TwoNamespaces()
    ensures NamesOf(TenantConf(TENANT, "shop" + [','] + "bank")) == ["shop", "bank"]
  {
    hide Split, Blank;
    NotBlank("shop" + [','] + "bank", 's');
    SplitHead("shop", "bank", ',');
    SplitPlain("bank", ',');
    assert ["shop"] + ["bank"] == ["shop", "bank"];
  }

  lemma NotBlank(list: string, c: char)
    requires list != "" && list[0] == c && c == 's'
    ensures !Blank(list)
  {
  }
}
