/**
 * What an egress rule asks for, in the words of the custom resources, and when the device enforces it.  A list
 * holds a value when one of its elements matches the value; how an element matches is left open.
 */
module Intent {
  import opened Model
  import opened Text
  import opened Naming
  import opened Engine
  import opened EngineLaws
  import opened States
  import opened FirstMatch
  import opened Ports
  import opened Generate
  import opened Selection
  import opened Deltas
  import opened Guarantees
  import opened Meaning
  import opened Intake
  import Runs

  predicate AnyMatches(matches: (string, string) -> bool, value: string, elements: seq<string>) {
    exists e :: e in elements && matches(value, e)
  }

  function ByElement(matches: (string, string) -> bool): (string, Obj) -> bool {
    (value: string, o: Obj) =>
      match o
      case AddressList(addresses, fqdns) => AnyMatches(matches, value, addresses) || AnyMatches(matches, value, fqdns)
      case PortList(ports) => AnyMatches(matches, value, ports)
      case _ => false
  }

  // ----- what a rule asks for -----

  /** The packet comes from the rule's source: anywhere, the namespace's subnet, or an endpoint of the service. */
  ghost predicate SourceIntended(resources: Resources, e: Egress, matches: (string, string) -> bool, source: string) {
    match e
    case ClusterEgress(_) => true
    case NamespaceEgress(r) =>
      exists ns :: IsNamespace(resources.namespaces, r.namespace, ns) && matches(source, ns.cidr)
    case ServiceEgress(r) =>
      exists ip :: IsSource(resources.endpoints, r.namespace, r.service, ip) && matches(source, ip)
  }

  /** The packet's protocol and port are asked for; without any port, all are. */
  ghost predicate PortIntended(ports: seq<Port>, matches: (string, string) -> bool, p: Packet) {
    || (forall i :: 0 <= i < |ports| ==> ports[i].port == "")
    || exists a :: Asked(ports, a) && (a.protocol in {"", "any"} || a.protocol == p.protocol) && matches(p.port, a.port)
  }

  ghost predicate Intended(resources: Resources, e: Egress, x: ExternalService, matches: (string, string) -> bool,
                           p: Packet) {
    && AnyMatches(matches, p.destination, x.addresses)
    && SourceIntended(resources, e, matches, p.source)
    && PortIntended(x.ports, matches, p)
  }

  // ----- when the generated rules say that -----

  /** There is a source to restrict the rule to, unless the rule is for the whole cluster. */
  ghost predicate HasSource(resources: Resources, e: Egress) {
    match e
    case ClusterEgress(_) => true
    case NamespaceEgress(r) => exists ns :: IsNamespace(resources.namespaces, r.namespace, ns)
    case ServiceEgress(r) => exists ip :: IsSource(resources.endpoints, r.namespace, r.service, ip)
  }

  predicate ProtocolsGiven(ports: seq<Port>) {
    forall i :: 0 <= i < |ports| && ports[i].port != "" ==> ports[i].protocol != ""
  }

  /** Whoever asks for the first protocol asks for the second. */
  predicate Includes(general: string, protocol: string) {
    general in {"", "any"} || general == protocol
  }

  /** An entry asks for the protocol and the port. */
  predicate AsksOver(ports: seq<Port>, protocol: string, q: string) {
    exists j :: 0 <= j < |ports| && ports[j].port != "" && Includes(Lower(ports[j].protocol), protocol)
                && q in Split(ports[j].port, ',')
  }

  /** An entry ends up in a group of the protocol, with the port. */
  predicate SaysOver(ports: seq<Port>, protocol: string, q: string) {
    exists j :: 0 <= j < |ports| && ports[j].port != "" && Includes(EndsAs(ports, j), protocol)
                && q in Split(ports[j].port, ',')
  }

  /**
   * Every entry ends up under some protocol; under its own one each of its ports is still let through, and under the
   * one it ends up with each of its ports is asked for.
   */
  predicate PortsKept(ports: seq<Port>) {
    forall i :: 0 <= i < |ports| && ports[i].port != "" ==>
      && EndsAs(ports, i) != ""
      && forall q :: q in Split(ports[i].port, ',') ==>
           SaysOver(ports, Lower(ports[i].protocol), q) && AsksOver(ports, EndsAs(ports, i), q)
  }

  /** Where every group has one protocol, that only means that no protocol is missing. */
  lemma KeptIffGiven(ports: seq<Port>)
    requires OneProtocolEach(ports)
    ensures PortsKept(ports) <==> ProtocolsGiven(ports)
  {
    hide GroupPorts, KeyAt, Lower, Split, OneProtocolEach, EndsAs;
    OneProtocolIffKept(ports);
    forall i | 0 <= i < |ports| && ports[i].port != ""
      ensures Lower(ports[i].protocol) == "" <==> ports[i].protocol == ""
    {
      LowerEmpty(ports[i].protocol);
    }
    forall i, q | 0 <= i < |ports| && ports[i].port != "" && q in Split(ports[i].port, ',')
      ensures SaysOver(ports, Lower(ports[i].protocol), q) && AsksOver(ports, EndsAs(ports, i), q)
    {
      assert Includes(EndsAs(ports, i), Lower(ports[i].protocol));
    }
  }

  /** The same condition, read off the entries: a limited one ends up as the last limited one of its name. */
  predicate PortsListedKept(ports: seq<Port>) {
    forall i :: 0 <= i < |ports| && ports[i].port != "" ==>
      && ListedAs(ports, i) != ""
      && forall q :: q in Split(ports[i].port, ',') ==>
           && (exists j :: 0 <= j < |ports| && ports[j].port != "" && q in Split(ports[j].port, ',')
                           && Includes(ListedAs(ports, j), Lower(ports[i].protocol)))
           && AsksOver(ports, ListedAs(ports, i), q)
  }

  /** Where no limited port is named like a protocol, ports are kept exactly under that condition. */
  lemma KeptIffListed(ports: seq<Port>)
    requires NoProtocolNames(ports)
    ensures PortsKept(ports) <==> PortsListedKept(ports)
  {
    hide EndsAs, ListedAs, Lower, Split, AsksOver, NoProtocolNames, Includes;
    forall i | 0 <= i < |ports| && ports[i].port != ""
      ensures EndsAs(ports, i) == ListedAs(ports, i)
    {
      EndsAsListed(ports, i);
    }
    forall protocol, q
      ensures SaysOver(ports, protocol, q) <==>
                exists j :: 0 <= j < |ports| && ports[j].port != "" && q in Split(ports[j].port, ',')
                            && Includes(ListedAs(ports, j), protocol)
    {
    }
    hide SaysOver;
  }

  /** Where limited ports of one name share their protocol, that only means that no protocol is missing. */
  lemma KeptByNames(ports: seq<Port>)
    requires NoProtocolNames(ports) && NamesShareProtocol(ports)
    ensures PortsKept(ports) <==> ProtocolsGiven(ports)
  {
    hide PortsKept, ProtocolsGiven, OneProtocolEach, NoProtocolNames, NamesShareProtocol;
    OneProtocolIffNamesShare(ports);
    KeptIffGiven(ports);
  }

  /** What a rule must look like to be enforced as it is meant; without destinations it matches nothing anyway. */
  ghost predicate Enforceable(resources: Resources, e: Egress, x: ExternalService) {
    x.addresses == [] || (HasSource(resources, e) && PortsKept(x.ports))
  }

  /** What the generator puts into the rule's rule list, for one meaning of the elements and one packet. */
  predicate SaidFor(cfg: Config, resources: Resources, e: Egress, x: ExternalService,
                    matches: (string, string) -> bool, p: Packet) {
    Programmed(cfg, DataOf(resources, e), ExsvcOf(x), ByElement(matches), p)
  }

  lemma {:induction false} WhereAre(keep: string -> bool, s: seq<string>, a: string)
    ensures a in Where(keep, s) <==> a in s && keep(a)
  {
    if s != [] {
      var n := |s| - 1;
      WhereAre(keep, s[..n], a);
      assert s == s[..n] + [s[n]];
    }
  }

  /** Addresses and domain names apart hold what they hold together. */
  lemma AddressesHold(cfg: Config, matches: (string, string) -> bool, value: string, addresses: seq<string>)
    ensures ByElement(matches)(value, AddressObj(cfg, addresses)) <==> AnyMatches(matches, value, addresses)
  {
    forall a
      ensures a in addresses <==> a in Where(cfg.isIp, addresses) || a in Where(a => !cfg.isIp(a), addresses)
    {
      WhereAre(cfg.isIp, addresses, a);
      WhereAre(a => !cfg.isIp(a), addresses, a);
    }
  }

  /** The source list of a rule that has a source. */
  lemma SourceHolds(resources: Resources, e: Egress, matches: (string, string) -> bool, source: string)
    ensures DataOf(resources, e).ty in {NS, SVC} <==> !e.ClusterEgress?
    ensures !e.ClusterEgress? ==> (DataOf(resources, e).srcAddr != [] <==> HasSource(resources, e))
    ensures var sources := DataOf(resources, e).srcAddr;
            !e.ClusterEgress? ==>
              (AnyMatches(matches, source, sources) <==> SourceIntended(resources, e, matches, source))
  {
    hide Selected, SourceIps, SourceCidr, IsSource, IsNamespace;
    match e
    case ClusterEgress(_) =>
    case NamespaceEgress(r) =>
      SourceCidrIs(resources.namespaces, r.namespace);
    case ServiceEgress(r) =>
      forall ip
        ensures ip in SourceIps(resources.endpoints, r.namespace, r.service)
           <==> IsSource(resources.endpoints, r.namespace, r.service, ip)
      {
        SourceIpsAre(resources.endpoints, r.namespace, r.service, ip);
      }
      var ips := SourceIps(resources.endpoints, r.namespace, r.service);
      assert ips != [] ==> ips[0] in ips;
  }

  lemma LowerEmpty(s: string)
    ensures Lower(s) == "" <==> s == ""
  {
    assert |Lower(s)| == |s|;
  }

  predicate NoPorts(ports: seq<Port>) {
    forall i :: 0 <= i < |ports| ==> ports[i].port == ""
  }

  /** The group that an entry ends up in lets the packet through because of that entry, or leaves all ports open. */
  predicate EntrySays(ports: seq<Port>, i: nat, matches: (string, string) -> bool, p: Packet)
    requires i < |ports| && ports[i].port != ""
  {
    || EndsAs(ports, i) == ""
    || ((EndsAs(ports, i) == "any" || EndsAs(ports, i) == p.protocol)
        && AnyMatches(matches, p.port, Split(ports[i].port, ',')))
  }

  lemma EntryHasGroup(ports: seq<Port>, i: nat, matches: (string, string) -> bool, p: Packet)
    requires i < |ports| && ports[i].port != "" && EntrySays(ports, i, matches, p)
    ensures KeyAt(ports, i) in GroupPorts(ports)
    ensures GroupProgrammed(GroupPorts(ports)[KeyAt(ports, i)], ByElement(matches), p)
  {
    hide GroupPorts, KeyAt, Split;
    FiledHasGroup(ports, i);
    var key := KeyAt(ports, i);
    if EndsAs(ports, i) != "" {
      var q :| q in Split(ports[i].port, ',') && matches(p.port, q);
      GroupPortsAre(ports, key, q);
      assert FiledPort(ports, key, q);
    }
  }

  lemma GroupHasEntry(ports: seq<Port>, key: string, matches: (string, string) -> bool, p: Packet) returns (i: nat)
    requires key in GroupPorts(ports) && GroupProgrammed(GroupPorts(ports)[key], ByElement(matches), p)
    ensures i < |ports| && ports[i].port != "" && EntrySays(ports, i, matches, p)
  {
    hide GroupPorts, KeyAt, Split;
    i := GroupHasFiler(ports, key);
    var g := GroupPorts(ports)[key];
    if g.protocol != "" {
      var q :| q in g.ports && matches(p.port, q);
      GroupPortsAre(ports, key, q);
      i :| 0 <= i < |ports| && ports[i].port != "" && KeyAt(ports, i) == key && q in Split(ports[i].port, ',');
    }
  }

  /** What the groups let through, entry by entry. */
  lemma GroupsSay(ports: seq<Port>, matches: (string, string) -> bool, p: Packet)
    ensures (exists key :: key in DestPorts(ports) && GroupProgrammed(DestPorts(ports)[key], ByElement(matches), p))
            <==> (NoPorts(ports)
                  || exists i :: 0 <= i < |ports| && ports[i].port != "" && EntrySays(ports, i, matches, p))
  {
    hide GroupPorts, KeyAt, Split, EntrySays, GroupProgrammed;
    AnyGroupIffNoPort(ports);
    GroupsHoldPorts(ports);
    if NoPorts(ports) {
      assert GroupProgrammed(ANY_GROUP, ByElement(matches), p) by { AnySays(matches, p); }
    } else {
      if key :| key in DestPorts(ports) && GroupProgrammed(DestPorts(ports)[key], ByElement(matches), p) {
        var i := GroupHasEntry(ports, key, matches, p);
      }
      if i :| 0 <= i < |ports| && ports[i].port != "" && EntrySays(ports, i, matches, p) {
        EntryHasGroup(ports, i, matches, p);
      }
    }
  }

  lemma AnySays(matches: (string, string) -> bool, p: Packet)
    ensures GroupProgrammed(ANY_GROUP, ByElement(matches), p)
  {
  }

  predicate EntryAsks(ports: seq<Port>, i: nat, matches: (string, string) -> bool, p: Packet)
    requires i < |ports|
  {
    Includes(Lower(ports[i].protocol), p.protocol) && AnyMatches(matches, p.port, Split(ports[i].port, ','))
  }

  /** What the ports ask for, entry by entry. */
  lemma PortsAsk(ports: seq<Port>, matches: (string, string) -> bool, p: Packet)
    ensures PortIntended(ports, matches, p) <==>
              NoPorts(ports) || exists i :: 0 <= i < |ports| && ports[i].port != "" && EntryAsks(ports, i, matches, p)
  {
    hide Lower, Split;
    if a :| Asked(ports, a) && (a.protocol in {"", "any"} || a.protocol == p.protocol) && matches(p.port, a.port) {
      var i :| 0 <= i < |ports| && Asks(ports[i], a);
      LowerIs(ports[i].protocol, a.protocol);
      assert EntryAsks(ports, i, matches, p);
    }
    if i :| 0 <= i < |ports| && ports[i].port != "" && EntryAsks(ports, i, matches, p) {
      var q :| q in Split(ports[i].port, ',') && matches(p.port, q);
      var a := Access(Lower(ports[i].protocol), ports[i].bandwidth, q);
      LowerIs(ports[i].protocol, a.protocol);
      assert Asks(ports[i], a);
      assert Asked(ports, a);
    }
  }

  lemma KeptEntry(ports: seq<Port>, i: nat, q: string)
    requires PortsKept(ports) && i < |ports| && ports[i].port != ""
    ensures EndsAs(ports, i) != ""
    ensures q in Split(ports[i].port, ',') ==>
              SaysOver(ports, Lower(ports[i].protocol), q) && AsksOver(ports, EndsAs(ports, i), q)
  {
    hide EndsAs, Lower, Split, SaysOver, AsksOver;
  }

  lemma KeptSaysAsked(ports: seq<Port>, i: nat, matches: (string, string) -> bool, p: Packet) returns (j: nat)
    requires PortsKept(ports) && i < |ports| && ports[i].port != "" && EntrySays(ports, i, matches, p)
    ensures j < |ports| && ports[j].port != "" && EntryAsks(ports, j, matches, p)
  {
    hide EndsAs, Lower, Split, PortsKept;
    KeptEntry(ports, i, "");
    var q :| q in Split(ports[i].port, ',') && matches(p.port, q);
    KeptEntry(ports, i, q);
    j :| 0 <= j < |ports| && ports[j].port != "" && Includes(Lower(ports[j].protocol), EndsAs(ports, i))
         && q in Split(ports[j].port, ',');
  }

  lemma KeptAskedSays(ports: seq<Port>, i: nat, matches: (string, string) -> bool, p: Packet) returns (j: nat)
    requires PortsKept(ports) && i < |ports| && ports[i].port != "" && EntryAsks(ports, i, matches, p)
    ensures j < |ports| && ports[j].port != "" && EntrySays(ports, j, matches, p)
  {
    hide EndsAs, Lower, Split, PortsKept;
    var q :| q in Split(ports[i].port, ',') && matches(p.port, q);
    KeptEntry(ports, i, q);
    j :| 0 <= j < |ports| && ports[j].port != "" && Includes(EndsAs(ports, j), Lower(ports[i].protocol))
         && q in Split(ports[j].port, ',');
    KeptEntry(ports, j, q);
  }

  /** Where the ports are kept, the groups say what the ports ask for. */
  lemma GroupsSayPorts(ports: seq<Port>, matches: (string, string) -> bool, p: Packet)
    requires PortsKept(ports)
    ensures (exists key :: key in DestPorts(ports) && GroupProgrammed(DestPorts(ports)[key], ByElement(matches), p))
            <==> PortIntended(ports, matches, p)
  {
    hide DestPorts, GroupProgrammed, PortIntended, ByElement, PortsKept, EntrySays, EntryAsks;
    GroupsSay(ports, matches, p);
    PortsAsk(ports, matches, p);
    if i :| 0 <= i < |ports| && ports[i].port != "" && EntrySays(ports, i, matches, p) {
      var j := KeptSaysAsked(ports, i, matches, p);
    }
    if i :| 0 <= i < |ports| && ports[i].port != "" && EntryAsks(ports, i, matches, p) {
      var j := KeptAskedSays(ports, i, matches, p);
    }
  }

  /** An enforceable rule's list is given exactly what the rule asks for. */
  lemma EnforceableIsSaid(cfg: Config, resources: Resources, e: Egress, x: ExternalService,
                          matches: (string, string) -> bool, p: Packet)
    requires Enforceable(resources, e, x)
    ensures SaidFor(cfg, resources, e, x, matches, p) <==> Intended(resources, e, x, matches, p)
  {
    hide ByElement, AddressObj, DataOf, HasSource, SourceIntended, PortIntended, PortsKept, GroupProgrammed, DestPorts;
    AddressesHold(cfg, matches, p.destination, x.addresses);
    if x.addresses != [] {
      AddressesHold(cfg, matches, p.source, DataOf(resources, e).srcAddr);
      SourceHolds(resources, e, matches, p.source);
      GroupsSayPorts(x.ports, matches, p);
      if e.ClusterEgress? {
        ClusterSource(resources, e, matches, p.source);
      }
    }
  }

  lemma ClusterSource(resources: Resources, e: Egress, matches: (string, string) -> bool, source: string)
    requires e.ClusterEgress?
    ensures SourceIntended(resources, e, matches, source) && HasSource(resources, e)
  {
  }

  // ----- and when they do not -----

  /** Elements that match one value only, to tell packets apart. */
  function Marked(): (string, string) -> bool {
    (value, element) => value == "yes"
  }

  lemma MarkedMatches(elements: seq<string>, value: string)
    ensures AnyMatches(Marked(), value, elements) <==> elements != [] && value == "yes"
  {
    if elements != [] {
      assert elements[0] in elements;
    }
  }

  /** Some protocol goes through with any marked port. */
  lemma SomeGroup(ports: seq<Port>) returns (protocol: string)
    ensures forall p: Packet :: p.protocol == protocol && p.port == "yes" ==>
              exists key :: key in DestPorts(ports) && GroupProgrammed(DestPorts(ports)[key], ByElement(Marked()), p)
  {
    AnyGroupIffNoPort(ports);
    var key :| key in DestPorts(ports);
    var g := DestPorts(ports)[key];
    GroupsHoldPorts(ports);
    protocol := g.protocol;
    MarkedMatches(g.ports, "yes");
    assert forall p: Packet :: p.protocol == protocol && p.port == "yes" ==>
        GroupProgrammed(g, ByElement(Marked()), p);
  }

  lemma SourcelessSaid(cfg: Config, resources: Resources, e: Egress, x: ExternalService) returns (p: Packet)
    requires x.addresses != [] && !HasSource(resources, e)
    ensures SaidFor(cfg, resources, e, x, Marked(), p) && !Intended(resources, e, x, Marked(), p)
  {
    hide ByElement, AddressObj, DestPorts, GroupProgrammed, Selected, SourceIps, SourceCidr, IsSource, IsNamespace,
         PortIntended, Marked;
    var protocol := SomeGroup(x.ports);
    p := Packet(protocol, "no", "yes", "yes");
    AddressesHold(cfg, Marked(), "yes", x.addresses);
    MarkedMatches(x.addresses, "yes");
    SourceHolds(resources, e, Marked(), "no");
  }

  /** Elements that match themselves only. */
  function Literal(): (string, string) -> bool {
    (value, element) => value == element
  }

  /** A packet from the rule's source to its destination, and what is said and asked of its protocol and port. */
  lemma ExactPacket(cfg: Config, resources: Resources, e: Egress, x: ExternalService, protocol: string, port: string)
    returns (p: Packet)
    requires x.addresses != [] && HasSource(resources, e)
    ensures p.protocol == protocol && p.port == port
    ensures var groups := DestPorts(x.ports);
            SaidFor(cfg, resources, e, x, Literal(), p) <==>
              exists key :: key in groups && GroupProgrammed(groups[key], ByElement(Literal()), p)
    ensures Intended(resources, e, x, Literal(), p) <==> PortIntended(x.ports, Literal(), p)
  {
    hide ByElement, AddressObj, DestPorts, GroupProgrammed, DataOf, PortIntended, SourceIntended, HasSource;
    SourceHolds(resources, e, Literal(), "");
    var sources := DataOf(resources, e).srcAddr;
    p := Packet(protocol, if sources == [] then "" else sources[0], x.addresses[0], port);
    SourceHolds(resources, e, Literal(), p.source);
    AddressesHold(cfg, Literal(), p.source, sources);
    AddressesHold(cfg, Literal(), p.destination, x.addresses);
    assert sources != [] ==> sources[0] in sources && AnyMatches(Literal(), p.source, sources);
    assert x.addresses[0] in x.addresses && AnyMatches(Literal(), p.destination, x.addresses);
    if e.ClusterEgress? {
      ClusterSource(resources, e, Literal(), p.source);
    }
  }

  /** An entry without a protocol in the end leaves all ports open. */
  lemma OpenSaid(cfg: Config, resources: Resources, e: Egress, x: ExternalService, i: nat) returns (p: Packet)
    requires x.addresses != [] && i < |x.ports| && x.ports[i].port != "" && EndsAs(x.ports, i) == ""
    ensures SaidFor(cfg, resources, e, x, Marked(), p) && !Intended(resources, e, x, Marked(), p)
  {
    hide ByElement, AddressObj, DestPorts, GroupProgrammed, DataOf, SourceIntended, PortIntended, EndsAs, Lower, Split;
    p := Packet("", "yes", "yes", "no");
    GroupsSay(x.ports, Marked(), p);
    assert EntrySays(x.ports, i, Marked(), p);
    PortsAsk(x.ports, Marked(), p);
    AddressesHold(cfg, Marked(), "yes", x.addresses);
    MarkedMatches(x.addresses, "yes");
    AddressesHold(cfg, Marked(), "yes", DataOf(resources, e).srcAddr);
    MarkedMatches(DataOf(resources, e).srcAddr, "yes");
  }

  /** What one entry lets through, or asks for, of a port taken literally. */
  lemma LiteralEntry(ports: seq<Port>, j: nat, p: Packet)
    requires j < |ports| && ports[j].port != ""
    ensures EntrySays(ports, j, Literal(), p) && EndsAs(ports, j) != "" ==> SaysOver(ports, p.protocol, p.port)
    ensures EntrySays(ports, j, Literal(), p) && EndsAs(ports, j) != "" && p.protocol == "any" ==>
              SaysOver(ports, "", p.port)
    ensures EntryAsks(ports, j, Literal(), p) ==> AsksOver(ports, p.protocol, p.port)
  {
    hide EndsAs, Lower, Split;
  }

  /** A port that its entry's protocol has lost is asked for, but not let through. */
  lemma LostNotSaid(cfg: Config, resources: Resources, e: Egress, x: ExternalService, i: nat, q: string)
    returns (p: Packet)
    requires x.addresses != [] && HasSource(resources, e)
    requires forall j :: 0 <= j < |x.ports| && x.ports[j].port != "" ==> EndsAs(x.ports, j) != ""
    requires i < |x.ports| && x.ports[i].port != "" && q in Split(x.ports[i].port, ',')
    requires !SaysOver(x.ports, Lower(x.ports[i].protocol), q)
    ensures !SaidFor(cfg, resources, e, x, Literal(), p) && Intended(resources, e, x, Literal(), p)
  {
    hide SaidFor, Intended, ByElement, DestPorts, GroupProgrammed, PortIntended, HasSource, EndsAs, Lower, Split,
         SaysOver;
    var own := Lower(x.ports[i].protocol);
    p := ExactPacket(cfg, resources, e, x, if own == "" then "any" else own, q);
    GroupsSay(x.ports, Literal(), p);
    PortsAsk(x.ports, Literal(), p);
    assert AnyMatches(Literal(), p.port, Split(x.ports[i].port, ','));
    assert EntryAsks(x.ports, i, Literal(), p);
    hide EntrySays, EntryAsks;
    if j :| 0 <= j < |x.ports| && x.ports[j].port != "" && EntrySays(x.ports, j, Literal(), p) {
      LiteralEntry(x.ports, j, p);
    }
  }

  /** A port that ends up under a protocol nobody asks for is let through all the same. */
  lemma MisplacedSaid(cfg: Config, resources: Resources, e: Egress, x: ExternalService, i: nat, q: string)
    returns (p: Packet)
    requires x.addresses != [] && HasSource(resources, e)
    requires i < |x.ports| && x.ports[i].port != "" && q in Split(x.ports[i].port, ',')
    requires EndsAs(x.ports, i) != "" && !AsksOver(x.ports, EndsAs(x.ports, i), q)
    ensures SaidFor(cfg, resources, e, x, Literal(), p) && !Intended(resources, e, x, Literal(), p)
  {
    hide SaidFor, Intended, ByElement, DestPorts, GroupProgrammed, PortIntended, HasSource, EndsAs, Lower, Split,
         AsksOver;
    var end := EndsAs(x.ports, i);
    p := ExactPacket(cfg, resources, e, x, end, q);
    GroupsSay(x.ports, Literal(), p);
    PortsAsk(x.ports, Literal(), p);
    assert AnyMatches(Literal(), p.port, Split(x.ports[i].port, ','));
    assert EntrySays(x.ports, i, Literal(), p);
    hide EntrySays, EntryAsks;
    if j :| 0 <= j < |x.ports| && x.ports[j].port != "" && EntryAsks(x.ports, j, Literal(), p) {
      LiteralEntry(x.ports, j, p);
    }
  }

  /** When ports are not kept, some packet is let through that is not asked for, or the other way round. */
  lemma UnkeptSaid(cfg: Config, resources: Resources, e: Egress, x: ExternalService)
    returns (matches: (string, string) -> bool, p: Packet)
    requires x.addresses != [] && HasSource(resources, e) && !PortsKept(x.ports)
    ensures SaidFor(cfg, resources, e, x, matches, p) <==> !Intended(resources, e, x, matches, p)
  {
    hide SaidFor, Intended, HasSource, EndsAs, Lower, Split, SaysOver, AsksOver;
    if i :| 0 <= i < |x.ports| && x.ports[i].port != "" && EndsAs(x.ports, i) == "" {
      matches := Marked();
      p := OpenSaid(cfg, resources, e, x, i);
    } else {
      matches := Literal();
      var i, q :| 0 <= i < |x.ports| && x.ports[i].port != "" && q in Split(x.ports[i].port, ',')
                  && !(SaysOver(x.ports, Lower(x.ports[i].protocol), q) && AsksOver(x.ports, EndsAs(x.ports, i), q));
      if !SaysOver(x.ports, Lower(x.ports[i].protocol), q) {
        p := LostNotSaid(cfg, resources, e, x, i, q);
      } else {
        p := MisplacedSaid(cfg, resources, e, x, i, q);
      }
    }
  }

  /**
   * The rule list is given what the rule asks for, for every meaning of the elements and every packet, exactly when
   * the rule is enforceable: it has a source or is for the whole cluster, and its ports are kept.
   */
  lemma SaidIffEnforceable(cfg: Config, resources: Resources, e: Egress, x: ExternalService)
    ensures (forall matches, p :: SaidFor(cfg, resources, e, x, matches, p) <==> Intended(resources, e, x, matches, p))
            <==> Enforceable(resources, e, x)
  {
    hide SaidFor, Intended, HasSource, PortsKept;
    if Enforceable(resources, e, x) {
      forall matches, p
        ensures SaidFor(cfg, resources, e, x, matches, p) <==> Intended(resources, e, x, matches, p)
      {
        EnforceableIsSaid(cfg, resources, e, x, matches, p);
      }
    } else if !HasSource(resources, e) {
      var p := SourcelessSaid(cfg, resources, e, x);
    } else {
      var matches, p := UnkeptSaid(cfg, resources, e, x);
    }
  }

  // ----- the device after a sync -----

  /** The entry for one external service of one rule. */
  function EntryOf(cfg: Config, t: Tenant, e: Egress, x: ExternalService): string {
    PartitionPath(t.name, RuleListAttr(cfg.cluster, TypeOfRule(e), NamespaceOf(e), NameOf(e), x.name))
  }

  /** At its entry the rule decides the packet if it asks for it, with its action, and leaves it alone otherwise. */
  ghost predicate Decides(cfg: Config, t: Tenant, app: App, resources: Resources, e: Egress, x: ExternalService,
                          matches: (string, string) -> bool, p: Packet) {
    var entry := EntryOf(cfg, t, e, x);
    EntryVerdict(app, ByElement(matches), p, entry)
    == if Intended(resources, e, x, matches, p) then Some(Verdict(entry, ActionOf(e))) else None
  }

  /** The rule is listed in its policy, and enforced for every packet exactly when it is enforceable. */
  ghost predicate Enforced(cfg: Config, t: Tenant, app: App, resources: Resources, e: Egress, x: ExternalService) {
    && EntryOf(cfg, t, e, x) in Uses(cfg, t, app, TypeOfRule(e))
    && ((forall matches, p :: Decides(cfg, t, app, resources, e, x, matches, p)) <==> Enforceable(resources, e, x))
  }

  lemma ItemEntry(cfg: Config, t: Tenant, resources: Resources, e: Egress, x: ExternalService, item: Item)
    requires item.rule == DataOf(resources, e) && item.exsvc == ExsvcOf(x)
    ensures ItemPath(cfg, t, item) == EntryOf(cfg, t, e, x)
    ensures item.rule.ty == TypeOfRule(e) && item.rule.action == ActionOf(e)
  {
    hide DataOf, DestPorts, RuleListAttr;
    DataSay(resources, e);
  }

  /** The entry's verdict, by what the rule list was given. */
  lemma SaidDecides(cfg: Config, t: Tenant, src: Option<App>, resources: Resources, items: seq<Item>,
                    order: seq<string>, i: nat, e: Egress, x: ExternalService)
    requires GeneratedDelta(cfg, t, items, order) && RulesOnce(items) && i < |items|
    requires src.Some? ==> KindsAgree(src.value, Delta(cfg, t, items, order))
    requires items[i].rule == DataOf(resources, e) && items[i].exsvc == ExsvcOf(x)
    ensures var next := Next(cfg, t, false, src, Delta(cfg, t, items, order));
            next.Some? && forall matches, p ::
              Decides(cfg, t, next.value, resources, e, x, matches, p)
              <==> (SaidFor(cfg, resources, e, x, matches, p) <==> Intended(resources, e, x, matches, p))
  {
    hide GoodItems, AllReady, Visits, Delta, Next, DataOf, Intended, Programmed, EntryVerdict, KindsAgree, ExsvcOf,
         ByElement, EntryOf, ItemPath, RulesOnce, ValidTenant;
    var delta := Delta(cfg, t, items, order);
    ItemEntry(cfg, t, resources, e, x, items[i]);
    var next := Next(cfg, t, false, src, delta);
    SyncedVerdict(cfg, t, src, items, order, i, ByElement(Marked()), Packet("", "", "", ""));
    forall matches, p
      ensures Decides(cfg, t, next.value, resources, e, x, matches, p)
         <==> (SaidFor(cfg, resources, e, x, matches, p) <==> Intended(resources, e, x, matches, p))
    {
      SyncedVerdict(cfg, t, src, items, order, i, ByElement(matches), p);
    }
  }

  lemma EntryIsListed(cfg: Config, t: Tenant, src: Option<App>, items: seq<Item>, order: seq<string>, i: nat)
    requires GeneratedDelta(cfg, t, items, order) && i < |items|
    requires src.Some? ==> KindsAgree(src.value, Delta(cfg, t, items, order))
    ensures var next := Next(cfg, t, false, src, Delta(cfg, t, items, order));
            next.Some? && ItemPath(cfg, t, items[i]) in Uses(cfg, t, next.value, items[i].rule.ty)
  {
    hide GoodItem, AllReady, Visits, Delta, Next, KindsAgree, ValidTenant, Attr, ItemId, KeyKind, RulesLocal, Exact,
         NewRules, PolicyKey, TypeOf, PartitionPath, SelfContained;
    var delta, ty := Delta(cfg, t, items, order), items[i].rule.ty;
    DeltaWellFormed(cfg, t, items, order);
    Runs.WellFormedContained(cfg, t, delta);
    DeltaRules(cfg, t, items, order, i);
    ItemType(cfg, t, items[i]);
    ItemPathIs(cfg, t, items[i]);
    assert ty in Types(t) by { ItemTypes(cfg, t, items[i]); }
    PolicyOf(cfg, t, delta, ty);
    AddLists(cfg, t, src, delta, PolicyKey(cfg, t, ty), ItemPath(cfg, t, items[i]));
  }

  lemma ItemTypes(cfg: Config, t: Tenant, item: Item)
    requires GoodItem(cfg, t, item)
    ensures item.rule.ty in Types(t)
  {
  }

  /**
   * From the custom resources to the device: after a sync every rule and every external service that it names and
   * that exists has its entry, and the entry decides exactly the packets that the rule asks for, if and only if the
   * rule is enforceable.  The state before need not be well formed.
   */
  lemma SyncEnforces(cfg: Config, t: Tenant, src: Option<App>, resources: Resources, items: seq<Item>,
                     order: seq<string>, e: Egress, x: ExternalService)
    requires GeneratedDelta(cfg, t, items, order)
    requires GoodResources(cfg, t, resources) && ItemsOf(DealtRules(t.name, resources), items)
    requires src.Some? ==> KindsAgree(src.value, Delta(cfg, t, items, order))
    requires Handed(t.name, resources, e, x)
    ensures var next := Next(cfg, t, false, src, Delta(cfg, t, items, order));
            next.Some? && Enforced(cfg, t, next.value, resources, e, x)
  {
    hide GeneratedDelta, GoodResources, Handed, Delta, Next, DataOf, KindsAgree, ExsvcOf, Enforceable, Decides, SaidFor,
         Intended, DealtRules, ItemsOf, EntryOf, ItemPath, RulesOnce, Uses;
    ItemsShareRules(cfg, t, resources, items);
    ItemsAreHanded(t.name, resources, items);
    assert Wanted(t.name, resources, DataOf(resources, e), ExsvcOf(x));
    var i :| 0 <= i < |items| && items[i].rule == DataOf(resources, e) && items[i].exsvc == ExsvcOf(x);
    ItemEntry(cfg, t, resources, e, x, items[i]);
    EntryIsListed(cfg, t, src, items, order, i);
    SaidDecides(cfg, t, src, resources, items, order, i, e, x);
    SaidIffEnforceable(cfg, resources, e, x);
  }
}
