/** Destination ports of an external service, grouped by protocol, bandwidth-limited ports apart. */
module Ports {
  import opened Text

  datatype Port = Port(name: string, protocol: string, port: string, bandwidth: string)

  /** The ports of one firewall rule, with the iRule that limits their bandwidth. */
  datatype PortGroup = PortGroup(protocol: string, irule: string, ports: seq<string>)

  type Groups = map<string, PortGroup>

  function LowerChar(c: char): char {
    if 'A' <= c <= 'Z' then c - 'A' + 'a' else c
  }

  function Lower(s: string): string {
    seq(|s|, i requires 0 <= i < |s| => LowerChar(s[i]))
  }

  /** `d` is the lower-case form of `c`: 32 places on for a letter A to Z, itself otherwise. */
  predicate LowersTo(c: char, d: char) {
    if 'A' <= c <= 'Z' then d as int == c as int + 32 else d == c
  }

  /** `t` spells `s` in lower case, letter by letter. */
  predicate IsLowerCase(t: string, s: string) {
    |t| == |s| && forall i :: 0 <= i < |s| ==> LowersTo(s[i], t[i])
  }

  /** The same spelling but for the case of letters A to Z. */
  predicate SameButCase(s: string, t: string) {
    |s| == |t| && forall i :: 0 <= i < |s| ==> s[i] == t[i] || LowersTo(s[i], t[i]) || LowersTo(t[i], s[i])
  }

  /** Lower-casing yields the one lower-case spelling, which has no capital left. */
  lemma LowerIs(s: string, t: string)
    ensures t == Lower(s) <==> IsLowerCase(t, s)
    ensures forall c :: c in Lower(s) ==> !('A' <= c <= 'Z')
  {
    assert IsLowerCase(Lower(s), s);
    if IsLowerCase(t, s) {
      assert forall i :: 0 <= i < |s| ==> t[i] == Lower(s)[i];
    }
  }

  /** Two spellings are lower-cased to one exactly when they differ in case only. */
  lemma LowerIffSameButCase(s: string, t: string)
    ensures Lower(s) == Lower(t) <==> SameButCase(s, t)
  {
    if Lower(s) == Lower(t) {
      assert |s| == |t|;
      forall i | 0 <= i < |s|
        ensures s[i] == t[i] || LowersTo(s[i], t[i]) || LowersTo(t[i], s[i])
      {
        assert Lower(s)[i] == Lower(t)[i];
      }
    }
  }

  /** The protocol is the key unless a group of that name has another bandwidth; then the port's name is. */
  function KeyFor(groups: Groups, p: Port): string {
    var protocol := Lower(p.protocol);
    if protocol in groups then
      if groups[protocol].irule != p.bandwidth then p.name else protocol
    else if p.bandwidth != "" then p.name
    else protocol
  }

  function AddPort(groups: Groups, p: Port): Groups {
    if p.port == "" then groups
    else
      var key := KeyFor(groups, p);
      var ports := if key in groups then groups[key].ports else [];
      groups[key := PortGroup(Lower(p.protocol), p.bandwidth, ports + Split(p.port, ','))]
  }

  function GroupPorts(ports: seq<Port>): Groups {
    if ports == [] then map[] else AddPort(GroupPorts(ports[..|ports| - 1]), ports[|ports| - 1])
  }

  const ANY_GROUP := PortGroup("", "", [])

  function DestPorts(ports: seq<Port>): Groups {
    var groups := GroupPorts(ports);
    if groups == map[] then map["any" := ANY_GROUP] else groups
  }

  method DealPorts(ports: seq<Port>) returns (groups: Groups)
    ensures groups == DestPorts(ports)
  {
    groups := map[];
    for i := 0 to |ports|
      invariant groups == GroupPorts(ports[..i])
    {
      assert ports[..i + 1][..i] == ports[..i];
      var pt := ports[i];
      if pt.port != "" {
        var protocol := Lower(pt.protocol);
        var key := protocol;
        if protocol in groups {
          if groups[protocol].irule != pt.bandwidth {
            key := pt.name;
          }
        } else {
          if pt.bandwidth != "" {
            key := pt.name;
          }
        }
        var sofar := if key in groups then groups[key].ports else [];
        groups := groups[key := PortGroup(protocol, pt.bandwidth, sofar + Split(pt.port, ','))];
      }
    }
    assert ports[..|ports|] == ports;
    if groups == map[] {
      groups := map["any" := ANY_GROUP];
    }
  }

  // ----- what grouping means -----

  /** One destination port with its protocol, in lower case, and bandwidth limit. */
  datatype Access = Access(protocol: string, irule: string, port: string)

  predicate Asks(p: Port, a: Access) {
    p.port != "" && IsLowerCase(a.protocol, p.protocol) && a.irule == p.bandwidth && a.port in Split(p.port, ',')
  }

  predicate Asked(ports: seq<Port>, a: Access) {
    exists i :: 0 <= i < |ports| && Asks(ports[i], a)
  }

  predicate Granted(groups: Groups, a: Access) {
    exists k :: k in groups && groups[k].protocol == a.protocol && groups[k].irule == a.irule
      && a.port in groups[k].ports
  }

  predicate Limited(p: Port) {
    p.port != "" && p.bandwidth != ""
  }

  predicate SameLabel(p: Port, q: Port) {
    Lower(p.protocol) == Lower(q.protocol) && p.bandwidth == q.bandwidth
  }

  /**
   * Where the name of a bandwidth-limited port is the protocol, or the name of another limited port, both have
   * the same protocol and limit.
   */
  predicate NamesApart(ports: seq<Port>) {
    forall i, j :: 0 <= i < |ports| && 0 <= j < |ports| && Limited(ports[i]) && ports[j].port != "" ==>
      && (ports[i].name == Lower(ports[j].protocol) ==> SameLabel(ports[i], ports[j]))
      && (Limited(ports[j]) && ports[i].name == ports[j].name ==>
                SameLabel(ports[i], ports[j]))
  }

  /** Where a group's key comes from: its protocol, or the name of a limited port of its label. */
  predicate KeySource(ports: seq<Port>, k: string, g: PortGroup) {
    exists i :: 0 <= i < |ports| && ports[i].port != "" && g.protocol == Lower(ports[i].protocol)
                && g.irule == ports[i].bandwidth && k == if g.irule == "" then g.protocol else ports[i].name
  }

  predicate AllSourced(ports: seq<Port>, groups: Groups) {
    forall k :: k in groups ==> KeySource(ports, k, groups[k])
  }

  lemma {:induction false} KeysHaveSources(ports: seq<Port>)
    requires NamesApart(ports)
    ensures AllSourced(ports, GroupPorts(ports))
  {
    if ports != [] {
      var n := |ports| - 1;
      var groups := GroupPorts(ports[..n]);
      KeysHaveSources(ports[..n]);
      forall k | k in groups
        ensures KeySource(ports, k, groups[k])
      {
        SourceExtends(ports, k, groups[k]);
      }
      if ports[n].port != "" {
        LastPortFits(ports, groups);
      }
    }
  }

  lemma SourceExtends(ports: seq<Port>, k: string, g: PortGroup)
    requires ports != [] && KeySource(ports[..|ports| - 1], k, g)
    ensures KeySource(ports, k, g)
  {
    var init := ports[..|ports| - 1];
    var i :| 0 <= i < |init| && init[i].port != "" && g.protocol == Lower(init[i].protocol)
             && g.irule == init[i].bandwidth && k == if g.irule == "" then g.protocol else init[i].name;
    assert ports[i] == init[i];
  }

  /** The last port goes into a group of its own protocol and limit, under a key that fits. */
  lemma LastPortFits(ports: seq<Port>, groups: Groups)
    requires ports != [] && NamesApart(ports) && ports[|ports| - 1].port != ""
    requires AllSourced(ports, groups)
    ensures var p := ports[|ports| - 1];
            var key := KeyFor(groups, p);
            && KeySource(ports, key, PortGroup(Lower(p.protocol), p.bandwidth, []))
            && (key in groups ==> groups[key].protocol == Lower(p.protocol) && groups[key].irule == p.bandwidth)
  {
    hide Lower;
    var n := |ports| - 1;
    var p := ports[n];
    var protocol, key := Lower(p.protocol), KeyFor(groups, p);
    if protocol in groups {
      var g := groups[protocol];
      assert KeySource(ports, protocol, g);
      var i :| 0 <= i < |ports| && ports[i].port != "" && g.protocol == Lower(ports[i].protocol)
               && g.irule == ports[i].bandwidth && protocol == if g.irule == "" then g.protocol else ports[i].name;
    }
    if key in groups {
      var g := groups[key];
      assert KeySource(ports, key, g);
      var i :| 0 <= i < |ports| && ports[i].port != "" && g.protocol == Lower(ports[i].protocol)
               && g.irule == ports[i].bandwidth && key == if g.irule == "" then g.protocol else ports[i].name;
      assert p.bandwidth != "" ==> Limited(p);
      assert g.irule != "" ==> Limited(ports[i]);
    }
  }

  // ----- one label for each group -----

  /** The key under which a port is filed; meant for ports that are given. */
  function KeyAt(ports: seq<Port>, n: nat): string
    requires n < |ports|
  {
    KeyFor(GroupPorts(ports[..n]), ports[n])
  }

  /** Every group has one protocol and one limit: ports filed under one key have the same label. */
  predicate OneLabelEach(ports: seq<Port>) {
    forall i, j :: 0 <= i < j < |ports| && ports[i].port != "" && ports[j].port != ""
                   && KeyAt(ports, i) == KeyAt(ports, j) ==>
      SameLabel(ports[i], ports[j])
  }

  /** The group is new, or already of the port's protocol and limit. */
  predicate Fits(groups: Groups, p: Port) {
    var key := KeyFor(groups, p);
    key in groups ==> groups[key].protocol == Lower(p.protocol) && groups[key].irule == p.bandwidth
  }

  /** A group's label is that of some port filed under its key. */
  lemma {:induction false} GroupHasFiler(ports: seq<Port>, k: string) returns (i: nat)
    requires k in GroupPorts(ports)
    ensures i < |ports| && ports[i].port != "" && KeyAt(ports, i) == k
    ensures GroupPorts(ports)[k].protocol == Lower(ports[i].protocol)
    ensures GroupPorts(ports)[k].irule == ports[i].bandwidth
  {
    var n := |ports| - 1;
    if ports[n].port != "" && KeyAt(ports, n) == k {
      i := n;
    } else {
      i := GroupHasFiler(ports[..n], k);
      assert ports[..n][..i] == ports[..i];
    }
  }

  /** A port that was filed has its group. */
  lemma {:induction false} FiledHasGroup(ports: seq<Port>, i: nat)
    requires i < |ports| && ports[i].port != ""
    ensures KeyAt(ports, i) in GroupPorts(ports)
  {
    var n := |ports| - 1;
    if i < n {
      FiledHasGroup(ports[..n], i);
      assert ports[..n][..i] == ports[..i];
    }
  }

  lemma OneLabelFits(ports: seq<Port>, n: nat)
    requires OneLabelEach(ports) && n < |ports| && ports[n].port != ""
    ensures Fits(GroupPorts(ports[..n]), ports[n])
  {
    var groups := GroupPorts(ports[..n]);
    if KeyAt(ports, n) in groups {
      var i := GroupHasFiler(ports[..n], KeyAt(ports, n));
      assert ports[..n][..i] == ports[..i];
      assert SameLabel(ports[i], ports[n]);
    }
  }

  lemma OneLabelPrefix(ports: seq<Port>, n: nat)
    requires OneLabelEach(ports) && n <= |ports|
    ensures OneLabelEach(ports[..n])
  {
    assert forall i :: 0 <= i < n ==> ports[..n][..i] == ports[..i];
  }

  /** Names that keep apart are enough for one label for each group. */
  lemma NamesApartKeepLabels(ports: seq<Port>)
    requires NamesApart(ports)
    ensures OneLabelEach(ports)
  {
    forall i, j | 0 <= i < j < |ports| && ports[i].port != "" && ports[j].port != ""
      && KeyAt(ports, i) == KeyAt(ports, j)
      ensures SameLabel(ports[i], ports[j])
    {
      FiledUnderSource(ports, i);
      FiledUnderSource(ports, j);
      assert Limited(ports[i]) <==> ports[i].bandwidth != "";
      assert Limited(ports[j]) <==> ports[j].bandwidth != "";
    }
  }

  /** Where names keep apart, a port is filed under a key that its label explains. */
  lemma FiledUnderSource(ports: seq<Port>, n: nat)
    requires NamesApart(ports) && n < |ports| && ports[n].port != ""
    ensures KeySource(ports, KeyAt(ports, n), PortGroup(Lower(ports[n].protocol), ports[n].bandwidth, []))
  {
    var init := ports[..n + 1];
    assert init[..n] == ports[..n];
    KeysHaveSources(ports[..n]);
    var groups := GroupPorts(ports[..n]);
    forall k | k in groups
      ensures KeySource(init, k, groups[k])
    {
      SourceExtends(init, k, groups[k]);
    }
    LastPortFits(init, groups);
    var i :| 0 <= i < |init| && init[i].port != "" && Lower(ports[n].protocol) == Lower(init[i].protocol)
             && ports[n].bandwidth == init[i].bandwidth
             && KeyAt(ports, n) == if ports[n].bandwidth == "" then Lower(ports[n].protocol) else init[i].name;
    assert ports[i] == init[i];
  }

  /** No limited port is named like a protocol that is asked for. */
  predicate NoProtocolNames(ports: seq<Port>) {
    forall i, j :: 0 <= i < |ports| && 0 <= j < |ports| && Limited(ports[i]) && ports[j].port != "" ==>
      ports[i].name != Lower(ports[j].protocol)
  }

  /** Then a port is filed under its protocol, or its name when it is limited. */
  lemma {:induction false} FiledUnder(ports: seq<Port>, n: nat)
    requires NoProtocolNames(ports) && n < |ports| && ports[n].port != ""
    ensures KeyAt(ports, n) == if ports[n].bandwidth == "" then Lower(ports[n].protocol) else ports[n].name
    decreases n
  {
    var groups, protocol := GroupPorts(ports[..n]), Lower(ports[n].protocol);
    if protocol in groups {
      var i := GroupHasFiler(ports[..n], protocol);
      assert ports[..n][..i] == ports[..i];
      FiledUnder(ports, i);
      assert ports[i].bandwidth != "" ==> Limited(ports[i]);
    }
  }

  /**
   * Exactly when the limited ports of one name share their protocol and limit does every group have one protocol
   * and one limit.
   */
  lemma OneLabelIffNamesApart(ports: seq<Port>)
    requires NoProtocolNames(ports)
    ensures OneLabelEach(ports) <==>
              forall i, j :: 0 <= i < j < |ports| && Limited(ports[i]) && Limited(ports[j])
                             && ports[i].name == ports[j].name ==>
                SameLabel(ports[i], ports[j])
  {
    forall i, j | 0 <= i < j < |ports| && ports[i].port != "" && ports[j].port != ""
      ensures KeyAt(ports, i) == KeyAt(ports, j) <==>
                if ports[i].bandwidth == "" && ports[j].bandwidth == ""
                  then Lower(ports[i].protocol) == Lower(ports[j].protocol)
                else ports[i].bandwidth != "" && ports[j].bandwidth != "" && ports[i].name == ports[j].name
    {
      FiledUnder(ports, i);
      FiledUnder(ports, j);
      assert ports[i].bandwidth != "" ==> Limited(ports[i]);
      assert ports[j].bandwidth != "" ==> Limited(ports[j]);
    }
  }

  /** The port's own protocol and limit are those of the group that it ends up in. */
  predicate KeepsLabel(ports: seq<Port>, n: nat)
    requires n < |ports|
  {
    var groups, key := GroupPorts(ports), KeyAt(ports, n);
    key in groups && groups[key].protocol == Lower(ports[n].protocol) && groups[key].irule == ports[n].bandwidth
  }

  /** Every port that is given keeps its protocol and limit exactly when every group has one of each. */
  lemma OneLabelIffKept(ports: seq<Port>)
    ensures OneLabelEach(ports) <==> forall n :: 0 <= n < |ports| && ports[n].port != "" ==> KeepsLabel(ports, n)
  {
    forall n | 0 <= n < |ports| && ports[n].port != ""
      ensures OneLabelEach(ports) ==> KeepsLabel(ports, n)
    {
      FiledHasGroup(ports, n);
      var i := GroupHasFiler(ports, KeyAt(ports, n));
    }
    if forall n :: 0 <= n < |ports| && ports[n].port != "" ==> KeepsLabel(ports, n) {
      forall i, j | 0 <= i < j < |ports| && ports[i].port != "" && ports[j].port != ""
                    && KeyAt(ports, i) == KeyAt(ports, j)
        ensures SameLabel(ports[i], ports[j])
      {
        assert KeepsLabel(ports, i) && KeepsLabel(ports, j);
      }
    }
  }

  // ----- conservation -----

  /** Grouping neither loses nor invents a port, and never changes its protocol or limit. */
  lemma {:induction false} GroupingConserves(ports: seq<Port>, a: Access)
    requires OneLabelEach(ports)
    ensures Granted(GroupPorts(ports), a) <==> Asked(ports, a)
  {
    if ports != [] {
      var n := |ports| - 1;
      OneLabelPrefix(ports, n);
      GroupingConserves(ports[..n], a);
      AskedStep(ports, a);
      if ports[n].port != "" {
        OneLabelFits(ports, n);
        GrantedStep(GroupPorts(ports[..n]), ports[n], a);
      }
    }
  }

  lemma AskedStep(ports: seq<Port>, a: Access)
    requires ports != []
    ensures var n := |ports| - 1; Asked(ports, a) <==> Asked(ports[..n], a) || Asks(ports[n], a)
  {
    var n := |ports| - 1;
    if Asked(ports[..n], a) {
      var i :| 0 <= i < n && Asks(ports[..n][i], a);
      assert ports[i] == ports[..n][i];
    }
    if Asked(ports, a) {
      var i :| 0 <= i < |ports| && Asks(ports[i], a);
      assert i < n ==> ports[..n][i] == ports[i];
    }
  }

  lemma GrantedStep(groups: Groups, p: Port, a: Access)
    requires p.port != ""
    requires Fits(groups, p)
    ensures Granted(AddPort(groups, p), a) <==> Granted(groups, a) || Asks(p, a)
  {
    LowerIs(p.protocol, a.protocol);
    hide Split, Lower, KeyFor;
    var key, next := KeyFor(groups, p), AddPort(groups, p);
    if Granted(groups, a) {
      var k :| k in groups && groups[k].protocol == a.protocol && groups[k].irule == a.irule
        && a.port in groups[k].ports;
      assert k in next && a.port in next[k].ports;
    }
    if Asks(p, a) {
      assert a.port in next[key].ports;
    }
  }

  // ----- protocols alone -----

  /** Every group has one protocol, whatever its limits. */
  predicate OneProtocolEach(ports: seq<Port>) {
    forall i, j :: 0 <= i < j < |ports| && ports[i].port != "" && ports[j].port != ""
                   && KeyAt(ports, i) == KeyAt(ports, j) ==>
      Lower(ports[i].protocol) == Lower(ports[j].protocol)
  }

  predicate AsksFor(p: Port, protocol: string, port: string) {
    p.port != "" && IsLowerCase(protocol, p.protocol) && port in Split(p.port, ',')
  }

  predicate AskedFor(ports: seq<Port>, protocol: string, port: string) {
    exists i :: 0 <= i < |ports| && AsksFor(ports[i], protocol, port)
  }

  predicate GrantedFor(groups: Groups, protocol: string, port: string) {
    exists k :: k in groups && groups[k].protocol == protocol && port in groups[k].ports
  }

  /** The packets of a group are those of its protocol, so limits that are mixed up do not change them. */
  lemma {:induction false} ProtocolsConserved(ports: seq<Port>, protocol: string, port: string)
    requires OneProtocolEach(ports)
    ensures GrantedFor(GroupPorts(ports), protocol, port) <==> AskedFor(ports, protocol, port)
  {
    if ports != [] {
      var n := |ports| - 1;
      assert forall i :: 0 <= i < n ==> ports[..n][..i] == ports[..i];
      ProtocolsConserved(ports[..n], protocol, port);
      AskedForStep(ports, protocol, port);
      if ports[n].port != "" {
        var groups := GroupPorts(ports[..n]);
        if KeyFor(groups, ports[n]) in groups {
          var i := GroupHasFiler(ports[..n], KeyFor(groups, ports[n]));
          assert KeyAt(ports, i) == KeyAt(ports, n);
        }
        GrantedForStep(groups, ports[n], protocol, port);
      }
    }
  }

  lemma AskedForStep(ports: seq<Port>, protocol: string, port: string)
    requires ports != []
    ensures var n := |ports| - 1;
            AskedFor(ports, protocol, port) <==>
              AskedFor(ports[..n], protocol, port) || AsksFor(ports[n], protocol, port)
  {
    var n := |ports| - 1;
    if AskedFor(ports[..n], protocol, port) {
      var i :| 0 <= i < n && AsksFor(ports[..n][i], protocol, port);
      assert ports[i] == ports[..n][i];
    }
    if AskedFor(ports, protocol, port) {
      var i :| 0 <= i < |ports| && AsksFor(ports[i], protocol, port);
      assert i < n ==> ports[..n][i] == ports[i];
    }
  }

  lemma GrantedForStep(groups: Groups, p: Port, protocol: string, port: string)
    requires p.port != ""
    requires var key := KeyFor(groups, p); key in groups ==> groups[key].protocol == Lower(p.protocol)
    ensures GrantedFor(AddPort(groups, p), protocol, port)
            <==> GrantedFor(groups, protocol, port) || AsksFor(p, protocol, port)
  {
    LowerIs(p.protocol, protocol);
    var key, next := KeyFor(groups, p), AddPort(groups, p);
    if GrantedFor(groups, protocol, port) {
      var k :| k in groups && groups[k].protocol == protocol && port in groups[k].ports;
      assert k in next && port in next[k].ports;
    }
    if AsksFor(p, protocol, port) {
      assert port in next[key].ports;
    }
  }

  // ----- where each port ends up -----

  /** Entries without a limit whose protocols differ in case only are filed together, and no others are. */
  lemma CaseDoesNotSeparate(ports: seq<Port>, i: nat, j: nat)
    requires NoProtocolNames(ports) && i < |ports| && j < |ports| && ports[i].port != "" && ports[j].port != ""
    requires ports[i].bandwidth == "" && ports[j].bandwidth == ""
    ensures KeyAt(ports, i) == KeyAt(ports, j) <==> SameButCase(ports[i].protocol, ports[j].protocol)
    ensures IsLowerCase(KeyAt(ports, i), ports[i].protocol)
  {
    hide GroupPorts, KeyAt, Lower;
    FiledUnder(ports, i);
    FiledUnder(ports, j);
    LowerIffSameButCase(ports[i].protocol, ports[j].protocol);
    LowerIs(ports[i].protocol, Lower(ports[i].protocol));
  }

  /** The protocol of the group that a given port ends up in. */
  function EndsAs(ports: seq<Port>, n: nat): string
    requires n < |ports| && ports[n].port != ""
  {
    FiledHasGroup(ports, n);
    GroupPorts(ports)[KeyAt(ports, n)].protocol
  }

  lemma KeyAtPrefix(ports: seq<Port>, n: nat, i: nat)
    requires i < n <= |ports|
    ensures ports[..n][i] == ports[i] && KeyAt(ports[..n], i) == KeyAt(ports, i)
  {
    assert ports[..n][..i] == ports[..i];
  }

  /** Some entry filed under the key has the port. */
  predicate FiledPort(ports: seq<Port>, k: string, q: string) {
    exists i :: 0 <= i < |ports| && ports[i].port != "" && KeyAt(ports, i) == k && q in Split(ports[i].port, ',')
  }

  lemma FiledPortStep(ports: seq<Port>, k: string, q: string)
    requires ports != []
    ensures var n := |ports| - 1;
            FiledPort(ports, k, q) <==>
              FiledPort(ports[..n], k, q)
              || (ports[n].port != "" && KeyAt(ports, n) == k && q in Split(ports[n].port, ','))
  {
    hide Split, KeyAt;
    var n := |ports| - 1;
    var init := ports[..n];
    if FiledPort(init, k, q) {
      var i :| 0 <= i < n && init[i].port != "" && KeyAt(init, i) == k && q in Split(init[i].port, ',');
      KeyAtPrefix(ports, n, i);
    }
    if FiledPort(ports, k, q) {
      var i :| 0 <= i < |ports| && ports[i].port != "" && KeyAt(ports, i) == k && q in Split(ports[i].port, ',');
      if i < n {
        KeyAtPrefix(ports, n, i);
      }
    }
  }

  /** A group holds the ports of the entries filed under its key, and no others. */
  lemma {:induction false} GroupPortsAre(ports: seq<Port>, k: string, q: string)
    ensures k in GroupPorts(ports) && q in GroupPorts(ports)[k].ports <==> FiledPort(ports, k, q)
  {
    hide Split, FiledPort, KeyFor;
    if ports == [] {
      assert !FiledPort([], k, q) by { NothingFiled(k, q); }
    } else {
      GroupPortsAre(ports[..|ports| - 1], k, q);
      FiledPortStep(ports, k, q);
    }
  }

  lemma NothingFiled(k: string, q: string)
    ensures !FiledPort([], k, q)
  {
  }

  /** The last port filed under a key gives the group its protocol. */
  lemma {:induction false} LastFilerDecides(ports: seq<Port>, j: nat)
    requires j < |ports| && ports[j].port != ""
    requires forall i :: j < i < |ports| && ports[i].port != "" ==> KeyAt(ports, i) != KeyAt(ports, j)
    ensures KeyAt(ports, j) in GroupPorts(ports)
    ensures GroupPorts(ports)[KeyAt(ports, j)].protocol == Lower(ports[j].protocol)
  {
    hide KeyFor, Lower;
    var n := |ports| - 1;
    if j < n {
      KeyAtPrefix(ports, n, j);
      forall i | j < i < n && ports[..n][i].port != ""
        ensures KeyAt(ports[..n], i) != KeyAt(ports[..n], j)
      {
        KeyAtPrefix(ports, n, i);
      }
      LastFilerDecides(ports[..n], j);
    }
  }

  /**
   * When no limited port is named like a protocol, a limited port ends up with the protocol of the last limited port
   * of its name.
   */
  lemma EndsAsLast(ports: seq<Port>, i: nat, j: nat)
    requires NoProtocolNames(ports) && i < |ports| && Limited(ports[i]) && j < |ports|
    requires Limited(ports[j]) && ports[j].name == ports[i].name
    requires forall n :: j < n < |ports| && Limited(ports[n]) ==> ports[n].name != ports[i].name
    ensures EndsAs(ports, i) == Lower(ports[j].protocol)
  {
    FiledUnder(ports, i);
    FiledHasGroup(ports, i);
    FiledUnder(ports, j);
    forall n | j < n < |ports| && ports[n].port != ""
      ensures KeyAt(ports, n) != KeyAt(ports, j)
    {
      FiledUnder(ports, n);
      assert Limited(ports[n]) <==> ports[n].bandwidth != "";
      assert Limited(ports[j]);
    }
    LastFilerDecides(ports, j);
  }

  /** The protocol of the last limited port of a name; the empty string when there is none. */
  function LastOfName(ports: seq<Port>, name: string): string {
    if ports == [] then ""
    else
      var n := |ports| - 1;
      if Limited(ports[n]) && ports[n].name == name then Lower(ports[n].protocol) else LastOfName(ports[..n], name)
  }

  /** The protocol under which an entry ends up, read off the entries. */
  function ListedAs(ports: seq<Port>, i: nat): string
    requires i < |ports|
  {
    if ports[i].bandwidth == "" then Lower(ports[i].protocol) else LastOfName(ports, ports[i].name)
  }

  lemma {:induction false} LastIndex(ports: seq<Port>, i: nat) returns (j: nat)
    requires i < |ports| && Limited(ports[i])
    ensures j < |ports| && Limited(ports[j]) && ports[j].name == ports[i].name
    ensures forall n :: j < n < |ports| && Limited(ports[n]) ==> ports[n].name != ports[i].name
    ensures LastOfName(ports, ports[i].name) == Lower(ports[j].protocol)
  {
    hide Lower;
    var n := |ports| - 1;
    if Limited(ports[n]) && ports[n].name == ports[i].name {
      j := n;
    } else {
      j := LastIndex(ports[..n], i);
    }
  }

  /** Where no limited port is named like a protocol, that is the protocol of its group. */
  lemma EndsAsListed(ports: seq<Port>, i: nat)
    requires NoProtocolNames(ports) && i < |ports| && ports[i].port != ""
    ensures EndsAs(ports, i) == ListedAs(ports, i)
  {
    hide Lower, GroupPorts, KeyAt, EndsAs;
    if ports[i].bandwidth == "" {
      EndsAsOwn(ports, i);
    } else {
      var j := LastIndex(ports, i);
      EndsAsLast(ports, i, j);
    }
  }

  lemma EndsAsOwn(ports: seq<Port>, i: nat)
    requires NoProtocolNames(ports) && i < |ports| && ports[i].port != "" && ports[i].bandwidth == ""
    ensures EndsAs(ports, i) == Lower(ports[i].protocol)
  {
    FiledUnder(ports, i);
    FiledHasGroup(ports, i);
    var m := GroupHasFiler(ports, KeyAt(ports, i));
    FiledUnder(ports, m);
    assert ports[m].bandwidth != "" ==> Limited(ports[m]);
  }

  /** Every given port keeps its protocol exactly when every group has one. */
  lemma OneProtocolIffKept(ports: seq<Port>)
    ensures OneProtocolEach(ports) <==>
              forall n :: 0 <= n < |ports| && ports[n].port != "" ==> EndsAs(ports, n) == Lower(ports[n].protocol)
  {
    forall n | 0 <= n < |ports| && ports[n].port != ""
      ensures OneProtocolEach(ports) ==> EndsAs(ports, n) == Lower(ports[n].protocol)
    {
      FiledHasGroup(ports, n);
      var i := GroupHasFiler(ports, KeyAt(ports, n));
      assert i == n || i < n || n < i;
    }
    if forall n :: 0 <= n < |ports| && ports[n].port != "" ==> EndsAs(ports, n) == Lower(ports[n].protocol) {
      forall i, j | 0 <= i < j < |ports| && ports[i].port != "" && ports[j].port != ""
                    && KeyAt(ports, i) == KeyAt(ports, j)
        ensures Lower(ports[i].protocol) == Lower(ports[j].protocol)
      {
        assert EndsAs(ports, i) == EndsAs(ports, j);
      }
    }
  }

  /** Limited ports of one name have the same protocol. */
  predicate NamesShareProtocol(ports: seq<Port>) {
    forall i, j :: 0 <= i < j < |ports| && Limited(ports[i]) && Limited(ports[j]) && ports[i].name == ports[j].name ==>
      Lower(ports[i].protocol) == Lower(ports[j].protocol)
  }

  /** When no limited port is named like a protocol, this is exactly what gives every group one protocol. */
  lemma OneProtocolIffNamesShare(ports: seq<Port>)
    requires NoProtocolNames(ports)
    ensures OneProtocolEach(ports) <==> NamesShareProtocol(ports)
  {
    hide GroupPorts, KeyAt, Lower;
    forall i, j | 0 <= i < j < |ports| && ports[i].port != "" && ports[j].port != ""
      ensures KeyAt(ports, i) == KeyAt(ports, j) <==>
                if !Limited(ports[i]) && !Limited(ports[j]) then Lower(ports[i].protocol) == Lower(ports[j].protocol)
                else Limited(ports[i]) && Limited(ports[j]) && ports[i].name == ports[j].name
    {
      FiledUnder(ports, i);
      FiledUnder(ports, j);
    }
  }

  /** Every group of a port that was given holds a port. */
  lemma {:induction false} GroupsHoldPorts(ports: seq<Port>)
    ensures forall k :: k in GroupPorts(ports) ==> GroupPorts(ports)[k].ports != []
    ensures GroupPorts(ports) == map[] <==> forall i :: 0 <= i < |ports| ==> ports[i].port == ""
  {
    if ports != [] {
      var n := |ports| - 1;
      GroupsHoldPorts(ports[..n]);
      if ports[n].port != "" {
        assert KeyFor(GroupPorts(ports[..n]), ports[n]) in GroupPorts(ports);
      }
    }
  }

  /** The single portless group stands for "no port given", and for nothing else. */
  lemma AnyGroupIffNoPort(ports: seq<Port>)
    ensures DestPorts(ports) == map["any" := ANY_GROUP] <==> forall i :: 0 <= i < |ports| ==> ports[i].port == ""
    ensures DestPorts(ports) != map[]
  {
    GroupsHoldPorts(ports);
    var single := map["any" := ANY_GROUP];
    assert "any" in single && single["any"].ports == [];
  }

  lemma GroupTwo(p: Port, q: Port)
    ensures GroupPorts([p, q]) == AddPort(AddPort(map[], p), q)
  {
    hide AddPort;
    assert [p][..0] == [];
    assert GroupPorts([p]) == AddPort(map[], p);
    assert [p, q][..1] == [p];
  }

  /** The groups of an external service hold what its ports ask for, protocol and limit included. */
  lemma PortsConserved(ports: seq<Port>, a: Access)
    requires OneLabelEach(ports)
    ensures Granted(DestPorts(ports), a) <==> Asked(ports, a)
  {
    GroupingConserves(ports, a);
  }

  /** The hypothesis is needed: of two limited ports with one name, the later limit replaces the earlier one. */
  lemma SharedNameLosesLimit()
    ensures var ports := [Port("web", "tcp", "80", "slow"), Port("web", "tcp", "443", "fast")];
            var a := Access("tcp", "slow", "80");
            Asked(ports, a) && !Granted(GroupPorts(ports), a)
  {
    var first, second := Port("web", "tcp", "80", "slow"), Port("web", "tcp", "443", "fast");
    var ports, a := [first, second], Access("tcp", "slow", "80");
    assert Lower("tcp") == "tcp";
    SplitPlain("80", ',');
    LowerIs("tcp", "tcp");
    assert Asks(ports[0], a);
    var one, two := AddPort(map[], first), AddPort(AddPort(map[], first), second);
    GroupTwo(first, second);
    assert KeyFor(map[], first) == "web" && one.Keys == {"web"};
    assert "tcp"[0] != "web"[0];
    assert KeyFor(one, second) == "web" && two.Keys == {"web"};
    assert two["web"].irule == "fast" && "slow"[0] != "fast"[0];
  }
}
