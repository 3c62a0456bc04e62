/**
 * The string encoding of object identities: attribute names inside an application and the
 * `/partition/Shared/attribute` paths by which objects refer to each other.
 */
module Naming {
  import opened Model
  import opened Text

  const GLOBAL := "global"
  const NS := "ns"
  const SVC := "svc"

  /** The parts of the deny-all rule list's name. */
  const DENY_TOKENS := ["svc", "deny", "all", "rule", "list"]

  /** Two name parts joined by an underscore. */
  function Under(a: string, b: string): string {
    a + "_" + b
  }

  /** The scope prefix: cluster-wide rules have no namespace part. */
  function TypeAndNamespace(ty: string, namespace: string): string {
    if ty == GLOBAL then ty else Under(ty, namespace)
  }

  function ExternalAttr(cluster: string, ty: string, namespace: string, rule: string, exsvc: string,
                        tail: string): string {
    Under(cluster, Under(TypeAndNamespace(ty, namespace), Under(rule, Under("ext", Under(exsvc, tail)))))
  }

  function DestPortAttr(cluster: string, ty: string, namespace: string, rule: string, exsvc: string,
                        key: string): string {
    ExternalAttr(cluster, ty, namespace, rule, exsvc, Under("ports", key))
  }

  function DestAddressAttr(cluster: string, ty: string, namespace: string, rule: string, exsvc: string): string {
    ExternalAttr(cluster, ty, namespace, rule, exsvc, "address")
  }

  function RuleListAttr(cluster: string, ty: string, namespace: string, rule: string, exsvc: string): string {
    ExternalAttr(cluster, ty, namespace, rule, exsvc, Under("rule", "list"))
  }

  /** Source lists are named per rule; a service rule adds the endpoint's name, a namespace rule does not. */
  function SrcAddressAttr(cluster: string, ty: string, namespace: string, rule: string, endpoint: string): string {
    if ty == GLOBAL then ""
    else
      var tail := if ty == NS then Under("src", "address") else Under("ep", Under(endpoint, Under("src", "address")));
      Under(cluster, Under(TypeAndNamespace(ty, namespace), Under(rule, tail)))
  }

  function PolicyAttr(cfg: Config, ty: string, routeDomain: string): string {
    var parts :=
      if ty == GLOBAL then ["system", "global", "policy"]
      else [ty, "policy", if cfg.supportRouteDomain then routeDomain else "rd"];
    Under(cfg.master, Join(parts, '_'))
  }

  function DenyAllAttr(cfg: Config): string {
    Under(cfg.master, Join(DENY_TOKENS, '_'))
  }

  function GatewayPoolAttr(cfg: Config): string {
    Under(cfg.master, Join(["gw", "pool"], '_'))
  }

  function VirtualServerAttr(cfg: Config): string {
    Under(cfg.master, Join(["outbound", "vs"], '_'))
  }

  function VirtualAddressAttr(cfg: Config): string {
    Under(cfg.master, Join(["outbound", "va"], '_'))
  }

  function PartitionPath(partition: string, attr: string): string {
    if attr == "" then ""
    else "/" + (if partition == "" then COMMON else partition) + "/Shared/" + attr
  }

  /** The source panics when a non-empty namespace has no tenant. */
  function NamespacePath(cfg: Config, namespace: string, attr: string): string
    requires attr != "" && namespace != "" ==> TenantForNamespace(cfg, namespace).Some?
  {
    if attr == "" then ""
    else "/" + (if namespace == "" then COMMON else TenantForNamespace(cfg, namespace).value.name) + "/Shared/" + attr
  }

  /** The attribute a path points at: its fourth slash-separated part. */
  function Origin(use: string): string {
    var parts := Split(use, '/');
    if |parts| < 4 then "" else parts[3]
  }

  // ----- the names written out -----

  /** What a rule's names start with: the cluster, the type, the namespace of all but cluster rules, and the name. */
  function Start(cluster: string, ty: string, namespace: string, rule: string): string {
    cluster + "_" + (if ty == "global" then "global" else ty + "_" + namespace) + "_" + rule
  }

  lemma UnderStart(cluster: string, ty: string, namespace: string, rule: string, tail: string)
    ensures Under(cluster, Under(TypeAndNamespace(ty, namespace), Under(rule, tail)))
            == Start(cluster, ty, namespace, rule) + "_" + tail
  {
    var scope := TypeAndNamespace(ty, namespace);
    assert cluster + "_" + (scope + "_" + (rule + "_" + tail)) == cluster + "_" + scope + "_" + rule + "_" + tail;
  }

  lemma ExternalStart(cluster: string, ty: string, namespace: string, rule: string, exsvc: string, tail: string)
    ensures ExternalAttr(cluster, ty, namespace, rule, exsvc, tail)
            == Start(cluster, ty, namespace, rule) + "_ext_" + exsvc + "_" + tail
  {
    UnderStart(cluster, ty, namespace, rule, Under("ext", Under(exsvc, tail)));
    var start := Start(cluster, ty, namespace, rule);
    assert start + "_" + ("ext" + "_" + (exsvc + "_" + tail)) == start + "_ext_" + exsvc + "_" + tail;
  }

  lemma ListInFull(cluster: string, ty: string, namespace: string, rule: string, exsvc: string)
    ensures RuleListAttr(cluster, ty, namespace, rule, exsvc)
            == Start(cluster, ty, namespace, rule) + "_ext_" + exsvc + "_rule_list"
    ensures DestAddressAttr(cluster, ty, namespace, rule, exsvc)
            == Start(cluster, ty, namespace, rule) + "_ext_" + exsvc + "_address"
  {
    hide ExternalAttr, Start;
    var front := Start(cluster, ty, namespace, rule) + "_ext_" + exsvc;
    ExternalStart(cluster, ty, namespace, rule, exsvc, Under("rule", "list"));
    ExternalStart(cluster, ty, namespace, rule, exsvc, "address");
    assert front + "_" + ("rule" + "_" + "list") == front + "_rule_list";
    assert front + "_" + "address" == front + "_address";
  }

  lemma PortsInFull(cluster: string, ty: string, namespace: string, rule: string, exsvc: string, key: string)
    ensures DestPortAttr(cluster, ty, namespace, rule, exsvc, key)
            == Start(cluster, ty, namespace, rule) + "_ext_" + exsvc + "_ports_" + key
  {
    hide ExternalAttr, Start;
    var front := Start(cluster, ty, namespace, rule) + "_ext_" + exsvc;
    ExternalStart(cluster, ty, namespace, rule, exsvc, Under("ports", key));
    assert front + "_" + ("ports" + "_" + key) == front + "_ports_" + key;
  }

  lemma SourceInFull(cluster: string, ty: string, namespace: string, rule: string, endpoint: string)
    ensures SrcAddressAttr(cluster, ty, namespace, rule, endpoint)
            == if ty == "global" then ""
               else if ty == "ns" then Start(cluster, ty, namespace, rule) + "_src_address"
               else Start(cluster, ty, namespace, rule) + "_ep_" + endpoint + "_src_address"
  {
    hide TypeAndNamespace, Start;
    var start := Start(cluster, ty, namespace, rule);
    if ty == "ns" {
      UnderStart(cluster, ty, namespace, rule, Under("src", "address"));
      assert start + "_" + ("src" + "_" + "address") == start + "_src_address";
    } else if ty != "global" {
      UnderStart(cluster, ty, namespace, rule, Under("ep", Under(endpoint, Under("src", "address"))));
      assert start + "_" + ("ep" + "_" + (endpoint + "_" + ("src" + "_" + "address")))
          == start + "_ep_" + endpoint + "_src_address";
    }
  }

  /** The names of a rule's objects, in full. */
  lemma RuleNamesInFull(cluster: string, ty: string, namespace: string, rule: string, exsvc: string, key: string,
                        endpoint: string)
    ensures var start := Start(cluster, ty, namespace, rule);
            && RuleListAttr(cluster, ty, namespace, rule, exsvc) == start + "_ext_" + exsvc + "_rule_list"
            && DestAddressAttr(cluster, ty, namespace, rule, exsvc) == start + "_ext_" + exsvc + "_address"
            && DestPortAttr(cluster, ty, namespace, rule, exsvc, key) == start + "_ext_" + exsvc + "_ports_" + key
            && SrcAddressAttr(cluster, ty, namespace, rule, endpoint)
               == if ty == "global" then ""
                  else if ty == "ns" then start + "_src_address"
                  else start + "_ep_" + endpoint + "_src_address"
  {
    hide RuleListAttr, DestAddressAttr, DestPortAttr, SrcAddressAttr, Start;
    ListInFull(cluster, ty, namespace, rule, exsvc);
    PortsInFull(cluster, ty, namespace, rule, exsvc, key);
    SourceInFull(cluster, ty, namespace, rule, endpoint);
  }

  lemma JoinThree(a: string, b: string, c: string)
    ensures Join([a, b], '_') == a + "_" + b && Join([a, b, c], '_') == a + "_" + b + "_" + c
  {
    assert [b, c][1..] == [c] && [a, b][1..] == [b] && [a, b, c][1..] == [b, c];
    assert Join([b, c], '_') == b + "_" + c;
    assert a + ['_'] + (b + "_" + c) == a + "_" + b + "_" + c;
  }

  /** The names of policies and infrastructure, in full; they carry the master cluster's name. */
  lemma FixedNamesInFull(cfg: Config, ty: string, routeDomain: string)
    ensures PolicyAttr(cfg, ty, routeDomain)
            == if ty == "global" then cfg.master + "_system_global_policy"
               else cfg.master + "_" + ty + "_policy_" + (if cfg.supportRouteDomain then routeDomain else "rd")
    ensures DenyAllAttr(cfg) == cfg.master + "_svc_deny_all_rule_list"
    ensures GatewayPoolAttr(cfg) == cfg.master + "_gw_pool"
    ensures VirtualServerAttr(cfg) == cfg.master + "_outbound_vs"
    ensures VirtualAddressAttr(cfg) == cfg.master + "_outbound_va"
  {
    hide Join;
    var domain := if cfg.supportRouteDomain then routeDomain else "rd";
    JoinThree("system", "global", "policy");
    JoinThree(ty, "policy", domain);
    JoinThree("gw", "pool", "");
    JoinThree("outbound", "vs", "");
    JoinThree("outbound", "va", "");
    var m := cfg.master;
    assert m + "_" + (ty + "_" + "policy" + "_" + domain) == m + "_" + ty + "_policy_" + domain;
    assert m + "_" + ("system" + "_" + "global" + "_" + "policy") == m + "_system_global_policy";
    assert m + "_" + ("gw" + "_" + "pool") == m + "_gw_pool";
    assert m + "_" + ("outbound" + "_" + "vs") == m + "_outbound_vs";
    assert m + "_" + ("outbound" + "_" + "va") == m + "_outbound_va";
    assert m + "_" + "svc_deny_all_rule_list" == m + "_svc_deny_all_rule_list";
    assert Join(DENY_TOKENS, '_') == "svc_deny_all_rule_list" by { DenyTokensJoined(); }
  }

  lemma DenyTokensJoined()
    ensures Join(DENY_TOKENS, '_') == "svc_deny_all_rule_list"
  {
    assert DENY_TOKENS[1..] == ["deny", "all", "rule", "list"];
    assert ["deny", "all", "rule", "list"][1..] == ["all", "rule", "list"];
    JoinThree("all", "rule", "list");
  }

  /** Paths in full; an unnamed partition is Common, and no name gives no path. */
  lemma PathsInFull(cfg: Config, partition: string, namespace: string, attr: string)
    requires attr != ""
    ensures PartitionPath(partition, attr)
            == "/" + (if partition == "" then "Common" else partition) + "/Shared/" + attr
    ensures PartitionPath(partition, "") == ""
    ensures namespace == "" ==> NamespacePath(cfg, namespace, attr) == "/Common/Shared/" + attr
    ensures var t := TenantForNamespace(cfg, namespace);
            t.Some? && namespace != "" ==>
              NamespacePath(cfg, namespace, attr) == "/" + t.value.name + "/Shared/" + attr
  {
  }

  // ----- identities, and the decoder that proves the encoding unambiguous -----

  datatype Owner = Owner(ty: string, namespace: string, rule: string)

  datatype Id =
    | RuleListId(owner: Owner, exsvc: string)
    | DestAddressId(owner: Owner, exsvc: string)
    | DestPortId(owner: Owner, exsvc: string, key: string)
    | SrcAddressId(owner: Owner, endpoint: string)
    | PolicyId(ty: string, routeDomain: string)
    | DenyAllId
    | GatewayPoolId
    | VirtualServerId
    | VirtualAddressId
    | UnknownId
  {
    /** Rule objects carry the cluster's own name, infrastructure the master cluster's. */
    predicate OfRule() {
      RuleListId? || DestAddressId? || DestPortId? || SrcAddressId?
    }
  }

  /** Names in the style of section 2.1 of RFC 1123 hold none of the separators used by the encoding. */
  predicate PlainName(s: string) {
    '_' !in s && '/' !in s && '|' !in s
  }

  predicate ValidOwner(o: Owner) {
    && o.ty in {GLOBAL, NS, SVC}
    && PlainName(o.namespace) && PlainName(o.rule)
    && (o.ty == GLOBAL ==> o.namespace == "")
  }

  /** Port keys come last in the name, so they may hold underscores. */
  predicate ValidId(id: Id) {
    match id
    case RuleListId(o, x) => ValidOwner(o) && PlainName(x)
    case DestAddressId(o, x) => ValidOwner(o) && PlainName(x)
    case DestPortId(o, x, key) => ValidOwner(o) && PlainName(x) && '/' !in key
    case SrcAddressId(o, e) => ValidOwner(o) && PlainName(e) && o.ty != GLOBAL && (o.ty == NS ==> e == "")
    case PolicyId(ty, rd) => ty in {GLOBAL, NS, SVC} && '_' !in rd && (ty == GLOBAL ==> rd == "")
    case UnknownId => false
    case _ => true
  }

  /** Two clusters sharing a device keep apart when neither name holds an underscore. */
  predicate ClusterNames(cfg: Config) {
    && '/' !in cfg.cluster && '/' !in cfg.master
    && (cfg.cluster == cfg.master || ('_' !in cfg.cluster && '_' !in cfg.master))
  }

  function Attr(cfg: Config, id: Id): string {
    match id
    case RuleListId(o, x) => RuleListAttr(cfg.cluster, o.ty, o.namespace, o.rule, x)
    case DestAddressId(o, x) => DestAddressAttr(cfg.cluster, o.ty, o.namespace, o.rule, x)
    case DestPortId(o, x, key) => DestPortAttr(cfg.cluster, o.ty, o.namespace, o.rule, x, key)
    case SrcAddressId(o, e) => SrcAddressAttr(cfg.cluster, o.ty, o.namespace, o.rule, e)
    case PolicyId(ty, rd) => PolicyAttr(cfg, ty, rd)
    case DenyAllId => DenyAllAttr(cfg)
    case GatewayPoolId => GatewayPoolAttr(cfg)
    case VirtualServerId => VirtualServerAttr(cfg)
    case VirtualAddressId => VirtualAddressAttr(cfg)
    case UnknownId => ""
  }

  function OwnerTokens(o: Owner): seq<string> {
    if o.ty == GLOBAL then [o.ty, o.rule] else [o.ty, o.namespace, o.rule]
  }

  function TailParts(id: Id): seq<string>
    requires id.OfRule()
  {
    match id
    case RuleListId(_, x) => ["ext", x, "rule", "list"]
    case DestAddressId(_, x) => ["ext", x, "address"]
    case DestPortId(_, x, key) => ["ext", x, "ports"] + Split(key, '_')
    case SrcAddressId(o, e) => if o.ty == NS then ["src", "address"] else ["ep", e, "src", "address"]
  }

  function DecodeTail(o: Owner, rest: seq<string>): Id {
    if |rest| >= 3 && rest[0] == "ext" then
      if rest[2..] == ["rule", "list"] then RuleListId(o, rest[1])
      else if rest[2..] == ["address"] then DestAddressId(o, rest[1])
      else if rest[2] == "ports" && |rest| >= 4 then DestPortId(o, rest[1], Join(rest[3..], '_'))
      else UnknownId
    else if rest == ["src", "address"] && o.ty == NS then SrcAddressId(o, "")
    else if |rest| == 4 && rest[0] == "ep" && rest[2..] == ["src", "address"] && o.ty == SVC then
      SrcAddressId(o, rest[1])
    else UnknownId
  }

  function DecodeRule(tokens: seq<string>): Id {
    if |tokens| >= 2 && tokens[0] == GLOBAL then DecodeTail(Owner(GLOBAL, "", tokens[1]), tokens[2..])
    else if |tokens| >= 3 && tokens[0] in {NS, SVC} then DecodeTail(Owner(tokens[0], tokens[1], tokens[2]), tokens[3..])
    else UnknownId
  }

  function DecodeInfra(cfg: Config, tokens: seq<string>): Id {
    if tokens == ["system", "global", "policy"] then PolicyId(GLOBAL, "")
    else if |tokens| == 3 && tokens[0] in {NS, SVC} && tokens[1] == "policy" then PolicyId(tokens[0], tokens[2])
    else if tokens == DENY_TOKENS then DenyAllId
    else if tokens == ["gw", "pool"] then GatewayPoolId
    else if tokens == ["outbound", "vs"] then VirtualServerId
    else if tokens == ["outbound", "va"] then VirtualAddressId
    else UnknownId
  }

  /** What follows the cluster name and its underscore, in parts; empty when the prefix is another one. */
  function TokensAfter(cluster: string, attr: string): seq<string> {
    if HasPrefix(attr, Under(cluster, "")) then Split(attr[|cluster| + 1..], '_') else []
  }

  /** The identity a name stands for, or `UnknownId`. */
  function Decode(cfg: Config, attr: string): Id {
    var id := DecodeRule(TokensAfter(cfg.cluster, attr));
    if id.OfRule() then id else DecodeInfra(cfg, TokensAfter(cfg.master, attr))
  }

  lemma AfterUnder(cluster: string, body: string)
    ensures TokensAfter(cluster, Under(cluster, body)) == Split(body, '_')
  {
    assert Under(cluster, body)[..|cluster| + 1] == Under(cluster, "");
    assert Under(cluster, body)[|cluster| + 1..] == body;
  }

  lemma SplitUnder(a: string, b: string)
    requires '_' !in a
    ensures Split(Under(a, b), '_') == [a] + Split(b, '_')
  {
    SplitHead(a, b, '_');
  }

  lemma SplitNamespaced(ty: string, namespace: string, rest: string)
    requires '_' !in ty && '_' !in namespace
    ensures Split(Under(Under(ty, namespace), rest), '_') == [ty, namespace] + Split(rest, '_')
  {
    hide Split;
    assert Under(Under(ty, namespace), rest) == Under(ty, Under(namespace, rest));
    SplitTwo(ty, namespace, rest);
  }

  lemma SplitScope(o: Owner, body: string)
    requires ValidOwner(o)
    ensures Split(Under(TypeAndNamespace(o.ty, o.namespace), Under(o.rule, body)), '_')
            == OwnerTokens(o) + Split(body, '_')
  {
    hide Split, Under;
    SplitUnder(o.rule, body);
    if o.ty == GLOBAL {
      SplitUnder(o.ty, Under(o.rule, body));
    } else {
      SplitNamespaced(o.ty, o.namespace, Under(o.rule, body));
    }
  }

  lemma SplitTwo(a: string, x: string, tail: string)
    requires '_' !in a && '_' !in x
    ensures Split(Under(a, Under(x, tail)), '_') == [a, x] + Split(tail, '_')
  {
    SplitUnder(x, tail);
    SplitUnder(a, Under(x, tail));
  }

  /** What follows the rule's name in an attribute. */
  function TailText(id: Id): string
    requires id.OfRule()
  {
    match id
    case RuleListId(_, x) => Under("ext", Under(x, Under("rule", "list")))
    case DestAddressId(_, x) => Under("ext", Under(x, "address"))
    case DestPortId(_, x, key) => Under("ext", Under(x, Under("ports", key)))
    case SrcAddressId(o, e) =>
      if o.ty == NS then Under("src", "address") else Under("ep", Under(e, Under("src", "address")))
  }

  lemma SplitPair(a: string, b: string)
    requires '_' !in a && '_' !in b
    ensures Split(Under(a, b), '_') == [a, b]
  {
    SplitPlain(b, '_');
    SplitUnder(a, b);
  }

  lemma SplitTail(id: Id)
    requires ValidId(id) && id.OfRule()
    ensures Split(TailText(id), '_') == TailParts(id)
  {
    hide Split, Under;
    match id
    case RuleListId(_, x) =>
      SplitPair("rule", "list");
      SplitTwo("ext", x, Under("rule", "list"));
    case DestAddressId(_, x) =>
      SplitPlain("address", '_');
      SplitTwo("ext", x, "address");
    case DestPortId(_, x, key) =>
      SplitUnder("ports", key);
      SplitTwo("ext", x, Under("ports", key));
    case SrcAddressId(o, e) =>
      SplitPair("src", "address");
      if o.ty != NS {
        SplitTwo("ep", e, Under("src", "address"));
      }
  }

  /** A rule object's name without the cluster. */
  function RuleBody(id: Id): string
    requires id.OfRule()
  {
    Under(TypeAndNamespace(id.owner.ty, id.owner.namespace), Under(id.owner.rule, TailText(id)))
  }

  lemma RuleForm(cfg: Config, id: Id)
    requires ValidId(id) && id.OfRule()
    ensures Attr(cfg, id) == Under(cfg.cluster, RuleBody(id))
  {
  }

  lemma RuleTokens(cfg: Config, id: Id)
    requires ValidId(id) && id.OfRule()
    ensures Split(RuleBody(id), '_') == OwnerTokens(id.owner) + TailParts(id)
    ensures TokensAfter(cfg.cluster, Attr(cfg, id)) == OwnerTokens(id.owner) + TailParts(id)
  {
    RuleForm(cfg, id);
    SplitTail(id);
    SplitScope(id.owner, TailText(id));
    AfterUnder(cfg.cluster, RuleBody(id));
  }

  lemma UnderCancel(a: string, x: string, b: string, y: string)
    requires '_' !in a && '_' !in b && Under(a, x) == Under(b, y)
    ensures a == b
  {
    SplitUnder(a, x);
    SplitUnder(b, y);
    assert ([a] + Split(x, '_'))[0] == ([b] + Split(y, '_'))[0];
  }

  lemma AfterOther(cluster: string, other: string, body: string)
    requires '_' !in cluster && '_' !in other && cluster != other
    ensures TokensAfter(cluster, Under(other, body)) == []
  {
    var attr := Under(other, body);
    if HasPrefix(attr, Under(cluster, "")) {
      var rest := attr[|cluster| + 1..];
      assert attr == Under(cluster, rest);
      UnderCancel(cluster, rest, other, body);
    }
  }

  lemma DecodeRuleTokens(id: Id)
    requires ValidId(id) && id.OfRule()
    ensures DecodeRule(OwnerTokens(id.owner) + TailParts(id)) == id
  {
    hide Split;
    DecodeTailParts(id);
    hide DecodeTail, TailParts;
    var o := id.owner;
    var tokens := OwnerTokens(o) + TailParts(id);
    if o.ty == GLOBAL {
      assert tokens[..2] == OwnerTokens(o) && tokens[2..] == TailParts(id);
      assert tokens[0] == OwnerTokens(o)[0] && tokens[1] == OwnerTokens(o)[1];
    } else {
      assert tokens[..3] == OwnerTokens(o) && tokens[3..] == TailParts(id);
      assert tokens[0] == OwnerTokens(o)[0] && tokens[1] == OwnerTokens(o)[1] && tokens[2] == OwnerTokens(o)[2];
    }
  }

  lemma DecodeTailParts(id: Id)
    requires ValidId(id) && id.OfRule()
    ensures DecodeTail(id.owner, TailParts(id)) == id
  {
    hide Split, Join;
    if id.DestPortId? {
      assert TailParts(id)[3..] == Split(id.key, '_');
      assert Join(Split(id.key, '_'), '_') == id.key by { JoinSplit(id.key, '_'); }
    }
  }

  function InfraTokens(cfg: Config, id: Id): seq<string>
    requires !id.OfRule() && !id.UnknownId?
  {
    match id
    case PolicyId(ty, rd) =>
      if ty == GLOBAL then ["system", "global", "policy"]
      else [ty, "policy", if cfg.supportRouteDomain then rd else "rd"]
    case DenyAllId => DENY_TOKENS
    case GatewayPoolId => ["gw", "pool"]
    case VirtualServerId => ["outbound", "vs"]
    case VirtualAddressId => ["outbound", "va"]
  }

  lemma InfraForm(cfg: Config, id: Id)
    requires ValidId(id) && !id.OfRule()
    ensures Attr(cfg, id) == Under(cfg.master, Join(InfraTokens(cfg, id), '_'))
  {
  }

  lemma InfraAttr(cfg: Config, id: Id)
    requires ValidId(id) && !id.OfRule()
    ensures TokensAfter(cfg.master, Attr(cfg, id)) == InfraTokens(cfg, id)
  {
    InfraForm(cfg, id);
    SplitJoin(InfraTokens(cfg, id), '_');
    AfterUnder(cfg.master, Join(InfraTokens(cfg, id), '_'));
  }

  /** The identity behind a name; a policy's route domain is not part of it when route domains are off. */
  function Canonical(cfg: Config, id: Id): Id {
    if id.PolicyId? && id.ty != GLOBAL && !cfg.supportRouteDomain then id.(routeDomain := "rd") else id
  }

  lemma DecodeInfraTokens(cfg: Config, id: Id)
    requires ValidId(id) && !id.OfRule()
    ensures DecodeInfra(cfg, InfraTokens(cfg, id)) == Canonical(cfg, id)
    ensures !DecodeRule(InfraTokens(cfg, id)).OfRule()
  {
  }

  /** No two identities share a name: the decoder recovers every valid identity from its attribute. */
  lemma DecodeAttr(cfg: Config, id: Id)
    requires ClusterNames(cfg) && ValidId(id)
    ensures Decode(cfg, Attr(cfg, id)) == Canonical(cfg, id)
  {
    if id.OfRule() {
      RuleTokens(cfg, id);
      DecodeRuleTokens(id);
    } else {
      InfraForm(cfg, id);
      InfraAttr(cfg, id);
      DecodeInfraTokens(cfg, id);
      if cfg.cluster != cfg.master {
        AfterOther(cfg.cluster, cfg.master, Join(InfraTokens(cfg, id), '_'));
      }
    }
  }

  lemma AttrInjective(cfg: Config, id: Id, id': Id)
    requires ClusterNames(cfg) && ValidId(id) && ValidId(id')
    ensures Attr(cfg, id) == Attr(cfg, id') <==> Canonical(cfg, id) == Canonical(cfg, id')
  {
    DecodeAttr(cfg, id);
    DecodeAttr(cfg, id');
  }

  // ----- names and paths -----

  lemma UnderSlash(a: string, b: string)
    requires '/' !in a && '/' !in b
    ensures '/' !in Under(a, b) && '_' in Under(a, b)
  {
    assert Under(a, b)[|a|] == '_';
  }

  lemma {:induction false} JoinSlash(parts: seq<string>)
    requires |parts| >= 1 && forall i :: 0 <= i < |parts| ==> '/' !in parts[i]
    ensures '/' !in Join(parts, '_')
  {
    if |parts| > 1 {
      JoinSlash(parts[1..]);
    }
  }

  lemma TailSlash(id: Id)
    requires ValidId(id) && id.OfRule()
    ensures '/' !in TailText(id)
  {
    match id
    case RuleListId(_, x) =>
      UnderSlash(x, Under("rule", "list"));
      UnderSlash("ext", Under(x, Under("rule", "list")));
    case DestAddressId(_, x) =>
      UnderSlash("ext", Under(x, "address"));
    case DestPortId(_, x, key) =>
      UnderSlash(x, Under("ports", key));
      UnderSlash("ext", Under(x, Under("ports", key)));
    case SrcAddressId(_, e) =>
      UnderSlash(e, Under("src", "address"));
      UnderSlash("ep", Under(e, Under("src", "address")));
  }

  /** Every valid name holds an underscore and no slash. */
  lemma AttrShape(cfg: Config, id: Id)
    requires ClusterNames(cfg) && ValidId(id) && (id.PolicyId? ==> '/' !in id.routeDomain)
    ensures '_' in Attr(cfg, id) && '/' !in Attr(cfg, id)
  {
    if id.OfRule() {
      RuleForm(cfg, id);
      TailSlash(id);
      UnderSlash(id.owner.rule, TailText(id));
      UnderSlash(cfg.cluster, RuleBody(id));
    } else {
      InfraForm(cfg, id);
      JoinSlash(InfraTokens(cfg, id));
      UnderSlash(cfg.master, Join(InfraTokens(cfg, id), '_'));
    }
  }

  predicate PartitionName(partition: string) {
    partition != "" && '/' !in partition
  }

  /** A path splits back into the partition and the attribute it was made of. */
  lemma PathParts(partition: string, attr: string)
    requires PartitionName(partition) && attr != "" && '/' !in attr
    ensures Split(PartitionPath(partition, attr), '/') == ["", partition, "Shared", attr]
    ensures Origin(PartitionPath(partition, attr)) == attr
  {
    hide Split;
    var tail := "Shared" + ['/'] + attr;
    var rest := partition + ['/'] + tail;
    assert PartitionPath(partition, attr) == "" + ['/'] + rest;
    SplitPlain(attr, '/');
    SplitHead("Shared", attr, '/');
    SplitHead(partition, tail, '/');
    SplitHead("", rest, '/');
    assert [""] + ([partition] + (["Shared"] + [attr])) == ["", partition, "Shared", attr];
  }

  /** What a path decodes to holds no slash, so a name with one is not read back. */
  lemma PathDecodesIff(partition: string, attr: string)
    requires PartitionName(partition) && attr != ""
    ensures '/' !in Origin(PartitionPath(partition, attr))
    ensures Origin(PartitionPath(partition, attr)) == attr <==> '/' !in attr
  {
    if '/' !in attr {
      PathParts(partition, attr);
    }
  }

  lemma NoDenyTokens(o: Owner, x: string, n: nat)
    requires ValidOwner(o)
    requires n + 4 <= |OwnerTokens(o) + ["ext", x, "rule", "list"]|
    ensures (OwnerTokens(o) + ["ext", x, "rule", "list"])[n..n + 4] != DENY_TOKENS[..4]
  {
    var tokens := OwnerTokens(o) + ["ext", x, "rule", "list"];
    var at := |OwnerTokens(o)|;
    assert tokens[at] == "ext";
    if n <= at {
      assert tokens[n..n + 4][at - n] == "ext";
    }
  }

  lemma NoDenyInBody(id: Id, k: nat)
    requires ValidId(id) && id.RuleListId?
    ensures !OccursAt(['_'] + RuleBody(id), ['_'] + Join(DENY_TOKENS[..4], '_') + ['_'] + "list", k)
  {
    if OccursAt(['_'] + RuleBody(id), ['_'] + Join(DENY_TOKENS[..4], '_') + ['_'] + "list", k) {
      var n := OccurrenceParts(RuleBody(id), Join(DENY_TOKENS[..4], '_'), "list", '_', k);
      SplitJoin(DENY_TOKENS[..4], '_');
      SplitTail(id);
      SplitScope(id.owner, TailText(id));
      NoDenyTokens(id.owner, id.exsvc, n);
    }
  }

  lemma RuleListNotDeny(cfg: Config, id: Id)
    requires ClusterNames(cfg) && ValidId(id) && id.RuleListId?
    ensures !Contains(Attr(cfg, id), DenyAllAttr(cfg))
  {
    RuleForm(cfg, id);
    var text := Join(DENY_TOKENS, '_');
    forall k: nat
      ensures !OccursAt(['_'] + RuleBody(id), ['_'] + text, k)
    {
      NoDenyInBody(id, k);
      DenyText();
    }
    NotContained(cfg.cluster, RuleBody(id), cfg.master, text);
  }

  lemma DenyText()
    ensures ['_'] + Join(DENY_TOKENS, '_') == ['_'] + Join(DENY_TOKENS[..4], '_') + ['_'] + "list"
  {
    assert DENY_TOKENS[..4] + ["list"] == DENY_TOKENS;
    JoinLast(DENY_TOKENS[..4], "list", '_');
  }

  lemma NotContained(cluster: string, body: string, master: string, text: string)
    requires cluster == master || '_' !in cluster
    requires forall k: nat :: !OccursAt(['_'] + body, ['_'] + text, k)
    ensures !Contains(Under(cluster, body), Under(master, text))
  {
    var attr, deny := Under(cluster, body), Under(master, text);
    if Contains(attr, deny) {
      var i :| 0 <= i <= |attr| - |deny| && OccursAt(attr, deny, i);
      var k := OccursAfterPrefix(cluster, body, master, text, '_', i);
    }
  }

  lemma PathNotDeny(partition: string, attr: string, deny: string)
    requires '/' !in deny && '_' in deny && !Contains(partition, deny) && !Contains(attr, deny)
    requires partition != "" && attr != ""
    ensures !Contains(PartitionPath(partition, attr), deny)
  {
    var path := PartitionPath(partition, attr);
    var tail := "Shared" + ['/'] + attr;
    var rest := partition + ['/'] + tail;
    assert path == "" + ['/'] + rest;
    if Contains(path, deny) {
      ContainsOneSide("", rest, '/', deny);
      if Contains("", deny) {
        ContainsChars("", deny);
      } else {
        ContainsOneSide(partition, tail, '/', deny);
        ContainsOneSide("Shared", attr, '/', deny);
        ContainsChars("Shared", deny);
      }
    }
  }

  /** The merge recognises deny-all by substring: exactly the deny-all path has it, no rule-list path does. */
  lemma DenyPathRecognised(cfg: Config, partition: string, id: Id)
    requires ClusterNames(cfg) && ValidId(id) && (id.RuleListId? || id.DenyAllId?)
    requires PartitionName(partition) && !Contains(partition, DenyAllAttr(cfg))
    ensures Contains(PartitionPath(partition, Attr(cfg, id)), DenyAllAttr(cfg)) <==> id.DenyAllId?
  {
    AttrShape(cfg, id);
    AttrShape(cfg, DenyAllId);
    var attr, deny := Attr(cfg, id), DenyAllAttr(cfg);
    if id.DenyAllId? {
      var path := PartitionPath(partition, attr);
      assert OccursAt(path, deny, |path| - |deny|);
    } else {
      RuleListNotDeny(cfg, id);
      PathNotDeny(partition, attr, deny);
    }
  }
}
