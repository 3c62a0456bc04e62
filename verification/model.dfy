/** The objects of an AS3 declaration, the tenant configuration and the generated rules. */
module Model {

  datatype Option<+T> = None | Some(value: T)

  const COMMON := "Common"
  const CLASS_KEY := "class"
  const TEMPLATE_KEY := "template"

  /** Destination or source of a firewall rule: the lists it uses, by path. */
  datatype Endpoint = Endpoint(addressLists: seq<string>, portLists: seq<string>)

  /** `irule` is the empty string when the rule carries none. */
  datatype Rule = Rule(protocol: string, name: string, irule: string, destination: Endpoint, source: Endpoint,
                       action: string, logging: bool)

  /**
   * One property of an application.  `LogObject` stands for the two classes the sweep treats specially
   * (Security_Log_Profile and Log_Publisher); `Infra` for every class the engine only copies (pools, virtual
   * server, virtual address, log destinations), with an opaque body.
   */
  datatype Obj =
    | Scalar(text: string)
    | Policy(uses: seq<string>)
    | RuleList(rules: seq<Rule>)
    | AddressList(addresses: seq<string>, fqdns: seq<string>)
    | PortList(ports: seq<string>)
    | LogObject(logBody: string)
    | Infra(body: string)
  {
    predicate IsList() {
      AddressList? || PortList?
    }
  }

  /** The Shared application of one partition. */
  type App = map<string, Obj>

  datatype Tenant = Tenant(name: string, routeDomainId: int, routeDomainName: string, gateway: string,
                           virtualServer: string, virtualAddress: string, logObjects: App)

  /**
   * What the registry holds once initialised: the cluster names, the feature switches and the two tenant
   * indexes.  `isIp` stands for the address parsers of Go's `net` package.
   */
  datatype Config = Config(cluster: string, master: string, supportRouteDomain: bool, logProfile: bool,
                           partitions: map<string, Tenant>, namespaces: map<string, Tenant>, isIp: string -> bool)

  function TenantForPartition(cfg: Config, partition: string): Option<Tenant> {
    var p := if cfg.supportRouteDomain then partition else COMMON;
    if p in cfg.partitions then Some(cfg.partitions[p]) else None
  }

  function TenantForNamespace(cfg: Config, namespace: string): Option<Tenant> {
    if namespace !in cfg.namespaces then None
    else if !cfg.supportRouteDomain then TenantForPartition(cfg, COMMON)
    else Some(cfg.namespaces[namespace])
  }

  predicate NoDuplicates<T(==)>(s: seq<T>) {
    forall i, j :: 0 <= i < j < |s| ==> s[i] != s[j]
  }
}
