/** The tenant registry: two indexes, by partition and by namespace, built from one configuration file. */
module Tenants {
  import opened Model
  import opened Text
  import opened Naming
  import opened Engine

  /** `namespaces` is the comma-separated list of the configuration file, taken as it stands. */
  datatype TenantConf = TenantConf(tenant: Tenant, namespaces: string)

  datatype As3Config = As3Config(clusterName: string, masterCluster: string, supportRouteDomain: bool, logProfile: bool,
                                 tenants: seq<TenantConf>)

  /** White space in the sense of `strings.TrimSpace`. */
  predicate IsSpace(c: char) {
    c in {'\t', '\n', '\U{0B}', '\U{0C}', '\r', ' ', '\U{85}', '\U{A0}', '\U{1680}', '\U{2028}', '\U{2029}', '\U{202F}',
          '\U{205F}', '\U{3000}'}
    || '\U{2000}' <= c <= '\U{200A}'
  }

  predicate Blank(s: string) {
    forall i :: 0 <= i < |s| ==> IsSpace(s[i])
  }

  /** Common is always in route domain 0. */
  function Normalised(t: Tenant): Tenant {
    if t.name == COMMON then t.(routeDomainId := 0, routeDomainName := "0") else t
  }

  type Index = map<string, Tenant>

  function WithNamespaces(index: Index, names: seq<string>, t: Tenant): Index {
    if names == [] then index else WithNamespaces(index, names[..|names| - 1], t)[names[|names| - 1] := t]
  }

  function NamesOf(c: TenantConf): seq<string> {
    if Blank(c.namespaces) then [] else Split(c.namespaces, ',')
  }

  function ByPartition(index: Index, tenants: seq<TenantConf>): Index {
    if tenants == [] then index
    else
      var t := Normalised(tenants[|tenants| - 1].tenant);
      ByPartition(index, tenants[..|tenants| - 1])[t.name := t]
  }

  function ByNamespace(index: Index, tenants: seq<TenantConf>): Index {
    if tenants == [] then index
    else
      var c := tenants[|tenants| - 1];
      WithNamespaces(ByNamespace(index, tenants[..|tenants| - 1]), NamesOf(c), Normalised(c.tenant))
  }

  /** The process-wide registry; registering again updates it in place and forgets nothing. */
  class Registry {
    var cluster: string
    var master: string
    var supportRouteDomain: bool
    var logProfile: bool
    var partitions: Index
    var namespaces: Index

    constructor ()
      ensures partitions == map[] && namespaces == map[]
    {
      cluster, master, supportRouteDomain, logProfile := "", "", false, false;
      partitions, namespaces := map[], map[];
    }

    /** What the getters answer from. */
    function Snapshot(isIp: string -> bool): Config
      reads this
    {
      Config(cluster, master, supportRouteDomain, logProfile, partitions, namespaces, isIp)
    }

    method CacheForPartition(partition: string, t: Tenant)
      modifies `partitions
      ensures partitions == old(partitions)[partition := t]
    {
      partitions := partitions[partition := t];
    }

    method CacheForNamespaces(names: seq<string>, t: Tenant)
      modifies `namespaces
      ensures namespaces == WithNamespaces(old(namespaces), names, t)
    {
      for i := 0 to |names|
        invariant namespaces == WithNamespaces(old(namespaces), names[..i], t)
      {
        assert names[..i + 1][..i] == names[..i];
        namespaces := namespaces[names[i] := t];
      }
      assert names[..|names|] == names;
    }

    method InitTenantConfig(conf: As3Config)
      modifies this
      ensures cluster == conf.clusterName
      ensures master == if conf.masterCluster == "" then conf.clusterName else conf.masterCluster
      ensures supportRouteDomain == conf.supportRouteDomain && logProfile == conf.logProfile
      ensures partitions == ByPartition(old(partitions), conf.tenants)
      ensures namespaces == ByNamespace(old(namespaces), conf.tenants)
      ensures old(partitions) == map[] && old(namespaces) == map[] && UsableConf(conf) ==>
                forall isIp :: PathsServed(conf, Snapshot(isIp))
    {
      cluster := conf.clusterName;
      if conf.masterCluster == "" {
        master := conf.clusterName;
      } else {
        master := conf.masterCluster;
      }
      supportRouteDomain, logProfile := conf.supportRouteDomain, conf.logProfile;
      CacheTenants(conf.tenants);
      if old(partitions) == map[] && old(namespaces) == map[] && UsableConf(conf) {
        forall isIp { FirstRegistrationServes(conf, Snapshot(isIp)); }
      }
    }

    method CacheTenants(tenants: seq<TenantConf>)
      modifies `partitions, `namespaces
      ensures partitions == ByPartition(old(partitions), tenants)
      ensures namespaces == ByNamespace(old(namespaces), tenants)
    {
      hide Blank, Split, WithNamespaces;
      for i := 0 to |tenants|
        invariant partitions == ByPartition(old(partitions), tenants[..i])
        invariant namespaces == ByNamespace(old(namespaces), tenants[..i])
      {
        assert tenants[..i + 1][..i] == tenants[..i];
        var t := tenants[i].tenant;
        if t.name == COMMON {
          t := t.(routeDomainId := 0, routeDomainName := "0");
        }
        CacheForPartition(t.name, t);
        if Blank(tenants[i].namespaces) {
          NoNames(namespaces, t);
          continue;
        }
        CacheForNamespaces(Split(tenants[i].namespaces, ','), t);
      }
      assert tenants[..|tenants|] == tenants;
    }
  }

  lemma NoNames(index: Index, t: Tenant)
    ensures WithNamespaces(index, [], t) == index
  {
  }

  // ----- several entries of one name -----

  lemma {:induction false} NamesTaken(index: Index, names: seq<string>, t: Tenant, ns: string)
    ensures ns in names ==> ns in WithNamespaces(index, names, t) && WithNamespaces(index, names, t)[ns] == t
    ensures ns !in names ==> (ns in WithNamespaces(index, names, t) <==> ns in index)
    ensures ns !in names && ns in index ==> WithNamespaces(index, names, t)[ns] == index[ns]
  {
    if names != [] {
      var n := |names| - 1;
      NamesTaken(index, names[..n], t, ns);
      assert names == names[..n] + [names[n]];
    }
  }

  /** Of several tenants that list a namespace, the last one has it. */
  lemma {:induction false} LastListingHolds(index: Index, tenants: seq<TenantConf>, ns: string, i: nat)
    requires i < |tenants| && ns in NamesOf(tenants[i])
    requires forall j :: i < j < |tenants| ==> ns !in NamesOf(tenants[j])
    ensures ns in ByNamespace(index, tenants) && ByNamespace(index, tenants)[ns] == Normalised(tenants[i].tenant)
  {
    hide NamesOf;
    var n := |tenants| - 1;
    NamesTaken(ByNamespace(index, tenants[..n]), NamesOf(tenants[n]), Normalised(tenants[n].tenant), ns);
    if i < n {
      LastListingHolds(index, tenants[..n], ns, i);
    }
  }

  /** Of several tenants of one name, the last one is filed. */
  lemma {:induction false} LastTenantHolds(index: Index, tenants: seq<TenantConf>, i: nat)
    requires i < |tenants|
    requires forall j :: i < j < |tenants| ==> tenants[j].tenant.name != tenants[i].tenant.name
    ensures var p := tenants[i].tenant.name;
            p in ByPartition(index, tenants) && ByPartition(index, tenants)[p] == Normalised(tenants[i].tenant)
  {
    var n := |tenants| - 1;
    if i < n {
      LastTenantHolds(index, tenants[..n], i);
    }
  }

  // ----- agreement of the two indexes -----

  /** A namespace's tenant is the one its partition has. */
  predicate Agree(partitions: Index, namespaces: Index) {
    forall ns :: ns in namespaces ==> Found(partitions, namespaces[ns])
  }

  predicate Found(partitions: Index, t: Tenant) {
    t.name in partitions && partitions[t.name] == t
  }

  predicate UniqueNames(tenants: seq<TenantConf>) {
    forall i, j :: 0 <= i < j < |tenants| ==> tenants[i].tenant.name != tenants[j].tenant.name
  }

  predicate ListedBy(c: TenantConf, ns: string) {
    ns in NamesOf(c)
  }

  predicate Listed(tenants: seq<TenantConf>, ns: string) {
    exists i :: 0 <= i < |tenants| && ListedBy(tenants[i], ns)
  }

  lemma {:induction false} WithNamespacesAre(index: Index, names: seq<string>, t: Tenant)
    ensures forall ns :: ns in WithNamespaces(index, names, t) <==> ns in index || ns in names
    ensures forall ns :: ns in WithNamespaces(index, names, t) ==>
              WithNamespaces(index, names, t)[ns] == if ns in names then t else index[ns]
  {
    if names != [] {
      var n := |names| - 1;
      WithNamespacesAre(index, names[..n], t);
      assert names == names[..n] + [names[n]];
    }
  }

  /** After registration a partition has the last configuration of its name, or what it had before. */
  lemma {:induction false} PartitionsAre(index: Index, tenants: seq<TenantConf>)
    requires UniqueNames(tenants)
    ensures forall i :: 0 <= i < |tenants| ==> Found(ByPartition(index, tenants), Normalised(tenants[i].tenant))
    ensures forall p :: (forall i :: 0 <= i < |tenants| ==> tenants[i].tenant.name != p) ==>
              && (p in ByPartition(index, tenants) <==> p in index)
              && (p in index ==> ByPartition(index, tenants)[p] == index[p])
  {
    if tenants != [] {
      var n := |tenants| - 1;
      PartitionsAre(index, tenants[..n]);
      forall i | 0 <= i < |tenants|
        ensures Found(ByPartition(index, tenants), Normalised(tenants[i].tenant))
      {
        if i < n {
          assert tenants[..n][i] == tenants[i];
        }
      }
      forall p | forall i :: 0 <= i < |tenants| ==> tenants[i].tenant.name != p
        ensures p in ByPartition(index, tenants) <==> p in index
        ensures p in index ==> ByPartition(index, tenants)[p] == index[p]
      {
        assert forall i :: 0 <= i < n ==> tenants[..n][i] == tenants[i];
        assert tenants[n].tenant.name != p;
      }
    }
  }

  /** After registration a namespace has a configuration that lists it, or what it had before. */
  lemma {:induction false} NamespaceIs(index: Index, tenants: seq<TenantConf>, ns: string)
    ensures ns in ByNamespace(index, tenants) <==> ns in index || Listed(tenants, ns)
    ensures Listed(tenants, ns) ==> exists i :: 0 <= i < |tenants| && ListedBy(tenants[i], ns)
                                               && ByNamespace(index, tenants)[ns] == Normalised(tenants[i].tenant)
    ensures ns in index && !Listed(tenants, ns) ==> ByNamespace(index, tenants)[ns] == index[ns]
  {
    hide Normalised, NamesOf;
    if tenants != [] {
      var n := |tenants| - 1;
      var c := tenants[n];
      NamespaceIs(index, tenants[..n], ns);
      WithNamespacesAre(ByNamespace(index, tenants[..n]), NamesOf(c), Normalised(c.tenant));
      assert Listed(tenants, ns) <==> Listed(tenants[..n], ns) || ListedBy(c, ns) by {
        assert forall i :: 0 <= i < n ==> tenants[..n][i] == tenants[i];
      }
      if Listed(tenants[..n], ns) && !ListedBy(c, ns) {
        var i :| 0 <= i < n && ListedBy(tenants[..n][i], ns)
                 && ByNamespace(index, tenants[..n])[ns] == Normalised(tenants[..n][i].tenant);
        assert tenants[i] == tenants[..n][i];
      }
    }
  }

  /**
   * Registering a configuration with unique tenant names over a registry in agreement keeps the agreement
   * exactly when every namespace that is no longer listed still has its tenant's current configuration.
   */
  lemma RegisterAgrees(partitions: Index, namespaces: Index, tenants: seq<TenantConf>)
    requires Agree(partitions, namespaces) && UniqueNames(tenants)
    ensures Agree(ByPartition(partitions, tenants), ByNamespace(namespaces, tenants)) <==>
              forall ns, i :: ns in namespaces && !Listed(tenants, ns) && 0 <= i < |tenants|
                              && tenants[i].tenant.name == namespaces[ns].name ==>
                namespaces[ns] == Normalised(tenants[i].tenant)
  {
    var p, n := ByPartition(partitions, tenants), ByNamespace(namespaces, tenants);
    PartitionsAre(partitions, tenants);
    hide ByPartition, ByNamespace, Listed;
    forall ns | ns in namespaces && !Listed(tenants, ns)
      ensures ns in n && n[ns] == namespaces[ns]
      ensures (forall i :: 0 <= i < |tenants| && tenants[i].tenant.name == namespaces[ns].name ==>
                 namespaces[ns] == Normalised(tenants[i].tenant)) <==> Found(p, n[ns])
    {
      NamespaceIs(namespaces, tenants, ns);
      assert Found(partitions, namespaces[ns]);
      forall i | 0 <= i < |tenants| && tenants[i].tenant.name == namespaces[ns].name
        ensures namespaces[ns] == Normalised(tenants[i].tenant) <==> Found(p, n[ns])
      {
        assert Found(p, Normalised(tenants[i].tenant));
      }
    }
    forall ns | ns in n && Listed(tenants, ns)
      ensures Found(p, n[ns])
    {
      NamespaceIs(namespaces, tenants, ns);
    }
    forall ns | ns in n && !Listed(tenants, ns)
      ensures ns in namespaces
    {
      NamespaceIs(namespaces, tenants, ns);
    }
  }

  /** Every partition is filed under its own name. */
  predicate Named(partitions: Index) {
    forall p :: p in partitions ==> partitions[p].name == p
  }

  lemma {:induction false} RegisterNamed(index: Index, tenants: seq<TenantConf>)
    requires Named(index)
    ensures Named(ByPartition(index, tenants))
  {
    if tenants != [] {
      RegisterNamed(index, tenants[..|tenants| - 1]);
    }
  }

  /** A fresh registry agrees after its first configuration. */
  lemma InitAgrees(tenants: seq<TenantConf>)
    requires UniqueNames(tenants)
    ensures Agree(ByPartition(map[], tenants), ByNamespace(map[], tenants)) && Named(ByPartition(map[], tenants))
  {
    RegisterAgrees(map[], map[], tenants);
    RegisterNamed(map[], tenants);
  }

  // ----- paths and bodies -----

  /** Common is in route domain 0, named "0", whatever its configuration says; the others are as configured. */
  lemma CommonIsInDomainZero(t: Tenant)
    ensures Normalised(t).name == t.name
    ensures t.name == "Common" ==> Normalised(t).routeDomainId == 0 && Normalised(t).routeDomainName == "0"
    ensures t.name != "Common" ==> Normalised(t) == t
  {
  }

  /**
   * The route domains of a body: the posted partition's is that of the configuration filed for it, and is declared
   * exactly when route domains are supported and the partition is not Common.  Where Common stands beside the posted
   * partition it has no route domain and its default application.
   */
  lemma BodyRouteDomains(cfg: Config, partition: string, shared: Option<App>)
    requires Configured(cfg, partition)
    ensures partition in NewBody(cfg, partition, shared)
    ensures var decl := NewBody(cfg, partition, shared)[partition];
            && (decl.routeDomain.Some? <==> cfg.supportRouteDomain && partition != "Common")
            && (decl.routeDomain.Some? ==>
                  partition in cfg.partitions && decl.routeDomain.value == cfg.partitions[partition].routeDomainId)
    ensures var body := NewBody(cfg, partition, shared);
            "Common" in body && partition != "Common" ==>
              body["Common"].routeDomain == None
              && body["Common"].shared == Some(DefaultApp(cfg, COMMON, cfg.partitions[COMMON]))
  {
    hide DefaultApp;
  }

  /** The body declares the posted partition, with its application, and no other exactly in these cases. */
  lemma BodyTenants(cfg: Config, partition: string, shared: Option<App>)
    requires Configured(cfg, partition)
    ensures partition in NewBody(cfg, partition, shared) && NewBody(cfg, partition, shared)[partition].shared == shared
    ensures NewBody(cfg, partition, shared).Keys == {partition} <==> cfg.supportRouteDomain || partition == COMMON
  {
    var body := NewBody(cfg, partition, shared);
    if !cfg.supportRouteDomain && partition != COMMON {
      assert COMMON in body;
    }
  }

  /**
   * In a registry in agreement every path made for a namespace's rule names the partition of that namespace's
   * tenant, splits back into its attribute, and lies in the only tenant that the tenant's post declares.
   */
  lemma PathsResolve(cfg: Config, namespace: string, attr: string, shared: Option<App>)
    requires Agree(cfg.partitions, cfg.namespaces) && Named(cfg.partitions)
    requires namespace != "" && TenantForNamespace(cfg, namespace).Some? && COMMON in cfg.partitions
    requires PartitionName(TenantForNamespace(cfg, namespace).value.name) && attr != "" && '/' !in attr
    ensures var t := TenantForNamespace(cfg, namespace).value;
            && TenantForPartition(cfg, t.name) == Some(t)
            && Split(NamespacePath(cfg, namespace, attr), '/') == ["", t.name, "Shared", attr]
            && Origin(NamespacePath(cfg, namespace, attr)) == attr
            && NewBody(cfg, t.name, shared).Keys == {t.name}
            && NewBody(cfg, t.name, shared)[t.name].shared == shared
  {
    var t := TenantForNamespace(cfg, namespace).value;
    assert cfg.supportRouteDomain ==> Found(cfg.partitions, cfg.namespaces[namespace]);
    PathParts(t.name, attr);
    assert NamespacePath(cfg, namespace, attr) == PartitionPath(t.name, attr);
    BodyTenants(cfg, t.name, shared);
  }

  // ----- from the configuration file to the paths -----

  /** What a configuration file must give: tenants under distinct, usable names, Common among them. */
  predicate UsableConf(conf: As3Config) {
    && UniqueNames(conf.tenants)
    && (forall i :: 0 <= i < |conf.tenants| ==> PartitionName(conf.tenants[i].tenant.name))
    && (exists i :: 0 <= i < |conf.tenants| && conf.tenants[i].tenant.name == COMMON)
  }

  /** The partition that a namespace's rules are posted to, by the configuration file. */
  predicate Serves(conf: As3Config, ns: string, partition: string) {
    if conf.supportRouteDomain then
      exists i :: 0 <= i < |conf.tenants| && ListedBy(conf.tenants[i], ns) && conf.tenants[i].tenant.name == partition
    else partition == COMMON
  }

  /** The namespace's path resolves inside the one tenant that its post declares. */
  predicate Served(conf: As3Config, cfg: Config, ns: string, attr: string, shared: Option<App>) {
    && TenantForNamespace(cfg, ns).Some?
    && var t := TenantForNamespace(cfg, ns).value;
       && Serves(conf, ns, t.name)
       && TenantForPartition(cfg, t.name) == Some(t)
       && (attr != "" && '/' !in attr ==>
             && Split(NamespacePath(cfg, ns, attr), '/') == ["", t.name, "Shared", attr]
             && Origin(NamespacePath(cfg, ns, attr)) == attr)
       && Configured(cfg, t.name)
       && NewBody(cfg, t.name, shared).Keys == {t.name}
       && NewBody(cfg, t.name, shared)[t.name].shared == shared
       && DeclaredDomain(conf, t.name, NewBody(cfg, t.name, shared)[t.name].routeDomain)
  }

  /** The route domain that the configuration file gives a tenant; Common, and all without the feature, have none. */
  predicate DeclaredDomain(conf: As3Config, partition: string, domain: Option<int>) {
    if conf.supportRouteDomain && partition != COMMON then
      exists i :: 0 <= i < |conf.tenants| && conf.tenants[i].tenant.name == partition
                  && domain == Some(conf.tenants[i].tenant.routeDomainId)
    else domain == None
  }

  ghost predicate PathsServed(conf: As3Config, cfg: Config) {
    forall ns, attr, shared :: ns != "" && Listed(conf.tenants, ns) ==> Served(conf, cfg, ns, attr, shared)
  }

  lemma ListedHasTenant(conf: As3Config, cfg: Config, ns: string)
    requires UsableConf(conf) && cfg.supportRouteDomain == conf.supportRouteDomain
    requires cfg.partitions == ByPartition(map[], conf.tenants) && cfg.namespaces == ByNamespace(map[], conf.tenants)
    requires Listed(conf.tenants, ns)
    ensures COMMON in cfg.partitions && TenantForNamespace(cfg, ns).Some?
    ensures var t := TenantForNamespace(cfg, ns).value; PartitionName(t.name) && Serves(conf, ns, t.name)
  {
    hide ByPartition, ByNamespace, NamesOf, UniqueNames;
    PartitionsAre(map[], conf.tenants);
    NamespaceIs(map[], conf.tenants, ns);
    var c :| 0 <= c < |conf.tenants| && conf.tenants[c].tenant.name == COMMON;
    assert Found(cfg.partitions, Normalised(conf.tenants[c].tenant));
    var i :| 0 <= i < |conf.tenants| && ListedBy(conf.tenants[i], ns)
             && cfg.namespaces[ns] == Normalised(conf.tenants[i].tenant);
    assert Found(cfg.partitions, Normalised(conf.tenants[i].tenant));
  }

  lemma {:induction false} FiledPartitions(tenants: seq<TenantConf>, p: string) returns (i: nat)
    requires p in ByPartition(map[], tenants)
    ensures i < |tenants| && tenants[i].tenant.name == p
    ensures ByPartition(map[], tenants)[p] == Normalised(tenants[i].tenant)
  {
    var n := |tenants| - 1;
    if tenants[n].tenant.name == p {
      i := n;
    } else {
      i := FiledPartitions(tenants[..n], p);
    }
  }

  lemma DomainIsDeclared(conf: As3Config, cfg: Config, t: Tenant, shared: Option<App>)
    requires cfg.supportRouteDomain == conf.supportRouteDomain && cfg.partitions == ByPartition(map[], conf.tenants)
    requires Configured(cfg, t.name)
    ensures t.name in NewBody(cfg, t.name, shared)
    ensures DeclaredDomain(conf, t.name, NewBody(cfg, t.name, shared)[t.name].routeDomain)
  {
    hide NewBody, Configured, ByPartition, TenantForPartition;
    BodyRouteDomains(cfg, t.name, shared);
    if conf.supportRouteDomain && t.name != COMMON {
      var i := FiledPartitions(conf.tenants, t.name);
      CommonIsInDomainZero(conf.tenants[i].tenant);
    }
  }

  lemma ListedIsServed(conf: As3Config, cfg: Config, ns: string, attr: string, shared: Option<App>)
    requires UsableConf(conf) && cfg.supportRouteDomain == conf.supportRouteDomain
    requires cfg.partitions == ByPartition(map[], conf.tenants) && cfg.namespaces == ByNamespace(map[], conf.tenants)
    requires ns != "" && Listed(conf.tenants, ns)
    ensures Served(conf, cfg, ns, attr, shared)
  {
    hide Split, Origin, NewBody, ByPartition, ByNamespace, NamespacePath, Agree, Named, UniqueNames, Listed, Serves,
         PartitionName, TenantForNamespace;
    InitAgrees(conf.tenants);
    ListedHasTenant(conf, cfg, ns);
    PathsResolve(cfg, ns, if attr != "" && '/' !in attr then attr else "a", shared);
    DomainIsDeclared(conf, cfg, TenantForNamespace(cfg, ns).value, shared);
  }

  /** The first registration leaves a registry in which every listed namespace's paths resolve. */
  lemma FirstRegistrationServes(conf: As3Config, cfg: Config)
    requires UsableConf(conf) && cfg.supportRouteDomain == conf.supportRouteDomain
    requires cfg.partitions == ByPartition(map[], conf.tenants) && cfg.namespaces == ByNamespace(map[], conf.tenants)
    ensures PathsServed(conf, cfg)
  {
    hide Served, UsableConf, ByPartition, ByNamespace;
    forall ns, attr, shared | ns != "" && Listed(conf.tenants, ns)
      ensures Served(conf, cfg, ns, attr, shared)
    {
      ListedIsServed(conf, cfg, ns, attr, shared);
    }
  }
}
