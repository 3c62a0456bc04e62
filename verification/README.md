# The egress controller's AS3 engine, verified

The controller turns Kubernetes egress rules into an AS3 declaration for a BIG-IP: firewall address lists, port lists,
rule lists and policies that refer to one another by `/partition/Shared/attribute` paths. Each request produces a small
declaration, the *delta*. Under a lock the delta is laid over, or taken out of, the application read from the device;
lists that no rule refers to are swept; the result is posted if something changed. This project models that engine in
Dafny, loop by loop, and proves what it keeps over every run.

The main results:

* every state that a run of requests can reach from an empty partition is well formed: no reference dangles, no list
  is garbage, each policy lists exactly the rule lists of its type once, and deny-all is the last entry of the service
  policy (`Runs.RunIsGood`, `Guarantees.RuleRunsAreGood`); a delete keeps this if and only if its delta covers the lists
  it removes (`States.MergeWellFormed`); for rules, if and only if it takes along every rule list that uses the source
  list of a deleted rule (`Guarantees.DeleteOfRules`), and `Scenario.PartialDelete` is a concrete delete that does not;
* everything the generator makes is well formed, from the custom resources on (`Deltas.DeltaWellFormed`,
  `Intake.DeltaFor`), and holds exactly the rules, services and sources that the resources name (`Selection`);
* after a sync a rule's entry decides exactly the packets that the rule asks for if and only if the rule has a source
  to restrict it to, or is for the whole cluster, and its ports are kept (`Intent.SyncEnforces`,
  `Request.Client.As3Request`); the state before the sync need not be well formed. Ports are kept if and only if every
  entry names a protocol, where limited ports of one name share their protocol and none is named like a protocol
  (`Intent.KeptByNames`);
* in every state of every run of adds and covered deletes, from an empty partition or from the default application that
  start-up posts, each policy decides every packet by the first listed rule that asks for it, and the service policy
  drops what none asks for, where the rules in force are enforceable (`Policies.RunDecides`); each add must carry the
  users of the lists that it changes (`Policies.Complete`);
* what a sync leaves on the device is what the resources say, property by property: addresses and domain names apart,
  one rule for each port group with the rule's action, logging and name, and every port under its protocol with its
  bandwidth limit and no other (`Contents`); policies list a namespace's rules in the order of the resources
  (`Order.OrderFollowsResources`);
* an add mends an application with dangling references if and only if it replaces every rule list that dangles or
  supplies the missing list (`States.AddRestores`);
* deleting what was added restores the application exactly, whatever orders the two requests happened to take
  and whatever has changed in the rules but their names (`Resync.RulesRoundTrip`), independent requests commute, and adding or deleting rules changes the fate of no other
  packets (`FirstMatch.UpdateKeepsDecisions`, `FirstMatch.DeleteKeepsDecisions`);
* a repeated request is left unposted if and only if it visits the port groups of every external service in the same
  order (`Resync.SecondSyncUnposted`), which is certain only when every service has one port group
  (`Resync.NeverPostedAgain`);
* any interleaving of workers has the effect of one request after the other (`Request.Serializable`), and as
  long as saves succeed, recorded updates reach the disk within a bounded time (`Frequency.BoundedStaleness`).

## Layout

| file | contents |
|---|---|
| `text.dfy`, `model.dfy` | string functions of Go's `strings`; AS3 objects, tenants, configuration |
| `naming.dfy` | attribute names and paths, and a decoder that proves them unambiguous |
| `policymerge.dfy` | the in-place merge of a policy's ordered entries |
| `engine.dfy`, `laws.dfy` | overlay, sweep, change detection, request body; their laws for any source |
| `states.dfy`, `runs.dfy` | well-formed applications; runs of requests |
| `exchange.dfy`, `firstmatch.dfy` | round trip and commutation; first-match meaning of policies |
| `ports.dfy`, `generate.dfy`, `selection.dfy` | port grouping; from custom resources to a delta; what is selected |
| `deltas.dfy`, `guarantees.dfy`, `meaning.dfy`, `intake.dfy` | what generated deltas satisfy, up to whole rules |
| `resync.dfy` | two requests for the same rules |
| `intent.dfy`, `policies.dfy` | what a rule asks for, and when the device enforces it; whole policies over runs |
| `contents.dfy`, `order.dfy` | what the objects on the device hold, and in which order policies list them |
| `scenario.dfy` | concrete clusters: an incomplete delete and its repair, a service rule without endpoint addresses, a port without a protocol, two protocols under one port name, a slash in a port name, a sync that is posted again, protocols in capital letters |
| `tenants.dfy` | the two tenant indexes and the posted body |
| `request.dfy`, `frequency.dfy` | the locked request, many workers; the buffer of unsaved updates |

Code that updates maps and slices in loops is a method over a class (`Engine.Application`, `Tenants.Registry`,
`Request.Client`, `Frequency.SyncFrequency`) or over a local sequence, proved equal to a specification function; the
theorems are about those functions. A loop over a Go map takes its keys in any order: the methods pick an arbitrary
remaining key. Where the order shows in the result (ports inside a rule list, groups inside a policy) it is a value
(`Item.order`, the group order of `Deltas.DeltaWellFormed`) over which the theorems about one delta quantify. Requests
generate their deltas anew, each in its own orders; `Resync` is about two deltas of the same rules with all orders free.
Theorems that compare two sequences of requests, such as commutation, take the same added delta in both; the deletes of
`Resync.FreeDeleteCommutes` are free.

## Assumptions

* The configuration does not change during a run, and the clusters of one device are one cluster, or two whose names
  hold no underscore (`Naming.ClusterNames`).
* Namespaces, rules, services and external services are named in the style of section 2.1 of RFC 1123: no underscore,
  slash or bar. The naming scheme relies on it without checking. Names and protocols of ports, which the custom resource
  does not restrict, hold no slash (`Intake.GoodPort`). Objects of a kind are unique by namespace and name, and
  a rule lists each external service once (`Intake.GoodResources`).
* A tenant's name holds no slash and not deny-all's name; its route domain's name holds no underscore and no slash; the
  keys of its log template look like no generated name (`States.ValidTenant`).
* Objects are typed: JSON decoding and deep equality are datatypes and their equality. An object without a class cannot
  be expressed; the code panics on one.
* Where the code dereferences a tenant configuration without looking, or panics on a missing one, the model has a
  precondition (`Engine.Configured`, `Generate.Resolves`).
* A post replaces the application of one partition, or fails and changes nothing. Deleting from a partition that has
  no Shared application posts a null one, which reads back as none.
* Go's address parsers are one predicate, `Config.isIp`.
* That a policy's entries are consulted in order, and that the first matching rule decides, is a reading of the comment
  on keeping deny-all at the end (`pkg/as3/utils.go:1011`). A list holds a value when one of its elements matches it
  (`Intent.ByElement`); how an element matches, and elsewhere how a list holds a value at all, is left open.

Things the code does that its reader may not expect:

* new entries of a service policy are placed newest first, the others after it in order, because deny-all changes places
  with the last appended entry (`PolicyMerge.AddShape`);
* deleting one external service of a namespace or service rule removes the source list that the rule's other rule lists
  still use (`Guarantees.DeleteOfRules`, `Scenario.PartialDelete`); synchronising the rule again mends it
  (`Scenario.RepairedBySync`);
* a rule without source addresses, such as a service rule whose endpoints have no address yet, accepts packets from
  everywhere (`Intent.SaidIffEnforceable`, `Scenario.NoAddressOpensSource`);
* a port without a protocol, which the custom resource permits, opens every port and protocol
  (`Intent.SaidIffEnforceable`, `Scenario.NoProtocolOpensPorts`);
* two bandwidth-limited ports of one name share a group, and the later limit and protocol replace the earlier ones, so
  that the earlier port is no longer let through under its own protocol (`Ports.OneLabelIffNamesApart`,
  `Ports.OneProtocolIffNamesShare`, `Ports.SharedNameLosesLimit`, `Scenario.MixedProtocolsLosePort`); a port entry
  without a port is ignored;
* a bandwidth-limited port whose name holds a slash gives its port list a name that no path is read back as, so every
  request sweeps that list (`Naming.PathDecodesIff`, `EngineLaws.SlashedListIsSwept`, `Scenario.SlashedPortListIsSwept`);
* synchronising the same rules again may post again: the rules inside a rule list follow Go's map order, so a service
  with two port groups can differ from what is on the device (`Resync.NeverPostedAgain`, `Scenario.PostedAgain`);
* a rule list without rules on the device makes the sweep panic, because its encoding lacks the property that the sweep
  reads (`Engine.Application.Mark`); no well-formed state has one (`States.OrderlyDoesNotPanic`).

## Model

| member | source | states |
|---|---|---|
| Naming.DecodeAttr | pkg/as3/utils.go:682-742 | one decoder recovers every identity (rule list, destination, ports, source, policy, deny-all, infrastructure) from its name |
| Naming.AttrInjective | pkg/as3/utils.go:682-742 | two names are equal exactly when the identities are; the families never collide |
| Naming.AttrShape | pkg/as3/utils.go:682-742 | every name holds an underscore and no slash, so it survives as one part of a path |
| Naming.RuleNamesInFull | pkg/as3/utils.go:682-715 | the names of a rule's objects, written out for every type |
| Naming.FixedNamesInFull | pkg/as3/utils.go:717-742 | the names of policies, deny-all and infrastructure, written out |
| Naming.PathsInFull | pkg/as3/utils.go:744-770 | paths written out, the Common fallback and the empty attribute included |
| Naming.PathParts | pkg/as3/utils.go:744-778 | a path splits into partition, Shared and attribute, and the sweep's decoder gives back the attribute |
| Naming.PathDecodesIff | pkg/as3/utils.go:744-778 | a path is read back as its attribute if and only if the attribute holds no slash |
| Naming.DenyPathRecognised | pkg/as3/utils.go:997-1020 | the substring test for deny-all is true of the deny-all path and of no rule list's path |
| PolicyMerge.MergePolicy | pkg/as3/utils.go:973-1022 | the element-by-element merge and the final scan compute the specified list of entries |
| PolicyMerge.MergeEntry | pkg/as3/utils.go:991-1010 | one delta entry removes its first occurrence, or is appended when missing; deny-all is never removed |
| PolicyMerge.PutDenyLast | pkg/as3/utils.go:1011-1020 | the last deny-all entry changes places with the final entry |
| PolicyMerge.FreshMembers | pkg/as3/utils.go:991-1010 | what an add appends is the delta less the source, each entry once |
| PolicyMerge.FreshInOrder | pkg/as3/utils.go:991-1010 | appended entries keep the order in which the delta first names them |
| PolicyMerge.WithoutInOrder | pkg/as3/utils.go:991-1010 | what a delete leaves keeps its order |
| PolicyMerge.RemoveEachIsWithout | pkg/as3/utils.go:991-1010 | on a duplicate-free source the removals are an order-preserving filter |
| PolicyMerge.AddShape | pkg/as3/utils.go:991-1021 | S then deny-all, with new x1..xk, becomes S, xk, x1..x(k-1), deny-all |
| PolicyMerge.AddPlain | pkg/as3/utils.go:991-1021 | without deny-all the new entries are appended in order |
| PolicyMerge.DeleteShape | pkg/as3/utils.go:991-1021 | a delete leaves the source without the delta's entries other than deny-all, order kept |
| PolicyMerge.MergeFacts | pkg/as3/utils.go:991-1021 | exact membership after either merge, no duplicates, deny-all last if present |
| PolicyMerge.AddFixedPoint | pkg/as3/utils.go:991-1021 | adding the same entries twice is adding them once, for any source |
| PolicyMerge.AddForm | pkg/as3/utils.go:991-1021 | with and without deny-all: old entries, new entries, deny-all |
| PolicyMerge.DeleteForm | pkg/as3/utils.go:991-1021 | a delete filters the entries before deny-all and keeps the policy's shape |
| PolicyMerge.AddThenDelete | pkg/as3/utils.go:991-1021 | deleting fresh entries after adding them restores the list, order included |
| PolicyMerge.AddDeleteCommute | pkg/as3/utils.go:991-1021 | an add and a delete of different entries commute, order included |
| PolicyMerge.AddsCommute | pkg/as3/utils.go:991-1021 | two adds give the same entries in either order |
| Engine.FullResource | pkg/as3/utils.go:921-971 | for every order of the delta's keys the request is nothing, or the body with the pointwise merged and swept application, or a panic of the sweep |
| Engine.Application.MergeKey | pkg/as3/utils.go:938-965 | one delta key: its new value by the branches of the loop, all other keys untouched |
| Engine.Application.ClearUpUnreferenced | pkg/as3/utils.go:1024-1076 | leaves exactly the objects that are no unreferenced list and no disabled log object; panics exactly on a rule list without rules |
| Engine.Application.DeleteUnreferenced | pkg/as3/utils.go:1071-1075 | the lists without a flag go, nothing else |
| Engine.Application.Mark | pkg/as3/utils.go:1025-1070 | panics exactly when some rule list has no rules; else the flags are exactly the references of all rule lists and the keys of all lists, in any order of keys |
| Engine.Application.MarkKey | pkg/as3/utils.go:1028-1069 | one object of the first loop: its flags, the panic, or the end of a disabled log object |
| Engine.CollectRefs | pkg/as3/utils.go:1038-1062 | the flags grow by the destination and source references of every rule |
| Engine.CollectOrigins | pkg/as3/utils.go:1041-1046 | the flags grow by the decoded attributes of one list of paths |
| Engine.FindDiff | pkg/as3/utils.go:1078-1096 | true exactly when a new key is missing from the old map or has another value there; lost keys do not show |
| EngineLaws.SweepKeepsReferences | pkg/as3/utils.go:1024-1076 | sweeping changes no reference |
| EngineLaws.SweepIsExact | pkg/as3/utils.go:1024-1076 | after a sweep no list is garbage, and a second sweep does nothing |
| EngineLaws.SlashedListIsSwept | pkg/as3/utils.go:1024-1076 | a list whose name holds a slash is swept, whatever refers to it |
| EngineLaws.DeleteFrame | pkg/as3/utils.go:938-966 | a delete takes no more than its delta, unreferenced lists and disabled log objects, and never a policy or protected object |
| EngineLaws.SkippedPostIsSound | pkg/as3/utils.go:966-970 | when no post is made the source already holds every object and policy entry of the delta |
| EngineLaws.DeltaIsKept | pkg/as3/utils.go:938-966 | an add sweeps no key of a self-contained delta and stores its values |
| EngineLaws.AddStores | pkg/as3/utils.go:938-970 | after an add the partition holds the delta's objects, posted or not |
| EngineLaws.AddLists | pkg/as3/utils.go:951-970 | after an add the policies list the delta's entries, posted or not |
| EngineLaws.LogObjectsFollowProfile | pkg/as3/utils.go:1065-1068 | log objects stay with the logging profile and go without it |
| EngineLaws.ScalarsStay | pkg/as3/utils.go:939-943 | scalars of the application are neither overwritten nor deleted |
| EngineLaws.AddIsStable | pkg/as3/utils.go:921-971 | a second add of the delta leaves each of its keys as it is |
| EngineLaws.AddIsIdempotent | pkg/as3/utils.go:921-971 | adding the same delta to its own result is answered without a post |
| EngineLaws.SecondAddExact | pkg/as3/utils.go:921-971 | of two deltas of one shape the second is left unposted if and only if both ask for the same objects, for any source of agreeing kinds |
| EngineLaws.DeleteByShape | pkg/as3/utils.go:938-1022 | a delete depends on its delta's keys, kinds and policy entries alone, not on values or order |
| States.AddExact | pkg/as3/utils.go:921-971 | adds keep "the lists held are the lists referred to", both directions |
| States.AddNoDangling | pkg/as3/utils.go:921-971 | after an add every referenced list is there, with the delta's value or the source's |
| States.DeleteNoDangling | pkg/as3/utils.go:938-966 | after a covered delete every referenced list is there, unchanged |
| States.UncoveredDangles | pkg/as3/utils.go:938-966 | a rule list outside the delta that uses one of its lists is left dangling |
| States.DeleteExactIffCovers | pkg/as3/utils.go:938-966 | a delete keeps references exact if and only if its delta covers the lists it removes |
| States.EntryIffRuleList | pkg/as3/utils.go:744-778 | the path of a rule list is an entry exactly when the rule list is an object |
| States.MergedEntry | pkg/as3/utils.go:938-965 | every entry of a merged policy reads back as a rule list of its type that the application holds |
| States.MergedEntryBack | pkg/as3/utils.go:938-965 | every rule list the merged application holds is an entry of its policy |
| States.MergedPolicyExact | pkg/as3/utils.go:938-1022 | both kinds of request keep entries and rule lists in one-to-one correspondence, deny-all last |
| States.AddExactIffRepairs | pkg/as3/utils.go:938-966 | an add to a source with dangling references is exact if and only if it replaces every dangling user or supplies every missing list |
| States.AddRestores | pkg/as3/utils.go:921-1076 | the same for well-formedness as a whole |
| States.MergeOrderly | pkg/as3/utils.go:921-1022 | both kinds of request keep everything but references in order, covered or not |
| States.OrderlyDoesNotPanic | pkg/as3/utils.go:1038 | no request panics where every rule list has rules, which well-formed states guarantee |
| States.MergeWellFormed | pkg/as3/utils.go:921-1076 | the merged application is well formed if and only if the request is an add or a covered delete |
| Runs.DefaultWellFormed | pkg/as3/utils.go:520-558 | the application of a new partition is well formed |
| Runs.DefaultScalars | pkg/as3/utils.go:520-556 | the default application declares its class and template, and its one rule drops everything |
| Runs.AddAlwaysMerges | pkg/as3/utils.go:966-970 | from a well-formed state the device ends with the merged application, posted or not |
| Runs.NextIsGood | pkg/as3/utils.go:921-971 | one request leads to a good state if and only if it is admissible |
| Runs.RunIsGood | pkg/as3/utils.go:921-1076 | every state of every admissible run is well formed |
| Runs.ReachableStates | pkg/as3/utils.go:921-1076 | the same spelled out: references both ways, entries both ways, no duplicates, deny-all only and always last |
| Runs.DenyOnlyLast | pkg/as3/utils.go:1011-1020 | deny-all is recognised in the service policy's last entry and nowhere else |
| Exchange.FreshAddKept | pkg/as3/utils.go:921-966 | an add of fresh rules sweeps nothing |
| Exchange.AddDeleteRoundTrip | pkg/as3/utils.go:921-1076 | adding a delta with fresh rules and deleting it gives back the application, order included |
| Exchange.CoversAfterAdd | pkg/as3/utils.go:938-966 | independent adds do not spoil the coverage of a delete |
| Exchange.AddDeleteCommutes | pkg/as3/utils.go:921-1076 | an add and an independent covered delete commute exactly |
| Exchange.AddsCommuteUpToOrder | pkg/as3/utils.go:921-1076 | two adds commute up to the order of policy entries |
| FirstMatch.ServicePolicyDecides | pkg/as3/utils.go:536-558 | the service policy decides every packet: deny-all drops what no other entry decides |
| FirstMatch.VerdictAfterAdd | pkg/as3/utils.go:938-965 | old entries decide as before an add of fresh rules |
| FirstMatch.AddKeepsDecisions | pkg/as3/utils.go:991-1021 | new rule lists change a decision only for packets that reached deny-all or matched nothing, and then decide it themselves |
| FirstMatch.VerdictUntouched | pkg/as3/utils.go:938-965 | an entry whose rule list and lists an add leaves alone decides as before |
| FirstMatch.UpdateKeepsDecisions | pkg/as3/utils.go:938-1021 | an add of new or known rules changes a decision only where an entry decides, before or after, that it names or whose lists it changes |
| FirstMatch.VerdictAfterDelete | pkg/as3/utils.go:938-965 | surviving entries decide as before a covered delete |
| FirstMatch.DeleteKeepsDecisions | pkg/as3/utils.go:991-1021 | a covered delete changes a decision only for packets that a deleted rule list decided |
| Ports.DealPorts | pkg/as3/utils.go:643-671 | the grouping loop computes the specified groups |
| Ports.LowerIs | pkg/as3/utils.go:646 | lower-casing yields the one spelling in which each capital letter A to Z is 32 places on and all else is kept |
| Ports.LowerIffSameButCase | pkg/as3/utils.go:646 | two spellings are lower-cased to one if and only if they differ in case only |
| Ports.CaseDoesNotSeparate | pkg/as3/utils.go:646-657 | entries without a limit are filed together if and only if their protocols differ in case only |
| Ports.GroupingConserves | pkg/as3/utils.go:643-666 | the groups hold exactly the protocol, limit and port triples that the input asks for, when every group has one protocol and one limit |
| Ports.PortsConserved | pkg/as3/utils.go:638-673 | the same for the external service's final groups, any-group included; what rules make of a group is `Intent.GroupsSayPorts` |
| Ports.ProtocolsConserved | pkg/as3/utils.go:643-666 | the groups hold exactly the protocols and ports asked for when every group has one protocol, whatever its limits |
| Ports.GroupPortsAre | pkg/as3/utils.go:643-666 | a group holds the ports of the entries filed under its key, and no others |
| Ports.EndsAsLast | pkg/as3/utils.go:649-664 | a limited entry ends up with the protocol of the last limited port of its name, when no limited port is named like a protocol |
| Ports.EndsAsListed | pkg/as3/utils.go:649-664 | the same for every entry, read off the list of entries |
| Ports.OneProtocolIffKept | pkg/as3/utils.go:643-666 | every entry keeps its protocol if and only if every group has one |
| Ports.OneProtocolIffNamesShare | pkg/as3/utils.go:649-664 | that holds if and only if limited ports of one name share their protocol, when no limited port is named like a protocol asked for |
| Ports.OneLabelIffKept | pkg/as3/utils.go:643-666 | every port keeps its protocol and limit if and only if every group has one of each |
| Ports.OneLabelIffNamesApart | pkg/as3/utils.go:649-664 | that holds if and only if limited ports of one name share protocol and limit, when no limited port is named like a protocol asked for |
| Ports.NamesApartKeepLabels | pkg/as3/utils.go:649-664 | and whenever a limited port named like a protocol, or like another limited port, shares its label |
| Ports.AnyGroupIffNoPort | pkg/as3/utils.go:667-670 | the single portless group appears exactly when no port is given |
| Ports.SharedNameLosesLimit | pkg/as3/utils.go:649-664 | two limited ports of one name: the second limit replaces the first |
| Generate.SelectServices | pkg/as3/utils.go:573-579 | the external services a rule names, in its namespace, in order |
| Generate.SelectCidr | pkg/as3/utils.go:600-604 | the source of a namespace rule is its last matching namespace's annotation |
| Generate.SelectSource | pkg/as3/utils.go:623-632 | the source of a service rule is every address of every matching endpoint |
| Generate.DealClusterRules | pkg/as3/utils.go:566-581 | the data of all cluster rules, services from the configured namespace |
| Generate.DealNamespaceRules | pkg/as3/utils.go:585-606 | the data of all namespace rules |
| Generate.DealServiceRules | pkg/as3/utils.go:608-634 | the data of all service rules |
| Generate.DealRule | pkg/as3/utils.go:560-636 | cluster rules in Common only, then namespace rules, then service rules |
| Generate.NewFirewallAddressList | pkg/as3/utils.go:254-275 | addresses and domain names apart, each in its order and with its repetitions, nothing else changed |
| Generate.SeparatesMembers | pkg/as3/utils.go:254-275 | the one field holds exactly the given IP addresses and subnets, the other exactly the rest |
| Generate.NewAddressLists | pkg/as3/utils.go:162-173 | the destination list, and the source list when the rule has source addresses |
| Generate.NewPortRules | pkg/as3/utils.go:174-184 | one rule per port group and one port list per group with a protocol, in some order without repetition |
| Generate.NewItem | pkg/as3/utils.go:160-194 | the objects of one external service of one rule, and its rule list's path |
| Generate.NewRuleDecl | pkg/as3/utils.go:160-196 | all external services of one rule, paths grouped for the policies |
| Generate.NewRulesDecl | pkg/as3/utils.go:151-199 | all objects of all rules, and per type and namespace the paths of exactly their rule lists in order |
| Generate.NewPolicy | pkg/as3/utils.go:129-147 | one group's paths go before what its policy lists already; unknown tenants are skipped |
| Generate.NewPoliciesDecl | pkg/as3/utils.go:125-149 | every group is prepended once, in any order |
| Generate.GenerateDelta | pkg/as3/utils.go:96-123 | the whole delta: default application, rules, policies, infrastructure |
| Deltas.ItemRefs | pkg/as3/utils.go:161-187 | a rule list refers to exactly the lists generated beside it |
| Deltas.ItemObjsAre | pkg/as3/utils.go:160-187 | an item defines its rule list and exactly the lists that it refers to, under distinct keys of the right kind |
| Deltas.AllGroupsGrown | pkg/as3/utils.go:125-149 | for every order of the groups each policy gains its groups' entries before the default ones and nothing else changes |
| Deltas.DeltaWellFormed | pkg/as3/utils.go:96-199 | every generated delta is well formed, whatever the order of ports and groups |
| Guarantees.DeltaRuleLists | pkg/as3/utils.go:151-199 | the rule lists of a delta are deny-all's and one per external service of each rule |
| Guarantees.DeltaRules | pkg/as3/utils.go:175-187 | each of them holds one rule per port group of its own external service, no other item overwrites it |
| Guarantees.RuleSpecificOwner | pkg/as3/utils.go:151-199 | every rule-specific key of a delta decodes to one of its rules |
| Guarantees.DifferentRules | pkg/as3/utils.go:151-199 | deltas of different rules share no rule object |
| Guarantees.DeltaElsewhere | pkg/as3/utils.go:107-123 | beside rules and policies a delta depends on the configuration alone |
| Guarantees.DifferentRulesAgree | pkg/as3/utils.go:107-199 | deltas of different rules agree on every shared key that is no policy |
| Guarantees.DifferentRulesCommute | pkg/as3/utils.go:921-1076 | adding one rule and deleting another covered one commute exactly |
| Guarantees.DifferentAddsCommute | pkg/as3/utils.go:921-1076 | adding different rules in either order is the same up to the order of policy entries |
| Guarantees.WholeRulesCover | pkg/as3/utils.go:698-707 | a delete that carries every rule list of the rules it names covers what it removes |
| Guarantees.DeleteOfRules | pkg/as3/utils.go:698-707 | a delete of rules keeps references exact, and the state well formed, if and only if every user of a deleted rule's source list goes too |
| Scenario.PartialDelete | pkg/as3/utils.go:162-169 | a concrete cluster where deleting one of a rule's two external services leaves the other without its source list |
| Guarantees.RuleRunsAreGood | pkg/as3/utils.go:921-1076 | every run of rule requests whose deletes take along the users of their source lists stays well formed |
| Meaning.DeltaLists | pkg/as3/utils.go:160-180 | each list of an item holds that rule's or service's addresses or ports, even where items share a source list |
| Meaning.RulesDecide | pkg/as3/utils.go:174-187 | the rules of an item, in whatever order they were made, decide a packet with the rule's action exactly when one of them matches |
| Meaning.GeneratedVerdict | pkg/as3/utils.go:151-275 | a generated rule list decides exactly what the generator put into it, guards for missing sources and protocols included, with the rule's action |
| Meaning.SyncedVerdict | pkg/as3/utils.go:921-971 | the same on the device after a sync, for any state before that holds objects of the same kind under the delta's keys, dangling or not |
| Resync.SameWorkShape | pkg/as3/utils.go:107-199 | deltas of the same rules differ in the order of rules inside rule lists and of policy entries only |
| Resync.SameObjectsIffOrders | pkg/as3/utils.go:175-184 | they ask for the same objects if and only if the port groups came in the same orders |
| Resync.SecondSyncUnposted | pkg/as3/utils.go:966-970 | synchronising the same rules again is left unposted if and only if the port groups of every service came in the same order, whatever the group orders |
| Resync.NeverPostedAgain | pkg/as3/utils.go:966-970 | it is certain to be left unposted if and only if every external service has one port group |
| Resync.SameResources | pkg/as3/utils.go:151-199 | requests with the same resources generate the same rules and services in the same sequence |
| Resync.RulesRoundTrip | pkg/as3/utils.go:921-1076 | deleting rules that were new when added restores the application exactly, with the orders of both requests free and addresses, ports and actions changed in between, as long as the same rule lists are named |
| Resync.DeleteByNames | pkg/as3/utils.go:938-1076 | covered deletes that name the same rule lists give the same application |
| Resync.FreeDeleteCommutes | pkg/as3/utils.go:921-1076 | an add and a covered delete of different rules commute exactly, with orders and contents of the two deletes free |
| Selection.SelectedAre | pkg/as3/utils.go:573-579 | the external services selected are exactly those named that exist in the namespace |
| Selection.SourceIpsAre | pkg/as3/utils.go:623-632 | a service rule's source is exactly the addresses of the service's endpoints |
| Selection.SourceCidrIs | pkg/as3/utils.go:600-604 | a namespace rule's source is its namespace's subnet, or nothing when there is no such namespace |
| Selection.DataAre | pkg/as3/utils.go:560-636 | the rules dealt with are exactly the request's rules, cluster rules in Common only |
| Selection.DataSay | pkg/as3/utils.go:566-633 | type, namespace, name, action, logging and endpoint of the generator's data are the custom resource's own |
| Selection.ItemsAreHanded | pkg/as3/utils.go:151-199 | the generator's items are exactly the rules with each external service that they name and that exists |
| Intent.GroupsSay | pkg/as3/utils.go:175-184 | what the rules of the groups let through, entry by entry of the external service |
| Intent.GroupsSayPorts | pkg/as3/utils.go:175-184 | the rules of the groups match exactly the protocols and ports asked for when ports are kept |
| Intent.KeptIffGiven | pkg/as3/utils.go:643-666 | where every group has one protocol, ports are kept if and only if every entry names its protocol |
| Intent.KeptByNames | pkg/as3/utils.go:643-666 | the same where limited ports of one name share their protocol and none is named like a protocol |
| Intent.KeptIffListed | pkg/as3/utils.go:643-666 | without sharing: ports are kept if and only if every port of every entry is let through under its own protocol and asked for under the last one of its name |
| Intent.EnforceableIsSaid | pkg/as3/utils.go:160-187 | the rule list of an enforceable rule matches exactly the packets that the rule asks for |
| Intent.SaidIffEnforceable | pkg/as3/utils.go:165-184 | for all packets and all external services the rule list says what the rule asks for if and only if the rule has a source or is for the whole cluster, and its ports are kept (or there is no destination) |
| Intent.EntryIsListed | pkg/as3/utils.go:125-149 | after a sync each rule list is an entry of its policy |
| Intent.SyncEnforces | pkg/as3/utils.go:921-971 | from resources to device: every rule and service named has its entry, which decides exactly the packets asked for, with the resource's own action, if and only if the rule is enforceable |
| Contents.DestinationHeld | pkg/as3/utils.go:171-173 | after a sync the destination list holds the service's addresses and domain names, apart and in order |
| Contents.SourceHeld | pkg/as3/utils.go:162-170 | a rule with a source has a list of exactly its addresses, under the rule's and the service's name |
| Contents.RulesHeld | pkg/as3/utils.go:175-187 | the rule list has one rule for each port group and no other, every property from the resource: name, action, logging, protocol, iRule, paths |
| Contents.AccessHeld | pkg/as3/utils.go:175-184 | a port is let through under a protocol and limit by some rule and its port list on the device if and only if the service asks for it so |
| Contents.InfrastructureHeld | pkg/as3/utils.go:107-123 | the tenant's gateway, virtual server, virtual address and enabled log objects are on the device |
| Order.PairsInOrder | pkg/as3/utils.go:159-161 | the generator goes through rules and services in the order of the resources |
| Order.OrderFollowsResources | pkg/as3/utils.go:190-195 | in the policies of a delta the entries of one namespace's rules stand in the order of the resources |
| Policies.PolicyDecides | pkg/as3/utils.go:125-149 | an application that honours a set of duties (rule and service as some request carried them) decides by the first listed one whose rule list was given the packet; the service policy drops the rest |
| Policies.PolicyEnforces | pkg/as3/utils.go:125-149 | where the duties are enforceable, by the first listed rule that asks for the packet |
| Policies.AddHonours | pkg/as3/utils.go:921-971 | an add that carries the users of the lists it changes hands the entries it names to its own duties and leaves the others as they are |
| Policies.DeleteHonours | pkg/as3/utils.go:921-971 | a covered delete ends the duties it names and leaves the others as they are |
| Policies.CoveringIsComplete | pkg/as3/utils.go:160-180 | an add that carries every user of its lists is of that kind |
| Policies.StepIsGood | pkg/as3/utils.go:921-971 | the same for one request from any state, an empty partition included |
| Policies.RunHonours | pkg/as3/utils.go:921-1076 | every state of every such run honours the duties that the run has left |
| Policies.RunDecides | pkg/as3/utils.go:921-1076 | in every state of a run from an empty partition or the default application each policy decides every packet in that way |
| Scenario.NoAddressOpensSource | pkg/as3/utils.go:163-170 | a concrete service rule without endpoint addresses accepts a packet from elsewhere |
| Scenario.NoProtocolOpensPorts | pkg/as3/utils.go:178-180 | a concrete port without a protocol accepts a packet to a port nobody asked for |
| Scenario.MixedProtocolsLosePort | pkg/as3/utils.go:649-664 | a concrete tcp port under the name of a udp port is asked for and not let through |
| Scenario.SlashedPortListIsSwept | pkg/as3/utils.go:649-656 | a concrete limited port with a slash in its name has its port list swept from every application |
| Scenario.CapitalProtocol | pkg/as3/utils.go:646 | a concrete entry in capital letters is filed and posted in small letters and asks for packets in small letters |
| Scenario.CapitalAndSmall | pkg/as3/utils.go:646-664 | two concrete entries that differ in case make one group |
| Scenario.CrossedNames | pkg/as3/utils.go:649-657 | a concrete limited port named like a protocol takes that protocol's key |
| Scenario.PostedAgain | pkg/as3/utils.go:175-184 | concrete resources with two port groups that are posted again |
| Scenario.RepairedBySync | pkg/as3/utils.go:921-971 | synchronising the rule again mends the concrete incomplete delete |
| Intake.NamedIsOne | pkg/as3/utils.go:574-578 | a name selects the one external service that has it in the namespace, if there is one |
| Intake.SelectedIsGood | pkg/as3/utils.go:573-579 | a rule's external services are selected once each |
| Intake.SelectedNames | pkg/as3/utils.go:573-579 | and by name they are exactly those named that exist |
| Intake.DealtIsGood | pkg/as3/utils.go:560-636 | rules made from admissible resources have valid, distinct identities and belong to the tenant |
| Intake.ItemsAreGood | pkg/as3/utils.go:560-673 | admissible resources meet every hypothesis of the generator's theorems |
| Intake.ItemsShareRules | pkg/as3/utils.go:560-636 | items of one rule carry the same rule data |
| Intake.DeltaFor | pkg/as3/utils.go:96-199 | admissible resources in; out comes a well-formed delta with an item for each rule and service that they name, and for nothing else |
| Intake.Generable | pkg/as3/utils.go:96-199 | every admissible request has a delta |
| Tenants.Registry.CacheForPartition | pkg/as3/init.go:93-102 | one partition's entry is replaced |
| Tenants.Registry.CacheForNamespaces | pkg/as3/init.go:124-133 | the entries of the listed namespaces are replaced |
| Tenants.Registry.CacheTenants | pkg/as3/init.go:76-90 | both indexes after registering all tenants over what was there |
| Tenants.Registry.InitTenantConfig | pkg/as3/init.go:61-91 | cluster names, switches and both indexes after a registration; after the first one every listed namespace's paths resolve in its own tenant's post, which declares the route domain of the configuration file |
| Tenants.FirstRegistrationServes | pkg/as3/init.go:61-152 | the same as a law of the configuration that the registry answers from |
| Tenants.LastListingHolds | pkg/as3/init.go:87-89 | of several tenants that list a namespace the last one has it |
| Tenants.LastTenantHolds | pkg/as3/init.go:83 | of several tenants of one name the last one is filed |
| Tenants.RegisterAgrees | pkg/as3/init.go:61-152 | a registration keeps the indexes in agreement if and only if unlisted namespaces still have their tenant's configuration |
| Tenants.InitAgrees | pkg/as3/init.go:61-152 | after the first registration the indexes agree and partitions are filed under their own names |
| Tenants.CommonIsInDomainZero | pkg/as3/init.go:77-82 | Common is registered in route domain 0, the others as configured |
| Tenants.BodyRouteDomains | pkg/as3/utils.go:81-94 | the body declares the route domain filed for the partition, exactly with the feature and outside Common; a Common beside it has none and its default application |
| Tenants.BodyTenants | pkg/as3/utils.go:81-94 | the body holds the posted partition, and nothing else exactly with route domains or for Common |
| Tenants.PathsResolve | pkg/as3/utils.go:754-778 | a namespace's paths name its tenant's partition, decode to their attribute, and lie in the one tenant its post declares |
| Request.Client.As3Request | pkg/as3/request.go:13-43 | the device ends with the merged application of the request's own delta, even when only the policy binding fails, or as it was; a good state stays good, for a delete that takes along the users of its source lists; other partitions untouched; what it then enforces is what the resources ask for, rule by rule, if and only if the rule is enforceable |
| Request.BindsAre | pkg/as3/request.go:45-108 | requests about cluster-wide and namespace rules bind a policy, and no others |
| Request.RulesKeepGood | pkg/as3/request.go:13-43 | a request from a good state leads to a good one if and only if it is an add or a delete of that kind |
| Request.StepConsistent | pkg/as3/request.go:18-43 | every step of every worker keeps mutual exclusion, fresh reads, and the device equal to the replay |
| Request.Serializable | pkg/as3/request.go:18-43 | for any workers and interleaving the device is the fold of the applied requests in lock order |
| Request.ReplayIsGood | pkg/as3/request.go:18-43 | a sequence of admissible requests keeps every partition well formed |
| Request.ConcurrentRulesAreGood | pkg/as3/request.go:18-43 | concurrent requests made from rules, deletes with the users of their source lists, keep every partition well formed |
| Request.ConcurrentRunsAreGood | pkg/as3/request.go:18-43 | concurrent admissible requests keep every partition well formed |
| Frequency.SyncFrequency.Process | pkg/as3/request.go:167-171 | the update is recorded after the others |
| Frequency.SyncFrequency.IsStale | pkg/as3/request.go:140-147 | true exactly when some update is older than two minutes |
| Frequency.SyncFrequency.Tick | pkg/as3/request.go:136-156 | saves exactly when due; a failed save keeps the buffer |
| Frequency.DueIs | pkg/as3/request.go:140-148 | a save is due with more than ten updates or one over two minutes old, and not before |
| Frequency.SavedWhenDue | pkg/as3/request.go:148-155 | where a tick saved, more than ten updates waited, or one for over two minutes |
| Frequency.NothingLost | pkg/as3/request.go:129-171 | saved and pending updates together are the recorded ones, in order |
| Frequency.SavedByStores | pkg/as3/request.go:148-155 | an update leaves the buffer only through a save that succeeded |
| Frequency.PassedTickBounds | pkg/as3/request.go:148-155 | a tick that does not fail leaves at most ten updates, all at most two minutes old |
| Frequency.PendingIsRecent | pkg/as3/request.go:136-156 | what waits was at most two minutes old at the last tick that did not fail |
| Frequency.BoundedStaleness | pkg/as3/request.go:129-171 | with such ticks at most P apart each update is saved after it was recorded and within two minutes plus P |

## Left out

- Exchange.AddsCommuteUpToOrder: the order of policy entries is not kept, because the code places them in the order of the requests.
- Ports.DealPorts: lowers ASCII letters only; Go's lower-casing of other letters is not modelled.
- Request.Serializable: endpoint patches, which run outside the lock and write addresses directly, are not among the steps.
- HTTP calls, credentials, retries and the device's own validation.
- Kubernetes clients, work queues, status updates and events; only the lists handed to a request are modelled.
- The older JSON Patch path (`patchResouce`, `policyPatchJson`, in the terms of section 4 of RFC 6902), which requests no longer use.
- JSON encoding and its error branches; an object that lacks its class.
- The templates of virtual server, virtual address and log objects, which are opaque values with fixed keys.
- The effect of binding the global and route-domain policies after a post, of which only success or failure is modelled, and endpoint address patches: direct device calls with one branch each.
- The first post of an empty Common partition at start-up, watching of the configuration file, and signal handling.
- The bytes of the slices: an in-place removal is an update of a sequence, so aliasing of the backing array is not captured; the code keeps no other reference to it.
- Several clusters writing to one device at the same time; names of two clusters are kept apart, their runs are not interleaved.
