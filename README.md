# dcluster planning core in Dafny

dcluster builds small clusters of Docker containers: a head node and a number of compute
nodes on a private Docker network of their own, plus a gateway address on that network.
This project models the part of dcluster that decides what such a cluster looks like.
That core does arithmetic, string and dictionary work, and it touches Docker only at the
edges. The project then proves what that core promises.

Modules, one per source file of the core, plus support modules:

- `Ipv4` models the subset of Python's `ipaddress` module that dcluster uses:
  - blocks;
  - their usable hosts;
  - the `/n` subnets of a supernet;
  - dotted-quad rendering.
- `Networking` models `ClusterNetwork` and `DockerClusterNetworkFactory` (`infra/networking.py`):
  - the gateway is the last usable host, and the head is the one before it;
  - computes are the first hosts, with a capacity check;
  - the candidate generator;
  - the allocator's retry loop against a Docker runtime.
- `DockerFacade` models the naming policy (`prefix-cluster`, `cluster-hostname`):
  - the prefix decode and the ownership test;
  - the role label;
  - the dcluster network filter and `find_network`;
  - the error mapping of `create_network`, against a small stateful stub of the Docker runtime.
- `Collection` models the dictionary utilities. They are the recursive update and the defensive merge, subset and subtraction.
- `ProfileConfig` models the profile search places, the profile loading order and the `extend` inheritance chain.
- `NodePlanner` models the head and compute plans (`BasicNodePlanner`) and their extension with volumes, static text and systemd (`DefaultNodePlanner`).
- `ClusterPlanner` models `user_plan_data`, `DefaultClusterPlan.create`, `build_specs`, the volume list and `as_dict`.
- `Blueprint` models `ClusterBlueprint`: the nodes in key order and the role queries.
- `Inventory` models `AnsibleInventory`: hosts, groups by role, and vars.
- `Format` models `SimpleFormatter`, the fixed-width text summary of a cluster.
- `Ssh` models the `[user@]hostname[:dir]` target of the `ssh` and `scp` commands.
- `Values`, `Strings` and `Wrappers` are support modules:
  - Python values and exception kinds;
  - string order, split and join, padding, decimals;
  - `Result` and `Option`.

The model follows Python 3 as it was before 3.10, where `collections.Mapping` still
exists. Values stand in for Python's dictionaries, so a copy is the value itself. Configuration
settings are parameters, and so are the file system listing, the YAML loader and the YAML
dumper. These settings are the network prefix, the gateway name, the default ssh user and
the bootstrap directory.

Some things the code does as written are easy to miss. The model keeps them, and lemmas state them:

- `compute_ips(-1)` passes the capacity check. The slice `[:-1]` then hands out every host
  but the gateway, so the last compute replaces the head in the nodes dictionary and the
  blueprint has no head node (`Networking.ComputeIpsMinusOne`,
  `ClusterPlanner.SpecsMinusOneLosesHead`, `Blueprint.PlannedWithoutHead`).
- A Docker volume without `:` loses its last character in the top-level `volumes` list,
  because `find` returns -1 (`ClusterPlanner.VolumeNameWithoutColon`).
- `deduce_cluster_name` tests only the prefix, not the prefix and a dash. It then drops one
  more character, whatever it is (`DockerFacade.DeduceSkipsAnySeparator`).
- Blueprint nodes are ordered by their keys as strings, so "10.0.0.10" comes before
  "10.0.0.9" (`Blueprint.AddressesSortAsStrings`).
- The planner never plans a gateway node, so `gateway_node` fails on every planned
  blueprint (`Blueprint.PlannedWithoutGateway`).
- `update_recursively` only steps into dictionary values of the update. A non-empty
  dictionary value that meets a non-dictionary entry of the target fails in
  `get`/assignment, which the model reports as a type error. An empty one returns that
  entry as it is, since an empty update is returned before anything is read
  (`Collection.Merge`).
- `RefName` tests `isinstance(ref, unicode)`. Under Python 3 the name `unicode` is undefined,
  so a value other than a string raises NameError before the assertion is reached
  (`DockerFacade.RefName`).
- A `suffix_len` given as a string of digits is accepted: it is pasted into the format
  specification, so "3" pads like 3. A text holding a brace, such as that of any non-empty
  mapping, opens a nested replacement field inside the specification instead
  (`NodePlanner.SuffixWidth`).
- The `subnets` of a /32 supernet yield the supernet itself, whatever prefix is asked for
  (`NetworkingExamples.SingleAddressSupernet`).
- An `extend` value that is not a string fails in the profile lookup. A scalar raises
  KeyError, a list or mapping TypeError. A profile that is not a mapping raises
  AttributeError (`ProfileConfigExamples.ExtendNotAName`).
- `list.extend` of a string adds its characters, and of a mapping its keys, so such
  `shared_volumes` or `docker_volumes` entries are accepted (`Values.Elements`).
- A second `@` in an ssh target, or a second `:` after the `@`, makes the tuple unpacking
  raise `ValueError`. A `:` before the `@` stays in the user name.
- The networking unit tests import the older `dcluster/networking.py`. The examples proved
  here follow `dcluster/infra/networking.py`, which computes the same addresses.

## Model

| member | source | states |
|---|---|---|
| `Ipv4.Hosts` | dcluster/infra/networking.py:36-38 | `list(subnet.hosts())` of a block of at least four addresses has at least two hosts |
| `Ipv4.HostsAreUsable` | dcluster/infra/networking.py:38 | an address is a usable host iff it is inside the block and is neither the network nor the broadcast address |
| `Ipv4.HostsAscending` | dcluster/infra/networking.py:38 | hosts are strictly ascending by position |
| `Ipv4.SubnetsTile` | dcluster/infra/networking.py:123-125 | `subnets(new_prefix)` gives 2^(bits − prefix) well-formed blocks inside the supernet, each ending where the next begins |
| `Ipv4.SubnetsDisjoint` | dcluster/infra/networking.py:125 | the subnets ascend and no two overlap |
| `Ipv4.SubnetsCover` | dcluster/infra/networking.py:125 | every address of the supernet lies in some subnet |
| `Ipv4.FormatIpInjective` | dcluster/infra/networking.py:75 | distinct addresses render as distinct dotted quads, so address strings are sound dictionary keys |
| `Networking.AllIpAddresses` | dcluster/infra/networking.py:36-38 | host `i` of the subnet is base + 1 + i, and there are block size − 2 of them |
| `Networking.GatewayAddress` | dcluster/infra/networking.py:43-50 | the gateway is the broadcast address − 1, the last usable host |
| `Networking.HeadAddress` | dcluster/infra/networking.py:52-58 | the head is the broadcast address − 2, differs from the gateway and is not the network address |
| `Networking.GatewayAndHeadAreLastHosts` | dcluster/infra/networking.py:43-58 | gateway and head are hosts, every other host lies below both, and their IP strings differ |
| `Networking.TakePrefix` | dcluster/infra/networking.py:74 | Python's `[:count]` slice: always a prefix of the addresses; `min(count, n)` of them for a count of 0 or more; for a negative count, `-count` of them dropped from the end, and none left once `-count` reaches `n` |
| `Networking.ComputeAddresses` | dcluster/infra/networking.py:60-75 | NetworkSubnetTooSmall iff count > hosts − 2; for non-negative counts otherwise the first `count` hosts; for a negative count, the hosts with the last `-count` of them cut off, or none |
| `Networking.ComputeIps` | dcluster/infra/networking.py:60-75 | the same outcome as the addresses, with each address rendered as a dotted quad |
| `Networking.ComputeAddressesAscend` | dcluster/infra/networking.py:74-75 | for 0 ≤ count ≤ hosts − 2, compute `i` is base + 1 + i and lies below the head |
| `Networking.ComputeIpsDisjoint` | dcluster/infra/networking.py:69-75 | for every accepted count other than -1, compute IPs are pairwise distinct and never the head's or the gateway's |
| `Networking.ComputeIpsDistinct` | dcluster/infra/networking.py:69-75 | compute IPs are pairwise distinct for every count the check accepts, -1 included |
| `Networking.ComputeIpsMinusOne` | dcluster/infra/networking.py:69-74 | count -1 passes the check and yields all hosts but the last, the head's IP among them |
| `Networking.AsDict` | dcluster/infra/networking.py:84-93 | exactly the keys name, address, gateway and gateway_ip: the network name, the CIDR string, the configured gateway and the gateway IP |
| `Networking.AsDictNameDecodes` | dcluster/infra/networking.py:80-93 | decoding the `name` entry gives back the cluster name |
| `Networking.Candidates` | dcluster/infra/networking.py:112-129 | one cluster network per subnet of the supernet, in order, each tagged with the cluster name; a `/32` supernet yields itself alone whatever the new prefix; otherwise ValueError iff the new prefix is shorter than the supernet's or longer than 32 |
| `Networking.CandidatesValid` | dcluster/infra/networking.py:112-129 | for prefixes up to /30 there are 2^(bits − prefix) candidates, each with usable hosts |
| `Networking.CandidatesAscending` | dcluster/infra/networking.py:112-129 | candidates ascend and are pairwise disjoint |
| `Networking.CandidatesCover` | dcluster/infra/networking.py:112-129 | every supernet address is in some candidate |
| `Networking.FromFirstSubnet` | dcluster/infra/networking.py:98-105 | the first candidate starts at the supernet's base with the new prefix (a `/32` supernet is returned as it is); ValueError exactly when `Candidates` raises it |
| `NetworkingExamples.SingleAddressSupernet` | dcluster/infra/networking.py:98-105 | a `/32` supernet asked for `/24` subnets yields itself |
| `Networking.FirstFree` | dcluster/infra/networking.py:220-233 | the first candidate whose subnet no existing network overlaps, with every earlier one overlapped; none when all are |
| `Networking.NetworkFactory.constructor` | dcluster/infra/networking.py:169-171 | the factory keeps its supernet, prefix length and settings |
| `Networking.NetworkFactory.ValidateNetworkName` | dcluster/infra/networking.py:173-179 | NameExists iff a runtime network already has the name; otherwise the name itself |
| `Networking.NetworkFactory.AttemptCreate` | dcluster/infra/networking.py:184-206 | the name check comes first and changes nothing when it fails; otherwise a creation request, whose failure is NetworkSubnetTaken |
| `Networking.NetworkFactory.Create` | dcluster/infra/networking.py:208-235 | a name in use aborts at once; candidates with a taken subnet are skipped; the first free one is created and nothing after it is tried; exhaustion is NoNetworkSubnetsAvailable; the runtime's networks and request log change accordingly |
| `Networking.NetworkFactory.TryCandidates` | dcluster/infra/networking.py:217-235 | the retry loop over the candidates meets that outcome |
| `Networking.CreatedSubnetIsFree` | dcluster/infra/networking.py:220-233 | a created network's subnet overlaps no network that existed before |
| `NetworkingExamples.GatewayAndHeadFor24` | dcluster/tests/test_networking.py:15-34 | first /24 of 172.30.0.0/16: gateway 172.30.0.254 and head 172.30.0.253 |
| `NetworkingExamples.GatewayFor25` | dcluster/tests/test_networking.py:22-27 | first /25: gateway 172.30.0.126 |
| `NetworkingExamples.ThreeComputesFor24` | dcluster/tests/test_networking.py:36-45 | three computes on the /24 get 172.30.0.1, .2 and .3 |
| `NetworkingExamples.ThreeComputesTooManyFor30` | dcluster/tests/test_networking.py:47-53 | three computes on a /30 raise NetworkSubnetTooSmall |
| `NetworkingExamples.FourSubnetsOf16` | dcluster/tests/test_networking.py:55-65 | the /16 splits into four /18 candidates at .0.0, .64.0, .128.0 and .192.0 |
| `DockerFacade.NetworkName` | dcluster/infra/docker_facade.py:58-64 | the prefix, a dash, then the cluster name |
| `DockerFacade.ContainerName` | dcluster/infra/docker_facade.py:114-119 | the cluster name, a dash, then the hostname |
| `DockerFacade.ContainerNameInjective` | dcluster/infra/docker_facade.py:114-119 | within one cluster, the container name determines the hostname |
| `DockerFacade.RefName` | dcluster/infra/docker_facade.py:74-86 | `network_name` of a planned network, else `name` of a Docker network, else the value itself when it is a string; any other value raises NameError, from the undefined `unicode` |
| `DockerFacade.DeduceClusterName` | dcluster/infra/docker_facade.py:66-97 | succeeds iff the name starts with the prefix (NotFromDcluster otherwise), and then drops prefix length + 1 characters |
| `DockerFacade.DeduceNetworkName` | dcluster/infra/docker_facade.py:58-97 | decoding a cluster's network name gives the cluster name, for every kind of reference |
| `DockerFacade.DeduceSkipsAnySeparator` | dcluster/infra/docker_facade.py:92-97 | the character after the prefix is dropped whatever it is |
| `DockerFacade.IsDclusterNetworkIff` | dcluster/infra/docker_facade.py:99-112 | ours iff deduce does not raise, that is iff the name is a string that starts with the prefix |
| `DockerFacade.Role` | dcluster/infra/docker_facade.py:145-161 | the value of label `bull.com.dcluster.role`, or None iff it is absent |
| `DockerFacade.DockerRuntime.constructor` | dcluster/infra/docker_facade.py:180-186 | the runtime starts with the given networks and no creation requests |
| `DockerFacade.DockerRuntime.Create` | dcluster/infra/docker_facade.py:293-296 | every request is logged; it fails iff the subnet overlaps an existing network, and otherwise appends the new network |
| `DockerFacade.DclusterNetworks` | dcluster/infra/docker_facade.py:188-204 | exactly the owned networks |
| `DockerFacade.DclusterNetworksAppend` | dcluster/infra/docker_facade.py:200-204 | the filter distributes over concatenation, so input order is kept |
| `DockerFacade.FirstNamed` | dcluster/infra/docker_facade.py:220-224 | the position of the first network with the name, every earlier one named otherwise; none when no network has it |
| `DockerFacade.FindNetwork` | dcluster/infra/docker_facade.py:206-231 | the first owned network with the cluster's network name, else NotFromDcluster |
| `DockerFacade.FindIgnoresFilter` | dcluster/infra/docker_facade.py:217-224 | the ownership filter never hides a network that has the cluster's network name |
| `DockerFacade.CreateNetwork` | dcluster/infra/docker_facade.py:280-303 | any API error becomes NetworkSubnetTaken and leaves the networks unchanged; success appends the network with the name, subnet and gateway asked for |
| `Collection.Merge` | dcluster/util/collection.py:8-22 | an empty update returns the target as it is; only a TypeError can fail it, and a non-empty update of a non-dictionary does; a non-empty update gives a dictionary whose keys are the union, where keys missing from the update keep their values, plain values of the update overwrite |
| `Collection.MergeNested` | dcluster/util/collection.py:14-20 | a nested dictionary of the update holds, in the result, its recursive merge into the target's entry (an empty dictionary when absent); an update into a dictionary fails exactly when one of those nested merges does |
| `Collection.UpdateRecursively` | dcluster/util/collection.py:8-22 | the loop over the update's entries computes `Merge` |
| `Collection.MergeIntoEmpty` | dcluster/util/collection.py:15-20 | merging into `{}` gives the update itself |
| `Collection.MergeIdempotent` | dcluster/util/collection.py:8-22 | applying the same update twice is the same as applying it once |
| `Collection.MergeSelf` | dcluster/util/collection.py:8-22 | a dictionary merged into itself is unchanged |
| `Collection.DefensiveMerge` | dcluster/util/collection.py:29-37 | the union of the keys; the source's values win, and the target's stay elsewhere |
| `Collection.DefensiveSubset` | dcluster/util/collection.py:40-45 | the keys asked for that the source has, with the source's values; missing keys are skipped |
| `Collection.DefensiveSubtraction` | dcluster/util/collection.py:48-55 | the source's keys minus the given ones, with the source's values |
| `Collection.SubsetSubtractionPartition` | dcluster/util/collection.py:40-55 | subset and subtraction by the same keys split the source into two disjoint parts that rebuild it |
| `Collection.MergeThenSubset` | dcluster/util/collection.py:29-45 | after a merge, the source's keys select exactly the source |
| `ProfileConfig.PlacesToLook` | dcluster/config/profile_config.py:76-81 | the configured places, then the user's places only when they are given as a list |
| `ProfileConfig.Dedup` | dcluster/config/profile_config.py:93-99 | the keys of the places dictionary: the same places, each once |
| `ProfileConfig.DedupHead` | dcluster/config/profile_config.py:93-99 | the first place searched keeps its place at the front |
| `ProfileConfig.FlattenMembers` | dcluster/config/profile_config.py:42-46 | the profile paths are exactly the files listed at the searched places |
| `ProfileConfig.FindCandidateYamlFiles` | dcluster/config/profile_config.py:69-101 | the places in first-occurrence order, each with its listing |
| `ProfileConfig.CollectProfilePaths` | dcluster/config/profile_config.py:42-46 | the paths, place by place in order |
| `ProfileConfig.LoadAll` | dcluster/config/profile_config.py:48-62 | fails iff some file does not hold a dictionary, and then with AttributeError, as `keys()` on such a document (an empty file's `None` included) raises |
| `ProfileConfig.LoadAllLastWins` | dcluster/config/profile_config.py:55-62 | a profile comes from the last file that defines it, which replaces the earlier definitions wholesale |
| `ProfileConfig.LoadAllUndefined` | dcluster/config/profile_config.py:48-62 | a name no file defines is not a profile |
| `ProfileConfig.LoadProfiles` | dcluster/config/profile_config.py:48-66 | the loop over the files computes `LoadAll` |
| `ProfileConfig.Resolve` | dcluster/config/profile_config.py:104-129 | an unknown name is a KeyError; a profile without `extend` is returned as stored; a profile extending itself is a ValueError; a result never has `extend` |
| `ProfileConfig.ResolveErrors` | dcluster/config/profile_config.py:109-120 | a profile that is not a dictionary raises AttributeError at `keys()`; an `extend` past the depth raises RecursionError; an `extend` that is not a string fails the parent lookup with `ParentLookupError` |
| `ProfileConfig.ParentLookupError` | dcluster/config/profile_config.py:109-120 | `available_profiles[parent]` for a parent that is not a string: TypeError exactly for an unhashable list or dictionary, else a KeyError on that value |
| `ProfileConfigExamples.ExtendNotAName` | dcluster/config/profile_config.py:109-120 | `extend: 3` and `extend: null` are KeyErrors, `extend: []` a TypeError, and a profile that is a plain string an AttributeError |
| `ProfileConfig.ResolveExtends` | dcluster/config/profile_config.py:118-127 | an extending profile is its resolved parent merged with the child, without `extend`: child plain values win, parent entries stay, nested maps merge |
| `ProfileConfig.ResolveTwoCycle` | dcluster/config/profile_config.py:114-120 | two profiles extending each other exhaust the stack: only direct self-reference is caught |
| `ProfileConfig.ResolveAcyclic` | dcluster/config/profile_config.py:118-120 | when `extend` chains descend in rank, a stack deeper than the rank never overflows |
| `ProfileConfig.ResolveDepthIrrelevant` | dcluster/config/profile_config.py:104-129 | once resolution does not overflow, a deeper stack changes nothing |
| `ProfileConfig.ProfileRegistry.constructor` | dcluster/config/profile_config.py:19-21 | the registry starts with no cached profiles |
| `ProfileConfig.ProfileRegistry.AllAvailableProfiles` | dcluster/config/profile_config.py:15-22 | profiles are loaded on the first call only, and later calls return the cache |
| `ProfileConfig.ProfileRegistry.ClusterConfigForProfile` | dcluster/config/profile_config.py:104-129 | `Resolve` over the cached or freshly loaded profiles |
| `ProfileConfig.ProfileRegistry.ResolveCached` | dcluster/config/profile_config.py:109-129 | with the profiles cached, the profile alone or merged over its parent equals `Resolve`, and the cache is left as it was |
| `ProfileConfig.ProfileRegistry.InheritParent` | dcluster/config/profile_config.py:119-127 | the `extend` branch: the parent resolved by the recursive call, updated with the profile, without `extend`, equals `Resolve`, and the cache is left as it was |
| `ProfileConfig.ProfileRegistry.ResolveParent` | dcluster/config/profile_config.py:120 | the recursive call for the parent, with the profiles cached, equals `Resolve` of the parent one level shallower |
| `NodePlanner.ComputeHostname` | dcluster/node/planner.py:46-59 | the prefix followed by `index + 1` zero-padded to the width |
| `NodePlanner.ComputeHostnameInjective` | dcluster/node/planner.py:46-59 | distinct indices give distinct hostnames, whatever the width |
| `NodePlanner.ComputeHostnameWidens` | dcluster/node/planner.py:46-59 | longer numbers widen the name rather than being cut |
| `Strings.DigitsValueDecimal` | dcluster/node/planner.py:57-58 | reading back the digits `str(n)` writes gives `n`, so an integer width and its text agree |
| `Strings.DigitsValueLeadingZero` | dcluster/node/planner.py:57-58 | a leading zero in a width given as text does not change it |
| `NodePlanner.SuffixWidth` | dcluster/node/planner.py:57-58 | the width of `'{0:0%sd}' % str(suffix_len)`: a non-negative integer is its own width, a text of digits (leading zeros allowed, empty meaning none) is the number it spells; a text with a brace (a non-empty mapping, `{w}`) fails its nested field with FormatFieldError; the empty mapping and anything else is a ValueError |
| `NodePlanner.CreateComputeHostname` | dcluster/node/planner.py:46-59 | succeeds iff `compute.hostname` has a string prefix and a suffix_len `SuffixWidth` accepts, and then gives `ComputeHostname` at that width; an invalid width is reported, with `SuffixWidth`'s error, before a non-string prefix |
| `NodePlanner.CreateNodePlan` | dcluster/node/planner.py:39-44 | the container name is the cluster name, a dash and the hostname; the other fields are passed through |
| `NodePlanner.CreateBasicHeadPlan` | dcluster/node/planner.py:16-27 | the head is at the head IP with role head, and takes its hostname and image from `head` |
| `NodePlanner.CreateBasicComputePlan` | dcluster/node/planner.py:29-37 | the compute is at the given IP with role compute, the index's hostname and `compute.image` |
| `Values.Elements` | dcluster/node/planner.py:100-103 | what `list.extend` appends: a list's items, a string's characters one by one, a mapping's keys, each once; any other value is a TypeError |
| `NodePlanner.OptionalElements` | dcluster/node/planner.py:100-103 | an absent list entry contributes nothing; a list its items; a mapping exactly its keys; a value other than a list, string or mapping fails |
| `NodePlanner.RoleVolumes` | dcluster/node/planner.py:98-103 | shared volumes, then Docker volumes, each optional; `[]` when neither is there; each entry contributes what `list.extend` takes from it (a mapping its keys); it fails exactly when one of the two entries is neither a list, a string nor a mapping |
| `NodePlanner.ExtendPlan` | dcluster/node/planner.py:92-121 | the basic fields are kept; the volumes are added; the static text is the dumped `static`, or empty when there is none; systemctl is set iff the role's `systemctl` is truthy |
| `NodePlanner.CreateHeadPlan` | dcluster/node/planner.py:76-82 | the extended head keeps the head IP and the head role |
| `NodePlanner.CreateComputePlan` | dcluster/node/planner.py:84-90 | the extended compute keeps its IP, its role and the index's hostname |
| `NodePlanner.PlannedContainerNames` | dcluster/node/planner.py:39-44 | every extended plan's container is the cluster name, a dash and its hostname |
| `NodePlannerExamples.HostnamesNode001AndNode011` | dcluster/tests/node/test_planner_basic.py:17-35 | indices 0 and 10 give node001 and node011, and 1233 widens to node1234 |
| `NodePlannerExamples.SuffixWidthNestedField` | dcluster/node/planner.py:57-58 | `{'w': 3}` and "{w}" fail their nested field; `[3]` and `{}` are ValueErrors |
| `NodePlannerExamples.SuffixWidthFromText` | dcluster/node/planner.py:57-58 | "3" and "03" ask for width 3 and "" for none, like the integer 3; "-3", -3, True and None are ValueErrors |
| `ClusterPlanner.UserPlanData` | dcluster/cluster/planner.py:10-17 | every request and config key; on a shared key the configuration wins |
| `ClusterPlanner.Create` | dcluster/cluster/planner.py:176-185 | the plan holds the network and the merged plan data |
| `ClusterPlanner.AsInt` | dcluster/cluster/planner.py:133 | an integer count is itself; a bool is accepted, as Python's bools are integers; anything else is an error |
| `ClusterPlanner.VolumeName` | dcluster/cluster/planner.py:169-173 | the text before the first `:`; without a colon, all but the last character |
| `ClusterPlanner.VolumeNameWithoutColon` | dcluster/cluster/planner.py:170 | `data` becomes `dat` |
| `ClusterPlanner.VolumeNameWithColon` | dcluster/cluster/planner.py:170 | `data:/var` becomes `data` |
| `ClusterPlanner.HeadVolumeNames` | dcluster/cluster/planner.py:154-174 | one volume name per element the head's `docker_volumes` yields when iterated (a mapping yields its keys), in order, each a string; `[]` when the head has none; a missing head fails as the lookup does, a head entry that is not a list, string or mapping is a TypeError, and otherwise it fails exactly when some element is not a string, with AttributeError from `find` |
| `ClusterPlanner.ComputePlans` | dcluster/cluster/planner.py:134-136 | one compute plan per address, in order |
| `ClusterPlanner.ComputePlansAt` | dcluster/cluster/planner.py:134-135 | compute `i` is planned with index `i` at the `i`-th address |
| `ClusterPlanner.NodeMap` | dcluster/cluster/planner.py:130-136 | every node is stored under its own address; the head and every compute have an entry |
| `ClusterPlanner.NodeMapKeys` | dcluster/cluster/planner.py:130-136 | the keys are exactly the head's and the computes' addresses |
| `ClusterPlanner.NodeMapDistinct` | dcluster/cluster/planner.py:130-136 | with distinct addresses, compute count + 1 nodes, none lost |
| `ClusterPlanner.NodeMapLastWins` | dcluster/cluster/planner.py:136 | a later node at an address already used replaces the earlier one |
| `ClusterPlanner.ComputeCount` | dcluster/cluster/planner.py:133 | `plan_data['compute_count']` as an integer |
| `ClusterPlanner.SpecEntries` | dcluster/cluster/planner.py:125-126 | whichever of flavor, name and template are present, the network's `as_dict`, the bootstrap directory and the volumes |
| `ClusterPlanner.AddComputes` | dcluster/cluster/planner.py:130-136 | the loop over the compute addresses yields the head and every compute plan keyed by address, or the first planning error |
| `ClusterPlanner.BuildSpecs` | dcluster/cluster/planner.py:70-143 | the step-by-step build equals the specification `Specs` |
| `ClusterPlanner.SpecsParts` | dcluster/cluster/planner.py:120-143 | a successful build is made of the head plan, the compute IPs, their plans and the head volumes |
| `ClusterPlanner.PlannedComputes` | dcluster/cluster/planner.py:132-136 | compute `i` is a compute at the `i`-th IP with the `i`-th hostname |
| `ClusterPlanner.SpecsNodes` | dcluster/cluster/planner.py:128-136 | for counts other than -1: the head plan at the head IP and no other head, every key its node's address, one node per compute IP plus the head, and the node at the `i`-th compute IP a compute with the `i`-th hostname |
| `ClusterPlanner.SpecsRoles` | dcluster/cluster/planner.py:128-136 | every node is a head or a compute |
| `ClusterPlanner.SpecsNodeCount` | dcluster/cluster/planner.py:128-136 | a non-negative count yields count + 1 nodes |
| `ClusterPlanner.SpecsTooSmall` | dcluster/cluster/planner.py:133 | more computes than the subnet holds make the build fail with NetworkSubnetTooSmall |
| `ClusterPlanner.SpecsMinusOneLosesHead` | dcluster/cluster/planner.py:130-136 | with count -1 every node is a compute, because the last compute overwrites the head |
| `ClusterPlanner.PlanAsDict` | dcluster/cluster/planner.py:145-152 | whichever of name, head, compute and template are present, plus the network's `as_dict` |
| `Blueprint.Pick` | dcluster/cluster/blueprint.py:16-20 | the nodes stored under the given keys, in the keys' order |
| `Blueprint.OrderedCovers` | dcluster/cluster/blueprint.py:15-20 | the ordered list has one node per key, every stored node and no other |
| `Blueprint.OrderedByAddress` | dcluster/cluster/blueprint.py:15 | nodes keyed by their address come out in strictly ascending string order |
| `Blueprint.AddressesSortAsStrings` | dcluster/cluster/blueprint.py:15 | "10.0.0.10" sorts before "10.0.0.9" |
| `Blueprint.Filter` | dcluster/cluster/blueprint.py:44-48 | exactly the nodes with the role |
| `Blueprint.FilterAppend` | dcluster/cluster/blueprint.py:44-48 | the filter keeps the list's order |
| `Blueprint.First` | dcluster/cluster/blueprint.py:51-62 | the first node with the role; IndexError iff there is none |
| `Blueprint.ClusterBlueprint.constructor` | dcluster/cluster/blueprint.py:10-20 | keeps the network and specs and lists the nodes in sorted key order |
| `Blueprint.ClusterBlueprint.Name` | dcluster/cluster/blueprint.py:33-38 | `specs['name']`, or KeyError |
| `Blueprint.ClusterBlueprint.NodesByRole` | dcluster/cluster/blueprint.py:40-48 | exactly the ordered nodes with the role |
| `Blueprint.ClusterBlueprint.HeadNode` | dcluster/cluster/blueprint.py:50-55 | a head among the nodes; IndexError iff there is none |
| `Blueprint.ClusterBlueprint.GatewayNode` | dcluster/cluster/blueprint.py:57-62 | a gateway among the nodes; IndexError iff there is none |
| `Blueprint.ClusterBlueprint.ComputeNodes` | dcluster/cluster/blueprint.py:64-69 | exactly the computes |
| `Blueprint.ClusterBlueprint.AsDict` | dcluster/cluster/blueprint.py:77-81 | the specs, unchanged |
| `Blueprint.PlannedHeadNode` | dcluster/cluster/blueprint.py:50-55 | for counts other than -1, a planned blueprint's head is the planned head |
| `Blueprint.PlannedWithoutHead` | dcluster/cluster/blueprint.py:50-55 | with count -1 the blueprint's `head_node` fails |
| `Blueprint.PlannedWithoutGateway` | dcluster/cluster/blueprint.py:57-62 | a planned blueprint's `gateway_node` always fails |
| `Blueprint.WithoutRole` | dcluster/cluster/blueprint.py:44-55 | a role no node has yields IndexError |
| `Blueprint.PlannedComputeNodes` | dcluster/cluster/blueprint.py:64-69 | for counts other than -1, the node at every compute IP is among the blueprint's computes |
| `Inventory.DictForNode` | dcluster/dansible/inventory.py:130-132 | exactly hostname, container and image of the node |
| `Inventory.Groups` | dcluster/dansible/inventory.py:122-126 | one group per role that some node has |
| `Inventory.WithRole` | dcluster/dansible/inventory.py:134-136 | a missing role gets an empty group, and every existing group is kept with its hosts; the roles are the old ones plus the new one |
| `Inventory.Hosts` | dcluster/dansible/inventory.py:117-120 | one host entry per node key, holding that node's dictionary |
| `Inventory.Wrap` | dcluster/dansible/inventory.py:126 | one `children` entry per group |
| `Inventory.ChildrenByRole` | dcluster/dansible/inventory.py:122-136 | a group exists iff some node has the role; a key is in a group iff its node has that role, and its value is None |
| `Inventory.Vars` | dcluster/dansible/inventory.py:107-112 | cluster_flavor, name, network and template copied from the specs, else a KeyError for the first one missing |
| `Inventory.Assemble` | dcluster/dansible/inventory.py:103-114 | `all` holds hosts, children and vars |
| `Inventory.InventoryOf` | dcluster/dansible/inventory.py:103-128 | the inventory of the specs, or the missing key |
| `Inventory.PlannedGroups` | dcluster/dansible/inventory.py:122-126 | a planned cluster's groups are head and compute, and the head group is the head IP alone |
| `Inventory.AnsibleInventory.constructor` | dcluster/dansible/inventory.py:15-17 | no inventory built yet |
| `Inventory.AnsibleInventory.AddRoleIfNeeded` | dcluster/dansible/inventory.py:134-136 | the groups gain an empty group for a new role |
| `Inventory.AnsibleInventory.AddNodes` | dcluster/dansible/inventory.py:117-126 | the loop builds the hosts and the groups of all the nodes |
| `Inventory.AnsibleInventory.CreateDict` | dcluster/dansible/inventory.py:19-128 | the inventory is `InventoryOf(specs)`; on success it is stored and `self.children` holds the role groups of the nodes, `Groups(specs.nodes)`; a missing vars key raises before either field changes |
| `Inventory.AnsibleInventory.ToYaml` | dcluster/dansible/inventory.py:138-140 | builds the inventory only if it has not been built; a stored inventory is returned with both fields unchanged, otherwise the fields change as `CreateDict` changes them |
| `Format.Row` | dcluster/cluster/format.py:16 | `'  {:15}{:16}{:25}'`: two spaces, then the three fields padded to widths 15, 16 and 25, a longer field widening the row rather than being cut |
| `Format.RowColumns` | dcluster/cluster/format.py:16 | each field starts at its column and is followed by spaces up to its width |
| `Format.NodeRows` | dcluster/cluster/format.py:24-29 | one row per node, in order |
| `Format.InsertByHostname` | dcluster/cluster/format.py:22 | insertion adds exactly the node: the result is a permutation of the list plus the node |
| `Format.InsertSorted` | dcluster/cluster/format.py:22 | inserting into a list sorted by hostname keeps it sorted |
| `Format.SortByHostname` | dcluster/cluster/format.py:22 | sorted by hostname and a permutation of the nodes |
| `Format.SortedByHostnameUnique` | dcluster/cluster/format.py:22 | with distinct hostnames, the sorted arrangement is unique |
| `Format.LinesLayout` | dcluster/cluster/format.py:10-32 | six header lines, then one row per node in hostname order, then an empty line |
| `Format.FormatCluster` | dcluster/cluster/format.py:9-33 | the text built line by line equals the lines of `LinesLayout` joined by newlines |
| `Format.FormatEndsWithNewline` | dcluster/cluster/format.py:31-33 | the text always ends with a newline |
| `FormatExamples.RowTitle` | dcluster/tests/cluster/test_format_simple.py:32 | the column title row |
| `FormatExamples.TestHeader` | dcluster/tests/cluster/test_format_simple.py:28-33 | the six header lines of the test cluster |
| `FormatExamples.NoNodes` | dcluster/tests/cluster/test_format_simple.py:16-35 | no nodes: the header block and a final empty line |
| `FormatExamples.SortFour` | dcluster/tests/cluster/test_format_simple.py:37-66 | node001, node002, head, gateway sort as gateway, head, node001, node002 |
| `FormatExamples.RowGateway` | dcluster/tests/cluster/test_format_simple.py:60 | the gateway row |
| `FormatExamples.RowHead` | dcluster/tests/cluster/test_format_simple.py:61 | the head row |
| `FormatExamples.RowNode001` | dcluster/tests/cluster/test_format_simple.py:62 | the node001 row |
| `FormatExamples.RowNode002` | dcluster/tests/cluster/test_format_simple.py:63 | the node002 row |
| `Ssh.SplitPair` | dcluster/cli/ssh.py:60 | two-name unpacking of `split(c)` succeeds iff `c` occurs exactly once, giving the text before and after it; otherwise ValueError |
| `Ssh.SplitPairJoin` | dcluster/cli/ssh.py:60 | splitting `a + c + b` gives back `a` and `b` when neither holds `c` |
| `Ssh.SplitUser` | dcluster/cli/ssh.py:58-63 | with an `@`, the user before it and the rest after it; without one, the default user and the whole target |
| `Ssh.SplitDir` | dcluster/cli/ssh.py:65-67 | with a `:`, the hostname before it and the directory after it; without one, an empty directory |
| `Ssh.InterpretSshArgs` | dcluster/cli/ssh.py:54-69 | succeeds iff there is at most one `@` and at most one `:` after it; the cluster name passes through; user, hostname and directory are the pieces around the separators |
| `Ssh.ParseUnparse` | dcluster/cli/ssh.py:54-69 | writing a parsed target back out gives the original text |
| `Ssh.UnparseParse` | dcluster/cli/ssh.py:54-69 | a target written from separator-free parts parses back to them |
| `Ssh.ScpFilesIdempotent` | dcluster/cli/ssh.py:46-49 | wrapping the file list a second time changes nothing: a list of files is passed through as it is |
| `Ssh.ScpCall` | dcluster/cli/ssh.py:38-51 | the interpreted target, and files that are those of the list or the single value, as `ScpFiles` wraps them |
| `SshExamples.UserHostAndDir` | dcluster/cli/ssh.py:54-69 | `root@node001:/tmp` is user root, host node001, directory /tmp |
| `SshExamples.HostOnly` | dcluster/cli/ssh.py:61-63 | `head` is the default user on head, with no directory |
| `SshExamples.TwoUsers` | dcluster/cli/ssh.py:60 | `a@b@head` raises ValueError |
| `SshExamples.TwoDirs` | dcluster/cli/ssh.py:67 | `head:/a:/b` raises ValueError |

## Left out

- The Docker SDK is replaced by a stub, `DockerFacade.DockerRuntime`:
  - Docker's network list, network creation, container listing and `attrs` parsing are not modelled.
  - `get_subnet`, `from_existing`, the running/stopped container queries and `DockerClusterNetwork`'s `remove`, `id` and `containers` are not modelled.
  - The stub refuses a creation only when the subnet overlaps an existing network. Docker's other API errors are not modelled.
- `DockerFacade.DockerRuntime.Create`: does not model the driver and attachable options passed to Docker, which change nothing the core reads.
- Settings are parameters: the network prefix, the gateway name, the default ssh user, the bootstrap directory and the profile places. The main configuration, its environment toggles and `expanduser` are not modelled.
- File system and YAML:
  - The file listing and the YAML loader of the profile files are parameters.
  - The YAML dumper of the static text is a parameter too.
  - Writing the inventory to a file, and Jinja rendering, are not modelled.
- `Collection.Merge`: a non-empty update of a target that is not a dictionary is reported as TypeError. Python raises AttributeError instead when the update's first key, in dictionary order, holds a dictionary, since the target has no `get`; dictionary order is not modelled.
- `ProfileConfig.Resolve`: Python's recursion limit is the `depth` parameter, so cycles longer than a direct self-reference end in RecursionError rather than an interpreter crash.
- YAML values are modelled as null, booleans, integers, strings, lists and mappings with string keys. Floating-point numbers, dates and mappings with keys other than strings cannot be expressed, so what the code does with them is not modelled.
- Python dictionaries are values. Deep copies are the identity, and in-place aliasing is not modelled. The nested dictionaries the inventory shares with `self.children` are instead assembled at the end.
- Dictionary iteration order is not modelled for `map` values. The formatter's input is a sequence of node records in dictionary order.
- `Format.SortByHostname`: does not state that equal hostnames keep their dictionary order (Python's sort is stable). Its uniqueness lemma covers distinct hostnames only.
- Format inputs are deployed-cluster records (hostname, address and container name). A missing key and `%s` of a non-string are not modelled.
- `Blueprint.ClusterBlueprint.HeadNode`: states membership and role only. That it is the first head in key order is stated by `Blueprint.First`, which it calls.
- `Blueprint.ClusterBlueprint.NodesByRole`: states membership only. That the nodes keep the key order of `orderedNodes` is what `Blueprint.Filter` does, and `Blueprint.FilterAppend` states that filtering keeps the order of concatenated parts.
- `Blueprint.ClusterBlueprint.ComputeNodes`: states membership only. The order is that of `NodesByRole`, as above.
- `ClusterPlanner.HeadVolumeNames`: a head that is not a mapping is a TypeError here. Python's `in` test on a string or list head can pass and give no volumes. Within `BuildSpecs` the head plan has already read the head's `hostname`, so there the head is a mapping.
- `Values.Elements`: gives a mapping's keys in ascending order. Python gives them in insertion order, which `map` values do not record; the contract states which keys, and how many, not their order.
- `Blueprint.ClusterBlueprint.GatewayNode`: states membership and role only. That it is the first gateway in key order is stated by `Blueprint.First`.
- The blueprint's `deploy` and `format` methods, `DefaultClusterPlan.create_blueprints`, and the command-line plumbing of `ssh`/`scp` (argparse, `os.system`) are not modelled.
- Exception kinds are one `Error` datatype. Python errors that would escape, such as a KeyError, TypeError or NameError, are reported by kind. Their messages and logging are not modelled.
- `NodePlanner.SuffixWidth`: accepts a text `suffix_len` only when it is a run of digits. Python's format mini-language also accepts some other texts, which are a ValueError here: `>5` pads with zeros, `<5` pads on the right and `3,` groups the digits. A text with a brace is one FormatFieldError here. Python tells these apart by the nested field: a name such as `{w}`, or a mapping's quoted first key, raises KeyError; a number other than 0 raises IndexError; an empty or malformed field raises ValueError; and `{0}` even succeeds, with `index + 1` as the width. The empty mapping's ValueError is modelled exactly.
- `collections.Mapping` is gone from Python 3.10. The model follows the older behaviour, where the check succeeds.
- `DefaultPlannedNode` is not defined in `dcluster/node/__init__.py` as shown. The model gives the extended node the fields `extend_plan` builds.
- `Networking.NetworkFactory.Create`: requires a supernet shorter than /32 and a prefix of at most /30, because a /31 or /32 candidate has no usable hosts in this model (see `Ipv4.Hosts`).
- `Ipv4.Hosts`: covers prefixes up to /30. Python's `hosts()` for /31 and /32 returns every address, which is not modelled.
- Older parallel copies of the same rules elsewhere in the repository are not modelled.
