/**
 * Naming policy of dcluster's Docker objects, the label-based role lookup, and the few
 * network queries the allocator needs, over a small stub of the Docker runtime.
 * The network prefix comes from the main configuration and is passed in as `prefix`.
 */
module DockerFacade {
  import opened Wrappers
  import opened Values
  import opened Strings
  import opened Ipv4

  /** Network name of a cluster: prefix, a dash, the cluster name. */
  function NetworkName(prefix: string, clusterName: string): (r: string)
    ensures |r| == |prefix| + 1 + |clusterName|
    ensures prefix <= r && r[|prefix|] == '-' && r[|prefix| + 1..] == clusterName
  {
    prefix + "-" + clusterName
  }

  /** Container name of a node: cluster name, a dash, the hostname. */
  function ContainerName(clusterName: string, hostname: string): (r: string)
    ensures |r| == |clusterName| + 1 + |hostname|
    ensures clusterName <= r && r[|clusterName|] == '-' && r[|clusterName| + 1..] == hostname
  {
    clusterName + "-" + hostname
  }

  /** Within one cluster, distinct hostnames give distinct container names. */
  lemma ContainerNameInjective(clusterName: string, h1: string, h2: string)
    requires ContainerName(clusterName, h1) == ContainerName(clusterName, h2)
    ensures h1 == h2
  {
    assert h1 == ContainerName(clusterName, h1)[|clusterName| + 1..];
  }

  /**
   * What `deduce_cluster_name` may be given: a planned cluster network (it has a
   * `network_name`), a Docker network handle (it has a `name`), or any other value.
   */
  datatype NetworkRef =
    | Planned(networkName: string)
    | Handle(name: string)
    | Plain(v: Value)

  /**
   * The name string taken from a reference. The test of a value that is not a `str` goes on
   * to `isinstance(network_name, unicode)`, and `unicode` is not defined under Python 3: a
   * NameError, so the assertion after it is never reached.
   */
  function RefName(ref: NetworkRef): (r: Result<string, Error>)
    ensures ref.Planned? ==> r == Ok(ref.networkName)
    ensures ref.Handle? ==> r == Ok(ref.name)
    ensures ref.Plain? ==> (r.Ok? <==> ref.v.Str?) && (r.Ok? ==> r.value == ref.v.s)
    ensures r.Err? ==> r.error == NameError
  {
    match ref
    case Planned(n) => Ok(n)
    case Handle(n) => Ok(n)
    case Plain(v) => if v.Str? then Ok(v.s) else Err(NameError)
  }

  /**
   * The cluster name encoded in a network name. A name owns the cluster only if `find(prefix)`
   * is 0; the result then drops `len(prefix) + 1` characters, a slice that clamps at the end.
   */
  function DeduceClusterName(prefix: string, ref: NetworkRef): (r: Result<string, Error>)
    ensures r.Ok? <==> RefName(ref).Ok? && prefix <= RefName(ref).value
    ensures RefName(ref).Ok? && !(prefix <= RefName(ref).value) ==> r == Err(NotFromDcluster)
    ensures r.Ok? && |RefName(ref).value| > |prefix| ==>
      r.value == RefName(ref).value[|prefix| + 1..]
    ensures r.Ok? && |RefName(ref).value| == |prefix| ==> r.value == ""
  {
    var name :- RefName(ref);
    if FindSubstring(name, prefix) != 0 then Err(NotFromDcluster)
    else Ok(name[Min(|prefix| + 1, |name|)..])
  }

  function Min(a: int, b: int): int
  {
    if a < b then a else b
  }

  /** Decoding the name of a cluster's network gives the cluster name back, whatever the reference. */
  lemma DeduceNetworkName(prefix: string, clusterName: string)
    ensures DeduceClusterName(prefix, Plain(Str(NetworkName(prefix, clusterName)))) == Ok(clusterName)
    ensures DeduceClusterName(prefix, Handle(NetworkName(prefix, clusterName))) == Ok(clusterName)
    ensures DeduceClusterName(prefix, Planned(NetworkName(prefix, clusterName))) == Ok(clusterName)
  {
  }

  /**
   * Only the prefix is tested, not the dash after it: whatever character follows the prefix is
   * dropped, so `prefix + "x" + rest` is owned and decodes to `rest`.
   */
  lemma DeduceSkipsAnySeparator(prefix: string, sep: char, rest: string)
    ensures DeduceClusterName(prefix, Plain(Str(prefix + [sep] + rest))) == Ok(rest)
  {
    var name := prefix + [sep] + rest;
    assert name[|prefix| + 1..] == rest;
  }

  /** `is_dcluster_network`: any exception from `deduce_cluster_name` means "not ours". */
  predicate IsDclusterNetwork(prefix: string, ref: NetworkRef)
  {
    DeduceClusterName(prefix, ref).Ok?
  }

  lemma IsDclusterNetworkIff(prefix: string, ref: NetworkRef)
    ensures IsDclusterNetwork(prefix, ref) <==> RefName(ref).Ok? && prefix <= RefName(ref).value
  {
  }

  const RoleLabel: string := "bull.com.dcluster.role"

  /** `DockerContainers.role`: the value of the role label, or None when the label is absent. */
  function Role(labels: map<string, string>): (r: Option<string>)
    ensures r.Some? <==> RoleLabel in labels
    ensures r.Some? ==> r.value == labels[RoleLabel]
  {
    if RoleLabel in labels then Some(labels[RoleLabel]) else None
  }

  /** A Docker network as the runtime reports it: name, IPAM subnet and gateway address. */
  datatype DockerNetwork = DockerNetwork(name: string, subnet: Block, gateway: string)

  /** The error the Docker API raises when a new network's address pool overlaps another's. */
  datatype ApiError = PoolOverlaps

  /** The subnet of `block` overlaps the subnet of some network in `nets`. */
  predicate SubnetInUse(nets: seq<DockerNetwork>, block: Block)
  {
    exists i :: 0 <= i < |nets| && Overlaps(nets[i].subnet, block)
  }

  /**
   * Stub of the Docker daemon's network table. Creation refuses an address pool that overlaps
   * an existing one; every creation request is logged in `attempts`.
   */
  class DockerRuntime {
    var networks: seq<DockerNetwork>
    var attempts: seq<Block>

    /** Every subnet is a well-formed block and no two networks share an address. */
    ghost predicate Valid()
      reads this
    {
      && (forall i :: 0 <= i < |networks| ==> ValidBlock(networks[i].subnet))
      && (forall i, j :: 0 <= i < j < |networks| ==> !Overlaps(networks[i].subnet, networks[j].subnet))
    }

    constructor (initial: seq<DockerNetwork>)
      requires forall i :: 0 <= i < |initial| ==> ValidBlock(initial[i].subnet)
      requires forall i, j :: 0 <= i < j < |initial| ==> !Overlaps(initial[i].subnet, initial[j].subnet)
      ensures Valid() && networks == initial && attempts == []
    {
      networks := initial;
      attempts := [];
    }

    /** `client.networks.create(name, ipam=...)`. */
    method Create(name: string, subnet: Block, gateway: string) returns (r: Result<DockerNetwork, ApiError>)
      requires Valid() && ValidBlock(subnet)
      modifies this
      ensures Valid()
      ensures attempts == old(attempts) + [subnet]
      ensures r.Err? <==> SubnetInUse(old(networks), subnet)
      ensures r.Err? ==> networks == old(networks)
      ensures r.Ok? ==> r.value == DockerNetwork(name, subnet, gateway)
      ensures r.Ok? ==> networks == old(networks) + [r.value]
    {
      attempts := attempts + [subnet];
      if SubnetInUse(networks, subnet) {
        r := Err(PoolOverlaps);
      } else {
        var net := DockerNetwork(name, subnet, gateway);
        networks := networks + [net];
        r := Ok(net);
      }
    }
  }

  /** `all_dcluster_networks`: the owned networks, in the runtime's order. */
  function DclusterNetworks(prefix: string, nets: seq<DockerNetwork>): (r: seq<DockerNetwork>)
    ensures |r| <= |nets|
    ensures forall n :: n in r <==> n in nets && IsDclusterNetwork(prefix, Handle(n.name))
  {
    if nets == [] then []
    else
      var rest := DclusterNetworks(prefix, nets[1..]);
      assert forall n :: n in nets <==> n == nets[0] || n in nets[1..];
      if IsDclusterNetwork(prefix, Handle(nets[0].name)) then [nets[0]] + rest else rest
  }

  /** The filter distributes over concatenation, so it keeps the input's relative order. */
  lemma {:induction false} DclusterNetworksAppend(prefix: string, a: seq<DockerNetwork>, b: seq<DockerNetwork>)
    ensures DclusterNetworks(prefix, a + b) == DclusterNetworks(prefix, a) + DclusterNetworks(prefix, b)
  {
    if a == [] {
      assert a + b == b;
    } else {
      assert (a + b)[0] == a[0];
      assert (a + b)[1..] == a[1..] + b;
      DclusterNetworksAppend(prefix, a[1..], b);
    }
  }

  /** Position of the first network called `name`, if any. */
  function FirstNamed(nets: seq<DockerNetwork>, name: string): (r: Option<nat>)
    ensures r.Some? ==> r.value < |nets| && nets[r.value].name == name
    ensures r.Some? ==> forall j :: 0 <= j < r.value ==> nets[j].name != name
    ensures r.None? ==> forall j :: 0 <= j < |nets| ==> nets[j].name != name
  {
    if nets == [] then None
    else if nets[0].name == name then Some(0)
    else match FirstNamed(nets[1..], name)
      case None => None
      case Some(k) => Some(k + 1)
  }

  /**
   * `find_network`: scans the dcluster networks for the first whose name is the cluster's
   * network name; none found raises NotFromDcluster.
   */
  method FindNetwork(rt: DockerRuntime, prefix: string, clusterName: string) returns (r: Result<DockerNetwork, Error>)
    ensures var nets := DclusterNetworks(prefix, rt.networks);
      match FirstNamed(nets, NetworkName(prefix, clusterName))
      case None => r == Err(NotFromDcluster)
      case Some(k) => r == Ok(nets[k])
  {
    var name := NetworkName(prefix, clusterName);
    var networks := DclusterNetworks(prefix, rt.networks);
    var withName: Option<DockerNetwork> := None;
    var i := 0;
    while i < |networks|
      invariant 0 <= i <= |networks|
      invariant withName.None?
      invariant forall j :: 0 <= j < i ==> networks[j].name != name
    {
      if networks[i].name == name {
        withName := Some(networks[i]);
        break;
      }
      i := i + 1;
    }
    if withName.None? {
      FirstNamedNone(networks, name);
      r := Err(NotFromDcluster);
    } else {
      FirstNamedAt(networks, name, i);
      r := Ok(withName.value);
    }
  }

  lemma {:induction false} FirstNamedAt(nets: seq<DockerNetwork>, name: string, i: nat)
    requires i < |nets| && nets[i].name == name
    requires forall j :: 0 <= j < i ==> nets[j].name != name
    ensures FirstNamed(nets, name) == Some(i)
  {
    if i > 0 {
      assert nets[0].name != name;
      assert forall j :: 0 <= j < i - 1 ==> nets[1..][j] == nets[j + 1];
      FirstNamedAt(nets[1..], name, i - 1);
    }
  }

  lemma FirstNamedNone(nets: seq<DockerNetwork>, name: string)
    requires forall j :: 0 <= j < |nets| ==> nets[j].name != name
    ensures FirstNamed(nets, name).None?
  {
  }

  /** A network carrying the cluster's network name always passes the ownership filter. */
  lemma FindIgnoresFilter(prefix: string, clusterName: string, nets: seq<DockerNetwork>)
    ensures FirstNamed(DclusterNetworks(prefix, nets), NetworkName(prefix, clusterName)).None?
        <==> FirstNamed(nets, NetworkName(prefix, clusterName)).None?
  {
    var name := NetworkName(prefix, clusterName);
    DeduceNetworkName(prefix, clusterName);
    var owned := DclusterNetworks(prefix, nets);
    if FirstNamed(nets, name).Some? {
      var n := nets[FirstNamed(nets, name).value];
      assert n in owned;
      var k :| 0 <= k < |owned| && owned[k] == n;
      assert owned[k].name == name;
    } else {
      forall j | 0 <= j < |owned|
        ensures owned[j].name != name
      {
        assert owned[j] in nets;
      }
    }
  }

  /** `create_network`: any API error from the runtime becomes NetworkSubnetTaken. */
  method CreateNetwork(rt: DockerRuntime, networkName: string, subnet: Block, gatewayIp: string)
    returns (r: Result<DockerNetwork, Error>)
    requires rt.Valid() && ValidBlock(subnet)
    modifies rt
    ensures rt.Valid()
    ensures rt.attempts == old(rt.attempts) + [subnet]
    ensures r.Err? <==> SubnetInUse(old(rt.networks), subnet)
    ensures r.Err? ==> r.error == NetworkSubnetTaken && rt.networks == old(rt.networks)
    ensures r.Ok? ==> r.value == DockerNetwork(networkName, subnet, gatewayIp)
    ensures r.Ok? ==> rt.networks == old(rt.networks) + [r.value]
  {
    var created := rt.Create(networkName, subnet, gatewayIp);
    if created.Err? {
      r := Err(NetworkSubnetTaken);
    } else {
      r := Ok(created.value);
    }
  }
}
