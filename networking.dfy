/**
 * The address plan of one cluster subnet (`ClusterNetwork`) and the allocator that walks
 * the supernet's subnets until Docker accepts one (`DockerClusterNetworkFactory`).
 */
module Networking {
  import opened Wrappers
  import opened Values
  import opened Strings
  import opened Ipv4
  import opened DockerFacade

  /** Settings read from the main configuration's `networking` section. */
  datatype NetworkSettings = NetworkSettings(prefix: string, gateway: string)

  /** A planned cluster network: a subnet with at least two usable hosts, and a cluster name. */
  datatype ClusterNetwork = ClusterNetwork(subnet: Block, clusterName: string)

  predicate ValidNetwork(cn: ClusterNetwork)
  {
    HostBlock(cn.subnet)
  }

  /** `all_ip_addresses`: the usable hosts of the subnet. */
  function AllIpAddresses(cn: ClusterNetwork): (hs: seq<nat>)
    requires ValidNetwork(cn)
    ensures |hs| == BlockSize(cn.subnet.prefix) - 2 && |hs| >= 2
    ensures forall i :: 0 <= i < |hs| ==> hs[i] == cn.subnet.base + 1 + i && hs[i] < AddressCount
  {
    Hosts(cn.subnet)
  }

  /** The gateway's address: the last usable host. */
  function GatewayAddress(cn: ClusterNetwork): (a: nat)
    requires ValidNetwork(cn)
    ensures a == Broadcast(cn.subnet) - 1 && a < AddressCount
  {
    var hs := AllIpAddresses(cn);
    hs[|hs| - 1]
  }

  /** The head's address: the second-to-last usable host. */
  function HeadAddress(cn: ClusterNetwork): (a: nat)
    requires ValidNetwork(cn)
    ensures a == Broadcast(cn.subnet) - 2 && a < AddressCount
    ensures a != GatewayAddress(cn) && a != cn.subnet.base
  {
    var hs := AllIpAddresses(cn);
    hs[|hs| - 2]
  }

  function GatewayIp(cn: ClusterNetwork): string
    requires ValidNetwork(cn)
  {
    FormatIp(GatewayAddress(cn))
  }

  function HeadIp(cn: ClusterNetwork): string
    requires ValidNetwork(cn)
  {
    FormatIp(HeadAddress(cn))
  }

  /** The gateway and the head hold the subnet's two highest usable addresses. */
  lemma GatewayAndHeadAreLastHosts(cn: ClusterNetwork)
    requires ValidNetwork(cn)
    ensures GatewayAddress(cn) in Hosts(cn.subnet) && HeadAddress(cn) in Hosts(cn.subnet)
    ensures forall a :: a in Hosts(cn.subnet) && a != GatewayAddress(cn) ==> a < GatewayAddress(cn)
    ensures forall a :: a in Hosts(cn.subnet) && a != GatewayAddress(cn) && a != HeadAddress(cn) ==>
      a < HeadAddress(cn)
    ensures HeadIp(cn) != GatewayIp(cn)
  {
    forall a | a in Hosts(cn.subnet)
      ensures a <= GatewayAddress(cn)
    {
      HostsAreUsable(cn.subnet, a);
    }
    HostsAreUsable(cn.subnet, GatewayAddress(cn));
    HostsAreUsable(cn.subnet, HeadAddress(cn));
    if HeadIp(cn) == GatewayIp(cn) {
      FormatIpInjective(HeadAddress(cn), GatewayAddress(cn));
    }
  }

  /**
   * `all_ip_addresses[:count]` for a Python integer: a negative count drops that many
   * addresses from the end, clamping at the start.
   */
  function TakePrefix(hs: seq<nat>, count: int): (r: seq<nat>)
    ensures r <= hs
    ensures count >= 0 ==> |r| == (if count <= |hs| then count else |hs|)
    ensures count < 0 ==> |hs| - |r| == (if -count <= |hs| then -count else |hs|)
  {
    if count >= 0 then hs[..if count <= |hs| then count else |hs|]
    else hs[..if |hs| + count >= 0 then |hs| + count else 0]
  }

  /** The addresses of `count` compute nodes, or NetworkSubnetTooSmall. */
  function ComputeAddresses(cn: ClusterNetwork, count: int): (r: Result<seq<nat>, Error>)
    requires ValidNetwork(cn)
    ensures r.Err? <==> count > |AllIpAddresses(cn)| - 2
    ensures r.Err? ==> r.error == NetworkSubnetTooSmall
    ensures r.Ok? && count >= 0 ==> r.value == AllIpAddresses(cn)[..count]
    ensures r.Ok? && count < 0 ==> r.value <= AllIpAddresses(cn)
    ensures r.Ok? && count < 0 ==>
      |AllIpAddresses(cn)| - |r.value| == (if -count <= |AllIpAddresses(cn)| then -count else |AllIpAddresses(cn)|)
  {
    var hs := AllIpAddresses(cn);
    if count > |hs| - 2 then Err(NetworkSubnetTooSmall)
    else Ok(TakePrefix(hs, count))
  }

  /** `compute_ips(count)`: the addresses of `ComputeAddresses`, rendered. */
  function ComputeIps(cn: ClusterNetwork, count: int): (r: Result<seq<string>, Error>)
    requires ValidNetwork(cn)
    ensures r.Err? <==> ComputeAddresses(cn, count).Err?
    ensures r.Err? ==> r.error == NetworkSubnetTooSmall
    ensures r.Ok? ==> |r.value| == |ComputeAddresses(cn, count).value|
    ensures r.Ok? ==> forall i :: 0 <= i < |r.value| ==>
      ComputeAddresses(cn, count).value[i] < AddressCount &&
      r.value[i] == FormatIp(ComputeAddresses(cn, count).value[i])
  {
    var addrs :- ComputeAddresses(cn, count);
    Ok(seq(|addrs|, i requires 0 <= i < |addrs| => FormatIp(addrs[i])))
  }

  /**
   * For `0 <= count <= hosts - 2`, compute `i` gets the subnet's `i + 1`-th address, so the
   * compute addresses ascend from the first usable host and stay below the head.
   */
  lemma ComputeAddressesAscend(cn: ClusterNetwork, count: int, i: nat)
    requires ValidNetwork(cn) && 0 <= count && ComputeAddresses(cn, count).Ok?
    requires i < count
    ensures |ComputeAddresses(cn, count).value| == count
    ensures ComputeAddresses(cn, count).value[i] == cn.subnet.base + 1 + i
    ensures ComputeAddresses(cn, count).value[i] < HeadAddress(cn)
  {
  }

  /**
   * Compute IPs are pairwise distinct and never the head's or the gateway's, except for a count
   * of -1, which the capacity check lets through.
   */
  lemma ComputeIpsDisjoint(cn: ClusterNetwork, count: int, i: nat, j: nat)
    requires ValidNetwork(cn) && ComputeIps(cn, count).Ok? && count != -1
    requires i < |ComputeIps(cn, count).value| && j < |ComputeIps(cn, count).value|
    ensures ComputeIps(cn, count).value[i] != HeadIp(cn)
    ensures ComputeIps(cn, count).value[i] != GatewayIp(cn)
    ensures i != j ==> ComputeIps(cn, count).value[i] != ComputeIps(cn, count).value[j]
  {
    var addrs := ComputeAddresses(cn, count).value;
    var ips := ComputeIps(cn, count).value;
    var hs := AllIpAddresses(cn);
    assert addrs == TakePrefix(hs, count);
    assert |addrs| <= |hs| - 2;
    assert addrs[i] == hs[i] && addrs[j] == hs[j];
    if ips[i] == HeadIp(cn) {
      FormatIpInjective(addrs[i], HeadAddress(cn));
    }
    if ips[i] == GatewayIp(cn) {
      FormatIpInjective(addrs[i], GatewayAddress(cn));
    }
    if i != j && ips[i] == ips[j] {
      FormatIpInjective(addrs[i], addrs[j]);
    }
  }

  /** Compute IPs are pairwise distinct for every count the capacity check lets through. */
  lemma ComputeIpsDistinct(cn: ClusterNetwork, count: int, i: nat, j: nat)
    requires ValidNetwork(cn) && ComputeIps(cn, count).Ok?
    requires i < j < |ComputeIps(cn, count).value|
    ensures ComputeIps(cn, count).value[i] != ComputeIps(cn, count).value[j]
  {
    var addrs := ComputeAddresses(cn, count).value;
    var hs := AllIpAddresses(cn);
    assert addrs == TakePrefix(hs, count);
    assert addrs[i] == hs[i] && addrs[j] == hs[j];
    if ComputeIps(cn, count).value[i] == ComputeIps(cn, count).value[j] {
      FormatIpInjective(addrs[i], addrs[j]);
    }
  }

  /** A count of -1 passes the check and slices off only the gateway, so the head's IP is handed out. */
  lemma ComputeIpsMinusOne(cn: ClusterNetwork)
    requires ValidNetwork(cn)
    ensures ComputeIps(cn, -1).Ok?
    ensures |ComputeIps(cn, -1).value| == |AllIpAddresses(cn)| - 1
    ensures HeadIp(cn) in ComputeIps(cn, -1).value
  {
    var ips := ComputeIps(cn, -1).value;
    var hs := AllIpAddresses(cn);
    assert ips[|hs| - 2] == HeadIp(cn);
  }

  /** `ip_address()`: the subnet in CIDR notation. */
  function IpAddress(cn: ClusterNetwork): string
    requires cn.subnet.base < AddressCount
  {
    FormatBlock(cn.subnet)
  }

  function ClusterNetworkName(settings: NetworkSettings, cn: ClusterNetwork): string
  {
    NetworkName(settings.prefix, cn.clusterName)
  }

  /** `as_dict()`: the network entry of the cluster specs. */
  function AsDict(settings: NetworkSettings, cn: ClusterNetwork): (d: map<string, Value>)
    requires ValidNetwork(cn)
    ensures d.Keys == {"name", "address", "gateway", "gateway_ip"}
    ensures d["name"] == Str(ClusterNetworkName(settings, cn))
    ensures d["address"] == Str(IpAddress(cn))
    ensures d["gateway"] == Str(settings.gateway)
    ensures d["gateway_ip"] == Str(GatewayIp(cn))
  {
    map["name" := Str(ClusterNetworkName(settings, cn)),
        "address" := Str(IpAddress(cn)),
        "gateway" := Str(settings.gateway),
        "gateway_ip" := Str(GatewayIp(cn))]
  }

  /** The cluster name is recovered from the network entry's name. */
  lemma AsDictNameDecodes(settings: NetworkSettings, cn: ClusterNetwork)
    requires ValidNetwork(cn)
    ensures DeduceClusterName(settings.prefix, Plain(AsDict(settings, cn)["name"])) == Ok(cn.clusterName)
  {
    DeduceNetworkName(settings.prefix, cn.clusterName);
  }

  /**
   * `generator(supernet, cidr_bits, cluster_name)`, materialised: one cluster network per
   * `/cidr_bits` subnet of the supernet. `subnets()` yields a `/32` supernet itself whatever
   * the new prefix; otherwise it raises ValueError for a prefix shorter than the supernet's
   * or longer than 32.
   */
  function Candidates(supernet: Block, cidrBits: int, clusterName: string): (r: Result<seq<ClusterNetwork>, Error>)
    requires ValidBlock(supernet)
    ensures r.Err? <==> supernet.prefix < 32 && (cidrBits < supernet.prefix || cidrBits > 32)
    ensures r.Err? ==> r.error == ValueError
    ensures supernet.prefix == 32 ==> r == Ok([ClusterNetwork(supernet, clusterName)])
    ensures r.Ok? && supernet.prefix < 32 ==> |r.value| == |Subnets(supernet, cidrBits)|
    ensures r.Ok? && supernet.prefix < 32 ==> forall i :: 0 <= i < |r.value| ==>
      r.value[i] == ClusterNetwork(Subnets(supernet, cidrBits)[i], clusterName)
    ensures r.Ok? ==> forall i :: 0 <= i < |r.value| ==>
      ValidBlock(r.value[i].subnet) && r.value[i].subnet.prefix == (if supernet.prefix == 32 then 32 else cidrBits)
  {
    if supernet.prefix == 32 then Ok([ClusterNetwork(supernet, clusterName)])
    else if cidrBits < supernet.prefix || cidrBits > 32 then Err(ValueError)
    else
      SubnetsTile(supernet, cidrBits);
      var subs := Subnets(supernet, cidrBits);
      Ok(seq(|subs|, i requires 0 <= i < |subs| => ClusterNetwork(subs[i], clusterName)))
  }

  /** Every candidate is a cluster network with at least two usable hosts, tagged with the cluster name. */
  lemma CandidatesValid(supernet: Block, cidrBits: nat, clusterName: string)
    requires ValidBlock(supernet) && supernet.prefix <= cidrBits <= 30
    ensures Candidates(supernet, cidrBits, clusterName).Ok?
    ensures |Candidates(supernet, cidrBits, clusterName).value| == Pow2(cidrBits - supernet.prefix)
    ensures forall i :: 0 <= i < |Candidates(supernet, cidrBits, clusterName).value| ==>
      var c := Candidates(supernet, cidrBits, clusterName).value[i];
      ValidNetwork(c) && c.clusterName == clusterName && c.subnet.prefix == cidrBits
  {
    SubnetsTile(supernet, cidrBits);
  }

  /**
   * The candidates are all 2^(cidr_bits - prefix) subnets of the supernet, in ascending order
   * and pairwise disjoint.
   */
  lemma CandidatesAscending(supernet: Block, cidrBits: nat, clusterName: string, i: nat, j: nat)
    requires ValidBlock(supernet) && supernet.prefix <= cidrBits <= 32
    requires i < j < |Candidates(supernet, cidrBits, clusterName).value|
    ensures var cs := Candidates(supernet, cidrBits, clusterName).value;
      cs[i].subnet.base < cs[j].subnet.base && !Overlaps(cs[i].subnet, cs[j].subnet)
  {
    SubnetsDisjoint(supernet, cidrBits, i, j);
  }

  /** Every address of the supernet belongs to some candidate. */
  lemma CandidatesCover(supernet: Block, cidrBits: nat, clusterName: string, a: nat)
    requires ValidBlock(supernet) && supernet.prefix <= cidrBits <= 32 && InBlock(supernet, a)
    ensures exists i :: (0 <= i < |Candidates(supernet, cidrBits, clusterName).value| &&
      InBlock(Candidates(supernet, cidrBits, clusterName).value[i].subnet, a))
  {
    SubnetsCover(supernet, cidrBits, a);
    var i :| 0 <= i < |Subnets(supernet, cidrBits)| && InBlock(Subnets(supernet, cidrBits)[i], a);
    assert Candidates(supernet, cidrBits, clusterName).value[i].subnet == Subnets(supernet, cidrBits)[i];
  }

  /** `from_first_subnet`: the first candidate, which starts where the supernet starts. */
  function FromFirstSubnet(supernet: Block, cidrBits: int, clusterName: string): (r: Result<ClusterNetwork, Error>)
    requires ValidBlock(supernet)
    ensures r.Err? <==> supernet.prefix < 32 && (cidrBits < supernet.prefix || cidrBits > 32)
    ensures r.Err? ==> r.error == ValueError
    ensures supernet.prefix == 32 ==> r == Ok(ClusterNetwork(supernet, clusterName))
    ensures r.Ok? && supernet.prefix < 32 ==> r.value.subnet == Block(supernet.base, cidrBits)
    ensures r.Ok? ==> r.value.clusterName == clusterName
  {
    var cs :- Candidates(supernet, cidrBits, clusterName);
    if supernet.prefix == 32 then Ok(cs[0])
    else
      assert Subnets(supernet, cidrBits)[0] == SubnetAt(supernet, cidrBits, 0);
      Ok(cs[0])
  }

  /** A cluster network together with the Docker network created for it. */
  datatype DockerClusterNetwork = DockerClusterNetwork(network: ClusterNetwork, dockerNetwork: DockerNetwork)

  /** Names of the given networks. */
  function NamesOf(nets: seq<DockerNetwork>): (r: seq<string>)
    ensures |r| == |nets| && forall i :: 0 <= i < |nets| ==> r[i] == nets[i].name
  {
    seq(|nets|, i requires 0 <= i < |nets| => nets[i].name)
  }

  /** Position of the first candidate whose subnet overlaps no existing network. */
  function FirstFree(nets: seq<DockerNetwork>, cs: seq<ClusterNetwork>): (r: Option<nat>)
    ensures r.Some? ==> r.value < |cs| && !SubnetInUse(nets, cs[r.value].subnet)
    ensures r.Some? ==> forall j :: 0 <= j < r.value ==> SubnetInUse(nets, cs[j].subnet)
    ensures r.None? ==> forall j :: 0 <= j < |cs| ==> SubnetInUse(nets, cs[j].subnet)
  {
    if cs == [] then None
    else if !SubnetInUse(nets, cs[0].subnet) then Some(0)
    else match FirstFree(nets, cs[1..])
      case None => None
      case Some(k) => Some(k + 1)
  }

  function SubnetsOf(cs: seq<ClusterNetwork>): (r: seq<Block>)
    ensures |r| == |cs| && forall i :: 0 <= i < |cs| ==> r[i] == cs[i].subnet
  {
    seq(|cs|, i requires 0 <= i < |cs| => cs[i].subnet)
  }

  /** `DockerClusterNetworkFactory`: allocates `/cidrBits` subnets of `supernet`. */
  class NetworkFactory {
    const supernet: Block
    const cidrBits: int
    const settings: NetworkSettings

    constructor (supernet: Block, cidrBits: int, settings: NetworkSettings)
      ensures this.supernet == supernet && this.cidrBits == cidrBits && this.settings == settings
    {
      this.supernet := supernet;
      this.cidrBits := cidrBits;
      this.settings := settings;
    }

    /** `validate_network_name`: NameExists if any Docker network already has the name. */
    method ValidateNetworkName(rt: DockerRuntime, networkName: string) returns (r: Result<string, Error>)
      ensures r.Err? <==> networkName in NamesOf(rt.networks)
      ensures r.Err? ==> r.error == NameExists
      ensures r.Ok? ==> r.value == networkName
    {
      var usedNames := NamesOf(rt.networks);
      if networkName in usedNames {
        r := Err(NameExists);
      } else {
        r := Ok(networkName);
      }
    }

    /**
     * `attempt_create`: the name check, then the creation request, whose failure is
     * NetworkSubnetTaken.
     */
    method AttemptCreate(rt: DockerRuntime, cn: ClusterNetwork) returns (r: Result<DockerClusterNetwork, Error>)
      requires rt.Valid() && ValidNetwork(cn)
      modifies rt
      ensures rt.Valid()
      ensures ClusterNetworkName(settings, cn) in NamesOf(old(rt.networks)) ==>
        r == Err(NameExists) && unchanged(rt)
      ensures ClusterNetworkName(settings, cn) !in NamesOf(old(rt.networks)) ==>
        && rt.attempts == old(rt.attempts) + [cn.subnet]
        && (r.Err? <==> SubnetInUse(old(rt.networks), cn.subnet))
        && (r.Err? ==> r.error == NetworkSubnetTaken && rt.networks == old(rt.networks))
        && (r.Ok? ==> r.value == DockerClusterNetwork(cn,
              DockerNetwork(ClusterNetworkName(settings, cn), cn.subnet, GatewayIp(cn))))
        && (r.Ok? ==> rt.networks == old(rt.networks) + [r.value.dockerNetwork])
    {
      var name := ClusterNetworkName(settings, cn);
      var valid := ValidateNetworkName(rt, name);
      if valid.Err? {
        return Err(valid.error);
      }
      var created := CreateNetwork(rt, name, cn.subnet, GatewayIp(cn));
      if created.Err? {
        return Err(created.error);
      }
      r := Ok(DockerClusterNetwork(cn, created.value));
    }

    /**
     * `create(cluster_name)`: tries the candidates in order, skipping those whose subnet is
     * taken, and stops at the first that Docker accepts. A name already in use aborts at once;
     * running out of candidates raises NoNetworkSubnetsAvaialble.
     */
    method Create(rt: DockerRuntime, clusterName: string) returns (r: Result<DockerClusterNetwork, Error>)
      requires rt.Valid() && ValidBlock(supernet) && supernet.prefix < 32 && cidrBits <= 30
      modifies rt
      ensures rt.Valid()
      ensures Candidates(supernet, cidrBits, clusterName).Err? ==> r == Err(ValueError) && unchanged(rt)
      ensures Candidates(supernet, cidrBits, clusterName).Ok? ==>
        CreateOutcome(settings, clusterName, Candidates(supernet, cidrBits, clusterName).value,
          old(rt.networks), old(rt.attempts), r, rt.networks, rt.attempts)
    {
      var candidates := Candidates(supernet, cidrBits, clusterName);
      if candidates.Err? {
        return Err(candidates.error);
      }
      r := TryCandidates(rt, candidates.value, clusterName);
    }

    /** The retry loop of `create`, over the candidates in order. */
    method TryCandidates(rt: DockerRuntime, cs: seq<ClusterNetwork>, clusterName: string)
      returns (r: Result<DockerClusterNetwork, Error>)
      requires rt.Valid()
      requires forall i :: 0 <= i < |cs| ==> ValidNetwork(cs[i]) && cs[i].clusterName == clusterName
      modifies rt
      ensures rt.Valid()
      ensures CreateOutcome(settings, clusterName, cs, old(rt.networks), old(rt.attempts), r, rt.networks, rt.attempts)
    {
      var i := 0;
      while true
        invariant 0 <= i <= |cs|
        invariant rt.Valid()
        invariant rt.networks == old(rt.networks)
        invariant rt.attempts == old(rt.attempts) + SubnetsOf(cs[..i])
        invariant i > 0 ==> NetworkName(settings.prefix, clusterName) !in NamesOf(old(rt.networks))
        invariant forall j :: 0 <= j < i ==> SubnetInUse(old(rt.networks), cs[j].subnet)
        decreases |cs| - i
      {
        if i == |cs| {
          r := Err(NoNetworkSubnetsAvailable);
          assert CreateOutcome(settings, clusterName, cs, old(rt.networks), old(rt.attempts), r, rt.networks, rt.attempts) by {
            assert cs[..i] == cs;
            FirstFreeNone(old(rt.networks), cs);
          }
          return;
        }
        var attempt := AttemptCreate(rt, cs[i]);
        if attempt.Ok? {
          assert CreateOutcome(settings, clusterName, cs, old(rt.networks), old(rt.attempts), attempt, rt.networks, rt.attempts) by {
            SubnetsOfSnoc(cs, i);
            FirstFreeAt(old(rt.networks), cs, i);
          }
          return attempt;
        }
        if attempt.error != NetworkSubnetTaken {
          assert CreateOutcome(settings, clusterName, cs, old(rt.networks), old(rt.attempts), attempt, rt.networks, rt.attempts) by {
            assert i == 0 && cs[..0] == [];
          }
          return attempt;
        }
        SubnetsOfSnoc(cs, i);
        i := i + 1;
      }
    }
  }

  /** What `create` leaves behind, given the candidates and the runtime's state before the call. */
  ghost predicate CreateOutcome(settings: NetworkSettings, clusterName: string, cs: seq<ClusterNetwork>,
    oldNets: seq<DockerNetwork>, oldAttempts: seq<Block>,
    r: Result<DockerClusterNetwork, Error>, nets: seq<DockerNetwork>, attempts: seq<Block>)
    requires forall i :: 0 <= i < |cs| ==> ValidNetwork(cs[i])
  {
    if cs != [] && NetworkName(settings.prefix, clusterName) in NamesOf(oldNets) then
      r == Err(NameExists) && nets == oldNets && attempts == oldAttempts
    else match FirstFree(oldNets, cs)
      case None =>
        && r == Err(NoNetworkSubnetsAvailable)
        && nets == oldNets
        && attempts == oldAttempts + SubnetsOf(cs)
      case Some(k) =>
        && r == Ok(DockerClusterNetwork(cs[k],
             DockerNetwork(NetworkName(settings.prefix, clusterName), cs[k].subnet, GatewayIp(cs[k]))))
        && nets == oldNets + [r.value.dockerNetwork]
        && attempts == oldAttempts + SubnetsOf(cs[..k + 1])
  }

  lemma SubnetsOfSnoc(cs: seq<ClusterNetwork>, i: nat)
    requires i < |cs|
    ensures SubnetsOf(cs[..i + 1]) == SubnetsOf(cs[..i]) + [cs[i].subnet]
  {
  }

  lemma {:induction false} FirstFreeAt(nets: seq<DockerNetwork>, cs: seq<ClusterNetwork>, i: nat)
    requires i < |cs| && !SubnetInUse(nets, cs[i].subnet)
    requires forall j :: 0 <= j < i ==> SubnetInUse(nets, cs[j].subnet)
    ensures FirstFree(nets, cs) == Some(i)
  {
    if i > 0 {
      assert SubnetInUse(nets, cs[0].subnet);
      assert forall j :: 0 <= j < i - 1 ==> cs[1..][j] == cs[j + 1];
      FirstFreeAt(nets, cs[1..], i - 1);
    }
  }

  lemma FirstFreeNone(nets: seq<DockerNetwork>, cs: seq<ClusterNetwork>)
    requires forall j :: 0 <= j < |cs| ==> SubnetInUse(nets, cs[j].subnet)
    ensures FirstFree(nets, cs).None?
  {
  }

  /** Every network the factory creates is disjoint from all networks that existed before. */
  lemma CreatedSubnetIsFree(nets: seq<DockerNetwork>, cs: seq<ClusterNetwork>, k: nat, n: nat)
    requires FirstFree(nets, cs) == Some(k) && n < |nets|
    ensures !Overlaps(nets[n].subnet, cs[k].subnet)
  {
  }
}

/** The examples the repository's networking tests check, on the supernet 172.30.0.0/16. */
module NetworkingExamples {
  import opened Wrappers
  import opened Values
  import opened Strings
  import opened Ipv4
  import opened Networking

  const Supernet: Block := Block(2887647232, 16)

  lemma SupernetIs172_30()
    ensures ValidBlock(Supernet) && FormatBlock(Supernet) == "172.30.0.0/16"
  {
    Pow2Values();
    Ip172_30_0_0();
    assert Decimal(16) == "16" by {
      DecimalValues();
    }
  }

  lemma Pow2Values()
    ensures BlockSize(16) == 65536 && BlockSize(24) == 256
  {
    assert Pow2(8) == 256;
    Pow2Add(8, 8);
  }

  lemma DecimalValues()
    ensures Decimal(172) == "172" && Decimal(30) == "30" && Decimal(0) == "0"
    ensures Decimal(254) == "254" && Decimal(253) == "253" && Decimal(126) == "126"
    ensures Decimal(1) == "1" && Decimal(2) == "2" && Decimal(3) == "3"
    ensures Decimal(64) == "64" && Decimal(128) == "128" && Decimal(192) == "192"
    ensures Decimal(16) == "16" && Decimal(18) == "18"
  {
  }

  lemma FirstSubnet24()
    ensures ValidBlock(Supernet)
    ensures FromFirstSubnet(Supernet, 24, "test") == Ok(ClusterNetwork(Block(2887647232, 24), "test"))
  {
    SupernetIs172_30();
  }

  /** A single-address supernet is its own only subnet, whatever the requested prefix. */
  lemma SingleAddressSupernet()
    ensures ValidBlock(Block(2887647233, 32))
    ensures FromFirstSubnet(Block(2887647233, 32), 24, "test") == Ok(ClusterNetwork(Block(2887647233, 32), "test"))
  {
  }

  lemma Octets172_30(third: nat, last: nat)
    requires third < 256 && last < 256
    ensures 2887647232 + third * 256 + last < AddressCount
    ensures Octets(2887647232 + third * 256 + last) == (172, 30, third, last)
    ensures FormatIp(2887647232 + third * 256 + last) == DottedQuad((172, 30, third, last))
  {
    DivModUnique(2887647232 + third * 256 + last, 256, 11279872 + third, last);
    DivModUnique(11279872 + third, 256, 44062, third);
    DivModUnique(44062, 256, 172, 30);
  }

  const Net24: ClusterNetwork := ClusterNetwork(Block(2887647232, 24), "test")
  const Net25: ClusterNetwork := ClusterNetwork(Block(2887647232, 25), "test")
  const Net30: ClusterNetwork := ClusterNetwork(Block(2887647232, 30), "test")

  lemma Pow2Small()
    ensures BlockSize(24) == 256 && BlockSize(25) == 128 && BlockSize(30) == 4 && BlockSize(18) == 16384
  {
    assert Pow2(8) == 256 && Pow2(7) == 128 && Pow2(2) == 4;
    Pow2Add(7, 7);
  }

  lemma Ip172_30_0_254()
    ensures FormatIp(2887647232 + 254) == "172.30.0.254"
  {
    Octets172_30(0, 254);
    assert DottedQuad((172, 30, 0, 254)) == "172.30.0.254" by {
      DecimalValues();
    }
  }

  lemma Ip172_30_0_253()
    ensures FormatIp(2887647232 + 253) == "172.30.0.253"
  {
    Octets172_30(0, 253);
    assert DottedQuad((172, 30, 0, 253)) == "172.30.0.253" by {
      DecimalValues();
    }
  }

  lemma Ip172_30_0_126()
    ensures FormatIp(2887647232 + 126) == "172.30.0.126"
  {
    Octets172_30(0, 126);
    assert DottedQuad((172, 30, 0, 126)) == "172.30.0.126" by {
      DecimalValues();
    }
  }

  lemma Ip172_30_0_1()
    ensures FormatIp(2887647232 + 1) == "172.30.0.1"
  {
    Octets172_30(0, 1);
    assert DottedQuad((172, 30, 0, 1)) == "172.30.0.1" by {
      DecimalValues();
    }
  }

  lemma Ip172_30_0_2()
    ensures FormatIp(2887647232 + 2) == "172.30.0.2"
  {
    Octets172_30(0, 2);
    assert DottedQuad((172, 30, 0, 2)) == "172.30.0.2" by {
      DecimalValues();
    }
  }

  lemma Ip172_30_0_3()
    ensures FormatIp(2887647232 + 3) == "172.30.0.3"
  {
    Octets172_30(0, 3);
    assert DottedQuad((172, 30, 0, 3)) == "172.30.0.3" by {
      DecimalValues();
    }
  }

  lemma Ip172_30_0_0()
    ensures FormatIp(2887647232 + 0) == "172.30.0.0"
  {
    Octets172_30(0, 0);
    assert DottedQuad((172, 30, 0, 0)) == "172.30.0.0" by {
      DecimalValues();
    }
  }

  lemma Block172_30_0_0_18()
    ensures FormatBlock(Block(2887647232 + 0, 18)) == "172.30.0.0/18"
  {
    Ip172_30_0_0();
    assert Decimal(18) == "18" by {
      DecimalValues();
    }
  }

  lemma Ip172_30_64_0()
    ensures FormatIp(2887647232 + 16384) == "172.30.64.0"
  {
    Octets172_30(64, 0);
    assert DottedQuad((172, 30, 64, 0)) == "172.30.64.0" by {
      DecimalValues();
    }
  }

  lemma Block172_30_64_0_18()
    ensures FormatBlock(Block(2887647232 + 16384, 18)) == "172.30.64.0/18"
  {
    Ip172_30_64_0();
    assert Decimal(18) == "18" by {
      DecimalValues();
    }
  }

  lemma Ip172_30_128_0()
    ensures FormatIp(2887647232 + 32768) == "172.30.128.0"
  {
    Octets172_30(128, 0);
    assert DottedQuad((172, 30, 128, 0)) == "172.30.128.0" by {
      DecimalValues();
    }
  }

  lemma Block172_30_128_0_18()
    ensures FormatBlock(Block(2887647232 + 32768, 18)) == "172.30.128.0/18"
  {
    Ip172_30_128_0();
    assert Decimal(18) == "18" by {
      DecimalValues();
    }
  }

  lemma Ip172_30_192_0()
    ensures FormatIp(2887647232 + 49152) == "172.30.192.0"
  {
    Octets172_30(192, 0);
    assert DottedQuad((172, 30, 192, 0)) == "172.30.192.0" by {
      DecimalValues();
    }
  }

  lemma Block172_30_192_0_18()
    ensures FormatBlock(Block(2887647232 + 49152, 18)) == "172.30.192.0/18"
  {
    Ip172_30_192_0();
    assert Decimal(18) == "18" by {
      DecimalValues();
    }
  }

  lemma GatewayAndHeadFor24()
    ensures ValidNetwork(Net24)
    ensures GatewayIp(Net24) == "172.30.0.254" && HeadIp(Net24) == "172.30.0.253"
  {
    Pow2Small();
    Ip172_30_0_254();
    Ip172_30_0_253();
  }

  /** 172.30.0.0/25: gateway 172.30.0.126. */
  lemma GatewayFor25()
    ensures ValidNetwork(Net25) && GatewayIp(Net25) == "172.30.0.126"
  {
    Pow2Small();
    Ip172_30_0_126();
  }

  /** Three computes on a /24 get 172.30.0.1, .2 and .3. */
  lemma ThreeComputesFor24()
    ensures ValidNetwork(Net24)
    ensures ComputeIps(Net24, 3) == Ok(["172.30.0.1", "172.30.0.2", "172.30.0.3"])
  {
    Pow2Small();
    Ip172_30_0_1();
    Ip172_30_0_2();
    Ip172_30_0_3();
    var ips := ComputeIps(Net24, 3).value;
    assert |ips| == 3;
    assert ips == ["172.30.0.1", "172.30.0.2", "172.30.0.3"];
  }

  /** A /30 has two usable hosts, both taken by head and gateway: three computes do not fit. */
  lemma ThreeComputesTooManyFor30()
    ensures ValidNetwork(Net30) && ComputeIps(Net30, 3) == Err(NetworkSubnetTooSmall)
  {
    Pow2Small();
  }

  /** The /16 supernet splits into four /18 candidates: .0.0, .64.0, .128.0 and .192.0. */
  lemma FourSubnetsOf16()
    ensures ValidBlock(Supernet) && Candidates(Supernet, 18, "test").Ok?
    ensures |Candidates(Supernet, 18, "test").value| == 4
    ensures forall i :: 0 <= i < 4 ==> ValidBlock(Candidates(Supernet, 18, "test").value[i].subnet)
    ensures IpAddress(Candidates(Supernet, 18, "test").value[0]) == "172.30.0.0/18"
    ensures IpAddress(Candidates(Supernet, 18, "test").value[1]) == "172.30.64.0/18"
    ensures IpAddress(Candidates(Supernet, 18, "test").value[2]) == "172.30.128.0/18"
    ensures IpAddress(Candidates(Supernet, 18, "test").value[3]) == "172.30.192.0/18"
  {
    SupernetIs172_30();
    Pow2Small();
    assert Pow2(2) == 4;
    var cs := Candidates(Supernet, 18, "test").value;
    assert cs[0].subnet == Block(2887647232, 18);
    assert cs[1].subnet == Block(2887647232 + 64 * 256, 18);
    assert cs[2].subnet == Block(2887647232 + 128 * 256, 18);
    assert cs[3].subnet == Block(2887647232 + 192 * 256, 18);
    Block172_30_0_0_18();
    Block172_30_64_0_18();
    Block172_30_128_0_18();
    Block172_30_192_0_18();
  }
}
