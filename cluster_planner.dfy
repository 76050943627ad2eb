/**
 * The plan of a whole cluster (`DefaultClusterPlan`): the user's request merged with the
 * configuration, and the cluster specs built from it — one head at the network's head
 * IP, `compute_count` compute nodes at the first compute IPs, the network entry and the
 * Docker volumes to create.
 */
module ClusterPlanner {
  import opened Wrappers
  import opened Values
  import opened Strings
  import opened Ipv4
  import opened Networking
  import opened NodePlanner
  import opened Collection

  /**
   * The cluster specs: the plain entries (`flavor`, `name`, `template` when planned,
   * `network`, `bootstrap_dir`, `volumes`) and the planned nodes keyed by IP address.
   */
  datatype ClusterSpecs = ClusterSpecs(entries: Dict, nodes: map<string, PlannedNode>)

  /** A cluster plan: its network and a copy of the plan data. */
  datatype ClusterPlan = ClusterPlan(network: ClusterNetwork, planData: Dict, settings: NetworkSettings)

  /** The plan data keys copied into the specs. */
  const SpecKeys: set<string> := {"flavor", "name", "template"}

  /** The plan data keys `as_dict` reports. */
  const PlanKeys: set<string> := {"name", "head", "compute", "template"}

  /** The entries the planner adds never collide with the keys it copies. */
  lemma AddedKeysApart()
    ensures "network" !in SpecKeys && "bootstrap_dir" !in SpecKeys && "volumes" !in SpecKeys
    ensures "network" !in PlanKeys
  {
  }

  /**
   * `user_plan_data`: the request's fields updated with the configuration's; on a shared
   * key the configuration wins.
   */
  function UserPlanData(defaultConfig: Dict, request: Dict): (r: Dict)
    ensures r.Keys == defaultConfig.Keys + request.Keys
    ensures forall k :: k in defaultConfig ==> r[k] == defaultConfig[k]
    ensures forall k :: k in request && k !in defaultConfig ==> r[k] == request[k]
  {
    DefensiveMerge(defaultConfig, request)
  }

  /** `DefaultClusterPlan.create`: a plan over the merged request and configuration. */
  function Create(request: Dict, defaultConfig: Dict, network: ClusterNetwork, settings: NetworkSettings): (r: ClusterPlan)
    ensures r.network == network
    ensures r.planData.Keys == defaultConfig.Keys + request.Keys
    ensures forall k :: k in defaultConfig ==> r.planData[k] == defaultConfig[k]
    ensures forall k :: k in request && k !in defaultConfig ==> r.planData[k] == request[k]
  {
    ClusterPlan(network, DefensiveCopy(UserPlanData(defaultConfig, request)), settings)
  }

  /** A Python integer: `bool` counts as 0 or 1, anything else cannot be compared with one. */
  function AsInt(v: Value): (r: Result<int, Error>)
    ensures v.Int? ==> r == Ok(v.i)
    ensures r.Err? <==> !v.Int? && !v.Bool?
  {
    match v
    case Int(i) => Ok(i)
    case Bool(b) => Ok(if b then 1 else 0)
    case _ => Err(TypeError)
  }

  /** `docker_volume[0:docker_volume.find(':')]`. */
  function VolumeName(volume: string): (r: string)
    ensures ':' in volume ==> ':' !in r && r + [':'] <= volume
    ensures ':' !in volume && volume != [] ==> r == volume[..|volume| - 1]
    ensures volume == [] ==> r == []
  {
    var colon := Find(volume, ':');
    if colon >= 0 then volume[..colon]
    else volume[..if |volume| >= 1 then |volume| - 1 else 0]
  }

  /** A volume specification without a colon loses its last character. */
  lemma VolumeNameWithoutColon()
    ensures VolumeName("data") == "dat"
  {
    var v := "data";
    assert v[0] != ':' && v[1] != ':' && v[2] != ':' && v[3] != ':';
    assert ':' !in v;
  }

  /** A named volume keeps the name before its mount point. */
  lemma VolumeNameWithColon()
    ensures VolumeName("data:/var") == "data"
  {
    var v := "data:/var";
    FindAt(v, ':', 4);
  }

  /**
   * The volume names of the head's Docker volumes, in order; none when it lists none.
   * An element that is not a string has no `find`, which raises AttributeError.
   */
  function HeadVolumeNames(planData: Value): (r: Result<seq<Value>, Error>)
    ensures r.Ok? ==> At(planData, ["head"]).Ok? && At(planData, ["head"]).value.Dict?
    ensures r.Ok? ==> var head := At(planData, ["head"]).value.entries;
      OptionalElements(head, "docker_volumes").Ok? &&
      var vs := OptionalElements(head, "docker_volumes").value;
      |r.value| == |vs| &&
      forall i :: 0 <= i < |vs| ==> vs[i].Str? && r.value[i] == Str(VolumeName(vs[i].s))
    ensures r.Ok? && "docker_volumes" !in At(planData, ["head"]).value.entries ==> r.value == []
    ensures Lookup(planData, "head").Err? ==> r == Err(Lookup(planData, "head").error)
    ensures Lookup(planData, "head").Ok? && !Lookup(planData, "head").value.Dict? ==> r == Err(TypeError)
    ensures (Lookup(planData, "head").Ok? && Lookup(planData, "head").value.Dict? &&
             OptionalElements(Lookup(planData, "head").value.entries, "docker_volumes").Err?) ==> r == Err(TypeError)
    ensures (Lookup(planData, "head").Ok? && Lookup(planData, "head").value.Dict? &&
             OptionalElements(Lookup(planData, "head").value.entries, "docker_volumes").Ok?) ==>
      var vs := OptionalElements(Lookup(planData, "head").value.entries, "docker_volumes").value;
      (r.Ok? <==> forall v :: v in vs ==> v.Str?) && (r.Err? ==> r.error == AttributeError)
  {
    AtOne(planData, "head");
    var head :- Lookup(planData, "head");
    if !head.Dict? then Err(TypeError)
    else
      var volumes :- OptionalElements(head.entries, "docker_volumes");
      if exists i :: 0 <= i < |volumes| && !volumes[i].Str? then Err(AttributeError)
      else Ok(seq(|volumes|, i requires 0 <= i < |volumes| => Str(VolumeName(volumes[i].s))))
  }

  /** The compute plans for the given addresses, in order; the first failure is the result. */
  function ComputePlans(planData: Value, ips: seq<string>, dump: Value -> string): (r: Result<seq<PlannedNode>, Error>)
    ensures r.Ok? ==> |r.value| == |ips|
  {
    if ips == [] then Ok([])
    else
      var n := |ips| - 1;
      var previous :- ComputePlans(planData, ips[..n], dump);
      var plan :- CreateComputePlan(planData, n, ips[n], dump);
      Ok(previous + [plan])
  }

  /** Compute `i` is planned with index `i` at the `i`-th address. */
  lemma {:induction false} ComputePlansAt(planData: Value, ips: seq<string>, dump: Value -> string, i: nat)
    requires ComputePlans(planData, ips, dump).Ok? && i < |ips|
    ensures CreateComputePlan(planData, i, ips[i], dump) == Ok(ComputePlans(planData, ips, dump).value[i])
  {
    var n := |ips| - 1;
    var init := ips[..n];
    ComputePlansStep(planData, ips, dump);
    var all := ComputePlans(planData, ips, dump).value;
    var previous := ComputePlans(planData, init, dump).value;
    var last := CreateComputePlan(planData, n, ips[n], dump);
    assert all == previous + [last.value];
    if i < n {
      assert init[i] == ips[i];
      ComputePlansAt(planData, init, dump, i);
      calc {
        CreateComputePlan(planData, i, ips[i], dump);
        CreateComputePlan(planData, i, init[i], dump);
        Ok(previous[i]);
        { assert all[i] == previous[i]; }
        Ok(all[i]);
      }
    } else {
      assert i == n;
      calc {
        CreateComputePlan(planData, i, ips[i], dump);
        CreateComputePlan(planData, n, ips[n], dump);
        last;
        Ok(last.value);
        { assert all[i] == last.value; }
        Ok(all[i]);
      }
    }
  }

  /** A successful plan of the addresses is the plan of all but the last, then the last one's. */
  lemma ComputePlansStep(planData: Value, ips: seq<string>, dump: Value -> string)
    requires ips != [] && ComputePlans(planData, ips, dump).Ok?
    ensures ComputePlans(planData, ips[..|ips| - 1], dump).Ok?
    ensures CreateComputePlan(planData, |ips| - 1, ips[|ips| - 1], dump).Ok?
    ensures ComputePlans(planData, ips, dump).value ==
      ComputePlans(planData, ips[..|ips| - 1], dump).value + [CreateComputePlan(planData, |ips| - 1, ips[|ips| - 1], dump).value]
  {
  }

  /** Planning one more address: its plan is appended, or its failure is the result. */
  lemma ComputePlansExtend(planData: Value, ips: seq<string>, dump: Value -> string, n: nat)
    requires n < |ips| && ComputePlans(planData, ips[..n], dump).Ok?
    ensures CreateComputePlan(planData, n, ips[n], dump).Err? ==>
      ComputePlans(planData, ips[..n + 1], dump) == Err(CreateComputePlan(planData, n, ips[n], dump).error)
    ensures CreateComputePlan(planData, n, ips[n], dump).Ok? ==>
      ComputePlans(planData, ips[..n + 1], dump) ==
        Ok(ComputePlans(planData, ips[..n], dump).value + [CreateComputePlan(planData, n, ips[n], dump).value])
  {
    assert ips[..n + 1][..n] == ips[..n];
  }

  /** Once the plans of a prefix fail, the plans of the whole sequence fail the same way. */
  lemma {:induction false} ComputePlansPrefixErr(planData: Value, ips: seq<string>, dump: Value -> string, n: nat)
    requires n <= |ips| && ComputePlans(planData, ips[..n], dump).Err?
    ensures ComputePlans(planData, ips, dump) == ComputePlans(planData, ips[..n], dump)
  {
    if n < |ips| {
      var init := ips[..|ips| - 1];
      assert init[..n] == ips[..n];
      ComputePlansPrefixErr(planData, init, dump, n);
    } else {
      assert ips[..n] == ips;
    }
  }

  /** The nodes dictionary: the head, then each compute stored under its address. */
  function NodeMap(head: PlannedNode, computes: seq<PlannedNode>): (r: map<string, PlannedNode>)
    ensures forall k :: k in r ==> r[k].ipAddress == k
    ensures head.ipAddress in r
    ensures forall i :: 0 <= i < |computes| ==> computes[i].ipAddress in r
  {
    if computes == [] then map[head.ipAddress := head]
    else
      var n := |computes| - 1;
      NodeMap(head, computes[..n])[computes[n].ipAddress := computes[n]]
  }

  /** One more compute is stored under its address, over whatever was there. */
  lemma NodeMapExtend(head: PlannedNode, computes: seq<PlannedNode>, c: PlannedNode)
    ensures NodeMap(head, computes + [c]) == NodeMap(head, computes)[c.ipAddress := c]
  {
    assert (computes + [c])[..|computes|] == computes;
  }

  /** The nodes dictionary's keys: the head's address and the computes' addresses. */
  lemma {:induction false} NodeMapKeys(head: PlannedNode, computes: seq<PlannedNode>, k: string)
    ensures k in NodeMap(head, computes) <==>
      k == head.ipAddress || exists i :: 0 <= i < |computes| && computes[i].ipAddress == k
  {
    if computes != [] {
      var n := |computes| - 1;
      NodeMapKeys(head, computes[..n], k);
      assert forall i :: 0 <= i < n ==> computes[..n][i] == computes[i];
    }
  }

  /** Every node of the dictionary is the head or one of the computes. */
  lemma {:induction false} NodeMapValues(head: PlannedNode, computes: seq<PlannedNode>, k: string)
    requires k in NodeMap(head, computes)
    ensures NodeMap(head, computes)[k] == head ||
      exists i :: 0 <= i < |computes| && NodeMap(head, computes)[k] == computes[i]
  {
    if computes != [] {
      var n := |computes| - 1;
      var init := computes[..n];
      if k != computes[n].ipAddress {
        NodeMapValues(head, init, k);
        if NodeMap(head, init)[k] != head {
          var i :| 0 <= i < n && NodeMap(head, init)[k] == init[i];
          assert init[i] == computes[i];
        }
      }
    }
  }

  /** With distinct addresses every node is stored under its own address and none is lost. */
  lemma {:induction false} NodeMapDistinct(head: PlannedNode, computes: seq<PlannedNode>)
    requires forall i :: 0 <= i < |computes| ==> computes[i].ipAddress != head.ipAddress
    requires forall i, j :: 0 <= i < j < |computes| ==> computes[i].ipAddress != computes[j].ipAddress
    ensures |NodeMap(head, computes)| == |computes| + 1
    ensures NodeMap(head, computes)[head.ipAddress] == head
    ensures forall i :: 0 <= i < |computes| ==> NodeMap(head, computes)[computes[i].ipAddress] == computes[i]
  {
    if computes != [] {
      var n := |computes| - 1;
      var init := computes[..n];
      assert forall i :: 0 <= i < n ==> init[i] == computes[i];
      NodeMapDistinct(head, init);
      assert computes[n].ipAddress !in NodeMap(head, init) by {
        NodeMapFresh(head, init, computes[n].ipAddress);
      }
    }
  }

  /** An address that is neither the head's nor any compute's is not a key of the dictionary. */
  lemma {:induction false} NodeMapFresh(head: PlannedNode, computes: seq<PlannedNode>, k: string)
    requires k != head.ipAddress
    requires forall i :: 0 <= i < |computes| ==> computes[i].ipAddress != k
    ensures k !in NodeMap(head, computes)
  {
    if computes != [] {
      var n := |computes| - 1;
      assert forall i :: 0 <= i < n ==> computes[..n][i] == computes[i];
      NodeMapFresh(head, computes[..n], k);
    }
  }

  /** A later node stored under an address already in use replaces the earlier one. */
  lemma {:induction false} NodeMapLastWins(head: PlannedNode, computes: seq<PlannedNode>, i: nat)
    requires i < |computes|
    requires forall j :: i < j < |computes| ==> computes[j].ipAddress != computes[i].ipAddress
    ensures NodeMap(head, computes)[computes[i].ipAddress] == computes[i]
  {
    var n := |computes| - 1;
    if i < n {
      assert computes[..n][i] == computes[i];
      NodeMapLastWins(head, computes[..n], i);
    }
  }

  /** `plan_data['compute_count']` as a count. */
  function ComputeCount(planData: Dict): (r: Result<int, Error>)
    ensures r.Ok? ==> "compute_count" in planData && AsInt(planData["compute_count"]) == r
  {
    var count :- Lookup(Dict(planData), "compute_count");
    AsInt(count)
  }

  /**
   * The specs' plain entries: the planned `flavor`, `name` and `template`, the network
   * entry, the bootstrap directory and the volume names.
   */
  function SpecEntries(plan: ClusterPlan, bootstrapDir: string, volumes: seq<Value>): (e: Dict)
    requires ValidNetwork(plan.network)
    ensures e.Keys == (plan.planData.Keys * SpecKeys) + {"network", "bootstrap_dir", "volumes"}
    ensures forall k :: k in plan.planData && k in SpecKeys ==> e[k] == plan.planData[k]
    ensures e["network"] == Dict(Networking.AsDict(plan.settings, plan.network))
    ensures e["bootstrap_dir"] == Str(bootstrapDir)
    ensures e["volumes"] == List(volumes)
  {
    AddedKeysApart();
    var sub := DefensiveSubset(plan.planData, SpecKeys);
    var e := sub["network" := Dict(Networking.AsDict(plan.settings, plan.network))]
                ["bootstrap_dir" := Str(bootstrapDir)]
                ["volumes" := List(volumes)];
    assert forall k :: k in plan.planData && k in SpecKeys ==> e[k] == plan.planData[k] by {
      forall k | k in plan.planData && k in SpecKeys
        ensures e[k] == plan.planData[k]
      {
        assert k != "network" && k != "bootstrap_dir" && k != "volumes";
        assert k in sub;
      }
    }
    e
  }


  /**
   * The specification of `build_specs`. The bootstrap directory comes from the main
   * configuration and is a parameter.
   */
  function Specs(plan: ClusterPlan, bootstrapDir: string, dump: Value -> string): (r: Result<ClusterSpecs, Error>)
    requires ValidNetwork(plan.network)
  {
    var head :- CreateHeadPlan(plan.network, Dict(plan.planData), dump);
    var count :- ComputeCount(plan.planData);
    var ips :- ComputeIps(plan.network, count);
    var computes :- ComputePlans(Dict(plan.planData), ips, dump);
    var volumes :- HeadVolumeNames(Dict(plan.planData));
    Ok(ClusterSpecs(SpecEntries(plan, bootstrapDir, volumes), NodeMap(head, computes)))
  }

  /**
   * `build_specs`: the specs entries, the head, each compute in turn (the first failure
   * ends the build), the bootstrap directory and the volumes.
   */
  /**
   * The loop of `build_specs` over the compute IPs: the head's entry, then one compute plan
   * per IP stored under its address, stopping at the first plan that fails.
   */
  method AddComputes(planData: Value, head: PlannedNode, ips: seq<string>, dump: Value -> string)
    returns (r: Result<map<string, PlannedNode>, Error>)
    ensures ComputePlans(planData, ips, dump).Err? ==> r == Err(ComputePlans(planData, ips, dump).error)
    ensures ComputePlans(planData, ips, dump).Ok? ==> r == Ok(NodeMap(head, ComputePlans(planData, ips, dump).value))
  {
    var nodes := map[head.ipAddress := head];
    ghost var computes: seq<PlannedNode> := [];
    var index := 0;
    while index < |ips|
      invariant 0 <= index <= |ips|
      invariant ComputePlans(planData, ips[..index], dump) == Ok(computes)
      invariant nodes == NodeMap(head, computes)
    {
      ComputePlansExtend(planData, ips, dump, index);
      var compute := CreateComputePlan(planData, index, ips[index], dump);
      if compute.Err? {
        ComputePlansPrefixErr(planData, ips, dump, index + 1);
        return Err(compute.error);
      }
      NodeMapExtend(head, computes, compute.value);
      nodes := nodes[compute.value.ipAddress := compute.value];
      computes := computes + [compute.value];
      index := index + 1;
    }
    assert ips[..index] == ips;
    r := Ok(nodes);
  }

  method BuildSpecs(plan: ClusterPlan, bootstrapDir: string, dump: Value -> string) returns (r: Result<ClusterSpecs, Error>)
    requires ValidNetwork(plan.network)
    ensures r == Specs(plan, bootstrapDir, dump)
  {
    var planData := Dict(plan.planData);
    var entries := DefensiveSubset(plan.planData, SpecKeys);
    entries := entries["network" := Dict(Networking.AsDict(plan.settings, plan.network))];
    var head :- CreateHeadPlan(plan.network, planData, dump);
    var count :- ComputeCount(plan.planData);
    var ips :- ComputeIps(plan.network, count);
    var nodes :- AddComputes(planData, head, ips, dump);
    entries := entries["bootstrap_dir" := Str(bootstrapDir)];
    var volumes :- HeadVolumeNames(planData);
    entries := entries["volumes" := List(volumes)];
    r := Ok(ClusterSpecs(entries, nodes));
  }

  /** The parts a successful build is made of. */
  lemma SpecsParts(plan: ClusterPlan, bootstrapDir: string, dump: Value -> string)
    requires ValidNetwork(plan.network) && Specs(plan, bootstrapDir, dump).Ok?
    ensures CreateHeadPlan(plan.network, Dict(plan.planData), dump).Ok?
    ensures ComputeCount(plan.planData).Ok?
    ensures ComputeIps(plan.network, ComputeCount(plan.planData).value).Ok?
    ensures ComputePlans(Dict(plan.planData), ComputeIps(plan.network, ComputeCount(plan.planData).value).value, dump).Ok?
    ensures HeadVolumeNames(Dict(plan.planData)).Ok?
    ensures Specs(plan, bootstrapDir, dump).value.nodes ==
      NodeMap(CreateHeadPlan(plan.network, Dict(plan.planData), dump).value,
              ComputePlans(Dict(plan.planData), ComputeIps(plan.network, ComputeCount(plan.planData).value).value, dump).value)
    ensures Specs(plan, bootstrapDir, dump).value.entries ==
      SpecEntries(plan, bootstrapDir, HeadVolumeNames(Dict(plan.planData)).value)
  {
    var planData := Dict(plan.planData);
    var head := CreateHeadPlan(plan.network, planData, dump);
    assert head.Ok?;
    var count := ComputeCount(plan.planData);
    assert count.Ok?;
    var ips := ComputeIps(plan.network, count.value);
    assert ips.Ok?;
    var computes := ComputePlans(planData, ips.value, dump);
    assert computes.Ok?;
    var volumes := HeadVolumeNames(planData);
    assert volumes.Ok?;
    assert Specs(plan, bootstrapDir, dump) ==
      Ok(ClusterSpecs(SpecEntries(plan, bootstrapDir, volumes.value), NodeMap(head.value, computes.value)));
  }

  /** Compute `i` is a compute node at the `i`-th address with the `i`-th hostname. */
  lemma PlannedComputes(planData: Value, ips: seq<string>, computes: seq<PlannedNode>, dump: Value -> string)
    requires ComputePlans(planData, ips, dump) == Ok(computes)
    ensures |computes| == |ips|
    ensures forall i :: 0 <= i < |computes| ==>
      computes[i].ipAddress == ips[i] && computes[i].role == ComputeRole &&
      CreateComputeHostname(planData, i) == Ok(computes[i].hostname)
  {
    forall i | 0 <= i < |computes|
      ensures computes[i].ipAddress == ips[i] && computes[i].role == ComputeRole
      ensures CreateComputeHostname(planData, i) == Ok(computes[i].hostname)
    {
      ComputePlansAt(planData, ips, dump, i);
    }
  }

  /**
   * The nodes dictionary of a head and computes at distinct addresses other than the
   * head's: exactly one head, at its address, and compute `i` at the `i`-th address.
   */
  lemma PlannedNodes(ips: seq<string>, head: PlannedNode, computes: seq<PlannedNode>)
    requires head.role == HeadRole && |computes| == |ips|
    requires forall i :: 0 <= i < |ips| ==> computes[i].ipAddress == ips[i] && computes[i].role == ComputeRole
    requires forall i :: 0 <= i < |ips| ==> ips[i] != head.ipAddress
    requires forall i, j :: 0 <= i < j < |ips| ==> ips[i] != ips[j]
    ensures var nodes := NodeMap(head, computes);
      && head.ipAddress in nodes && nodes[head.ipAddress] == head
      && (forall k :: k in nodes && nodes[k].role == HeadRole ==> k == head.ipAddress)
      && |nodes| == |ips| + 1
      && (forall i :: 0 <= i < |ips| ==> ips[i] in nodes && nodes[ips[i]] == computes[i])
  {
    var nodes := NodeMap(head, computes);
    NodeMapDistinct(head, computes);
    forall k | k in nodes && nodes[k].role == HeadRole
      ensures k == head.ipAddress
    {
      NodeMapKeys(head, computes, k);
    }
  }

  /**
   * For a count other than -1: exactly one head, at the head IP; compute `i` at the `i`-th
   * compute IP with the `i`-th hostname; one node per compute IP and the head, each keyed
   * by its address.
   */
  lemma SpecsNodes(plan: ClusterPlan, bootstrapDir: string, dump: Value -> string)
    requires ValidNetwork(plan.network) && Specs(plan, bootstrapDir, dump).Ok?
    requires ComputeCount(plan.planData).value != -1
    ensures var nodes := Specs(plan, bootstrapDir, dump).value.nodes;
      var ips := ComputeIps(plan.network, ComputeCount(plan.planData).value).value;
      && HeadIp(plan.network) in nodes
      && nodes[HeadIp(plan.network)] == CreateHeadPlan(plan.network, Dict(plan.planData), dump).value
      && (forall k :: k in nodes ==> nodes[k].ipAddress == k)
      && (forall k :: k in nodes && nodes[k].role == HeadRole ==> k == HeadIp(plan.network))
      && |nodes| == |ips| + 1
      && (forall i :: 0 <= i < |ips| ==>
            ips[i] in nodes && nodes[ips[i]].role == ComputeRole &&
            CreateComputeHostname(Dict(plan.planData), i) == Ok(nodes[ips[i]].hostname))
  {
    SpecsParts(plan, bootstrapDir, dump);
    var cn := plan.network;
    var count := ComputeCount(plan.planData).value;
    var ips := ComputeIps(cn, count).value;
    var head := CreateHeadPlan(cn, Dict(plan.planData), dump).value;
    var computes := ComputePlans(Dict(plan.planData), ips, dump).value;
    forall i | 0 <= i < |ips|
      ensures ips[i] != head.ipAddress
    {
      ComputeIpsDisjoint(cn, count, i, i);
    }
    forall i, j | 0 <= i < j < |ips|
      ensures ips[i] != ips[j]
    {
      ComputeIpsDistinct(cn, count, i, j);
    }
    PlannedComputes(Dict(plan.planData), ips, computes, dump);
    PlannedNodes(ips, head, computes);
  }

  /** Every planned node is the head or a compute: the planner never plans a gateway. */
  lemma SpecsRoles(plan: ClusterPlan, bootstrapDir: string, dump: Value -> string)
    requires ValidNetwork(plan.network) && Specs(plan, bootstrapDir, dump).Ok?
    ensures forall k :: k in Specs(plan, bootstrapDir, dump).value.nodes ==>
      Specs(plan, bootstrapDir, dump).value.nodes[k].role in {HeadRole, ComputeRole}
  {
    SpecsParts(plan, bootstrapDir, dump);
    var ips := ComputeIps(plan.network, ComputeCount(plan.planData).value).value;
    var head := CreateHeadPlan(plan.network, Dict(plan.planData), dump).value;
    var computes := ComputePlans(Dict(plan.planData), ips, dump).value;
    PlannedComputes(Dict(plan.planData), ips, computes, dump);
    forall k | k in NodeMap(head, computes)
      ensures NodeMap(head, computes)[k].role in {HeadRole, ComputeRole}
    {
      NodeMapValues(head, computes, k);
    }
  }

  /** A non-negative count yields exactly that many compute nodes besides the head. */
  lemma SpecsNodeCount(plan: ClusterPlan, bootstrapDir: string, dump: Value -> string)
    requires ValidNetwork(plan.network) && Specs(plan, bootstrapDir, dump).Ok?
    requires ComputeCount(plan.planData).value >= 0
    ensures |Specs(plan, bootstrapDir, dump).value.nodes| == ComputeCount(plan.planData).value + 1
  {
    SpecsParts(plan, bootstrapDir, dump);
    SpecsNodes(plan, bootstrapDir, dump);
  }

  /** More computes than the subnet holds: the build fails once the head is planned. */
  lemma SpecsTooSmall(plan: ClusterPlan, bootstrapDir: string, dump: Value -> string)
    requires ValidNetwork(plan.network)
    requires CreateHeadPlan(plan.network, Dict(plan.planData), dump).Ok?
    requires ComputeCount(plan.planData).Ok?
    requires ComputeCount(plan.planData).value > |AllIpAddresses(plan.network)| - 2
    ensures Specs(plan, bootstrapDir, dump) == Err(NetworkSubnetTooSmall)
  {
  }

  /**
   * A compute planned at the head's own address replaces the head in the nodes
   * dictionary: no node left there is a head.
   */
  lemma HeadReplaced(planData: Value, ips: seq<string>, head: PlannedNode, computes: seq<PlannedNode>,
                     dump: Value -> string)
    requires ComputePlans(planData, ips, dump) == Ok(computes)
    requires head.ipAddress in ips
    requires forall i, j :: 0 <= i < j < |ips| ==> ips[i] != ips[j]
    ensures forall k :: k in NodeMap(head, computes) ==> NodeMap(head, computes)[k].role == ComputeRole
  {
    var nodes := NodeMap(head, computes);
    PlannedComputes(planData, ips, computes, dump);
    var h :| 0 <= h < |ips| && ips[h] == head.ipAddress;
    forall k | k in nodes
      ensures nodes[k].role == ComputeRole
    {
      NodeMapKeys(head, computes, k);
      var i: nat := h;
      if k != head.ipAddress {
        i :| 0 <= i < |computes| && computes[i].ipAddress == k;
      }
      NodeMapLastWins(head, computes, i);
    }
  }

  /**
   * A count of -1 hands the head's address to the last compute, whose plan then replaces
   * the head's: the specs hold no head at all.
   */
  lemma SpecsMinusOneLosesHead(plan: ClusterPlan, bootstrapDir: string, dump: Value -> string)
    requires ValidNetwork(plan.network) && Specs(plan, bootstrapDir, dump).Ok?
    requires ComputeCount(plan.planData).value == -1
    ensures forall k :: k in Specs(plan, bootstrapDir, dump).value.nodes ==>
      Specs(plan, bootstrapDir, dump).value.nodes[k].role == ComputeRole
  {
    SpecsParts(plan, bootstrapDir, dump);
    var cn := plan.network;
    var ips := ComputeIps(cn, -1).value;
    var head := CreateHeadPlan(cn, Dict(plan.planData), dump).value;
    var computes := ComputePlans(Dict(plan.planData), ips, dump).value;
    ComputeIpsMinusOne(cn);
    forall i, j | 0 <= i < j < |ips|
      ensures ips[i] != ips[j]
    {
      ComputeIpsDistinct(cn, -1, i, j);
    }
    HeadReplaced(Dict(plan.planData), ips, head, computes, dump);
  }

  /** `as_dict`: the plan data's name, head, compute and template entries, and the network entry. */
  function PlanAsDict(plan: ClusterPlan): (r: Dict)
    requires ValidNetwork(plan.network)
    ensures r.Keys == (plan.planData.Keys * PlanKeys) + {"network"}
    ensures forall k :: k in plan.planData && k in PlanKeys ==> r[k] == plan.planData[k]
    ensures r["network"] == Dict(Networking.AsDict(plan.settings, plan.network))
  {
    AddedKeysApart();
    DefensiveSubset(plan.planData, PlanKeys)["network" := Dict(Networking.AsDict(plan.settings, plan.network))]
  }
}
