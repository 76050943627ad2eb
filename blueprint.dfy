/**
 * A cluster ready to be deployed: its network, its specs and the list of its nodes in
 * the order of their keys. Keys are addresses compared as strings, so "10.0.0.10" sorts
 * before "10.0.0.9".
 */
module Blueprint {
  import opened Wrappers
  import opened Values
  import opened Strings
  import opened Networking
  import opened NodePlanner
  import opened ClusterPlanner

  /** The nodes stored under the given keys, in the keys' order. */
  function Pick(nodes: map<string, PlannedNode>, ks: seq<string>): (r: seq<PlannedNode>)
    requires forall i :: 0 <= i < |ks| ==> ks[i] in nodes
    ensures |r| == |ks|
    ensures forall i :: 0 <= i < |ks| ==> r[i] == nodes[ks[i]]
  {
    seq(|ks|, i requires 0 <= i < |ks| => nodes[ks[i]])
  }

  /** The node values ordered by their sorted keys. */
  ghost function Ordered(nodes: map<string, PlannedNode>): seq<PlannedNode>
  {
    Pick(nodes, SortedSet(nodes.Keys))
  }

  /** The ordered list holds each stored node once per key, and nothing else. */
  lemma OrderedCovers(nodes: map<string, PlannedNode>)
    ensures |Ordered(nodes)| == |nodes|
    ensures forall k :: k in nodes ==> nodes[k] in Ordered(nodes)
    ensures forall n :: n in Ordered(nodes) ==> exists k :: k in nodes && nodes[k] == n
  {
    var ks := SortedSet(nodes.Keys);
    var r := Pick(nodes, ks);
    forall k | k in nodes
      ensures nodes[k] in r
    {
      assert k in ks;
      var i :| 0 <= i < |ks| && ks[i] == k;
      assert r[i] == nodes[k];
    }
    forall n | n in r
      ensures exists k :: k in nodes && nodes[k] == n
    {
      var i :| 0 <= i < |r| && r[i] == n;
      assert ks[i] in nodes && nodes[ks[i]] == n;
    }
  }

  /** Nodes keyed by their own address come out in ascending string order of address. */
  lemma OrderedByAddress(nodes: map<string, PlannedNode>)
    requires forall k :: k in nodes ==> nodes[k].ipAddress == k
    ensures forall i, j :: 0 <= i < j < |Ordered(nodes)| ==>
      Lt(Ordered(nodes)[i].ipAddress, Ordered(nodes)[j].ipAddress)
  {
    var ks := SortedSet(nodes.Keys);
    assert forall i :: 0 <= i < |ks| ==> Ordered(nodes)[i].ipAddress == ks[i];
  }

  /** String order is not numeric order: ".10" sorts before ".9". */
  lemma AddressesSortAsStrings()
    ensures Lt("10.0.0.10", "10.0.0.9")
  {
    assert Le("10", "9");
    assert Le(".10", ".9");
    assert Le("0.10", "0.9");
    assert Le(".0.10", ".0.9");
    assert Le("0.0.10", "0.0.9");
    assert Le(".0.0.10", ".0.0.9");
    assert Le("0.0.0.10", "0.0.0.9");
    assert Le("10.0.0.10", "10.0.0.9");
  }

  /** The nodes of a list that have the given role, in list order. */
  function Filter(s: seq<PlannedNode>, role: string): (r: seq<PlannedNode>)
    ensures |r| <= |s|
    ensures forall n :: n in r <==> n in s && n.role == role
  {
    if s == [] then []
    else (if s[0].role == role then [s[0]] else []) + Filter(s[1..], role)
  }

  /** Filtering distributes over concatenation: the order of the list is kept. */
  lemma {:induction false} FilterAppend(s: seq<PlannedNode>, t: seq<PlannedNode>, role: string)
    ensures Filter(s + t, role) == Filter(s, role) + Filter(t, role)
  {
    if s == [] {
      assert s + t == t;
    } else {
      assert (s + t)[1..] == s[1..] + t;
      FilterAppend(s[1..], t, role);
    }
  }

  /** The first node of the filtered list is the first node of the list with that role. */
  lemma {:induction false} FilterFirst(s: seq<PlannedNode>, role: string)
    requires Filter(s, role) != []
    ensures exists i ::
      0 <= i < |s| && s[i] == Filter(s, role)[0] && (forall j :: 0 <= j < i ==> s[j].role != role)
  {
    if s[0].role != role {
      FilterFirst(s[1..], role);
      var i :| 0 <= i < |s[1..]| && s[1..][i] == Filter(s[1..], role)[0] &&
        forall j :: 0 <= j < i ==> s[1..][j].role != role;
      assert s[i + 1] == Filter(s, role)[0];
      assert forall j :: 0 <= j < i + 1 ==> s[j].role != role by {
        forall j | 0 <= j < i + 1
          ensures s[j].role != role
        {
          if j > 0 {
            assert s[j] == s[1..][j - 1];
          }
        }
      }
    }
  }

  /** `nodes_by_role(role)[0]`: the first node with the role, an index error when there is none. */
  function First(s: seq<PlannedNode>, role: string): (r: Result<PlannedNode, Error>)
    ensures r.Ok? <==> exists n :: n in s && n.role == role
    ensures r.Err? ==> r.error == IndexError
    ensures r.Ok? ==> r.value.role == role
    ensures r.Ok? ==>
      exists i :: 0 <= i < |s| && s[i] == r.value && (forall j :: 0 <= j < i ==> s[j].role != role)
  {
    var f := Filter(s, role);
    if f == [] then Err(IndexError)
    else
      assert f[0] in f;
      FilterFirst(s, role);
      Ok(f[0])
  }

  /** `ClusterBlueprint`: the network, the specs and the nodes in the order of their keys. */
  class ClusterBlueprint {
    const network: ClusterNetwork
    const specs: ClusterSpecs
    const orderedNodes: seq<PlannedNode>

    /** Sorts the node keys and lists the nodes in that order. */
    constructor(network: ClusterNetwork, specs: ClusterSpecs)
      ensures this.network == network && this.specs == specs
      ensures orderedNodes == Ordered(specs.nodes)
    {
      var ips := SortKeys(specs.nodes.Keys);
      this.network := network;
      this.specs := specs;
      orderedNodes := Pick(specs.nodes, ips);
    }

    /** `name`: the specs' `name`; a key error when the specs have none. */
    function Name(): (r: Result<Value, Error>)
      ensures r.Ok? <==> "name" in specs.entries
      ensures r.Ok? ==> r.value == specs.entries["name"]
      ensures r.Err? ==> r.error == KeyError("name")
    {
      Lookup(Dict(specs.entries), "name")
    }

    /** `nodes_by_role(role)`: exactly the nodes with that role, in key order. */
    function NodesByRole(role: string): (r: seq<PlannedNode>)
      ensures forall n :: n in r <==> n in orderedNodes && n.role == role
    {
      Filter(orderedNodes, role)
    }

    /** `head_node`: the first head in key order; an index error when there is none. */
    function HeadNode(): (r: Result<PlannedNode, Error>)
      ensures r.Ok? <==> exists n :: n in orderedNodes && n.role == HeadRole
      ensures r.Err? ==> r.error == IndexError
      ensures r.Ok? ==> r.value.role == HeadRole && r.value in orderedNodes
    {
      First(orderedNodes, HeadRole)
    }

    /** `gateway_node`: the first gateway in key order; an index error when there is none. */
    function GatewayNode(): (r: Result<PlannedNode, Error>)
      ensures r.Ok? <==> exists n :: n in orderedNodes && n.role == GatewayRole
      ensures r.Err? ==> r.error == IndexError
      ensures r.Ok? ==> r.value.role == GatewayRole && r.value in orderedNodes
    {
      First(orderedNodes, GatewayRole)
    }

    /** `compute_nodes`: the computes in key order. */
    function ComputeNodes(): (r: seq<PlannedNode>)
      ensures forall n :: n in r <==> n in orderedNodes && n.role == ComputeRole
    {
      NodesByRole(ComputeRole)
    }

    /** `as_dict`: the specs the blueprint was made from, unchanged. */
    function AsDict(): (r: ClusterSpecs)
      ensures r.entries == specs.entries && r.nodes == specs.nodes
    {
      specs
    }
  }

  /** The blueprint of a planned cluster with a count other than -1 has the planned head. */
  lemma PlannedHeadNode(bp: ClusterBlueprint, plan: ClusterPlan, bootstrapDir: string, dump: Value -> string)
    requires ValidNetwork(plan.network) && Specs(plan, bootstrapDir, dump).Ok?
    requires ComputeCount(plan.planData).value != -1
    requires bp.specs == Specs(plan, bootstrapDir, dump).value && bp.orderedNodes == Ordered(bp.specs.nodes)
    ensures bp.HeadNode() == Ok(CreateHeadPlan(plan.network, Dict(plan.planData), dump).value)
  {
    var nodes := bp.specs.nodes;
    var head := CreateHeadPlan(plan.network, Dict(plan.planData), dump).value;
    SpecsNodes(plan, bootstrapDir, dump);
    OrderedCovers(nodes);
    assert head in bp.orderedNodes;
    var h := bp.HeadNode().value;
    var k :| k in nodes && nodes[k] == h;
  }

  /** The blueprint of a planned cluster with a count of -1 has no head node at all. */
  lemma PlannedWithoutHead(bp: ClusterBlueprint, plan: ClusterPlan, bootstrapDir: string, dump: Value -> string)
    requires ValidNetwork(plan.network) && Specs(plan, bootstrapDir, dump).Ok?
    requires ComputeCount(plan.planData).value == -1
    requires bp.specs == Specs(plan, bootstrapDir, dump).value && bp.orderedNodes == Ordered(bp.specs.nodes)
    ensures bp.HeadNode() == Err(IndexError)
  {
    SpecsMinusOneLosesHead(plan, bootstrapDir, dump);
    OrderedCovers(bp.specs.nodes);
  }

  /** A planned cluster has no gateway node: `gateway_node` fails on its blueprint. */
  lemma PlannedWithoutGateway(bp: ClusterBlueprint, plan: ClusterPlan, bootstrapDir: string, dump: Value -> string)
    requires ValidNetwork(plan.network) && Specs(plan, bootstrapDir, dump).Ok?
    requires bp.specs == Specs(plan, bootstrapDir, dump).value && bp.orderedNodes == Ordered(bp.specs.nodes)
    ensures bp.GatewayNode() == Err(IndexError)
  {
    SpecsRoles(plan, bootstrapDir, dump);
    WithoutRole(bp.specs.nodes, GatewayRole);
  }

  /** A role no stored node has is absent from the ordered list. */
  lemma WithoutRole(nodes: map<string, PlannedNode>, role: string)
    requires forall k :: k in nodes ==> nodes[k].role != role
    ensures First(Ordered(nodes), role) == Err(IndexError)
  {
    OrderedCovers(nodes);
  }

  /** Every planned compute is among the blueprint's compute nodes. */
  lemma PlannedComputeNodes(bp: ClusterBlueprint, plan: ClusterPlan, bootstrapDir: string, dump: Value -> string)
    requires ValidNetwork(plan.network) && Specs(plan, bootstrapDir, dump).Ok?
    requires ComputeCount(plan.planData).value != -1
    requires bp.specs == Specs(plan, bootstrapDir, dump).value && bp.orderedNodes == Ordered(bp.specs.nodes)
    ensures var ips := ComputeIps(plan.network, ComputeCount(plan.planData).value).value;
      forall i :: 0 <= i < |ips| ==> ips[i] in bp.specs.nodes && bp.specs.nodes[ips[i]] in bp.ComputeNodes()
  {
    SpecsNodes(plan, bootstrapDir, dump);
    OrderedCovers(bp.specs.nodes);
  }
}
