/**
 * The Ansible inventory of a cluster: every node under `all.hosts` with its hostname,
 * container and image, every node's address under the group of its role in
 * `all.children`, and the cluster's flavor, name, network and template under `all.vars`.
 * Writing the YAML file is left out; `ToYaml` yields the dictionary that would be dumped.
 */
module Inventory {
  import opened Wrappers
  import opened Values
  import opened Collection
  import opened Networking
  import opened NodePlanner
  import opened ClusterPlanner

  /** The fields of a planned node copied into the inventory. */
  const NodeKeys: set<string> := {"hostname", "container", "image"}

  /** `planned_node._asdict()`: every field of the node under its field name. */
  function NodeAsDict(n: PlannedNode): Dict
  {
    map["hostname" := Str(n.hostname), "container" := Str(n.container), "image" := n.image,
        "ip_address" := Str(n.ipAddress), "role" := Str(n.role), "volumes" := List(n.volumes),
        "static_text" := Str(n.staticText), "systemctl" := Bool(n.systemctl)]
  }

  /** `dict_for_node`: the node's hostname, container and image, and nothing else. */
  function DictForNode(n: PlannedNode): (r: Dict)
    ensures r.Keys == NodeKeys
    ensures r["hostname"] == Str(n.hostname) && r["container"] == Str(n.container) && r["image"] == n.image
  {
    DefensiveSubset(NodeAsDict(n), NodeKeys)
  }

  /** The roles the nodes have. */
  function Roles(nodes: map<string, PlannedNode>): set<string>
  {
    set k | k in nodes :: nodes[k].role
  }

  /** The members of one group: the addresses of the nodes with that role, each mapped to None. */
  function GroupHosts(nodes: map<string, PlannedNode>, role: string): map<string, Value>
  {
    map k | k in nodes && nodes[k].role == role :: Null
  }

  /** The members of every group, by role. */
  function Groups(nodes: map<string, PlannedNode>): (r: map<string, map<string, Value>>)
    ensures r.Keys == Roles(nodes)
  {
    map role | role in Roles(nodes) :: GroupHosts(nodes, role)
  }

  /** The groups with an empty group for `role` when it has none. */
  function WithRole(groups: map<string, map<string, Value>>, role: string): (r: map<string, map<string, Value>>)
    ensures role in r && r.Keys == groups.Keys + {role}
    ensures forall k :: k in groups ==> r[k] == groups[k]
    ensures role !in groups ==> r[role] == map[]
  {
    if role in groups then groups else groups[role := map[]]
  }

  /** Processing one more node adds its entry to the hosts. */
  lemma HostsStep(nodes: map<string, PlannedNode>, todo: set<string>, ip: string)
    requires ip in nodes && ip in todo
    ensures Hosts(nodes - (todo - {ip})) == Hosts(nodes - todo)[ip := Dict(DictForNode(nodes[ip]))]
  {
    DifferenceStep(nodes, todo, ip);
    HostsAdd(nodes - todo, ip, nodes[ip]);
  }

  /** A new node adds its own host entry and changes no other. */
  lemma HostsAdd(m: map<string, PlannedNode>, ip: string, n: PlannedNode)
    ensures Hosts(m[ip := n]) == Hosts(m)[ip := Dict(DictForNode(n))]
  {
    var l := Hosts(m[ip := n]);
    var r := Hosts(m)[ip := Dict(DictForNode(n))];
    assert l.Keys == r.Keys;
    forall k | k in l
      ensures l[k] == r[k]
    {
      if k != ip {
        assert (m[ip := n])[k] == m[k];
      }
    }
  }

  /** Processing one more node adds it to its role's group, created first when the role is new. */
  lemma GroupsStep(nodes: map<string, PlannedNode>, todo: set<string>, ip: string)
    requires ip in nodes && ip in todo
    ensures var g := WithRole(Groups(nodes - todo), nodes[ip].role);
      Groups(nodes - (todo - {ip})) == g[nodes[ip].role := g[nodes[ip].role][ip := Null]]
  {
    var before := nodes - todo;
    var after := nodes - (todo - {ip});
    var n := nodes[ip];
    DifferenceStep(nodes, todo, ip);
    RolesAdd(before, ip, n);
    var g := WithRole(Groups(before), n.role);
    var want := g[n.role := g[n.role][ip := Null]];
    assert Groups(after).Keys == want.Keys;
    forall r | r in want
      ensures Groups(after)[r] == want[r]
    {
      GroupHostsAdd(before, ip, n, r);
    }
  }

  /** Taking one key out of the keys removed puts its entry back. */
  lemma DifferenceStep(nodes: map<string, PlannedNode>, todo: set<string>, ip: string)
    requires ip in nodes && ip in todo
    ensures nodes - (todo - {ip}) == (nodes - todo)[ip := nodes[ip]]
  {
  }

  /** A new node adds its role to the roles. */
  lemma RolesAdd(m: map<string, PlannedNode>, ip: string, n: PlannedNode)
    requires ip !in m
    ensures Roles(m[ip := n]) == Roles(m) + {n.role}
  {
    var after := m[ip := n];
    assert after[ip].role == n.role;
    forall r | r in Roles(after)
      ensures r in Roles(m) + {n.role}
    {
      var k :| k in after && after[k].role == r;
      if k != ip {
        assert m[k].role == r;
      }
    }
    forall r | r in Roles(m)
      ensures r in Roles(after)
    {
      var k :| k in m && m[k].role == r;
      assert after[k] == m[k];
    }
  }

  /** A new node joins its own role's group and no other. */
  lemma GroupHostsAdd(m: map<string, PlannedNode>, ip: string, n: PlannedNode, r: string)
    requires ip !in m
    ensures GroupHosts(m[ip := n], r) == if r == n.role then GroupHosts(m, r)[ip := Null] else GroupHosts(m, r)
  {
  }


  /** `all.hosts`: one entry per node key. */
  function Hosts(nodes: map<string, PlannedNode>): (r: map<string, Value>)
    ensures r.Keys == nodes.Keys
    ensures forall k :: k in r ==> r[k] == Dict(DictForNode(nodes[k]))
  {
    map k | k in nodes :: Dict(DictForNode(nodes[k]))
  }

  /** `all.children`: a group `{'hosts': ...}` for every role some node has. */
  function Children(nodes: map<string, PlannedNode>): map<string, Value>
  {
    Wrap(Groups(nodes))
  }

  /** Each group's members under the group's `hosts` key. */
  function Wrap(groups: map<string, map<string, Value>>): (r: map<string, Value>)
    ensures r.Keys == groups.Keys
  {
    map role | role in groups :: Dict(map["hosts" := Dict(groups[role])])
  }

  /**
   * A group exists iff some node has its role, and a node is a member of a group iff the
   * group is its role's, with None as its value.
   */
  lemma ChildrenByRole(nodes: map<string, PlannedNode>, role: string)
    ensures role in Children(nodes) <==> exists k :: k in nodes && nodes[k].role == role
    ensures role in Children(nodes) ==>
      Children(nodes)[role] == Dict(map["hosts" := Dict(GroupHosts(nodes, role))])
    ensures forall k :: k in nodes ==> (k in GroupHosts(nodes, role) <==> nodes[k].role == role)
    ensures forall k :: k in GroupHosts(nodes, role) ==> k in nodes && GroupHosts(nodes, role)[k] == Null
  {
    if exists k :: k in nodes && nodes[k].role == role {
      var k :| k in nodes && nodes[k].role == role;
      assert role in Roles(nodes);
    }
  }

  /** The inventory's `vars`, or the key error of the first specs entry missing. */
  function Vars(entries: Dict): (r: Result<Dict, Error>)
    ensures r.Ok? <==> "flavor" in entries && "name" in entries && "network" in entries && "template" in entries
    ensures r.Err? ==> r.error == KeyError(
      if "flavor" !in entries then "flavor"
      else if "name" !in entries then "name"
      else if "network" !in entries then "network"
      else "template")
    ensures r.Ok? ==> r.value.Keys == {"cluster_flavor", "cluster_name", "cluster_network", "cluster_template"}
    ensures r.Ok? ==>
      r.value["cluster_flavor"] == entries["flavor"] && r.value["cluster_name"] == entries["name"] &&
      r.value["cluster_network"] == entries["network"] && r.value["cluster_template"] == entries["template"]
  {
    var flavor :- Lookup(Dict(entries), "flavor");
    var name :- Lookup(Dict(entries), "name");
    var network :- Lookup(Dict(entries), "network");
    var template :- Lookup(Dict(entries), "template");
    Ok(map["cluster_flavor" := flavor, "cluster_name" := name,
           "cluster_network" := network, "cluster_template" := template])
  }

  /** The inventory assembled from its three parts. */
  function Assemble(hosts: map<string, Value>, children: map<string, Value>, vars: Dict): (r: Dict)
    ensures r.Keys == {"all"}
    ensures At(Dict(r), ["all", "hosts"]) == Ok(Dict(hosts))
    ensures At(Dict(r), ["all", "children"]) == Ok(Dict(children))
    ensures At(Dict(r), ["all", "vars"]) == Ok(Dict(vars))
  {
    var all := map["hosts" := Dict(hosts), "children" := Dict(children), "vars" := Dict(vars)];
    AtTwo(Dict(map["all" := Dict(all)]), "all", "hosts");
    AtTwo(Dict(map["all" := Dict(all)]), "all", "children");
    AtTwo(Dict(map["all" := Dict(all)]), "all", "vars");
    map["all" := Dict(all)]
  }

  /** The specification of `create_dict`: the inventory of the specs, or the missing key. */
  function InventoryOf(specs: ClusterSpecs): (r: Result<Dict, Error>)
    ensures r.Ok? <==> Vars(specs.entries).Ok?
    ensures r.Ok? ==> r.value == Assemble(Hosts(specs.nodes), Children(specs.nodes), Vars(specs.entries).value)
  {
    var vars :- Vars(specs.entries);
    Ok(Assemble(Hosts(specs.nodes), Children(specs.nodes), vars))
  }

  /** The groups of a planned cluster's inventory: the head alone at the head IP, and the computes. */
  lemma PlannedGroups(plan: ClusterPlan, bootstrapDir: string, dump: Value -> string)
    requires ValidNetwork(plan.network) && Specs(plan, bootstrapDir, dump).Ok?
    requires ComputeCount(plan.planData).value != -1
    ensures var nodes := Specs(plan, bootstrapDir, dump).value.nodes;
      && Roles(nodes) <= {HeadRole, ComputeRole}
      && GroupHosts(nodes, HeadRole) == map[HeadIp(plan.network) := Null]
  {
    var nodes := Specs(plan, bootstrapDir, dump).value.nodes;
    SpecsRoles(plan, bootstrapDir, dump);
    RolesWithin(nodes, {HeadRole, ComputeRole});
    SpecsNodes(plan, bootstrapDir, dump);
    SingleHeadGroup(nodes, HeadIp(plan.network));
  }

  /** When every node's role is among the allowed ones, so are the groups. */
  lemma RolesWithin(nodes: map<string, PlannedNode>, allowed: set<string>)
    requires forall k :: k in nodes ==> nodes[k].role in allowed
    ensures Roles(nodes) <= allowed
  {
  }

  /** A cluster with exactly one head has a head group of that one host. */
  lemma SingleHeadGroup(nodes: map<string, PlannedNode>, h: string)
    requires h in nodes && nodes[h].role == HeadRole
    requires forall k :: k in nodes && nodes[k].role == HeadRole ==> k == h
    ensures GroupHosts(nodes, HeadRole) == map[h := Null]
  {
    assert GroupHosts(nodes, HeadRole).Keys == {h};
  }

  /** `AnsibleInventory`: the specs and, once built, the inventory dictionary. */
  class AnsibleInventory {
    const specs: ClusterSpecs
    var inventory: Option<Dict>
    /** `self.children`: the members of each role's group, by role. */
    var children: map<string, map<string, Value>>

    constructor(specs: ClusterSpecs)
      ensures this.specs == specs && inventory == None && children == map[]
    {
      this.specs := specs;
      inventory := None;
      children := map[];
    }

    /** `add_role_if_needed`: a new role gets an empty group; an existing group is kept. */
    method AddRoleIfNeeded(role: string)
      modifies this
      ensures inventory == old(inventory)
      ensures children == WithRole(old(children), role)
    {
      if role !in children {
        children := children[role := map[]];
      }
    }

    /**
     * The loop of `create_dict`: starting from empty groups, adds every node to the hosts
     * and to its role's group.
     */
    method AddNodes(nodes: map<string, PlannedNode>) returns (hosts: map<string, Value>)
      modifies this
      ensures inventory == old(inventory)
      ensures hosts == Hosts(nodes) && children == Groups(nodes)
    {
      hosts := map[];
      children := map[];
      var todo := nodes.Keys;
      while todo != {}
        invariant todo <= nodes.Keys
        invariant inventory == old(inventory)
        invariant hosts == Hosts(nodes - todo)
        invariant children == Groups(nodes - todo)
        decreases todo
      {
        var ip :| ip in todo;
        var node := nodes[ip];
        HostsStep(nodes, todo, ip);
        GroupsStep(nodes, todo, ip);
        hosts := hosts[ip := Dict(DictForNode(node))];
        AddRoleIfNeeded(node.role);
        children := children[node.role := children[node.role][ip := Null]];
        todo := todo - {ip};
      }
      assert nodes - todo == nodes by {
        assert todo == {};
        assert forall k :: k in nodes - todo <==> k in nodes;
      }
    }

    /**
     * `create_dict`: the hosts and groups of every node, and the specs' vars. A missing
     * specs entry fails before anything is built.
     */
    method CreateDict() returns (r: Result<Dict, Error>)
      modifies this
      ensures r == InventoryOf(specs)
      ensures r.Ok? ==> inventory == Some(r.value) && children == Groups(specs.nodes)
      ensures r.Err? ==> inventory == old(inventory) && children == old(children)
    {
      var vars := Vars(specs.entries);
      if vars.Err? {
        return Err(vars.error);
      }
      var hosts := AddNodes(specs.nodes);
      var groups := Wrap(children);
      inventory := Some(Assemble(hosts, groups, vars.value));
      r := Ok(inventory.value);
    }

    /** `to_yaml`: the inventory to dump, built first if it has not been built yet. */
    method ToYaml() returns (r: Result<Dict, Error>)
      modifies this
      ensures old(inventory).Some? ==> r == Ok(old(inventory).value) && inventory == old(inventory)
      ensures old(inventory).Some? ==> children == old(children)
      ensures old(inventory).None? ==> r == InventoryOf(specs)
      ensures old(inventory).None? && r.Ok? ==> children == Groups(specs.nodes)
      ensures old(inventory).None? && r.Err? ==> children == old(children)
      ensures r.Ok? ==> inventory == Some(r.value)
    {
      if inventory.None? {
        r := CreateDict();
      } else {
        r := Ok(inventory.value);
      }
    }
  }
}
