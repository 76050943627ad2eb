/**
 * The plan of one node of a cluster: its hostname, container name, image, address and
 * role (`BasicNodePlanner`), extended with its volumes, a static text block and
 * whether it runs systemd (`DefaultNodePlanner`). The YAML dumper that indents the
 * static block is the parameter `dump`.
 */
module NodePlanner {
  import opened Wrappers
  import opened Values
  import opened Strings
  import opened Ipv4
  import opened DockerFacade
  import opened Networking

  /** A node of the basic plan. */
  datatype BasicPlannedNode = BasicPlannedNode(
    hostname: string, container: string, image: Value, ipAddress: string, role: string)

  /** A node of the default plan: the basic fields and the role's extensions. */
  datatype PlannedNode = PlannedNode(
    hostname: string, container: string, image: Value, ipAddress: string, role: string,
    volumes: seq<Value>, staticText: string, systemctl: bool)

  const HeadRole := "head"
  const ComputeRole := "compute"
  const GatewayRole := "gateway"

  /** The hostname of compute `index`: the prefix and `index + 1` zero-padded to the width. */
  function ComputeHostname(prefix: string, width: nat, index: nat): (r: string)
    ensures prefix <= r
    ensures r[|prefix|..] == ZeroPad(Decimal(index + 1), width)
  {
    prefix + ZeroPad(Decimal(index + 1), width)
  }

  /** Distinct compute indices get distinct hostnames, however narrow the width. */
  lemma ComputeHostnameInjective(prefix: string, width: nat, i: nat, j: nat)
    requires ComputeHostname(prefix, width, i) == ComputeHostname(prefix, width, j)
    ensures i == j
  {
    DecimalNoLeadingZero(i + 1);
    DecimalNoLeadingZero(j + 1);
    ZeroPadInjective(Decimal(i + 1), Decimal(j + 1), width);
    DecimalInjective(i + 1, j + 1);
  }

  /**
   * Numbers that need more digits than the width are written in full: the width widens,
   * nothing is cut.
   */
  lemma ComputeHostnameWidens(prefix: string, width: nat, index: nat)
    ensures |ComputeHostname(prefix, width, index)| ==
      |prefix| + (if |Decimal(index + 1)| < width then width else |Decimal(index + 1)|)
    ensures Decimal(index + 1) <= ComputeHostname(prefix, width, index)[|ComputeHostname(prefix, width, index)| - |Decimal(index + 1)|..]
  {
  }

  /**
   * Whether `str(v)` holds a brace: the text of a string, of every mapping, and of a list
   * with such an element. Pasted into a format specification, a brace opens a nested
   * replacement field.
   */
  predicate Braced(v: Value)
  {
    match v
    case Str(s) => '{' in s || '}' in s
    case Dict(_) => true
    case List(xs) => exists x :: x in xs && Braced(x)
    case _ => false
  }

  /**
   * The width of the format `'{0:0%sd}' % str(suffix_len)`: the specifier is `0`, the text
   * of `suffix_len` and `d`, a valid integer format when that text is a run of digits (an
   * empty run asks for no padding). The text of a negative number, of a boolean, of None
   * or of a list without braces is not, and the format refuses it. A text with a brace
   * opens a nested field, which `format` cannot fill; the empty mapping's `{}` asks for
   * automatic numbering after the manual `0`, which it refuses.
   */
  function SuffixWidth(suffixLen: Value): (r: Result<nat, Error>)
    ensures !Braced(suffixLen) && r.Err? ==> r.error == ValueError
    ensures Braced(suffixLen) && suffixLen != Dict(map[]) ==> r == Err(FormatFieldError)
    ensures suffixLen == Dict(map[]) ==> r == Err(ValueError)
    ensures suffixLen.Int? ==> (r.Ok? <==> suffixLen.i >= 0)
    ensures suffixLen.Int? && r.Ok? ==> r.value == suffixLen.i
    ensures suffixLen.Str? ==> (r.Ok? <==> AllDigits(suffixLen.s))
    ensures suffixLen.Str? && r.Ok? ==> r.value == DigitsValue(suffixLen.s)
    ensures !suffixLen.Int? && !suffixLen.Str? ==> r.Err?
  {
    if suffixLen == Dict(map[]) then Err(ValueError)
    else if Braced(suffixLen) then Err(FormatFieldError)
    else if suffixLen.Int? && suffixLen.i >= 0 then
      DigitsValueDecimal(suffixLen.i);
      Ok(DigitsValue(Decimal(suffixLen.i)))
    else if suffixLen.Str? && AllDigits(suffixLen.s) then Ok(DigitsValue(suffixLen.s))
    else Err(ValueError)
  }

  /**
   * `create_compute_hostname`: reads the prefix and the suffix width from
   * `plan_data['compute']['hostname']`; an invalid width fails the format, and a prefix
   * that is not a string cannot be concatenated.
   */
  function CreateComputeHostname(planData: Value, index: nat): (r: Result<string, Error>)
    ensures r.Ok? <==>
      At(planData, ["compute", "hostname", "prefix"]).Ok? && At(planData, ["compute", "hostname", "prefix"]).value.Str? &&
      At(planData, ["compute", "hostname", "suffix_len"]).Ok? &&
      SuffixWidth(At(planData, ["compute", "hostname", "suffix_len"]).value).Ok?
    ensures r.Ok? ==>
      r.value == ComputeHostname(At(planData, ["compute", "hostname", "prefix"]).value.s,
                                 SuffixWidth(At(planData, ["compute", "hostname", "suffix_len"]).value).value, index)
    ensures (At(planData, ["compute", "hostname", "prefix"]).Ok? && At(planData, ["compute", "hostname", "suffix_len"]).Ok? &&
             SuffixWidth(At(planData, ["compute", "hostname", "suffix_len"]).value).Err?) ==>
      r == Err(SuffixWidth(At(planData, ["compute", "hostname", "suffix_len"]).value).error)
    ensures (At(planData, ["compute", "hostname", "prefix"]).Ok? && !At(planData, ["compute", "hostname", "prefix"]).value.Str? &&
             At(planData, ["compute", "hostname", "suffix_len"]).Ok? &&
             SuffixWidth(At(planData, ["compute", "hostname", "suffix_len"]).value).Ok?) ==> r == Err(TypeError)
  {
    AtThree(planData, "compute", "hostname", "prefix");
    AtThree(planData, "compute", "hostname", "suffix_len");
    var compute :- Lookup(planData, "compute");
    AtTwo(compute, "hostname", "prefix");
    AtTwo(compute, "hostname", "suffix_len");
    var hostname :- Lookup(compute, "hostname");
    var prefix :- Lookup(hostname, "prefix");
    var suffixLen :- Lookup(hostname, "suffix_len");
    var width :- SuffixWidth(suffixLen);
    if !prefix.Str? then Err(TypeError)
    else Ok(ComputeHostname(prefix.s, width, index))
  }

  /** `create_node_plan`: joining the names needs two strings. */
  function CreateNodePlan(clusterName: Value, hostname: Value, ipAddress: string, image: Value,
                          role: string): (r: Result<BasicPlannedNode, Error>)
    ensures r.Ok? <==> clusterName.Str? && hostname.Str?
    ensures r.Err? ==> r.error == TypeError
    ensures r.Ok? ==>
      r.value.hostname == hostname.s && r.value.image == image &&
      r.value.ipAddress == ipAddress && r.value.role == role
    ensures r.Ok? ==> r.value.container == ContainerName(clusterName.s, hostname.s)
  {
    if clusterName.Str? && hostname.Str? then
      Ok(BasicPlannedNode(hostname.s, ContainerName(clusterName.s, hostname.s), image, ipAddress, role))
    else Err(TypeError)
  }

  /** `BasicNodePlanner.create_head_plan`: the head sits at the network's head IP. */
  function CreateBasicHeadPlan(cn: ClusterNetwork, planData: Value): (r: Result<BasicPlannedNode, Error>)
    requires ValidNetwork(cn)
    ensures r.Ok? ==> r.value.ipAddress == HeadIp(cn) && r.value.role == HeadRole
    ensures r.Ok? ==>
      At(planData, ["head", "hostname"]) == Ok(Str(r.value.hostname)) &&
      At(planData, ["head", "image"]) == Ok(r.value.image) &&
      At(planData, ["name"]).Ok? && At(planData, ["name"]).value.Str? &&
      r.value.container == ContainerName(At(planData, ["name"]).value.s, r.value.hostname)
  {
    AtTwo(planData, "head", "hostname");
    AtTwo(planData, "head", "image");
    AtOne(planData, "name");
    var head :- Lookup(planData, "head");
    var hostname :- Lookup(head, "hostname");
    var image :- Lookup(head, "image");
    var name :- Lookup(planData, "name");
    CreateNodePlan(name, hostname, HeadIp(cn), image, HeadRole)
  }

  /** `BasicNodePlanner.create_compute_plan`: compute `index` at the given address. */
  function CreateBasicComputePlan(planData: Value, index: nat, computeIp: string): (r: Result<BasicPlannedNode, Error>)
    ensures r.Ok? ==> r.value.ipAddress == computeIp && r.value.role == ComputeRole
    ensures r.Ok? ==>
      CreateComputeHostname(planData, index) == Ok(r.value.hostname) &&
      At(planData, ["compute", "image"]) == Ok(r.value.image) &&
      At(planData, ["name"]).Ok? && At(planData, ["name"]).value.Str? &&
      r.value.container == ContainerName(At(planData, ["name"]).value.s, r.value.hostname)
  {
    AtTwo(planData, "compute", "image");
    AtOne(planData, "name");
    var compute :- Lookup(planData, "compute");
    var hostname :- CreateComputeHostname(planData, index);
    var image :- Lookup(compute, "image");
    var name :- Lookup(planData, "name");
    CreateNodePlan(name, Str(hostname), computeIp, image, ComputeRole)
  }

  /**
   * The elements of an optional list entry: none when the key is absent. A string entry
   * gives its characters and a mapping its keys, as `list.extend` does; anything else is
   * a type error.
   */
  function OptionalElements(d: Dict, key: string): (r: Result<seq<Value>, Error>)
    ensures key !in d ==> r == Ok([])
    ensures key in d && d[key].List? ==> r == Ok(d[key].items)
    ensures r.Err? <==> key in d && !(d[key].List? || d[key].Str? || d[key].Dict?)
    ensures key in d && d[key].Dict? ==> r.Ok? && forall x :: x in r.value <==> x.Str? && x.s in d[key].entries
  {
    if key in d then Elements(d[key]) else Ok([])
  }

  /** The volumes a role configuration lists: its shared volumes, then its Docker volumes. */
  function RoleVolumes(roleConfig: Dict): (r: Result<seq<Value>, Error>)
    ensures "shared_volumes" !in roleConfig && "docker_volumes" !in roleConfig ==> r == Ok([])
    ensures r.Ok? <==> OptionalElements(roleConfig, "shared_volumes").Ok? && OptionalElements(roleConfig, "docker_volumes").Ok?
    ensures r.Ok? ==>
      r.value == OptionalElements(roleConfig, "shared_volumes").value + OptionalElements(roleConfig, "docker_volumes").value
  {
    var shared :- OptionalElements(roleConfig, "shared_volumes");
    var docker :- OptionalElements(roleConfig, "docker_volumes");
    assert shared == [] && docker == [] ==> shared + docker == [];
    Ok(shared + docker)
  }

  /**
   * `extend_plan`: the basic plan with the volumes, the indented static text (empty when
   * the role has none) and the systemd flag (set iff the role's `systemctl` is truthy)
   * of the node's role configuration.
   */
  function ExtendPlan(planData: Value, basic: BasicPlannedNode, dump: Value -> string): (r: Result<PlannedNode, Error>)
    ensures r.Ok? ==> planData.Dict? && basic.role in planData.entries && planData.entries[basic.role].Dict?
    ensures r.Ok? ==>
      r.value.hostname == basic.hostname && r.value.container == basic.container &&
      r.value.image == basic.image && r.value.ipAddress == basic.ipAddress && r.value.role == basic.role
    ensures r.Ok? ==> var roleConfig := planData.entries[basic.role].entries;
      RoleVolumes(roleConfig) == Ok(r.value.volumes) &&
      r.value.staticText == (if "static" in roleConfig then dump(roleConfig["static"]) else "") &&
      (r.value.systemctl <==> "systemctl" in roleConfig && Truthy(roleConfig["systemctl"]))
  {
    var roleValue :- Lookup(planData, basic.role);
    if !roleValue.Dict? then Err(TypeError)
    else
      var roleConfig := roleValue.entries;
      var volumes :- RoleVolumes(roleConfig);
      var staticText := if "static" in roleConfig then dump(roleConfig["static"]) else "";
      var systemctl := Truthy(GetOr(roleConfig, "systemctl", Bool(false)));
      Ok(PlannedNode(basic.hostname, basic.container, basic.image, basic.ipAddress, basic.role,
                     volumes, staticText, systemctl))
  }

  /** `DefaultNodePlanner.create_head_plan`. */
  function CreateHeadPlan(cn: ClusterNetwork, planData: Value, dump: Value -> string): (r: Result<PlannedNode, Error>)
    requires ValidNetwork(cn)
    ensures r.Ok? ==> r.value.ipAddress == HeadIp(cn) && r.value.role == HeadRole
  {
    var basic :- CreateBasicHeadPlan(cn, planData);
    ExtendPlan(planData, basic, dump)
  }

  /** `DefaultNodePlanner.create_compute_plan`. */
  function CreateComputePlan(planData: Value, index: nat, computeIp: string, dump: Value -> string): (r: Result<PlannedNode, Error>)
    ensures r.Ok? ==> r.value.ipAddress == computeIp && r.value.role == ComputeRole
    ensures r.Ok? ==> CreateComputeHostname(planData, index) == Ok(r.value.hostname)
  {
    var basic :- CreateBasicComputePlan(planData, index, computeIp);
    ExtendPlan(planData, basic, dump)
  }

  /** The extension keeps the name rule of the basic plan: container = cluster name, dash, hostname. */
  lemma PlannedContainerNames(cn: ClusterNetwork, planData: Value, index: nat, computeIp: string, dump: Value -> string)
    requires ValidNetwork(cn)
    ensures CreateHeadPlan(cn, planData, dump).Ok? ==>
      var h := CreateHeadPlan(cn, planData, dump).value;
      At(planData, ["name"]).Ok? && At(planData, ["name"]).value.Str? &&
      h.container == ContainerName(At(planData, ["name"]).value.s, h.hostname)
    ensures CreateComputePlan(planData, index, computeIp, dump).Ok? ==>
      var c := CreateComputePlan(planData, index, computeIp, dump).value;
      At(planData, ["name"]).Ok? && At(planData, ["name"]).value.Str? &&
      c.container == ContainerName(At(planData, ["name"]).value.s, c.hostname)
  {
  }
}

/** Hostnames of the compute nodes as the planner's unit tests name them. */
module NodePlannerExamples {
  import opened Wrappers
  import opened Values
  import opened Strings
  import opened NodePlanner

  lemma HostnamesNode001AndNode011()
    ensures ComputeHostname("node", 3, 0) == "node001"
    ensures ComputeHostname("node", 3, 10) == "node011"
    ensures ComputeHostname("node", 3, 1233) == "node1234"
  {
    assert Decimal(1) == "1";
    assert Decimal(11) == "11";
    assert Decimal(1234) == "1234";
  }

  /** A width given as text reads like the number: "3" and "03" pad to three digits, "" not at all. */
  /** Texts that open a nested replacement field. */
  lemma SuffixWidthNestedField()
    ensures SuffixWidth(Dict(map["w" := Int(3)])) == Err(FormatFieldError)
    ensures SuffixWidth(Str("{w}")) == Err(FormatFieldError)
    ensures SuffixWidth(List([Int(3)])) == Err(ValueError)
    ensures SuffixWidth(Dict(map[])) == Err(ValueError)
  {
    assert "w" in map["w" := Int(3)];
    assert Int(3) in [Int(3)];
  }

  lemma SuffixWidthFromText()
    ensures SuffixWidth(Str("3")) == Ok(3) && SuffixWidth(Str("03")) == Ok(3)
    ensures SuffixWidth(Str("")) == Ok(0) && SuffixWidth(Int(3)) == Ok(3)
    ensures SuffixWidth(Str("-3")) == Err(ValueError) && SuffixWidth(Int(-3)) == Err(ValueError)
    ensures SuffixWidth(Bool(true)) == Err(ValueError) && SuffixWidth(Null) == Err(ValueError)
  {
    assert "03"[..1] == "0";
    assert !IsDigit("-3"[0]);
  }
}
