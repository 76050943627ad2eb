/**
 * Cluster profiles: where the profile files are looked for, the order in which their
 * definitions override one another, the once-only loading of all profiles, and the
 * resolution of a profile that `extend`s another.
 * The file system and the YAML parser are parameters: `listing` gives the profile file
 * names found at a place (the `.yml` ones, then the `.yaml` ones) and `load` the parsed
 * document of a file.
 */
module ProfileConfig {
  import opened Wrappers
  import opened Values
  import opened Collection

  /** A profile file: the place it was found at and its name there. */
  datatype ProfilePath = ProfilePath(location: string, candidate: string)

  /** The key under which a profile names the profile it extends. */
  const ExtendKey := "extend"

  /** Every element of a list is a string. */
  predicate AllStrings(xs: seq<Value>)
  {
    forall i :: 0 <= i < |xs| ==> xs[i].Str?
  }

  /** The strings of a list of string values. */
  function Strs(xs: seq<Value>): (r: seq<string>)
    requires AllStrings(xs)
    ensures |r| == |xs| && forall i :: 0 <= i < |xs| ==> xs[i] == Str(r[i])
  {
    seq(|xs|, i requires 0 <= i < |xs| => xs[i].s)
  }

  /**
   * The places searched for profiles: the configured ones, followed by the user's when
   * those are given as a list (anything else is ignored); expanding `~` needs strings.
   */
  function PlacesToLook(configured: seq<string>, user: Value): (r: Result<seq<string>, Error>)
    ensures !user.List? ==> r == Ok(configured)
    ensures r.Err? <==> user.List? && !AllStrings(user.items)
    ensures r.Ok? ==> configured <= r.value
    ensures r.Ok? && user.List? ==>
      |r.value| == |configured| + |user.items| &&
      forall i :: 0 <= i < |user.items| ==> user.items[i] == Str(r.value[|configured| + i])
  {
    if !user.List? then Ok(configured)
    else if !AllStrings(user.items) then Err(TypeError)
    else Ok(configured + Strs(user.items))
  }

  /** The places in order of first occurrence, each once: the keys of the ordered dictionary of places. */
  function Dedup(places: seq<string>): (r: seq<string>)
    ensures forall p :: p in r <==> p in places
    ensures forall i, j :: 0 <= i < j < |r| ==> r[i] != r[j]
  {
    if places == [] then []
    else
      var d := Dedup(places[..|places| - 1]);
      var last := places[|places| - 1];
      assert forall p :: p in places <==> p in places[..|places| - 1] || p == last;
      if last in d then d else d + [last]
  }

  /** Dedup keeps the first occurrences in order: the first place always comes first. */
  lemma {:induction false} DedupHead(places: seq<string>)
    requires places != []
    ensures Dedup(places) != [] && Dedup(places)[0] == places[0]
  {
    if |places| > 1 {
      DedupHead(places[..|places| - 1]);
    }
  }

  /** Every profile file, place by place in the given order. */
  function Flatten(order: seq<string>, listing: string -> seq<string>): (r: seq<ProfilePath>)
  {
    if order == [] then []
    else
      var last := order[|order| - 1];
      Flatten(order[..|order| - 1], listing) + seq(|listing(last)|, j requires 0 <= j < |listing(last)| => ProfilePath(last, listing(last)[j]))
  }

  /** The files found are exactly the files listed at some searched place. */
  lemma {:induction false} FlattenMembers(order: seq<string>, listing: string -> seq<string>, pp: ProfilePath)
    ensures pp in Flatten(order, listing) <==> pp.location in order && pp.candidate in listing(pp.location)
  {
    if order != [] {
      var init := order[..|order| - 1];
      var last := order[|order| - 1];
      FlattenMembers(init, listing, pp);
      assert order == init + [last];
      if pp.location == last && pp.candidate in listing(last) {
        var j :| 0 <= j < |listing(last)| && listing(last)[j] == pp.candidate;
        assert Flatten(order, listing)[|Flatten(init, listing)| + j] == pp;
      }
    }
  }

  /**
   * `find_candidate_yaml_files`: the ordered dictionary from each searched place to the
   * profile files found there. A place searched twice keeps its first position and
   * is listed again, so its files appear once.
   */
  method FindCandidateYamlFiles(places: seq<string>, listing: string -> seq<string>)
    returns (order: seq<string>, files: map<string, seq<string>>)
    ensures order == Dedup(places)
    ensures forall p :: p in files <==> p in places
    ensures forall p :: p in files ==> files[p] == listing(p)
  {
    order := [];
    files := map[];
    var i := 0;
    while i < |places|
      invariant 0 <= i <= |places|
      invariant order == Dedup(places[..i])
      invariant forall p :: p in files <==> p in places[..i]
      invariant forall p :: p in files ==> files[p] == listing(p)
    {
      var place := places[i];
      assert places[..i + 1][..i] == places[..i];
      if place !in files {
        order := order + [place];
      }
      files := files[place := listing(place)];
      i := i + 1;
    }
    assert places[..i] == places;
  }

  /** The profile file paths, place by place (`get_all_available_profiles`, first loop). */
  method CollectProfilePaths(order: seq<string>, files: map<string, seq<string>>, ghost listing: string -> seq<string>)
    returns (paths: seq<ProfilePath>)
    requires forall p :: p in order ==> p in files && files[p] == listing(p)
    ensures paths == Flatten(order, listing)
  {
    paths := [];
    var i := 0;
    while i < |order|
      invariant 0 <= i <= |order|
      invariant paths == Flatten(order[..i], listing)
    {
      var location := order[i];
      var candidates := files[location];
      assert order[..i + 1][..i] == order[..i];
      paths := paths + seq(|candidates|, j requires 0 <= j < |candidates| => ProfilePath(location, candidates[j]));
      i := i + 1;
    }
    assert order[..i] == order;
  }

  /**
   * The profiles defined by a sequence of files: each file must hold a dictionary
   * (anything else, an empty file's `None` included, has no `keys`), and a later definition of a profile
   * replaces an earlier one as a whole.
   */
  function LoadAll(paths: seq<ProfilePath>, load: ProfilePath -> Value): (r: Result<Dict, Error>)
    ensures r.Err? <==> exists i :: 0 <= i < |paths| && !load(paths[i]).Dict?
    ensures r.Err? ==> r.error == AttributeError
  {
    if paths == [] then Ok(map[])
    else
      var init := paths[..|paths| - 1];
      var doc := load(paths[|paths| - 1]);
      assert forall i :: 0 <= i < |init| ==> init[i] == paths[i];
      var previous :- LoadAll(init, load);
      if doc.Dict? then Ok(previous + doc.entries) else Err(AttributeError)
  }

  /**
   * The override order: a profile is defined iff some file defines it, and its
   * definition is the one of the last file that defines it.
   */
  lemma {:induction false} LoadAllLastWins(paths: seq<ProfilePath>, load: ProfilePath -> Value, name: string, i: nat)
    requires LoadAll(paths, load).Ok?
    requires i < |paths| && name in load(paths[i]).entries
    requires forall j :: i < j < |paths| ==> name !in load(paths[j]).entries
    ensures name in LoadAll(paths, load).value
    ensures LoadAll(paths, load).value[name] == load(paths[i]).entries[name]
  {
    var init := paths[..|paths| - 1];
    assert forall k :: 0 <= k < |init| ==> init[k] == paths[k];
    if i < |paths| - 1 {
      LoadAllLastWins(init, load, name, i);
    }
  }

  /** No file defining a name means no profile of that name. */
  lemma {:induction false} LoadAllUndefined(paths: seq<ProfilePath>, load: ProfilePath -> Value, name: string)
    requires LoadAll(paths, load).Ok?
    requires forall j :: 0 <= j < |paths| ==> name !in load(paths[j]).entries
    ensures name !in LoadAll(paths, load).value
  {
    if paths != [] {
      var init := paths[..|paths| - 1];
      assert forall k :: 0 <= k < |init| ==> init[k] == paths[k];
      LoadAllUndefined(init, load, name);
    }
  }

  /** `get_all_available_profiles`, second loop: the files read in order. */
  method LoadProfiles(paths: seq<ProfilePath>, load: ProfilePath -> Value) returns (r: Result<Dict, Error>)
    ensures r == LoadAll(paths, load)
  {
    var available: Dict := map[];
    var i := 0;
    while i < |paths|
      invariant 0 <= i <= |paths|
      invariant LoadAll(paths[..i], load) == Ok(available)
    {
      var document := load(paths[i]);
      assert paths[..i + 1][..i] == paths[..i];
      if !document.Dict? {
        LoadAllPrefixErr(paths, load, i + 1);
        return Err(AttributeError);
      }
      available := available + document.entries;
      i := i + 1;
    }
    assert paths[..i] == paths;
    return Ok(available);
  }

  /** A failing prefix makes the whole sequence fail. */
  lemma LoadAllPrefixErr(paths: seq<ProfilePath>, load: ProfilePath -> Value, n: nat)
    requires n <= |paths| && LoadAll(paths[..n], load).Err?
    ensures LoadAll(paths, load).Err?
  {
    var i :| 0 <= i < n && !load(paths[..n][i]).Dict?;
    assert paths[i] == paths[..n][i];
  }

  /** Everything the profile files define, from the configured places and the user's. */
  function AvailableProfiles(configured: seq<string>, user: Value, listing: string -> seq<string>,
                             load: ProfilePath -> Value): Result<Dict, Error>
  {
    var places :- PlacesToLook(configured, user);
    LoadAll(Flatten(Dedup(places), listing), load)
  }

  /**
   * Resolution of a profile, with `depth` the number of nested resolutions the call
   * stack still allows. An unknown profile raises `KeyError`, a profile that extends
   * itself `ValueError`; otherwise the resolved parent is merged with the profile and
   * the `extend` key dropped. A longer cycle exhausts the stack (`RecursionError`).
   */
  function Resolve(profiles: Dict, name: string, depth: nat): (r: Result<Value, Error>)
    decreases depth
    ensures name !in profiles ==> r == Err(KeyError(name))
    ensures name in profiles && profiles[name].Dict? && ExtendKey !in profiles[name].entries ==>
      r == Ok(profiles[name])
    ensures (name in profiles && profiles[name].Dict? && ExtendKey in profiles[name].entries &&
             profiles[name].entries[ExtendKey] == Str(name)) ==> r == Err(ValueError)
    ensures r.Ok? ==> r.value.Dict? && ExtendKey !in r.value.entries
  {
    if name !in profiles then Err(KeyError(name))
    else
      var config := profiles[name];
      if !config.Dict? then Err(AttributeError)
      else if ExtendKey !in config.entries then Ok(config)
      else
        var parentName := config.entries[ExtendKey];
        if parentName == Str(name) then Err(ValueError)
        else if depth == 0 then Err(RecursionError)
        else if !parentName.Str? then Err(ParentLookupError(parentName))
        else
          Inherit(config, Resolve(profiles, parentName.s, depth - 1))
  }

  /**
   * The other errors of a resolution: a profile that is not a dictionary has no `keys`, a
   * parent that cannot be resolved within the depth overflows the stack, and an `extend`
   * that is not a string fails the lookup of the parent.
   */
  lemma ResolveErrors(profiles: Dict, name: string, depth: nat)
    requires name in profiles
    ensures !profiles[name].Dict? ==> Resolve(profiles, name, depth) == Err(AttributeError)
    ensures (profiles[name].Dict? && ExtendKey in profiles[name].entries &&
             profiles[name].entries[ExtendKey] != Str(name) && depth == 0) ==>
      Resolve(profiles, name, depth) == Err(RecursionError)
    ensures (profiles[name].Dict? && ExtendKey in profiles[name].entries &&
             depth > 0 && !profiles[name].entries[ExtendKey].Str?) ==>
      Resolve(profiles, name, depth) == Err(ParentLookupError(profiles[name].entries[ExtendKey]))
  {
  }

  /**
   * What `available_profiles[parent]` raises for an `extend` value that is not a string:
   * a list or a dictionary cannot be hashed, and any other value is simply not a key.
   */
  function ParentLookupError(parent: Value): (e: Error)
    requires !parent.Str?
    ensures e == TypeError <==> parent.List? || parent.Dict?
    ensures e != TypeError ==> e == ScalarKeyError(parent)
  {
    if parent.List? || parent.Dict? then TypeError else ScalarKeyError(parent)
  }

  /** The resolution of a profile that extends another, one level unfolded. */
  lemma ResolveUnfold(profiles: Dict, name: string, depth: nat)
    requires name in profiles && profiles[name].Dict? && ExtendKey in profiles[name].entries
    requires profiles[name].entries[ExtendKey] != Str(name) && depth > 0 && profiles[name].entries[ExtendKey].Str?
    ensures Resolve(profiles, name, depth) ==
      Inherit(profiles[name], Resolve(profiles, profiles[name].entries[ExtendKey].s, depth - 1))
  {
  }

  /** Inheriting from a resolved parent fails exactly when merging into its copy does. */
  lemma InheritOf(config: Value, parent: Value, m: Result<Value, Error>)
    requires config.Dict? && parent.Dict?
    requires m == Merge(Dict(DefensiveCopy(parent.entries)), config)
    ensures m.Err? ==> Inherit(config, Ok(parent)) == Err(m.error)
    ensures m.Ok? ==> m.value.Dict? && Inherit(config, Ok(parent)) == Ok(Dict(m.value.entries - {ExtendKey}))
  {
  }

  /** A child profile over its resolved parent: the parent updated by the child, without `extend`. */
  function Inherit(config: Value, parent: Result<Value, Error>): (r: Result<Value, Error>)
    requires config.Dict?
    requires parent.Ok? ==> parent.value.Dict?
    ensures parent.Err? ==> r == Err(parent.error)
    ensures r.Ok? ==> r.value.Dict? && ExtendKey !in r.value.entries
  {
    var p :- parent;
    var merged :- Merge(Dict(DefensiveCopy(p.entries)), config);
    Ok(Dict(merged.entries - {ExtendKey}))
  }

  /**
   * How an extending profile resolves: its parent resolves, and the result holds the
   * keys of both but `extend`; the profile's plain values win, the parent's other
   * entries stay, and nested dictionaries are merged key by key.
   */
  lemma ResolveExtends(profiles: Dict, name: string, depth: nat)
    requires name in profiles && profiles[name].Dict? && ExtendKey in profiles[name].entries
    requires Resolve(profiles, name, depth).Ok?
    ensures var child := profiles[name].entries;
      var parentName := child[ExtendKey];
      var r := Resolve(profiles, name, depth).value.entries;
      parentName.Str? && parentName.s != name && depth > 0 &&
      Resolve(profiles, parentName.s, depth - 1).Ok? &&
      var parent := Resolve(profiles, parentName.s, depth - 1).value.entries;
      r.Keys == (parent.Keys + child.Keys) - {ExtendKey} &&
      (forall k :: k in parent && k !in child ==> r[k] == parent[k]) &&
      (forall k :: k in child && k != ExtendKey && !child[k].Dict? ==> r[k] == child[k]) &&
      (forall k :: k in child && child[k].Dict? ==> r[k] == Merge(Child(parent, k), child[k]).value)
  {
  }

  /** Two profiles extending each other never resolve, whatever the stack allows. */
  lemma {:induction false} ResolveTwoCycle(profiles: Dict, a: string, b: string, depth: nat)
    requires a != b && a in profiles && b in profiles
    requires profiles[a].Dict? && ExtendKey in profiles[a].entries && profiles[a].entries[ExtendKey] == Str(b)
    requires profiles[b].Dict? && ExtendKey in profiles[b].entries && profiles[b].entries[ExtendKey] == Str(a)
    ensures Resolve(profiles, a, depth) == Err(RecursionError)
    ensures Resolve(profiles, b, depth) == Err(RecursionError)
  {
    if depth == 0 {
      ResolveErrors(profiles, a, depth);
      ResolveErrors(profiles, b, depth);
    } else {
      ResolveTwoCycle(profiles, a, b, depth - 1);
      assert Resolve(profiles, a, depth) == Err(RecursionError) by {
        ResolveUnfold(profiles, a, depth);
      }
      assert Resolve(profiles, b, depth) == Err(RecursionError) by {
        ResolveUnfold(profiles, b, depth);
      }
    }
  }

  /** Profiles ranked so that every `extend` names a profile of smaller rank. */
  predicate Ranked(profiles: Dict, rank: string -> nat)
  {
    forall n :: (n in profiles && profiles[n].Dict? && ExtendKey in profiles[n].entries &&
                 profiles[n].entries[ExtendKey].Str?) ==> rank(profiles[n].entries[ExtendKey].s) < rank(n)
  }

  /** Without cycles, a stack deeper than the chain of parents never overflows. */
  lemma {:induction false} ResolveAcyclic(profiles: Dict, rank: string -> nat, name: string, depth: nat)
    requires Ranked(profiles, rank)
    requires depth > rank(name)
    decreases depth
    ensures Resolve(profiles, name, depth) != Err(RecursionError)
  {
    if name in profiles && profiles[name].Dict? && ExtendKey in profiles[name].entries {
      var parentName := profiles[name].entries[ExtendKey];
      if parentName.Str? && parentName.s != name {
        ResolveAcyclic(profiles, rank, parentName.s, depth - 1);
      }
    }
  }

  /** A deeper stack changes nothing once resolution does not overflow. */
  lemma {:induction false} ResolveDepthIrrelevant(profiles: Dict, name: string, depth: nat)
    requires Resolve(profiles, name, depth) != Err(RecursionError)
    decreases depth
    ensures Resolve(profiles, name, depth + 1) == Resolve(profiles, name, depth)
  {
    if name in profiles && profiles[name].Dict? && ExtendKey in profiles[name].entries {
      var config := profiles[name];
      var parentName := config.entries[ExtendKey];
      if parentName.Str? && parentName != Str(name) && depth > 0 {
        ResolveDepthIrrelevant(profiles, parentName.s, depth - 1);
        assert Resolve(profiles, name, depth + 1) == Inherit(config, Resolve(profiles, parentName.s, depth));
        assert Resolve(profiles, name, depth) == Inherit(config, Resolve(profiles, parentName.s, depth - 1));
      }
    }
  }

  /**
   * The loaded profiles, kept once read (the module-level singleton); resolving a
   * profile reads them but never writes them.
   */
  class ProfileRegistry {
    var cache: Option<Dict>

    constructor()
      ensures cache == None
    {
      cache := None;
    }

    /** `all_available_profiles`: loads the profiles on the first call only. */
    method AllAvailableProfiles(configured: seq<string>, user: Value, listing: string -> seq<string>,
                                load: ProfilePath -> Value) returns (r: Result<Dict, Error>)
      modifies this
      ensures old(cache).Some? ==> r == Ok(old(cache).value) && cache == old(cache)
      ensures old(cache).None? ==> r == AvailableProfiles(configured, user, listing, load)
      ensures old(cache).None? ==> cache == (if r.Ok? then Some(r.value) else None)
    {
      if cache.Some? {
        return Ok(cache.value);
      }
      var places :- PlacesToLook(configured, user);
      var order, files := FindCandidateYamlFiles(places, listing);
      var paths := CollectProfilePaths(order, files, listing);
      r := LoadProfiles(paths, load);
      if r.Ok? {
        cache := Some(r.value);
      }
    }

    /**
     * `cluster_config_for_profile`: loads the profiles unless they are cached, then resolves
     * the profile against them.
     */
    method ClusterConfigForProfile(profile: string, configured: seq<string>, user: Value,
                                   listing: string -> seq<string>, load: ProfilePath -> Value,
                                   depth: nat) returns (r: Result<Value, Error>)
      modifies this
      decreases depth, 2
      ensures old(cache).Some? ==> cache == old(cache) && r == Resolve(old(cache).value, profile, depth)
      ensures old(cache).None? ==>
        match AvailableProfiles(configured, user, listing, load)
        case Ok(profiles) => cache == Some(profiles) && r == Resolve(profiles, profile, depth)
        case Err(e) => cache == None && r == Err(e)
    {
      var profiles :- AllAvailableProfiles(configured, user, listing, load);
      r := ResolveCached(profiles, profile, configured, listing, load, depth);
    }

    /** The recursive `cluster_config_for_profile` call for a parent, once the profiles are cached. */
    method ResolveParent(profiles: Dict, parent: string, configured: seq<string>,
                         listing: string -> seq<string>, load: ProfilePath -> Value,
                         depth: nat) returns (r: Result<Value, Error>)
      requires cache == Some(profiles)
      modifies this
      decreases depth, 3
      ensures cache == old(cache)
      ensures r == Resolve(profiles, parent, depth)
    {
      r := ClusterConfigForProfile(parent, configured, Null, listing, load, depth);
    }

    /**
     * The rest of `cluster_config_for_profile`, once the profiles are loaded: the profile
     * itself, or its parent (resolved by a recursive `cluster_config_for_profile`) merged
     * with a copy of it, without `extend`.
     */
    method ResolveCached(profiles: Dict, profile: string, configured: seq<string>,
                         listing: string -> seq<string>, load: ProfilePath -> Value,
                         depth: nat) returns (r: Result<Value, Error>)
      requires cache == Some(profiles)
      modifies this
      decreases depth, 1
      ensures cache == old(cache)
      ensures r == Resolve(profiles, profile, depth)
    {
      if profile !in profiles {
        return Err(KeyError(profile));
      }
      var config := profiles[profile];
      if !config.Dict? {
        return Err(AttributeError);
      }
      if ExtendKey in config.entries {
        var parentName := config.entries[ExtendKey];
        if parentName == Str(profile) {
          return Err(ValueError);
        }
        if depth == 0 {
          return Err(RecursionError);
        }
        if !parentName.Str? {
          return Err(ParentLookupError(parentName));
        }
        r := InheritParent(profiles, profile, configured, listing, load, depth);
        return;
      }
      return Ok(config);
    }

    /**
     * The `extend` branch of `cluster_config_for_profile`: the parent resolved by the
     * recursive call, a defensive copy of it updated with the profile, `extend` deleted.
     */
    method InheritParent(profiles: Dict, profile: string, configured: seq<string>,
                         listing: string -> seq<string>, load: ProfilePath -> Value,
                         depth: nat) returns (r: Result<Value, Error>)
      requires cache == Some(profiles)
      requires profile in profiles && profiles[profile].Dict? && ExtendKey in profiles[profile].entries
      requires profiles[profile].entries[ExtendKey] != Str(profile) && depth > 0
      requires profiles[profile].entries[ExtendKey].Str?
      modifies this
      decreases depth, 0
      ensures cache == old(cache)
      ensures r == Resolve(profiles, profile, depth)
    {
      var config := profiles[profile];
      var resolved := ResolveParent(profiles, config.entries[ExtendKey].s, configured, listing, load, depth - 1);
      if resolved.Err? {
        assert Resolve(profiles, profile, depth) == Err(resolved.error) by {
          ResolveUnfold(profiles, profile, depth);
        }
        return Err(resolved.error);
      }
      var parent := resolved.value;
      var merged := UpdateRecursively(Dict(DefensiveCopy(parent.entries)), config);
      assert Resolve(profiles, profile, depth) == Inherit(config, Ok(parent)) by {
        ResolveUnfold(profiles, profile, depth);
      }
      InheritOf(config, parent, merged);
      if merged.Err? {
        return Err(merged.error);
      }
      r := Ok(Dict(merged.value.entries - {ExtendKey}));
    }
  }
}

/** Profiles with an `extend` that is not a usable name. */
module ProfileConfigExamples {
  import opened Wrappers
  import opened Values
  import opened ProfileConfig

  lemma ExtendNotAName()
    ensures Resolve(map["child" := Dict(map["extend" := Int(3)])], "child", 5) == Err(ScalarKeyError(Int(3)))
    ensures Resolve(map["child" := Dict(map["extend" := Null])], "child", 5) == Err(ScalarKeyError(Null))
    ensures Resolve(map["child" := Dict(map["extend" := List([])])], "child", 5) == Err(TypeError)
    ensures Resolve(map["child" := Str("plain")], "child", 5) == Err(AttributeError)
  {
    ResolveErrors(map["child" := Dict(map["extend" := Int(3)])], "child", 5);
    ResolveErrors(map["child" := Dict(map["extend" := Null])], "child", 5);
    ResolveErrors(map["child" := Dict(map["extend" := List([])])], "child", 5);
    ResolveErrors(map["child" := Str("plain")], "child", 5);
  }
}
