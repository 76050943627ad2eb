/**
 * Dictionary utilities: a recursive merge of one nested dictionary into another, and
 * the copy, merge, subset and subtraction helpers for flat dictionaries.
 * Values are immutable here, so a deep copy is the value itself and the
 * in-place update of the first argument becomes a returned value.
 */
module Collection {
  import opened Wrappers
  import opened Values

  /** `d.get(k, {})`: the entry of `d` that a nested update descends into. */
  function Child(d: Dict, k: string): Value
  {
    GetOr(d, k, Dict(map[]))
  }

  /**
   * The specification of the recursive update: an empty update leaves the target alone;
   * otherwise the target must be a dictionary, each nested dictionary of the update is
   * merged into the target's entry for that key (an empty dictionary if it has none),
   * and every other value of the update replaces the target's entry.
   */
  function Merge(d: Value, u: Value): (r: Result<Value, Error>)
    requires u.Dict?
    decreases u
    ensures u.entries == map[] ==> r == Ok(d)
    ensures r.Err? ==> r.error == TypeError
    ensures u.entries != map[] && !d.Dict? ==> r.Err?
    ensures r.Ok? && u.entries != map[] ==>
      d.Dict? && r.value.Dict? && r.value.entries.Keys == d.entries.Keys + u.entries.Keys
    ensures r.Ok? && u.entries != map[] ==>
      forall k :: k in d.entries && k !in u.entries ==> r.value.entries[k] == d.entries[k]
    ensures r.Ok? && u.entries != map[] ==>
      forall k :: k in u.entries && !u.entries[k].Dict? ==> r.value.entries[k] == u.entries[k]
  {
    if u.entries == map[] then Ok(d)
    else if !d.Dict? then Err(TypeError)
    else if exists k :: k in u.entries && u.entries[k].Dict? && Merge(Child(d.entries, k), u.entries[k]).Err? then
      Err(TypeError)
    else
      Ok(Dict(map k | k in d.entries.Keys + u.entries.Keys ::
        if k !in u.entries then d.entries[k]
        else if u.entries[k].Dict? then Merge(Child(d.entries, k), u.entries[k]).value
        else u.entries[k]))
  }

  /**
   * The nested step of the recursive update: a nested dictionary of the update holds,
   * in the result, its own merge into the target's entry, and the whole update fails
   * exactly when one of these nested merges does.
   */
  lemma MergeNested(d: Value, u: Value)
    requires u.Dict?
    ensures Merge(d, u).Ok? && u.entries != map[] ==>
      forall k :: k in u.entries && u.entries[k].Dict? ==> Merge(Child(d.entries, k), u.entries[k]) == Ok(Merge(d, u).value.entries[k])
    ensures d.Dict? && u.entries != map[] ==>
      (Merge(d, u).Err? <==> exists k :: k in u.entries && u.entries[k].Dict? && Merge(Child(d.entries, k), u.entries[k]).Err?)
  {
  }

  /**
   * `update_recursively(d, u)`: walks the keys of `u` once, recursing into nested
   * dictionaries; the first failing nested update aborts the whole update.
   */
  method UpdateRecursively(d: Value, u: Value) returns (r: Result<Value, Error>)
    requires u.Dict?
    decreases u
    ensures r == Merge(d, u)
  {
    if u.entries == map[] {
      return Ok(d);
    }
    if !d.Dict? {
      return Err(TypeError);
    }
    var acc := d.entries;
    var todo := u.entries.Keys;
    while todo != {}
      invariant todo <= u.entries.Keys
      invariant acc.Keys == d.entries.Keys + (u.entries.Keys - todo)
      invariant forall k :: k in todo && k in d.entries ==> acc[k] == d.entries[k]
      invariant forall k :: k in d.entries && k !in u.entries ==> acc[k] == d.entries[k]
      invariant forall k :: k in u.entries && k !in todo && !u.entries[k].Dict? ==> acc[k] == u.entries[k]
      invariant forall k :: k in u.entries && k !in todo && u.entries[k].Dict? ==>
        Merge(Child(d.entries, k), u.entries[k]) == Ok(acc[k])
      decreases todo
    {
      var k :| k in todo;
      var v := u.entries[k];
      if v.Dict? {
        assert Child(acc, k) == Child(d.entries, k);
        var sub := UpdateRecursively(Child(acc, k), v);
        if sub.Err? {
          return Err(TypeError);
        }
        acc := acc[k := sub.value];
      } else {
        acc := acc[k := v];
      }
      todo := todo - {k};
    }
    MergeOfEntries(d, u, acc);
    r := Ok(Dict(acc));
  }

  /** A map that agrees with `Merge` key by key is its result. */
  lemma MergeOfEntries(d: Value, u: Value, acc: Dict)
    requires u.Dict? && d.Dict? && u.entries != map[]
    requires acc.Keys == d.entries.Keys + u.entries.Keys
    requires forall k :: k in d.entries && k !in u.entries ==> acc[k] == d.entries[k]
    requires forall k :: k in u.entries && !u.entries[k].Dict? ==> acc[k] == u.entries[k]
    requires forall k :: k in u.entries && u.entries[k].Dict? ==> Merge(Child(d.entries, k), u.entries[k]) == Ok(acc[k])
    ensures Merge(d, u) == Ok(Dict(acc))
  {
    var m := Merge(d, u);
    assert m.Ok? by {
      assert !exists k :: k in u.entries && u.entries[k].Dict? && Merge(Child(d.entries, k), u.entries[k]).Err?;
    }
    var e := m.value.entries;
    assert e.Keys == acc.Keys;
    assert forall k :: k in acc ==> e[k] == acc[k] by {
      forall k | k in acc
        ensures e[k] == acc[k]
      {
        if k in u.entries && u.entries[k].Dict? {
          assert e[k] == Merge(Child(d.entries, k), u.entries[k]).value;
        }
      }
    }
    SameEntries(e, acc);
  }

  /** Two dictionaries with the same keys and the same value under each key are equal. */
  lemma SameEntries(e: Dict, acc: Dict)
    requires e.Keys == acc.Keys
    requires forall k :: k in acc ==> e[k] == acc[k]
    ensures e == acc
  {
  }

  /** Merging into an empty dictionary yields the update itself. */
  lemma {:induction false} MergeIntoEmpty(u: Value)
    requires u.Dict?
    decreases u
    ensures Merge(Dict(map[]), u) == Ok(u)
  {
    if u.entries != map[] {
      forall k | k in u.entries && u.entries[k].Dict?
        ensures Merge(Child(map[], k), u.entries[k]) == Ok(u.entries[k])
      {
        MergeIntoEmpty(u.entries[k]);
      }
      assert Merge(Dict(map[]), u).value.entries == u.entries;
    }
  }

  /** Applying an update a second time changes nothing: the update is idempotent. */
  lemma {:induction false} MergeIdempotent(d: Value, u: Value)
    requires u.Dict?
    requires Merge(d, u).Ok?
    decreases u
    ensures Merge(Merge(d, u).value, u) == Merge(d, u)
  {
    if u.entries != map[] {
      var r := Merge(d, u).value;
      forall k | k in u.entries && u.entries[k].Dict?
        ensures Merge(Child(r.entries, k), u.entries[k]) == Ok(r.entries[k])
      {
        MergeIdempotent(Child(d.entries, k), u.entries[k]);
      }
      assert Merge(r, u).value.entries == r.entries;
    }
  }

  /** A dictionary merged into itself is unchanged. */
  lemma {:induction false} MergeSelf(u: Value)
    requires u.Dict?
    decreases u
    ensures Merge(u, u) == Ok(u)
  {
    if u.entries != map[] {
      forall k | k in u.entries && u.entries[k].Dict?
        ensures Merge(Child(u.entries, k), u.entries[k]) == Ok(u.entries[k])
      {
        MergeSelf(u.entries[k]);
      }
      assert Merge(u, u).value.entries == u.entries;
    }
  }

  /** `defensive_copy`: with immutable values the deep copy is the value itself. */
  function DefensiveCopy(original: Dict): Dict
  {
    original
  }

  /** `defensive_merge(source, target)`: the target updated with the source's entries. */
  function DefensiveMerge(source: Dict, target: Dict): (r: Dict)
    ensures r.Keys == source.Keys + target.Keys
    ensures forall k :: k in source ==> r[k] == source[k]
    ensures forall k :: k in target && k !in source ==> r[k] == target[k]
  {
    target + DefensiveCopy(source)
  }

  /** `defensive_subset(source, keys)`: the entries of `source` whose key is listed. */
  function DefensiveSubset(source: Dict, keys: set<string>): (r: Dict)
    ensures r.Keys == source.Keys * keys
    ensures forall k :: k in r ==> r[k] == source[k]
  {
    DefensiveCopy(map k | k in keys && k in source :: source[k])
  }

  /** `defensive_subtraction(source, keys)`: the entries of `source` whose key is not listed. */
  function DefensiveSubtraction(source: Dict, keys: set<string>): (r: Dict)
    ensures r.Keys == source.Keys - keys
    ensures forall k :: k in r ==> r[k] == source[k]
  {
    DefensiveSubset(source, source.Keys - keys)
  }

  /** Subset and subtraction by the same keys split a dictionary into two disjoint halves. */
  lemma SubsetSubtractionPartition(source: Dict, keys: set<string>)
    ensures DefensiveSubset(source, keys) + DefensiveSubtraction(source, keys) == source
    ensures DefensiveSubset(source, keys).Keys !! DefensiveSubtraction(source, keys).Keys
  {
    var whole := DefensiveSubset(source, keys) + DefensiveSubtraction(source, keys);
    assert whole.Keys == source.Keys;
  }

  /** After a merge, the source's keys select exactly the source back. */
  lemma MergeThenSubset(source: Dict, target: Dict)
    ensures DefensiveSubset(DefensiveMerge(source, target), source.Keys) == source
  {
  }
}
