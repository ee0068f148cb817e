/**
 * The `JSNode` object: a property list changed in place by `put`, `putFirst`
 * and `remove`, and the loops of `find`, `collect`, `diff` and `patch`, each
 * proved against the value-level definition it implements.
 */
module JsonNode {
  import opened Wrappers
  import opened Strings
  import opened JsonValues
  import opened JsonPatch

  class JSNode {
    /** The properties in insertion order; names are unique ignoring case. */
    var properties: Props

    ghost predicate Valid()
      reads this
    {
      WellFormed(Obj(properties))
    }

    constructor()
      ensures Valid() && properties == []
    {
      properties := [];
    }

    /** `put`: returns the property it replaced, if any. */
    method Put(name: string, value: Value) returns (previous: Option<Property>)
      requires Valid() && WellFormed(value)
      modifies this
      ensures Valid()
      ensures properties == JsonValues.Put(old(properties), name, value)
      ensures previous == if HasKey(old(properties), name) then Some(old(properties)[IndexOf(old(properties), name)]) else None
      ensures JsonValues.Get(properties, name) == value
    {
      var i := IndexOf(properties, name);
      previous := if i >= 0 then Some(properties[i]) else None;
      PutWellFormed(properties, name, value);
      GetPut(properties, name, value, name);
      properties := JsonValues.Put(properties, name, value);
    }

    /**
     * `putFirst`: the property moves to the front and the others keep their order.
     * The source returns what `put` on a fresh map returns, which is always null.
     */
    method PutFirst(name: string, value: Value) returns (previous: Option<Property>)
      requires Valid() && WellFormed(value)
      modifies this
      ensures Valid()
      ensures properties == JsonValues.PutFirst(old(properties), name, value)
      ensures properties[0] == Property(name, value)
      ensures previous == None
    {
      PutFirstSpec(properties, name, value, name);
      RemoveKeyKeepsOthers(properties, name);
      properties := JsonValues.PutFirst(properties, name, value);
      previous := None;
    }

    /** `remove`: returns the value removed, or null. */
    method Remove(name: string) returns (previous: Value)
      requires Valid()
      modifies this
      ensures Valid()
      ensures properties == RemoveKey(old(properties), name)
      ensures previous == JsonValues.Get(old(properties), name)
      ensures !HasKey(properties, name)
    {
      previous := JsonValues.Get(properties, name);
      RemoveKeyWellFormed(properties, name);
      GetRemoveKey(properties, name, name);
      RemoveKeyAbsentAfter(properties, name);
      properties := RemoveKey(properties, name);
    }

    /** `removeProperty`: returns the property removed, if any. */
    method RemoveProperty(name: string) returns (previous: Option<Property>)
      requires Valid()
      modifies this
      ensures Valid()
      ensures properties == RemoveKey(old(properties), name)
      ensures previous == if HasKey(old(properties), name) then Some(old(properties)[IndexOf(old(properties), name)]) else None
    {
      var i := IndexOf(properties, name);
      previous := if i >= 0 then Some(properties[i]) else None;
      RemoveKeyWellFormed(properties, name);
      properties := RemoveKey(properties, name);
    }

    /** `find`: walks the exploded path, stopping at null and failing on a value that is not a node. */
    method Find(path: string) returns (r: Result<Value>)
      ensures r == JsonValues.Find(properties, path)
    {
      r := Walk(Obj(properties), Explode(path, '.'));
    }

    /** `findInt`: -1 when nothing is found; `atoi` is the engine's number conversion. */
    method FindInt(path: string, atoi: Value -> int) returns (r: Result<int>)
      ensures JsonValues.Find(properties, path).Err? <==> r.Err?
      ensures JsonValues.Find(properties, path) == Ok(Null) ==> r == Ok(-1)
      ensures JsonValues.Find(properties, path).Ok? && JsonValues.Find(properties, path).value != Null ==>
                r == Ok(atoi(JsonValues.Find(properties, path).value))
    {
      var found := Find(path);
      if found.Err? {
        return Err(found.error);
      }
      r := if found.value.Null? then Ok(-1) else Ok(atoi(found.value));
    }

    /** `findBoolean`: false when nothing is found; `atob` is the engine's boolean conversion. */
    method FindBoolean(path: string, atob: Value -> bool) returns (r: Result<bool>)
      ensures JsonValues.Find(properties, path).Err? <==> r.Err?
      ensures JsonValues.Find(properties, path) == Ok(Null) ==> r == Ok(false)
      ensures JsonValues.Find(properties, path).Ok? && JsonValues.Find(properties, path).value != Null ==>
                r == Ok(atob(JsonValues.Find(properties, path).value))
    {
      var found := Find(path);
      if found.Err? {
        return Err(found.error);
      }
      r := if found.value.Null? then Ok(false) else Ok(atob(found.value));
    }

    /** `collect(pathStr)`. */
    method Collect(pathStr: string) returns (r: Result<seq<Value>>)
      ensures r == JsonValues.Collect(properties, pathStr)
    {
      var path := Explode(pathStr, '.');
      if |path| == 0 {
        return Err(Error(500, "IndexOutOfBoundsException: empty path"));
      }
      var collected := CollectInto(properties, path, []);
      assert collected == CollectIn(properties, path);
      r := Ok(collected);
    }

    /** `diff(diffAgainst)`: the patch list that turns `against` into this node. */
    method Diff(against: JSNode) returns (patches: seq<Patch>)
      ensures patches == DiffProps(properties, against.properties, "")
    {
      patches := DiffPropsInto(properties, against.properties, "", []);
    }

    /**
     * `patch(diffs)`: applies the entries in order.  When one fails, the entries
     * before it stay applied and the failure is returned.
     */
    method Patch(diffs: seq<Patch>) returns (r: Result<()>)
      requires Valid()
      requires forall i :: 0 <= i < |diffs| ==> WellFormed(diffs[i].value)
      modifies this
      ensures Valid()
      ensures r.Ok? <==> ApplyAll(old(properties), diffs).Ok?
      ensures r.Ok? ==> ApplyAll(old(properties), diffs) == Ok(properties)
      ensures r.Err? ==> exists n :: 0 <= n < |diffs| && ApplyAll(old(properties), diffs[..n]) == Ok(properties)
                                                   && ApplyPatch(properties, diffs[n]) == Err(r.error)
    {
      var i := 0;
      while i < |diffs|
        invariant 0 <= i <= |diffs|
        invariant Valid()
        invariant ApplyAll(old(properties), diffs[..i]) == Ok(properties)
      {
        var d := diffs[i];
        var step := ApplyPatch(properties, d);
        assert diffs[..i + 1][..i] == diffs[..i];
        if step.Err? {
          ApplyAllFailsAfter(old(properties), diffs, i + 1);
          return Err(step.error);
        }
        var (parent, prop) := SplitPath(d.path);
        ApplyAtWellFormed(properties, parent, d.op, prop, d.value);
        properties := step.value;
        i := i + 1;
      }
      assert diffs[..i] == diffs;
      r := Ok(());
    }
  }

  /** The loop of `find`: steps down one segment at a time, stopping at null and failing on a value that is not a node. */
  method Walk(start: Value, segs: seq<string>) returns (r: Result<Value>)
    ensures r == FindIn(start, segs)
  {
    var obj := start;
    var i := 0;
    while i < |segs|
      invariant 0 <= i <= |segs|
      invariant FindIn(start, segs) == FindIn(obj, segs[i..])
    {
      if obj.Null? {
        FindInOfNull(segs[i..]);
        break;
      }
      FindInStep(obj, segs, i);
      if !obj.Obj? {
        return Err(Error(500, "ClassCastException: not a node"));
      }
      obj := JsonValues.Get(obj.props, segs[i]);
      i := i + 1;
    }
    r := Ok(obj);
  }

  /** One step of `find`'s walk: a node steps to the child under the next segment, anything else but null fails. */
  lemma FindInStep(v: Value, segs: seq<string>, i: nat)
    requires i < |segs| && !v.Null?
    ensures FindIn(v, segs[i..]) ==
      if v.Obj? then FindIn(JsonValues.Get(v.props, segs[i]), segs[i + 1..]) else Err(Error(500, "ClassCastException: not a node"))
  {
    assert segs[i..][0] == segs[i];
    assert segs[i..][1..] == segs[i + 1..];
  }

  lemma RemoveKeyAbsentAfter(ps: Props, k: string)
    ensures !HasKey(RemoveKey(ps, k), k)
  {
    GetRemoveKey(ps, k, k);
    RemoveKeyKeepsOthers(ps, k);
  }

  /** Once a prefix of the list fails, the whole list fails. */
  lemma {:induction false} ApplyAllFailsAfter(ps: Props, ds: seq<Patch>, m: nat)
    requires m <= |ds|
    requires ApplyAll(ps, ds[..m]).Err?
    ensures ApplyAll(ps, ds).Err?
    decreases |ds| - m
  {
    if m < |ds| {
      assert ds[..m + 1][..m] == ds[..m];
      ApplyAllFailsAfter(ps, ds, m + 1);
    } else {
      assert ds[..m] == ds;
    }
  }

  /** The recursive `collect(path, collected)`: appends what the path selects below `ps`. */
  method CollectInto(ps: Props, path: seq<string>, collected: seq<Value>) returns (out: seq<Value>)
    requires |path| >= 1
    ensures out == collected + CollectIn(ps, path)
    decreases Obj(ps)
  {
    var seg := path[0];
    if seg == "*" && |path| == 1 {
      out := collected + Values(ps);
    } else if seg == "*" || seg == "**" {
      if seg == "**" && |path| == 1 {
        return collected;
      }
      var deep := seg == "**";
      var values := Values(ps);
      out := collected;
      var i := 0;
      while i < |values|
        invariant 0 <= i <= |values|
        invariant deep ==> out == collected + CollectEach(ps, path, true, i)
        invariant !deep ==> out == collected + CollectEach(ps, path[1..], false, i)
      {
        var v := values[i];
        if v.Obj? {
          if deep {
            out := CollectInto(v.props, path, out);
            out := CollectInto(v.props, path[1..], out);
          } else {
            out := CollectInto(v.props, path[1..], out);
          }
        }
        i := i + 1;
      }
    } else {
      var found := JsonValues.Get(ps, seg);
      if found.Null? {
        out := collected;
      } else if |path| == 1 {
        out := collected + [found];
      } else if found.Obj? {
        out := CollectInto(found.props, path[1..], collected);
      } else {
        out := collected;
      }
    }
  }

  /** The recursive `diff(diffAgainst, path, patches)`: appends the entries for two nodes. */
  method DiffPropsInto(mine: Props, theirs: Props, path: string, patches: seq<Patch>) returns (out: seq<Patch>)
    ensures out == patches + DiffProps(mine, theirs, path)
    decreases Obj(mine), 2
  {
    var own := OwnDiffsInto(mine, theirs, path, patches);
    out := RemovedKeysInto(mine, theirs, path, own);
  }

  /** The loop over this node's keys in `diff`. */
  method OwnDiffsInto(mine: Props, theirs: Props, path: string, patches: seq<Patch>) returns (out: seq<Patch>)
    ensures out == patches + OwnDiffs(mine, theirs, path, |mine|)
    decreases Obj(mine), 1
  {
    out := patches;
    var keys := KeySet(mine);
    for i := 0 to |keys|
      invariant out == patches + OwnDiffs(mine, theirs, path, i)
    {
      OwnDiffsUnfold(mine, theirs, path, i);
      out := DiffKeyInto(mine, theirs, path, i, out);
    }
  }

  /** One pass of that loop: the `i`th key's value against the argument's value under that key. */
  method DiffKeyInto(mine: Props, theirs: Props, path: string, i: nat, patches: seq<Patch>) returns (out: seq<Patch>)
    requires i < |mine|
    ensures out == patches + DiffValue(ChildPath(path, mine[i].name), mine[i].value, JsonValues.Get(theirs, mine[i].name))
    decreases Obj(mine), 0
  {
    var key := mine[i].name;
    var childPath := ChildPath(path, key);
    var theirVal := JsonValues.Get(theirs, key);
    out := DiffValueInto(childPath, mine[i].value, theirVal, patches);
  }

  lemma OwnDiffsUnfold(mine: Props, theirs: Props, path: string, i: nat)
    requires i < |mine|
    ensures OwnDiffs(mine, theirs, path, i + 1)
         == OwnDiffs(mine, theirs, path, i) + DiffValue(ChildPath(path, mine[i].name), mine[i].value, JsonValues.Get(theirs, mine[i].name))
  {
  }

  /** The loop over the argument's keys in `diff`, which emits a remove for each key this node lacks. */
  method RemovedKeysInto(mine: Props, theirs: Props, path: string, patches: seq<Patch>) returns (out: seq<Patch>)
    ensures out == patches + RemovedKeys(mine, theirs, path, |theirs|)
  {
    out := patches;
    var theirKeys := KeySet(theirs);
    for j := 0 to |theirKeys|
      invariant out == patches + RemovedKeys(mine, theirs, path, j)
    {
      var key := theirKeys[j];
      RemovedKeysIntoStep(mine, theirs, path, patches, j, out);
      if JsonValues.Get(mine, key).Null? && !JsonValues.Get(theirs, key).Null? {
        out := out + [JsonPatch.Patch("remove", ChildPath(path, key), Null)];
      }
    }
  }

  lemma RemovedKeysIntoStep(mine: Props, theirs: Props, path: string, patches: seq<Patch>, j: nat, out: seq<Patch>)
    requires j < |theirs|
    requires out == patches + RemovedKeys(mine, theirs, path, j)
    ensures JsonValues.Get(mine, theirs[j].name).Null? && !JsonValues.Get(theirs, theirs[j].name).Null? ==>
              out + [JsonPatch.Patch("remove", ChildPath(path, theirs[j].name), Null)] == patches + RemovedKeys(mine, theirs, path, j + 1)
    ensures !(JsonValues.Get(mine, theirs[j].name).Null? && !JsonValues.Get(theirs, theirs[j].name).Null?) ==>
              out == patches + RemovedKeys(mine, theirs, path, j + 1)
  {
    RemovedKeysUnfold(mine, theirs, path, j);
    var k := theirs[j].name;
    if JsonValues.Get(mine, k).Null? && !JsonValues.Get(theirs, k).Null? {
      var remove := JsonPatch.Patch("remove", ChildPath(path, k), Null);
      assert (patches + RemovedKeys(mine, theirs, path, j)) + [remove] == patches + (RemovedKeys(mine, theirs, path, j) + [remove]);
    }
  }

  lemma RemovedKeysUnfold(mine: Props, theirs: Props, path: string, j: nat)
    requires j < |theirs|
    ensures RemovedKeys(mine, theirs, path, j + 1)
         == RemovedKeys(mine, theirs, path, j) +
            (if JsonValues.Get(mine, theirs[j].name).Null? && !JsonValues.Get(theirs, theirs[j].name).Null?
             then [JsonPatch.Patch("remove", ChildPath(path, theirs[j].name), Null)] else [])
  {
  }

  /** The value-level `diff(path, myVal, theirVal, patches)`. */
  method DiffValueInto(path: string, mv: Value, tv: Value, patches: seq<Patch>) returns (out: seq<Patch>)
    ensures out == patches + DiffValue(path, mv, tv)
    decreases mv, 3
  {
    if mv.Null? && tv.Null? {
      out := patches;
    } else if tv.Null? {
      out := patches + [JsonPatch.Patch("add", path, mv)];
    } else if mv.Null? {
      out := patches + [JsonPatch.Patch("remove", path, Null)];
    } else if !SameClass(mv, tv) {
      out := patches + [JsonPatch.Patch("replace", path, mv)];
    } else if mv.Obj? {
      out := DiffPropsInto(mv.props, tv.props, path, patches);
    } else if mv != tv {
      out := patches + [JsonPatch.Patch("replace", path, mv)];
    } else {
      out := patches;
    }
  }
}
