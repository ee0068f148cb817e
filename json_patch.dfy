/**
 * `JSNode.diff` and `JSNode.patch` on values: the patch list that turns the
 * argument of `diff` into its receiver, and the application of such a list to a
 * document, one path at a time.
 */
module JsonPatch {
  import opened Wrappers
  import opened Strings
  import opened JsonValues

  /** One entry of a patch list: `op` is "add", "remove" or "replace", `path` is dotted. */
  datatype Patch = Patch(op: string, path: string, value: Value)

  /** Whether two non-null values have the same Java class. */
  predicate SameClass(a: Value, b: Value)
  {
    match (a, b)
    case (Scalar(c1, _), Scalar(c2, _)) => c1 == c2
    case (Arr(_), Arr(_)) => true
    case (Obj(_), Obj(_)) => true
    case (Null, Null) => true
    case _ => false
  }

  /** `Utils.implode(".", path, key)`. */
  function ChildPath(path: string, key: string): string
  {
    Implode(".", [path, key])
  }

  /**
   * `diff(diffAgainst, path, patches)`: first one entry group per own key, in
   * key order, then a removal for each key of the argument that reads as null
   * here but not there.
   */
  function DiffProps(mine: Props, theirs: Props, path: string): seq<Patch>
    decreases Obj(mine), 1, 0
  {
    OwnDiffs(mine, theirs, path, |mine|) + RemovedKeys(mine, theirs, path, |theirs|)
  }

  /** The entries the loop over the first `n` own keys appends. */
  function OwnDiffs(mine: Props, theirs: Props, path: string, n: nat): seq<Patch>
    requires n <= |mine|
    decreases Obj(mine), 0, n
  {
    if n == 0 then []
    else
      var k := mine[n - 1].name;
      OwnDiffs(mine, theirs, path, n - 1) + DiffValue(ChildPath(path, k), mine[n - 1].value, Get(theirs, k))
  }

  /** The removals the loop over the first `n` keys of the argument appends. */
  function RemovedKeys(mine: Props, theirs: Props, path: string, n: nat): seq<Patch>
    requires n <= |theirs|
  {
    if n == 0 then []
    else
      var k := theirs[n - 1].name;
      RemovedKeys(mine, theirs, path, n - 1) +
        (if Get(mine, k).Null? && !Get(theirs, k).Null? then [Patch("remove", ChildPath(path, k), Null)] else [])
  }

  /** `diff(path, myVal, theirVal, patches)`: the entries for one value. */
  function DiffValue(path: string, mv: Value, tv: Value): seq<Patch>
    decreases mv, 2, 0
  {
    if mv.Null? && tv.Null? then []
    else if tv.Null? then [Patch("add", path, mv)]
    else if mv.Null? then [Patch("remove", path, Null)]
    else if !SameClass(mv, tv) then [Patch("replace", path, mv)]
    else if mv.Obj? then DiffProps(mv.props, tv.props, path)
    else if mv != tv then [Patch("replace", path, mv)]
    else []
  }

  /**
   * Applies one change to the node at `parent`: `remove` drops the property,
   * every other op puts the value.  A parent that reads as null fails with
   * "Unable to find parent path"; one that is not a node fails on the cast.
   */
  function ApplyAt(ps: Props, parent: seq<string>, op: string, prop: string, v: Value): Result<Props>
    decreases |parent|
  {
    if parent == [] then Ok(if op == "remove" then RemoveKey(ps, prop) else Put(ps, prop, v))
    else
      var child := Get(ps, parent[0]);
      if child.Null? then Err(Error(500, "Unable to find parent path for patch"))
      else if !child.Obj? then Err(Error(500, "ClassCastException: patch parent is not a node"))
      else
        match ApplyAt(child.props, parent[1..], op, prop, v)
        case Err(e) => Err(e)
        case Ok(cps) => Ok(SetValue(ps, parent[0], Obj(cps)))
  }

  /** The path split at its last dot: the exploded parent path and the property name. */
  function SplitPath(path: string): (seq<string>, string)
  {
    var idx := LastIndexOfChar(path, '.');
    if idx < 0 then ([], path) else (Explode(path[..idx], '.'), path[idx + 1..])
  }

  /** One iteration of `patch`'s loop. */
  function ApplyPatch(ps: Props, d: Patch): Result<Props>
  {
    var (parent, prop) := SplitPath(d.path);
    ApplyAt(ps, parent, d.op, prop, d.value)
  }

  /** `patch(diffs)`: the entries in order, stopping at the first that fails. */
  function ApplyAll(ps: Props, ds: seq<Patch>): Result<Props>
  {
    if ds == [] then Ok(ps)
    else
      match ApplyAll(ps, ds[..|ds| - 1])
      case Err(e) => Err(e)
      case Ok(qs) => ApplyPatch(qs, ds[|ds| - 1])
  }

  // ------------------------------------------------------------ properties of one change

  /** A change succeeds exactly when `find` of the parent path reaches a node. */
  lemma {:induction false} ApplyAtSucceedsIffParentIsNode(ps: Props, parent: seq<string>, op: string, prop: string, v: Value)
    ensures ApplyAt(ps, parent, op, prop, v).Ok? <==> (FindIn(Obj(ps), parent).Ok? && FindIn(Obj(ps), parent).value.Obj?)
    decreases |parent|
  {
    if parent != [] {
      var child := Get(ps, parent[0]);
      if child.Null? {
        FindInOfNull(parent[1..]);
      } else if child.Obj? {
        ApplyAtSucceedsIffParentIsNode(child.props, parent[1..], op, prop, v);
      } else if parent[1..] != [] {
        assert FindIn(child, parent[1..]).Err?;
      }
    }
  }

  /** After a change succeeds, `find` of its full path reads the value put, or null after a removal. */
  lemma {:induction false} FindAfterApplyAt(ps: Props, parent: seq<string>, op: string, prop: string, v: Value)
    requires ApplyAt(ps, parent, op, prop, v).Ok?
    ensures FindIn(Obj(ApplyAt(ps, parent, op, prop, v).value), parent + [prop]) == Ok(if op == "remove" then Null else v)
    decreases |parent|
  {
    var r := ApplyAt(ps, parent, op, prop, v).value;
    if parent == [] {
      if op == "remove" {
        GetRemoveKey(ps, prop, prop);
      } else {
        GetPut(ps, prop, v, prop);
      }
    } else {
      var child := Get(ps, parent[0]);
      FindAfterApplyAt(child.props, parent[1..], op, prop, v);
      var cps := ApplyAt(child.props, parent[1..], op, prop, v).value;
      GetSetValue(ps, parent[0], Obj(cps), parent[0]);
      FindInObjSnoc(r, parent, prop);
    }
  }

  /** Finding `parent + [prop]` in a node first steps to the child under `parent[0]`. */
  lemma FindInObjSnoc(ps: Props, parent: seq<string>, prop: string)
    requires parent != []
    ensures FindIn(Obj(ps), parent + [prop]) == FindIn(Get(ps, parent[0]), parent[1..] + [prop])
  {
    assert (parent + [prop])[0] == parent[0];
    assert (parent + [prop])[1..] == parent[1..] + [prop];
  }

  /** A change leaves every other top-level key as it was. */
  lemma ApplyAtFrame(ps: Props, parent: seq<string>, op: string, prop: string, v: Value, k: string)
    requires ApplyAt(ps, parent, op, prop, v).Ok?
    requires !SameKey(k, if parent == [] then prop else parent[0])
    ensures Get(ApplyAt(ps, parent, op, prop, v).value, k) == Get(ps, k)
  {
    if parent == [] {
      if op == "remove" {
        GetRemoveKey(ps, prop, k);
      } else {
        GetPut(ps, prop, v, k);
      }
    } else {
      var child := Get(ps, parent[0]);
      var cps := ApplyAt(child.props, parent[1..], op, prop, v).value;
      GetSetValue(ps, parent[0], Obj(cps), k);
    }
  }

  /** Changes keep every node's keys unique when the value put is well formed. */
  lemma {:induction false} ApplyAtWellFormed(ps: Props, parent: seq<string>, op: string, prop: string, v: Value)
    requires WellFormed(Obj(ps)) && WellFormed(v)
    requires ApplyAt(ps, parent, op, prop, v).Ok?
    ensures WellFormed(Obj(ApplyAt(ps, parent, op, prop, v).value))
    decreases |parent|
  {
    if parent == [] {
      if op == "remove" {
        RemoveKeyWellFormed(ps, prop);
      } else {
        PutWellFormed(ps, prop, v);
      }
    } else {
      var child := Get(ps, parent[0]);
      ApplyAtWellFormed(child.props, parent[1..], op, prop, v);
      var cps := ApplyAt(child.props, parent[1..], op, prop, v).value;
      SetValueWellFormed(ps, parent[0], Obj(cps));
    }
  }

  lemma {:induction false} ApplyAllWellFormed(ps: Props, ds: seq<Patch>)
    requires WellFormed(Obj(ps))
    requires forall i :: 0 <= i < |ds| ==> WellFormed(ds[i].value)
    requires ApplyAll(ps, ds).Ok?
    ensures WellFormed(Obj(ApplyAll(ps, ds).value))
  {
    if ds != [] {
      var init := ds[..|ds| - 1];
      ApplyAllWellFormed(ps, init);
      var d := ds[|ds| - 1];
      var (parent, prop) := SplitPath(d.path);
      ApplyAtWellFormed(ApplyAll(ps, init).value, parent, d.op, prop, d.value);
    }
  }

  // ------------------------------------------------------------ properties of diff

  /** Every own key that reads the same on both sides produces nothing: a document's diff against itself is empty. */
  lemma {:induction false} DiffSelfEmpty(ps: Props, path: string)
    requires WellFormed(Obj(ps))
    ensures DiffProps(ps, ps, path) == []
    decreases Obj(ps), 1, 0
  {
    OwnDiffsSelfEmpty(ps, path, |ps|);
    RemovedKeysSelfEmpty(ps, path, |ps|);
  }

  lemma {:induction false} OwnDiffsSelfEmpty(ps: Props, path: string, n: nat)
    requires WellFormed(Obj(ps)) && n <= |ps|
    ensures OwnDiffs(ps, ps, path, n) == []
    decreases Obj(ps), 0, n
  {
    if n > 0 {
      OwnDiffsSelfEmpty(ps, path, n - 1);
      var p := ps[n - 1];
      assert IndexOf(ps, p.name) == n - 1 by {
        var i := IndexOf(ps, p.name);
        assert i >= 0;
        assert !(i < n - 1);
      }
      assert WellFormed(p.value);
      if p.value.Obj? {
        DiffSelfEmpty(p.value.props, ChildPath(path, p.name));
      }
    }
  }

  lemma {:induction false} RemovedKeysSelfEmpty(ps: Props, path: string, n: nat)
    requires n <= |ps|
    ensures RemovedKeys(ps, ps, path, n) == []
  {
    if n > 0 {
      RemovedKeysSelfEmpty(ps, path, n - 1);
    }
  }

  /** Every entry `diff` produces targets a path below the one it was given. */
  lemma {:induction false} DiffValuePaths(path: string, mv: Value, tv: Value)
    requires path != ""
    ensures forall i :: 0 <= i < |DiffValue(path, mv, tv)| ==> StartsWith(DiffValue(path, mv, tv)[i].path, path)
    decreases mv, 2, 0
  {
    if !mv.Null? && !tv.Null? && SameClass(mv, tv) && mv.Obj? {
      DiffPropsPaths(mv.props, tv.props, path);
    }
  }

  lemma {:induction false} DiffPropsPaths(mine: Props, theirs: Props, path: string)
    requires path != ""
    ensures forall i :: 0 <= i < |DiffProps(mine, theirs, path)| ==> StartsWith(DiffProps(mine, theirs, path)[i].path, path)
    decreases Obj(mine), 1, 0
  {
    OwnDiffsPaths(mine, theirs, path, |mine|);
    RemovedKeysPaths(mine, theirs, path, |theirs|);
  }

  lemma {:induction false} OwnDiffsPaths(mine: Props, theirs: Props, path: string, n: nat)
    requires path != "" && n <= |mine|
    ensures forall i :: 0 <= i < |OwnDiffs(mine, theirs, path, n)| ==> StartsWith(OwnDiffs(mine, theirs, path, n)[i].path, path)
    decreases Obj(mine), 0, n
  {
    if n > 0 {
      OwnDiffsPaths(mine, theirs, path, n - 1);
      var k := mine[n - 1].name;
      var cp := ChildPath(path, k);
      ChildPathExtends(path, k);
      DiffValuePaths(cp, mine[n - 1].value, Get(theirs, k));
      var ds := DiffValue(cp, mine[n - 1].value, Get(theirs, k));
      forall i | 0 <= i < |ds|
        ensures StartsWith(ds[i].path, path)
      {
        assert ds[i].path[..|cp|] == cp;
        assert ds[i].path[..|path|] == cp[..|path|];
      }
    }
  }

  lemma {:induction false} RemovedKeysPaths(mine: Props, theirs: Props, path: string, n: nat)
    requires path != "" && n <= |theirs|
    ensures forall i :: 0 <= i < |RemovedKeys(mine, theirs, path, n)| ==> StartsWith(RemovedKeys(mine, theirs, path, n)[i].path, path)
  {
    if n > 0 {
      RemovedKeysPaths(mine, theirs, path, n - 1);
      ChildPathExtends(path, theirs[n - 1].name);
    }
  }

  lemma ChildPathExtends(path: string, key: string)
    requires path != ""
    ensures StartsWith(ChildPath(path, key), path)
    ensures ChildPath(path, key) != ""
  {
    assert [path, key][1..] == [key];
    assert NonEmpty([key]) == (if key == "" then [] else [key]) by {
      assert [key][1..] == [];
    }
    if key == "" {
      assert NonEmpty([path, key]) == [path];
    } else {
      assert NonEmpty([path, key]) == [path, key];
      assert Join(".", [path, key]) == path + "." + Join(".", [key]);
      assert ChildPath(path, key) == path + "." + key;
    }
  }
}
