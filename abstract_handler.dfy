/**
 * Helpers every handler shares: collecting the objects of a JSON tree whose path
 * matches a pattern (`find`), splitting a comma-separated request parameter
 * (`splitParam`), joining paths (`nextPath`) and resolving the reserved
 * substitution keys (`getValue`). The pattern matcher `J.wildcardMatch` is the
 * parameter `wildcardMatch`.
 */
module AbstractHandler {
  import opened Wrappers
  import opened Strings
  import opened Sequences
  import opened JsonValues

  // ---------------------------------------------------------------------------
  // find
  // ---------------------------------------------------------------------------

  /**
   * The path of an object's child under `key`: the key itself below the empty
   * path, otherwise the current path, the lowercased key and a dot.
   */
  function ChildPath(current: string, key: string): string
  {
    if current == "" then key else current + Lower(key) + "."
  }

  /** The path reached from `current` by descending through `keys`, outermost first. */
  function Descend(current: string, keys: seq<string>): string
    decreases |keys|
  {
    if keys == [] then current else ChildPath(Descend(current, keys[..|keys| - 1]), keys[|keys| - 1])
  }

  function LowerEach(keys: seq<string>): (r: seq<string>)
    ensures |r| == |keys| && forall i :: 0 <= i < |keys| ==> r[i] == Lower(keys[i])
  {
    seq(|keys|, i requires 0 <= i < |keys| => Lower(keys[i]))
  }

  /** From the root path `.`, a path is the lowercased keys, each followed by a dot. */
  lemma {:induction false} DescendFromRoot(keys: seq<string>)
    requires keys != []
    ensures Descend(".", keys) == "." + Join(".", LowerEach(keys)) + "."
    decreases |keys|
  {
    var init, k := keys[..|keys| - 1], keys[|keys| - 1];
    if init == [] {
      assert LowerEach(keys) == [Lower(k)];
    } else {
      DescendFromRoot(init);
      assert LowerEach(keys) == LowerEach(init) + [Lower(k)];
      JoinSnoc(".", LowerEach(init), Lower(k));
    }
  }

  /**
   * `child instanceof JSObject` on an array item: a `JSArray` is a `JSObject`
   * too, so nested arrays are searched and only scalars and nulls are skipped.
   */
  predicate IsJsObject(v: Value) { v.Obj? || v.Arr? }

  /**
   * The objects `find(parent, found, target, current)` reaches, in visiting order
   * and before duplicates are dropped: an object whose path matches, then what its
   * properties hold, in key order; an array passes its object and array items on at the
   * same path and skips its scalar and null items; scalars and nulls hold nothing.
   */
  function Matches(v: Value, target: string, current: string, wildcardMatch: (string, string) -> bool): (r: seq<Value>)
    decreases v, 1, 0
  {
    match v
    case Arr(items) => MatchesInItems(items, target, current, wildcardMatch, |items|)
    case Obj(ps) => (if wildcardMatch(target, current) then [v] else []) + MatchesInProps(ps, target, current, wildcardMatch, |ps|)
    case _ => []
  }

  /** What the first `n` items of an array contribute. */
  function MatchesInItems(items: seq<Value>, target: string, current: string, wildcardMatch: (string, string) -> bool, n: nat): (r: seq<Value>)
    requires n <= |items|
    decreases Arr(items), 0, n
  {
    if n == 0 then []
    else
      MatchesInItems(items, target, current, wildcardMatch, n - 1) +
        (if IsJsObject(items[n - 1]) then Matches(items[n - 1], target, current, wildcardMatch) else [])
  }

  /** What the first `n` properties of an object contribute, each one key deeper. */
  function MatchesInProps(ps: Props, target: string, current: string, wildcardMatch: (string, string) -> bool, n: nat): (r: seq<Value>)
    requires n <= |ps|
    decreases Obj(ps), 0, n
  {
    if n == 0 then []
    else
      MatchesInProps(ps, target, current, wildcardMatch, n - 1) +
        Matches(ps[n - 1].value, target, ChildPath(current, ps[n - 1].name), wildcardMatch)
  }

  predicate AllObjects(r: seq<Value>) { forall i :: 0 <= i < |r| ==> r[i].Obj? }

  lemma AllObjectsConcat(xs: seq<Value>, ys: seq<Value>)
    requires AllObjects(xs) && AllObjects(ys)
    ensures AllObjects(xs + ys)
  {
    assert forall i :: 0 <= i < |xs + ys| ==> (xs + ys)[i] == if i < |xs| then xs[i] else ys[i - |xs|];
  }

  /** `find` collects objects only: it never adds an array, a scalar or a null. */
  lemma {:induction false} MatchesObjects(v: Value, target: string, current: string, wildcardMatch: (string, string) -> bool)
    ensures AllObjects(Matches(v, target, current, wildcardMatch))
    decreases v, 1, 0
  {
    match v
    case Arr(items) =>
      MatchesInItemsObjects(items, target, current, wildcardMatch, |items|);
    case Obj(ps) =>
      MatchesInPropsObjects(ps, target, current, wildcardMatch, |ps|);
      AllObjectsConcat(if wildcardMatch(target, current) then [v] else [], MatchesInProps(ps, target, current, wildcardMatch, |ps|));
    case _ =>
  }

  lemma {:induction false} MatchesInItemsObjects(items: seq<Value>, target: string, current: string, wildcardMatch: (string, string) -> bool, n: nat)
    requires n <= |items|
    ensures AllObjects(MatchesInItems(items, target, current, wildcardMatch, n))
    decreases Arr(items), 0, n
  {
    if n > 0 {
      MatchesInItemsObjects(items, target, current, wildcardMatch, n - 1);
      if IsJsObject(items[n - 1]) {
        MatchesObjects(items[n - 1], target, current, wildcardMatch);
        AllObjectsConcat(MatchesInItems(items, target, current, wildcardMatch, n - 1), Matches(items[n - 1], target, current, wildcardMatch));
      } else {
        assert MatchesInItems(items, target, current, wildcardMatch, n) == MatchesInItems(items, target, current, wildcardMatch, n - 1);
      }
    }
  }

  lemma {:induction false} MatchesInPropsObjects(ps: Props, target: string, current: string, wildcardMatch: (string, string) -> bool, n: nat)
    requires n <= |ps|
    ensures AllObjects(MatchesInProps(ps, target, current, wildcardMatch, n))
    decreases Obj(ps), 0, n
  {
    if n > 0 {
      var next := ChildPath(current, ps[n - 1].name);
      MatchesInPropsObjects(ps, target, current, wildcardMatch, n - 1);
      MatchesObjects(ps[n - 1].value, target, next, wildcardMatch);
      AllObjectsConcat(MatchesInProps(ps, target, current, wildcardMatch, n - 1), Matches(ps[n - 1].value, target, next, wildcardMatch));
    }
  }

  /** An object whose path matches is the first thing collected from it. */
  lemma MatchedObjectFirst(ps: Props, target: string, current: string, wildcardMatch: (string, string) -> bool)
    requires wildcardMatch(target, current)
    ensures var r := Matches(Obj(ps), target, current, wildcardMatch); |r| >= 1 && r[0] == Obj(ps)
  {
  }

  /** An array does not extend the path: an object item whose path matches is collected. */
  lemma {:induction false} ArrayKeepsPath(items: seq<Value>, k: nat, n: nat, target: string, current: string,
                                          wildcardMatch: (string, string) -> bool)
    requires k < n <= |items| && items[k].Obj? && wildcardMatch(target, current)
    ensures items[k] in MatchesInItems(items, target, current, wildcardMatch, n)
    decreases n
  {
    if k == n - 1 {
      MatchedObjectFirst(items[k].props, target, current, wildcardMatch);
      assert items[k] == Matches(items[k], target, current, wildcardMatch)[0];
    } else {
      ArrayKeepsPath(items, k, n - 1, target, current, wildcardMatch);
    }
  }

  /** An object child is collected when its path, one key deeper, matches. */
  lemma {:induction false} ChildAtKeyPath(ps: Props, k: nat, n: nat, target: string, current: string,
                                          wildcardMatch: (string, string) -> bool)
    requires k < n <= |ps| && ps[k].value.Obj? && wildcardMatch(target, ChildPath(current, ps[k].name))
    ensures ps[k].value in MatchesInProps(ps, target, current, wildcardMatch, n)
    decreases n
  {
    if k == n - 1 {
      var child := ps[k].value;
      MatchedObjectFirst(child.props, target, ChildPath(current, ps[k].name), wildcardMatch);
      assert child == Matches(child, target, ChildPath(current, ps[k].name), wildcardMatch)[0];
    } else {
      ChildAtKeyPath(ps, k, n - 1, target, current, wildcardMatch);
    }
  }

  /** An array directly inside an array is searched as its items are, at the same path. */
  lemma NestedArraySearched(inner: seq<Value>, target: string, current: string, wildcardMatch: (string, string) -> bool)
    ensures Matches(Arr([Arr(inner)]), target, current, wildcardMatch) == Matches(Arr(inner), target, current, wildcardMatch)
  {
    assert MatchesInItems([Arr(inner)], target, current, wildcardMatch, 0) == [];
  }

  /** `find(parent, found, targetPath, currentPath)`: appends what it reaches to `found`, skipping objects already there. */
  method FindInto(parent: Value, found: seq<Value>, target: string, current: string, wildcardMatch: (string, string) -> bool)
    returns (r: seq<Value>)
    ensures r == AddAllOnce(found, Matches(parent, target, current, wildcardMatch))
    decreases parent, 2
  {
    match parent {
      case Arr(items) =>
        r := FindInItems(items, found, target, current, wildcardMatch);
      case Obj(ps) =>
        var head := if wildcardMatch(target, current) then [parent] else [];
        r := found;
        if parent !in r && wildcardMatch(target, current) {
          r := r + [parent];
        }
        assert r == AddAllOnce(found, head) by {
          if head != [] {
            assert head[..0] == [];
          }
        }
        r := FindInProps(ps, r, target, current, wildcardMatch);
        AddAllOnceConcat(found, head, MatchesInProps(ps, target, current, wildcardMatch, |ps|));
      case _ =>
        r := found;
        assert AddAllOnce(found, []) == found;
    }
  }

  /** The loop of `find` over an array: each object item, at the array's own path. */
  method FindInItems(items: seq<Value>, found: seq<Value>, target: string, current: string, wildcardMatch: (string, string) -> bool)
    returns (r: seq<Value>)
    ensures r == AddAllOnce(found, MatchesInItems(items, target, current, wildcardMatch, |items|))
    decreases Arr(items), 1
  {
    r := found;
    for i := 0 to |items|
      invariant r == AddAllOnce(found, MatchesInItems(items, target, current, wildcardMatch, i))
    {
      ghost var prev := r;
      if IsJsObject(items[i]) {
        r := FindInItem(items, i, r, target, current, wildcardMatch);
      }
      FindInItemsStep(items, found, target, current, wildcardMatch, i, prev, r);
    }
  }

  /** One pass of that loop on an object element: the element searched at the same path. */
  method FindInItem(items: seq<Value>, i: nat, found: seq<Value>, target: string, current: string, wildcardMatch: (string, string) -> bool)
    returns (r: seq<Value>)
    requires i < |items| && IsJsObject(items[i])
    ensures r == AddAllOnce(found, Matches(items[i], target, current, wildcardMatch))
    decreases Arr(items), 0
  {
    r := FindInto(items[i], found, target, current, wildcardMatch);
  }

  lemma FindInItemsStep(items: seq<Value>, found: seq<Value>, target: string, current: string, wildcardMatch: (string, string) -> bool,
                        i: nat, prev: seq<Value>, r: seq<Value>)
    requires i < |items|
    requires prev == AddAllOnce(found, MatchesInItems(items, target, current, wildcardMatch, i))
    requires IsJsObject(items[i]) ==> r == AddAllOnce(prev, Matches(items[i], target, current, wildcardMatch))
    requires !IsJsObject(items[i]) ==> r == prev
    ensures r == AddAllOnce(found, MatchesInItems(items, target, current, wildcardMatch, i + 1))
  {
    if IsJsObject(items[i]) {
      assert MatchesInItems(items, target, current, wildcardMatch, i + 1)
          == MatchesInItems(items, target, current, wildcardMatch, i) + Matches(items[i], target, current, wildcardMatch);
      AddAllOnceConcat(found, MatchesInItems(items, target, current, wildcardMatch, i),
                       Matches(items[i], target, current, wildcardMatch));
    } else {
      assert MatchesInItems(items, target, current, wildcardMatch, i) + [] == MatchesInItems(items, target, current, wildcardMatch, i);
    }
  }

  /** The loop of `find` over an object's keys: each value, one key deeper. */
  method FindInProps(ps: Props, found: seq<Value>, target: string, current: string, wildcardMatch: (string, string) -> bool)
    returns (r: seq<Value>)
    ensures r == AddAllOnce(found, MatchesInProps(ps, target, current, wildcardMatch, |ps|))
    decreases Obj(ps), 1
  {
    r := found;
    for i := 0 to |ps|
      invariant r == AddAllOnce(found, MatchesInProps(ps, target, current, wildcardMatch, i))
    {
      ghost var prev := r;
      r := FindInProperty(ps, i, r, target, current, wildcardMatch);
      FindInPropsStep(ps, found, target, current, wildcardMatch, i, prev, r);
    }
  }

  /** One pass of that loop: the value under the `i`th key, searched one key deeper. */
  method FindInProperty(ps: Props, i: nat, found: seq<Value>, target: string, current: string, wildcardMatch: (string, string) -> bool)
    returns (r: seq<Value>)
    requires i < |ps|
    ensures r == AddAllOnce(found, Matches(ps[i].value, target, ChildPath(current, ps[i].name), wildcardMatch))
    decreases Obj(ps), 0
  {
    r := FindInto(ps[i].value, found, target, ChildPath(current, ps[i].name), wildcardMatch);
  }

  lemma FindInPropsStep(ps: Props, found: seq<Value>, target: string, current: string, wildcardMatch: (string, string) -> bool,
                        i: nat, prev: seq<Value>, r: seq<Value>)
    requires i < |ps|
    requires prev == AddAllOnce(found, MatchesInProps(ps, target, current, wildcardMatch, i))
    requires r == AddAllOnce(prev, Matches(ps[i].value, target, ChildPath(current, ps[i].name), wildcardMatch))
    ensures r == AddAllOnce(found, MatchesInProps(ps, target, current, wildcardMatch, i + 1))
  {
    AddAllOnceConcat(found, MatchesInProps(ps, target, current, wildcardMatch, i),
                     Matches(ps[i].value, target, ChildPath(current, ps[i].name), wildcardMatch));
  }

  /** Everything reached for the targets in turn, each search starting at path `.`. */
  function MatchesFor(parent: Value, targets: seq<string>, wildcardMatch: (string, string) -> bool): (r: seq<Value>)
    decreases |targets|
  {
    if targets == [] then []
    else MatchesFor(parent, targets[..|targets| - 1], wildcardMatch) + Matches(parent, targets[|targets| - 1], ".", wildcardMatch)
  }

  /** Everything reached for the arguments of `find(parent, paths...)`, each exploded on commas. */
  function MatchesForPaths(parent: Value, paths: seq<string>, wildcardMatch: (string, string) -> bool): (r: seq<Value>)
    decreases |paths|
  {
    if paths == [] then []
    else MatchesForPaths(parent, paths[..|paths| - 1], wildcardMatch) + MatchesFor(parent, Explode(paths[|paths| - 1], ','), wildcardMatch)
  }

  /** The inner loop of `find(parent, paths...)`: one search from `.` per target. */
  method FindEach(parent: Value, found: seq<Value>, targets: seq<string>, wildcardMatch: (string, string) -> bool)
    returns (r: seq<Value>)
    ensures r == AddAllOnce(found, MatchesFor(parent, targets, wildcardMatch))
  {
    r := found;
    for j := 0 to |targets|
      invariant r == AddAllOnce(found, MatchesFor(parent, targets[..j], wildcardMatch))
    {
      r := FindInto(parent, r, targets[j], ".", wildcardMatch);
      AddAllOnceConcat(found, MatchesFor(parent, targets[..j], wildcardMatch), Matches(parent, targets[j], ".", wildcardMatch));
      assert targets[..j + 1][..j] == targets[..j];
    }
    assert targets[..|targets|] == targets;
  }

  /** `find(parent, paths...)`: searches every comma-separated path from `.`, collecting each object once. */
  method Find(parent: Value, paths: seq<string>, wildcardMatch: (string, string) -> bool) returns (found: seq<Value>)
    ensures found == AddAllOnce([], MatchesForPaths(parent, paths, wildcardMatch))
  {
    found := [];
    for i := 0 to |paths|
      invariant found == AddAllOnce([], MatchesForPaths(parent, paths[..i], wildcardMatch))
    {
      var pieces := Explode(paths[i], ',');
      found := FindEach(parent, found, pieces, wildcardMatch);
      AddAllOnceConcat([], MatchesForPaths(parent, paths[..i], wildcardMatch), MatchesFor(parent, pieces, wildcardMatch));
      MatchesForPathsSnoc(parent, paths, i, wildcardMatch);
    }
    assert paths[..|paths|] == paths;
  }

  lemma MatchesForPathsSnoc(parent: Value, paths: seq<string>, i: nat, wildcardMatch: (string, string) -> bool)
    requires i < |paths|
    ensures MatchesForPaths(parent, paths[..i + 1], wildcardMatch)
         == MatchesForPaths(parent, paths[..i], wildcardMatch) + MatchesFor(parent, Explode(paths[i], ','), wildcardMatch)
  {
    assert paths[..i + 1][..i] == paths[..i];
    assert paths[..i + 1][i] == paths[i];
  }

  lemma {:induction false} MatchesForObjects(parent: Value, targets: seq<string>, wildcardMatch: (string, string) -> bool)
    ensures AllObjects(MatchesFor(parent, targets, wildcardMatch))
    decreases |targets|
  {
    if targets != [] {
      var init := targets[..|targets| - 1];
      MatchesForObjects(parent, init, wildcardMatch);
      MatchesObjects(parent, targets[|targets| - 1], ".", wildcardMatch);
      AllObjectsConcat(MatchesFor(parent, init, wildcardMatch), Matches(parent, targets[|targets| - 1], ".", wildcardMatch));
    }
  }

  lemma {:induction false} MatchesForPathsObjects(parent: Value, paths: seq<string>, wildcardMatch: (string, string) -> bool)
    ensures AllObjects(MatchesForPaths(parent, paths, wildcardMatch))
    decreases |paths|
  {
    if paths != [] {
      var init := paths[..|paths| - 1];
      var pieces := Explode(paths[|paths| - 1], ',');
      MatchesForPathsObjects(parent, init, wildcardMatch);
      MatchesForObjects(parent, pieces, wildcardMatch);
      AllObjectsConcat(MatchesForPaths(parent, init, wildcardMatch), MatchesFor(parent, pieces, wildcardMatch));
    }
  }

  /**
   * What `find` returns: each object at most once, and exactly the objects some
   * target path reaches, the first ones reached first.
   */
  lemma FindResult(parent: Value, paths: seq<string>, wildcardMatch: (string, string) -> bool)
    ensures var found := AddAllOnce([], MatchesForPaths(parent, paths, wildcardMatch));
            NoDuplicates(found) &&
            (forall x :: x in found <==> x in MatchesForPaths(parent, paths, wildcardMatch)) &&
            (forall x :: x in found ==> x.Obj?)
  {
    var all := MatchesForPaths(parent, paths, wildcardMatch);
    AddAllOnceSpec([], all);
    MatchesForPathsObjects(parent, paths, wildcardMatch);
    forall x | x in AddAllOnce([], all)
      ensures x.Obj?
    {
      var k :| 0 <= k < |all| && all[k] == x;
    }
  }

  // ---------------------------------------------------------------------------
  // splitParam and nextPath
  // ---------------------------------------------------------------------------

  /** The items `splitParam` keeps from the comma-split pieces: trimmed, lowercased, non-empty. */
  function Items(pieces: seq<string>): (r: seq<string>)
    ensures forall i :: 0 <= i < |r| ==> r[i] != ""
    decreases |pieces|
  {
    if pieces == [] then []
    else
      var e := Lower(Trim(pieces[|pieces| - 1]));
      Items(pieces[..|pieces| - 1]) + (if e == "" then [] else [e])
  }

  /** `J.empty` on a string: null or of length zero. */
  predicate Empty(s: Option<string>) { s.None? || s.value == "" }

  /** The set `splitParam(req, key)` builds, in insertion order. */
  function SplitParamOf(param: Option<string>): seq<string>
  {
    if Empty(param) then [] else AddAllOnce([], Items(JavaSplit(param.value, ',')))
  }

  /** `splitParam`: reads the parameter and adds each kept item to an insertion-ordered set. */
  method SplitParam(params: map<string, string>, key: string) returns (r: seq<string>)
    ensures r == SplitParamOf(if key in params then Some(params[key]) else None)
  {
    var param := if key in params then Some(params[key]) else None;
    r := [];
    if !Empty(param) {
      var arr := JavaSplit(param.value, ',');
      for i := 0 to |arr|
        invariant r == AddAllOnce([], Items(arr[..i]))
      {
        var e := Lower(Trim(arr[i]));
        assert arr[..i + 1][..i] == arr[..i];
        if e != "" {
          assert Items(arr[..i + 1]) == Items(arr[..i]) + [e];
          AddAllOnceSnoc([], Items(arr[..i]), e);
          r := AddOnce(r, e);
        } else {
          assert Items(arr[..i + 1]) == Items(arr[..i]);
        }
      }
      assert arr[..|arr|] == arr;
    }
  }

  /** Trimming and lowercasing leaves no white space at either end. */
  lemma LowerTrimmed(s: string)
    ensures IsTrimmed(Lower(Trim(s)))
  {
    var t := Trim(s);
    if t != [] {
      assert Lower(t)[0] == LowerChar(t[0]) by { LowerAt(t, 0); }
      assert Lower(t)[|t| - 1] == LowerChar(t[|t| - 1]) by { LowerAt(t, |t| - 1); }
    }
  }

  /**
   * What `splitParam` returns: no duplicates, no empty or untrimmed item, no
   * comma, no upper-case letter; and a string is in the set exactly when some
   * comma-separated piece of the parameter trims and lowercases to it.
   */
  lemma SplitParamSpec(param: string)
    requires param != ""
    ensures var r := SplitParamOf(Some(param));
            NoDuplicates(r) &&
            (forall x :: x in r <==> x != "" && exists p :: p in JavaSplit(param, ',') && Lower(Trim(p)) == x) &&
            (forall x :: x in r ==> IsTrimmed(x) && ',' !in x && Lower(x) == x)
  {
    var pieces := JavaSplit(param, ',');
    var r := SplitParamOf(Some(param));
    assert r == AddAllOnce([], Items(pieces));
    AddAllOnceSpec([], Items(pieces));
    ItemsMembers(pieces);
    forall x
      ensures x in r <==> x != "" && exists p :: p in pieces && Lower(Trim(p)) == x
    {
      assert x in r <==> x in Items(pieces);
    }
    forall x | x in r
      ensures IsTrimmed(x) && ',' !in x && Lower(x) == x
    {
      var p :| p in pieces && Lower(Trim(p)) == x;
      ItemShape(p);
    }
  }

  /** A kept item is trimmed, lowercase, and as free of commas as its piece. */
  lemma ItemShape(p: string)
    requires ',' !in p
    ensures var x := Lower(Trim(p)); IsTrimmed(x) && ',' !in x && Lower(x) == x
  {
    LowerTrimmed(p);
    LowerIdempotent(Trim(p));
    NoCharInTrim(p, ',');
    LowerKeepsComma(Trim(p));
  }

  lemma {:induction false} ItemsMembers(pieces: seq<string>)
    ensures forall x :: x in Items(pieces) <==> x != "" && exists p :: p in pieces && Lower(Trim(p)) == x
    decreases |pieces|
  {
    if pieces != [] {
      var init := pieces[..|pieces| - 1];
      ItemsMembers(init);
      assert pieces == init + [pieces[|pieces| - 1]];
      forall x | x != "" && exists p :: p in pieces && Lower(Trim(p)) == x
        ensures x in Items(pieces)
      {
        var p :| p in pieces && Lower(Trim(p)) == x;
        if p != pieces[|pieces| - 1] {
          assert p in init;
        }
      }
    }
  }

  lemma {:induction false} LowerKeepsComma(s: string)
    requires ',' !in s
    ensures ',' !in Lower(s)
    decreases |s|
  {
    if s != [] {
      LowerKeepsComma(s[1..]);
    }
  }

  lemma NoCharInTrim(s: string, c: char)
    requires c !in s
    ensures c !in Trim(s)
  {
    var t := TrimStart(s);
    assert t == s[|s| - |t|..];
    assert TrimEnd(t) == t[..|TrimEnd(t)|];
    forall i | 0 <= i < |Trim(s)|
      ensures Trim(s)[i] != c
    {
      assert Trim(s)[i] == t[i] == s[|s| - |t| + i];
    }
  }

  /** `nextPath`: `next` below an empty path, otherwise the two joined by a dot. */
  function NextPath(path: Option<string>, next: string): string
  {
    if Empty(path) then next else path.value + "." + next
  }

  /** Extending a dotted path one segment at a time builds the dotted join of the segments. */
  lemma NextPathJoins(segs: seq<string>, next: string)
    requires forall i :: 0 <= i < |segs| ==> segs[i] != ""
    ensures NextPath(Some(Join(".", segs)), next) == Join(".", segs + [next])
  {
    if segs == [] {
      assert segs + [next] == [next];
    } else {
      JoinSnoc(".", segs, next);
      JoinNonEmpty(segs);
    }
  }

  lemma {:induction false} JoinNonEmpty(segs: seq<string>)
    requires segs != [] && segs[0] != ""
    ensures Join(".", segs) != ""
  {
    if |segs| > 1 {
      assert |Join(".", segs)| >= |segs[0]|;
    }
  }

  // ---------------------------------------------------------------------------
  // getValue
  // ---------------------------------------------------------------------------

  datatype ApiInfo = ApiInfo(id: int, apiCode: Option<string>, accountId: int, accountCode: Option<string>)
  datatype UserInfo = UserInfo(id: int, tenantId: int, tenantCode: Option<string>, username: Option<string>)

  /** What `getValue` reads: the request's api and user, and the chain's values by exact name. */
  datatype Context = Context(api: ApiInfo, user: Option<UserInfo>, chainValues: map<string, string>)

  /** The reserved names answered from the api, lowercased. */
  const ApiNames: set<string> := {"apiid", "apicode", "accountid", "accountcode"}
  /** The reserved names answered from the user, lowercased. */
  const UserNames: set<string> := {"tenantid", "tenantcode", "userid", "username"}

  /** A key `getValue` may answer from the api or the user rather than the chain. */
  predicate IsReserved(key: string)
  {
    Lower(key) in ApiNames + UserNames
  }

  function ChainValue(ctx: Context, key: string): Option<string>
  {
    if key in ctx.chainValues then Some(ctx.chainValues[key]) else None
  }

  /**
   * `getValue(chain, key)`: the api's and the user's fields under their reserved
   * names `apiId`, `apiCode`, `accountId`, `accountCode`, `tenantId`, `tenantCode`,
   * `userId` and `username`, compared ignoring case (so against their lowercase
   * forms); a user field
   * without a user, and every other key, is the chain's value of that exact name.
   * Numbers are rendered in decimal.
   */
  function GetValue(ctx: Context, key: string): (r: Option<string>)
  {
    var k := Lower(key);
    if k == "apiid" then Some(IntToString(ctx.api.id))
    else if k == "apicode" then ctx.api.apiCode
    else if k == "accountid" then Some(IntToString(ctx.api.accountId))
    else if k == "accountcode" then ctx.api.accountCode
    else if k == "tenantid" && ctx.user.Some? then Some(IntToString(ctx.user.value.tenantId))
    else if k == "tenantcode" && ctx.user.Some? then ctx.user.value.tenantCode
    else if k == "userid" && ctx.user.Some? then Some(IntToString(ctx.user.value.id))
    else if k == "username" && ctx.user.Some? then ctx.user.value.username
    else ChainValue(ctx, key)
  }

  /** A reserved key the api or a present user answers means the same in any case. */
  lemma ReservedKeysIgnoreCase(ctx: Context, k1: string, k2: string)
    requires EqualsIgnoreCase(k1, k2)
    requires Lower(k1) in ApiNames || (Lower(k1) in UserNames && ctx.user.Some?)
    ensures IsReserved(k2)
    ensures GetValue(ctx, k1) == GetValue(ctx, k2)
  {
  }

  /** Any other key is looked up in the chain, by its exact name. */
  lemma OtherKeysFromChain(ctx: Context, key: string)
    requires !IsReserved(key)
    ensures GetValue(ctx, key) == ChainValue(ctx, key)
  {
  }

  /** Without a user, the user's names fall through to the chain. */
  lemma UserKeysWithoutUser(ctx: Context, key: string)
    requires ctx.user.None? && Lower(key) in UserNames
    ensures GetValue(ctx, key) == ChainValue(ctx, key)
  {
  }

  /**
   * The api's names, in any case, are answered from the api alone: whatever the
   * chain holds, `apiId` and `accountId` are the ids in decimal, and `apiCode` and
   * `accountCode` are the codes, null when the api has none.
   */
  lemma ApiKeysNeverFromChain(ctx: Context, key: string, otherChain: map<string, string>)
    requires Lower(key) in ApiNames
    ensures GetValue(ctx, key) == GetValue(ctx.(chainValues := otherChain), key)
    ensures Lower(key) == "apiid" ==> GetValue(ctx, key) == Some(IntToString(ctx.api.id))
    ensures Lower(key) == "apicode" ==> GetValue(ctx, key) == ctx.api.apiCode
    ensures Lower(key) == "accountid" ==> GetValue(ctx, key) == Some(IntToString(ctx.api.accountId))
    ensures Lower(key) == "accountcode" ==> GetValue(ctx, key) == ctx.api.accountCode
  {
  }

  /**
   * With a user, the user's names, in any case, are answered from the user alone:
   * the ids in decimal, and the tenant code and user name, null when missing.
   */
  lemma UserKeysWithUser(ctx: Context, key: string, otherChain: map<string, string>)
    requires ctx.user.Some? && Lower(key) in UserNames
    ensures GetValue(ctx, key) == GetValue(ctx.(chainValues := otherChain), key)
    ensures Lower(key) == "tenantid" ==> GetValue(ctx, key) == Some(IntToString(ctx.user.value.tenantId))
    ensures Lower(key) == "tenantcode" ==> GetValue(ctx, key) == ctx.user.value.tenantCode
    ensures Lower(key) == "userid" ==> GetValue(ctx, key) == Some(IntToString(ctx.user.value.id))
    ensures Lower(key) == "username" ==> GetValue(ctx, key) == ctx.user.value.username
  {
  }
}
