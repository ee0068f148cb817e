/**
 * The round trip the tests of `JSNode` exercise: `b.patch(a.diff(b))`
 * succeeds and leaves `b` reading like `a`.  "Reading like" is what `find`
 * shows: at every path both documents give the same scalar or array, both give
 * a node, both give null, or both fail.  Key order, the casing of key names and
 * the difference between a null-valued key and a missing key are not carried
 * over by the patch list and are not part of the claim.
 *
 * The proof works on patches whose paths are lists of keys (`SPatch`) and then
 * shows that the dotted paths `diff` builds are taken apart by `patch` into
 * the same lists, for keys that are non-empty, trimmed and free of dots.
 */
module JsonRoundTrip {
  import opened Wrappers
  import opened Strings
  import opened JsonValues
  import opened JsonPatch

  /** What `find` shows at a path, a node being shown only as a node. */
  function Observe(r: Result<Value>): Result<Value>
  {
    if r.Ok? && r.value.Obj? then Ok(Obj([])) else r
  }

  /** `find` shows the same thing in both documents at every path. */
  ghost predicate SameView(x: Value, y: Value)
  {
    forall segs :: Observe(FindIn(x, segs)) == Observe(FindIn(y, segs))
  }

  ghost predicate Equiv(x: Value, y: Value)
  {
    x == y || (x.Obj? && y.Obj? && SameView(x, y))
  }

  /** Every node has unique keys that a dotted path can carry: non-empty, trimmed, without dots. */
  predicate PathSafe(v: Value)
  {
    match v
    case Obj(ps) => UniqueKeys(ps) && forall i :: 0 <= i < |ps| ==> IsSegment(ps[i].name, '.') && PathSafe(ps[i].value)
    case _ => true
  }

  /** The dotted path of a list of keys. */
  function Dotted(segs: seq<string>): string { Join(".", segs) }

  // ------------------------------------------------------------ patches with key-list paths

  datatype SPatch = SPatch(op: string, segs: seq<string>, value: Value)

  function Prefixed(k: string, ds: seq<SPatch>): (r: seq<SPatch>)
    ensures |r| == |ds|
    ensures forall i :: 0 <= i < |ds| ==> r[i] == SPatch(ds[i].op, [k] + ds[i].segs, ds[i].value)
  {
    seq(|ds|, i requires 0 <= i < |ds| => SPatch(ds[i].op, [k] + ds[i].segs, ds[i].value))
  }

  /** The patch list with dotted paths, every path below `prefix`. */
  function Render(prefix: seq<string>, ds: seq<SPatch>): (r: seq<Patch>)
    ensures |r| == |ds|
    ensures forall i :: 0 <= i < |ds| ==> r[i] == Patch(ds[i].op, Dotted(prefix + ds[i].segs), ds[i].value)
  {
    seq(|ds|, i requires 0 <= i < |ds| => Patch(ds[i].op, Dotted(prefix + ds[i].segs), ds[i].value))
  }

  predicate SegOk(d: SPatch)
  {
    |d.segs| >= 1 && forall j :: 0 <= j < |d.segs| ==> IsSegment(d.segs[j], '.')
  }

  predicate SegsOk(ds: seq<SPatch>) { forall i :: 0 <= i < |ds| ==> SegOk(ds[i]) }

  ghost function ApplyS(ps: Props, d: SPatch): Result<Props>
  {
    if d.segs == [] then Err(Error(500, "empty path"))
    else ApplyAt(ps, d.segs[..|d.segs| - 1], d.op, d.segs[|d.segs| - 1], d.value)
  }

  ghost function ApplyAllS(ps: Props, ds: seq<SPatch>): Result<Props>
  {
    if ds == [] then Ok(ps)
    else
      match ApplyAllS(ps, ds[..|ds| - 1])
      case Err(e) => Err(e)
      case Ok(qs) => ApplyS(qs, ds[|ds| - 1])
  }

  function DiffPropsS(mine: Props, theirs: Props): seq<SPatch>
    decreases Obj(mine), 1, 0
  {
    OwnDiffsS(mine, theirs, |mine|) + RemovedKeysS(mine, theirs, |theirs|)
  }

  function OwnDiffsS(mine: Props, theirs: Props, n: nat): seq<SPatch>
    requires n <= |mine|
    decreases Obj(mine), 0, n
  {
    if n == 0 then []
    else
      var k := mine[n - 1].name;
      OwnDiffsS(mine, theirs, n - 1) + DiffValueS(k, mine[n - 1].value, Get(theirs, k))
  }

  function RemovedKeysS(mine: Props, theirs: Props, n: nat): seq<SPatch>
    requires n <= |theirs|
  {
    if n == 0 then []
    else
      var k := theirs[n - 1].name;
      RemovedKeysS(mine, theirs, n - 1) +
        (if Get(mine, k).Null? && !Get(theirs, k).Null? then [SPatch("remove", [k], Null)] else [])
  }

  function DiffValueS(k: string, mv: Value, tv: Value): seq<SPatch>
    decreases mv, 2, 0
  {
    if mv.Null? && tv.Null? then []
    else if tv.Null? then [SPatch("add", [k], mv)]
    else if mv.Null? then [SPatch("remove", [k], Null)]
    else if !SameClass(mv, tv) then [SPatch("replace", [k], mv)]
    else if mv.Obj? then Prefixed(k, DiffPropsS(mv.props, tv.props))
    else if mv != tv then [SPatch("replace", [k], mv)]
    else []
  }

  // ------------------------------------------------------------ dotted paths

  lemma RenderConcat(prefix: seq<string>, xs: seq<SPatch>, ys: seq<SPatch>)
    ensures Render(prefix, xs + ys) == Render(prefix, xs) + Render(prefix, ys)
  {
    assert forall i :: 0 <= i < |xs| ==> (xs + ys)[i] == xs[i];
  }

  lemma RenderPrefixed(prefix: seq<string>, k: string, ds: seq<SPatch>)
    ensures Render(prefix, Prefixed(k, ds)) == Render(prefix + [k], ds)
  {
    forall i | 0 <= i < |ds|
      ensures prefix + ([k] + ds[i].segs) == (prefix + [k]) + ds[i].segs
    {
    }
  }

  lemma PrefixedConcat(k: string, xs: seq<SPatch>, ys: seq<SPatch>)
    ensures Prefixed(k, xs + ys) == Prefixed(k, xs) + Prefixed(k, ys)
  {
    assert forall i :: 0 <= i < |xs| ==> (xs + ys)[i] == xs[i];
  }

  lemma ChildPathDotted(prefix: seq<string>, k: string)
    requires forall j :: 0 <= j < |prefix| ==> IsSegment(prefix[j], '.')
    requires IsSegment(k, '.')
    ensures ChildPath(Dotted(prefix), k) == Dotted(prefix + [k])
  {
    assert [Dotted(prefix), k][1..] == [k];
    assert NonEmpty([k]) == [k] by { assert [k][1..] == []; }
    if prefix == [] {
      assert prefix + [k] == [k];
      assert NonEmpty(["", k]) == [k];
    } else {
      JoinStartsWithFirst(".", prefix);
      JoinSnoc(".", prefix, k);
      assert NonEmpty([Dotted(prefix), k]) == [Dotted(prefix), k];
      assert Join(".", [Dotted(prefix), k]) == Dotted(prefix) + "." + Join(".", [k]);
    }
  }

  /** The diff with dotted paths is the key-list diff written out, and its key lists are sound. */
  lemma {:induction false} RenderDiffProps(mine: Props, theirs: Props, prefix: seq<string>)
    requires PathSafe(Obj(mine)) && PathSafe(Obj(theirs))
    requires forall j :: 0 <= j < |prefix| ==> IsSegment(prefix[j], '.')
    ensures DiffProps(mine, theirs, Dotted(prefix)) == Render(prefix, DiffPropsS(mine, theirs))
    ensures SegsOk(DiffPropsS(mine, theirs))
    decreases Obj(mine), 1, 0
  {
    RenderOwnDiffs(mine, theirs, prefix, |mine|);
    RenderRemovedKeys(mine, theirs, prefix, |theirs|);
    RenderConcat(prefix, OwnDiffsS(mine, theirs, |mine|), RemovedKeysS(mine, theirs, |theirs|));
  }

  lemma {:induction false} RenderOwnDiffs(mine: Props, theirs: Props, prefix: seq<string>, n: nat)
    requires PathSafe(Obj(mine)) && PathSafe(Obj(theirs)) && n <= |mine|
    requires forall j :: 0 <= j < |prefix| ==> IsSegment(prefix[j], '.')
    ensures OwnDiffs(mine, theirs, Dotted(prefix), n) == Render(prefix, OwnDiffsS(mine, theirs, n))
    ensures SegsOk(OwnDiffsS(mine, theirs, n))
    decreases Obj(mine), 0, n
  {
    if n > 0 {
      var k := mine[n - 1].name;
      RenderOwnDiffs(mine, theirs, prefix, n - 1);
      PathSafeGet(theirs, k);
      RenderDiffValue(prefix, k, mine[n - 1].value, Get(theirs, k));
      var prev := OwnDiffsS(mine, theirs, n - 1);
      var dv := DiffValueS(k, mine[n - 1].value, Get(theirs, k));
      assert OwnDiffsS(mine, theirs, n) == prev + dv;
      RenderConcat(prefix, prev, dv);
      SegsOkConcat(prev, dv);
    }
  }

  lemma {:induction false} RenderRemovedKeys(mine: Props, theirs: Props, prefix: seq<string>, n: nat)
    requires PathSafe(Obj(theirs)) && n <= |theirs|
    requires forall j :: 0 <= j < |prefix| ==> IsSegment(prefix[j], '.')
    ensures RemovedKeys(mine, theirs, Dotted(prefix), n) == Render(prefix, RemovedKeysS(mine, theirs, n))
    ensures SegsOk(RemovedKeysS(mine, theirs, n))
  {
    if n > 0 {
      var k := theirs[n - 1].name;
      RenderRemovedKeys(mine, theirs, prefix, n - 1);
      var prev := RemovedKeysS(mine, theirs, n - 1);
      if Get(mine, k).Null? && !Get(theirs, k).Null? {
        assert IsSegment(k, '.');
        var d := SPatch("remove", [k], Null);
        RenderRemoveOne(prefix, k);
        assert RemovedKeysS(mine, theirs, n) == prev + [d];
        RenderConcat(prefix, prev, [d]);
        SegsOkConcat(prev, [d]);
      } else {
        assert RemovedKeysS(mine, theirs, n) == prev;
        assert RemovedKeys(mine, theirs, Dotted(prefix), n) == RemovedKeys(mine, theirs, Dotted(prefix), n - 1);
      }
    }
  }

  lemma RenderRemoveOne(prefix: seq<string>, k: string)
    requires forall j :: 0 <= j < |prefix| ==> IsSegment(prefix[j], '.')
    requires IsSegment(k, '.')
    ensures Render(prefix, [SPatch("remove", [k], Null)]) == [Patch("remove", ChildPath(Dotted(prefix), k), Null)]
    ensures SegsOk([SPatch("remove", [k], Null)])
  {
    ChildPathDotted(prefix, k);
  }

  lemma SegsOkConcat(xs: seq<SPatch>, ys: seq<SPatch>)
    requires SegsOk(xs) && SegsOk(ys)
    ensures SegsOk(xs + ys)
  {
    assert forall i :: 0 <= i < |xs + ys| ==> (xs + ys)[i] == if i < |xs| then xs[i] else ys[i - |xs|];
  }

  lemma {:induction false} RenderDiffValue(prefix: seq<string>, k: string, mv: Value, tv: Value)
    requires PathSafe(mv) && PathSafe(tv) && IsSegment(k, '.')
    requires forall j :: 0 <= j < |prefix| ==> IsSegment(prefix[j], '.')
    ensures DiffValue(ChildPath(Dotted(prefix), k), mv, tv) == Render(prefix, DiffValueS(k, mv, tv))
    ensures SegsOk(DiffValueS(k, mv, tv))
    decreases mv, 2, 0
  {
    ChildPathDotted(prefix, k);
    if !mv.Null? && !tv.Null? && SameClass(mv, tv) && mv.Obj? {
      var prefix' := prefix + [k];
      RenderDiffProps(mv.props, tv.props, prefix');
      RenderPrefixed(prefix, k, DiffPropsS(mv.props, tv.props));
      SegsOkPrefixed(k, DiffPropsS(mv.props, tv.props));
    }
  }

  lemma SegsOkPrefixed(k: string, ds: seq<SPatch>)
    requires IsSegment(k, '.') && SegsOk(ds)
    ensures SegsOk(Prefixed(k, ds))
  {
    forall i | 0 <= i < |ds|
      ensures SegOk(Prefixed(k, ds)[i])
    {
      var s := [k] + ds[i].segs;
      assert forall j :: 1 <= j < |s| ==> s[j] == ds[i].segs[j - 1];
    }
  }

  lemma PathSafeGet(ps: Props, k: string)
    requires PathSafe(Obj(ps))
    ensures PathSafe(Get(ps, k))
  {
  }

  /** `patch` takes a dotted path apart into the parent keys and the last key. */
  lemma ApplyPatchDotted(ps: Props, d: SPatch)
    requires SegOk(d)
    ensures ApplyPatch(ps, Patch(d.op, Dotted(d.segs), d.value)) == ApplyS(ps, d)
  {
    var segs := d.segs;
    var init := segs[..|segs| - 1];
    var last := segs[|segs| - 1];
    assert segs == init + [last];
    assert forall j :: 0 <= j < |init| ==> init[j] == segs[j];
    if |segs| == 1 {
      assert Dotted(segs) == last;
      assert LastIndexOfChar(last, '.') == -1;
    } else {
      var a := Dotted(init);
      JoinSnoc(".", init, last);
      LastIndexOfCharSnoc(a, '.', last);
      var path := a + "." + last;
      assert path[..|a|] == a;
      assert path[|a| + 1..] == last;
      ExplodeJoin(init, '.');
    }
  }

  lemma {:induction false} ApplyAllDotted(ps: Props, ds: seq<SPatch>)
    requires SegsOk(ds)
    ensures ApplyAll(ps, Render([], ds)) == ApplyAllS(ps, ds)
  {
    if ds != [] {
      var init := ds[..|ds| - 1];
      var d := ds[|ds| - 1];
      ApplyAllDotted(ps, init);
      assert Render([], ds)[..|ds| - 1] == Render([], init);
      assert [] + d.segs == d.segs;
      match ApplyAllS(ps, init)
      case Err(_) =>
      case Ok(qs) => ApplyPatchDotted(qs, d);
    }
  }

  // ------------------------------------------------------------ applying key-list patches

  lemma {:induction false} ApplyAllSConcat(ps: Props, xs: seq<SPatch>, ys: seq<SPatch>)
    ensures ApplyAllS(ps, xs + ys) ==
      (match ApplyAllS(ps, xs) case Err(e) => Err(e) case Ok(qs) => ApplyAllS(qs, ys))
    decreases |ys|
  {
    if ys == [] {
      assert xs + ys == xs;
    } else {
      assert (xs + ys)[..|xs + ys| - 1] == xs + ys[..|ys| - 1];
      ApplyAllSConcat(ps, xs, ys[..|ys| - 1]);
    }
  }

  /** Patches below key `k` act on the node under `k` and leave the rest of the document alone. */
  lemma {:induction false} ApplyAllSPrefixed(cur: Props, k: string, ds: seq<SPatch>)
    requires Get(cur, k).Obj?
    requires ApplyAllS(Get(cur, k).props, ds).Ok?
    ensures ApplyAllS(cur, Prefixed(k, ds)) == Ok(SetValue(cur, k, Obj(ApplyAllS(Get(cur, k).props, ds).value)))
  {
    var child := Get(cur, k).props;
    if ds == [] {
      assert SetValue(cur, k, Obj(child)) == cur by {
        assert cur[IndexOf(cur, k)] == Property(cur[IndexOf(cur, k)].name, Obj(child));
      }
    } else {
      var init := ds[..|ds| - 1];
      var d := ds[|ds| - 1];
      ApplyAllSPrefixed(cur, k, init);
      assert Prefixed(k, ds)[..|ds| - 1] == Prefixed(k, init);
      PrefixedStep(cur, k, ApplyAllS(child, init).value, d);
      assert Prefixed(k, ds)[|ds| - 1] == SPatch(d.op, [k] + d.segs, d.value);
    }
  }

  /** One patch below key `k`, applied to the document whose node under `k` is `c1`. */
  lemma PrefixedStep(cur: Props, k: string, c1: Props, d: SPatch)
    requires Get(cur, k).Obj?
    requires ApplyS(c1, d).Ok?
    ensures ApplyS(SetValue(cur, k, Obj(c1)), SPatch(d.op, [k] + d.segs, d.value)) ==
      Ok(SetValue(cur, k, Obj(ApplyS(c1, d).value)))
  {
    var cur1 := SetValue(cur, k, Obj(c1));
    var pd := SPatch(d.op, [k] + d.segs, d.value);
    GetSetValue(cur, k, Obj(c1), k);
    assert d.segs != [];
    assert pd.segs[..|pd.segs| - 1] == [k] + d.segs[..|d.segs| - 1];
    assert pd.segs[..|pd.segs| - 1][1..] == d.segs[..|d.segs| - 1];
    var c2 := ApplyS(c1, d).value;
    SetValueTwice(cur, k, Obj(c1), Obj(c2));
  }

  // ------------------------------------------------------------ the round trip

  /** Keys that agree pointwise up to `Equiv` make the two documents read alike everywhere. */
  lemma KeywiseSameView(c: Props, a: Props)
    requires forall k {:trigger Get(c, k)} :: Equiv(Get(c, k), Get(a, k))
    ensures SameView(Obj(c), Obj(a))
  {
    forall segs
      ensures Observe(FindIn(Obj(c), segs)) == Observe(FindIn(Obj(a), segs))
    {
      if segs != [] {
        assert Equiv(Get(c, segs[0]), Get(a, segs[0]));
      }
    }
  }

  lemma {:induction false} DiffValueApply(k: string, mv: Value, tv: Value, cur: Props) returns (c: Props)
    requires PathSafe(mv) && PathSafe(tv)
    requires Get(cur, k) == tv
    ensures ApplyAllS(cur, DiffValueS(k, mv, tv)) == Ok(c)
    ensures Equiv(Get(c, k), mv)
    ensures forall k' {:trigger Get(c, k')} :: !SameKey(k', k) ==> Get(c, k') == Get(cur, k')
    decreases mv, 3, 0
  {
    var ds := DiffValueS(k, mv, tv);
    if mv.Null? && tv.Null? {
      c := cur;
    } else if !mv.Null? && !tv.Null? && SameClass(mv, tv) && mv.Obj? {
      var inner := RoundTripS(mv.props, tv.props);
      ApplyAllSPrefixed(cur, k, DiffPropsS(mv.props, tv.props));
      KeywiseSameView(inner, mv.props);
      c := SetValue(cur, k, Obj(inner));
      GetSetValue(cur, k, Obj(inner), k);
      forall k' | !SameKey(k', k)
        ensures Get(c, k') == Get(cur, k')
      {
        GetSetValue(cur, k, Obj(inner), k');
      }
    } else if ds == [] {
      c := cur;
    } else {
      var d := ds[0];
      assert ds == [d] && d.segs == [k];
      assert ApplyAllS(cur, ds) == ApplyS(cur, d);
      assert d.segs[..0] == [];
      if d.op == "remove" {
        c := RemoveKey(cur, k);
        GetRemoveKey(cur, k, k);
        forall k' | !SameKey(k', k)
          ensures Get(c, k') == Get(cur, k')
        {
          GetRemoveKey(cur, k, k');
        }
      } else {
        c := Put(cur, k, d.value);
        GetPut(cur, k, d.value, k);
        forall k' | !SameKey(k', k)
          ensures Get(c, k') == Get(cur, k')
        {
          GetPut(cur, k, d.value, k');
        }
      }
    }
  }

  lemma {:induction false} OwnDiffsApply(a: Props, b: Props, n: nat) returns (c: Props)
    requires PathSafe(Obj(a)) && PathSafe(Obj(b)) && n <= |a|
    ensures ApplyAllS(b, OwnDiffsS(a, b, n)) == Ok(c)
    ensures forall k {:trigger Get(c, k)} :: 0 <= IndexOf(a, k) < n ==> Equiv(Get(c, k), Get(a, k))
    ensures forall k {:trigger Get(c, k)} :: !(0 <= IndexOf(a, k) < n) ==> Get(c, k) == Get(b, k)
    decreases Obj(a), 1, n
  {
    if n == 0 {
      c := b;
    } else {
      var prev := OwnDiffsApply(a, b, n - 1);
      var kn := a[n - 1].name;
      assert IndexOf(a, kn) == n - 1 by {
        var i := IndexOf(a, kn);
        assert i >= 0 && !(i < n - 1);
      }
      PathSafeGet(b, kn);
      c := DiffValueApply(kn, a[n - 1].value, Get(b, kn), prev);
      ApplyAllSConcat(b, OwnDiffsS(a, b, n - 1), DiffValueS(kn, a[n - 1].value, Get(b, kn)));
      OwnDiffsStep(a, b, n, prev, c);
    }
  }

  lemma OwnDiffsStep(a: Props, b: Props, n: nat, prev: Props, c: Props)
    requires 1 <= n <= |a|
    requires IndexOf(a, a[n - 1].name) == n - 1
    requires forall k {:trigger Get(prev, k)} :: 0 <= IndexOf(a, k) < n - 1 ==> Equiv(Get(prev, k), Get(a, k))
    requires forall k {:trigger Get(prev, k)} :: !(0 <= IndexOf(a, k) < n - 1) ==> Get(prev, k) == Get(b, k)
    requires Equiv(Get(c, a[n - 1].name), a[n - 1].value)
    requires forall k' {:trigger Get(c, k')} :: !SameKey(k', a[n - 1].name) ==> Get(c, k') == Get(prev, k')
    ensures forall k {:trigger Get(c, k)} :: 0 <= IndexOf(a, k) < n ==> Equiv(Get(c, k), Get(a, k))
    ensures forall k {:trigger Get(c, k)} :: !(0 <= IndexOf(a, k) < n) ==> Get(c, k) == Get(b, k)
  {
    forall k
      ensures 0 <= IndexOf(a, k) < n ==> Equiv(Get(c, k), Get(a, k))
      ensures !(0 <= IndexOf(a, k) < n) ==> Get(c, k) == Get(b, k)
    {
      OwnDiffsStepAt(a, b, n, prev, c, k);
    }
  }

  /** `OwnDiffsStep` at one key. */
  lemma OwnDiffsStepAt(a: Props, b: Props, n: nat, prev: Props, c: Props, k: string)
    requires 1 <= n <= |a|
    requires IndexOf(a, a[n - 1].name) == n - 1
    requires 0 <= IndexOf(a, k) < n - 1 ==> Equiv(Get(prev, k), Get(a, k))
    requires !(0 <= IndexOf(a, k) < n - 1) ==> Get(prev, k) == Get(b, k)
    requires Equiv(Get(c, a[n - 1].name), a[n - 1].value)
    requires !SameKey(k, a[n - 1].name) ==> Get(c, k) == Get(prev, k)
    ensures 0 <= IndexOf(a, k) < n ==> Equiv(Get(c, k), Get(a, k))
    ensures !(0 <= IndexOf(a, k) < n) ==> Get(c, k) == Get(b, k)
  {
    var kn := a[n - 1].name;
    if SameKey(k, kn) {
      OwnDiffsStepKey(a, n, c, k);
    }
  }

  /** The key the step handles reads, in any casing, like that key of `a`. */
  lemma OwnDiffsStepKey(a: Props, n: nat, c: Props, k: string)
    requires 1 <= n <= |a|
    requires IndexOf(a, a[n - 1].name) == n - 1
    requires Equiv(Get(c, a[n - 1].name), a[n - 1].value)
    requires SameKey(k, a[n - 1].name)
    ensures Equiv(Get(c, k), Get(a, k))
  {
    var kn := a[n - 1].name;
    IndexOfSameKey(a, k, kn);
    IndexOfSameKey(c, k, kn);
    assert Get(c, k) == Get(c, kn) && Get(a, k) == a[n - 1].value;
  }

  lemma {:induction false} RemovedKeysApply(a: Props, b: Props, cur: Props, n: nat) returns (c: Props)
    requires n <= |b|
    ensures ApplyAllS(cur, RemovedKeysS(a, b, n)) == Ok(c)
    ensures forall k {:trigger Get(c, k)} :: Get(c, k) == (if 0 <= IndexOf(b, k) < n && Get(a, k).Null? && !Get(b, k).Null? then Null else Get(cur, k))
  {
    if n == 0 {
      c := cur;
    } else {
      var prev := RemovedKeysApply(a, b, cur, n - 1);
      var kn := b[n - 1].name;
      RemovedKeysSnoc(a, b, cur, n);
      c := if Get(a, kn).Null? && !Get(b, kn).Null? then RemoveKey(prev, kn) else prev;
      RemovedKeysStep(a, b, cur, n, prev, c);
    }
  }

  /** The last removal `RemovedKeysS` adds, applied after the others. */
  lemma RemovedKeysSnoc(a: Props, b: Props, cur: Props, n: nat)
    requires 1 <= n <= |b|
    requires ApplyAllS(cur, RemovedKeysS(a, b, n - 1)).Ok?
    ensures var prev := ApplyAllS(cur, RemovedKeysS(a, b, n - 1)).value;
            var kn := b[n - 1].name;
            ApplyAllS(cur, RemovedKeysS(a, b, n)) == Ok(if Get(a, kn).Null? && !Get(b, kn).Null? then RemoveKey(prev, kn) else prev)
  {
    var prev := ApplyAllS(cur, RemovedKeysS(a, b, n - 1)).value;
    var kn := b[n - 1].name;
    var last := if Get(a, kn).Null? && !Get(b, kn).Null? then [SPatch("remove", [kn], Null)] else [];
    assert RemovedKeysS(a, b, n) == RemovedKeysS(a, b, n - 1) + last;
    ApplyAllSConcat(cur, RemovedKeysS(a, b, n - 1), last);
    if last != [] {
      var d := SPatch("remove", [kn], Null);
      assert last == [d] && last[..0] == [];
      assert d.segs[..0] == [] && d.segs[0] == kn;
      assert ApplyAllS(prev, last) == ApplyAt(prev, [], "remove", kn, Null);
    }
  }

  lemma RemovedKeysStep(a: Props, b: Props, cur: Props, n: nat, prev: Props, c: Props)
    requires 1 <= n <= |b|
    requires forall k {:trigger Get(prev, k)} :: Get(prev, k) == (if 0 <= IndexOf(b, k) < n - 1 && Get(a, k).Null? && !Get(b, k).Null? then Null else Get(cur, k))
    requires var kn := b[n - 1].name;
      c == if Get(a, kn).Null? && !Get(b, kn).Null? then RemoveKey(prev, kn) else prev
    ensures forall k {:trigger Get(c, k)} :: Get(c, k) == (if 0 <= IndexOf(b, k) < n && Get(a, k).Null? && !Get(b, k).Null? then Null else Get(cur, k))
  {
    var kn := b[n - 1].name;
    forall k
      ensures Get(c, k) == (if 0 <= IndexOf(b, k) < n && Get(a, k).Null? && !Get(b, k).Null? then Null else Get(cur, k))
    {
      GetRemoveKey(prev, kn, k);
      if SameKey(k, kn) {
        IndexOfSameKey(a, k, kn);
        IndexOfSameKey(b, k, kn);
      } else {
        assert IndexOf(b, k) != n - 1;
      }
    }
  }

  /** The key-list form of the round trip: every key of the result reads like the same key of `a`. */
  lemma {:induction false} RoundTripS(a: Props, b: Props) returns (c: Props)
    requires PathSafe(Obj(a)) && PathSafe(Obj(b))
    ensures ApplyAllS(b, DiffPropsS(a, b)) == Ok(c)
    ensures forall k {:trigger Get(c, k)} :: Equiv(Get(c, k), Get(a, k))
    decreases Obj(a), 2, 0
  {
    var c1 := OwnDiffsApply(a, b, |a|);
    c := RemovedKeysApply(a, b, c1, |b|);
    ApplyAllSConcat(b, OwnDiffsS(a, b, |a|), RemovedKeysS(a, b, |b|));
    forall k
      ensures Equiv(Get(c, k), Get(a, k))
    {
      if !(Get(a, k).Null? && !Get(b, k).Null?) && IndexOf(a, k) < 0 {
        assert Get(b, k).Null?;
      }
    }
  }

  /**
   * `b.patch(a.diff(b))` succeeds, and afterwards `find` shows at every path
   * what it shows in `a`.
   */
  lemma DiffThenPatch(a: Props, b: Props)
    requires PathSafe(Obj(a)) && PathSafe(Obj(b))
    ensures ApplyAll(b, DiffProps(a, b, "")).Ok?
    ensures SameView(Obj(ApplyAll(b, DiffProps(a, b, "")).value), Obj(a))
  {
    RenderDiffProps(a, b, []);
    assert Dotted([]) == "";
    ApplyAllDotted(b, DiffPropsS(a, b));
    var c := RoundTripS(a, b);
    KeywiseSameView(c, a);
  }
}
