/**
 * JSON documents as the engine's `JSNode` holds them: an ordered list of
 * properties whose names are matched ignoring case (the node keeps a map from
 * the lower-cased name to the property, in insertion order).  This module holds
 * the value-level model: the operations on a property list, and `find` and
 * `collect` as functions of a document.
 */
module JsonValues {
  import opened Wrappers
  import opened Strings

  /**
   * A JSON value.  `Scalar` carries the Java class of the value (`"String"`,
   * `"Integer"`, `"Boolean"`, ...) and its `toString`.  `Arr` is a JSON array,
   * which this model treats as a leaf (see README).  `Obj` is a nested node.
   */
  datatype Value = Null | Scalar(cls: string, text: string) | Arr(items: seq<Value>) | Obj(props: seq<Property>)

  /** A property keeps the name with the casing it was last put with. */
  datatype Property = Property(name: string, value: Value)

  type Props = seq<Property>

  /** Two names denote the same property when they agree ignoring case. */
  predicate SameKey(a: string, b: string) { Lower(a) == Lower(b) }

  /** The position of the property named `k` (ignoring case), or -1. */
  function IndexOf(ps: Props, k: string): (r: int)
    ensures -1 <= r < |ps|
    ensures r >= 0 ==> SameKey(ps[r].name, k)
    ensures forall i :: 0 <= i < |ps| && (r < 0 || i < r) ==> !SameKey(ps[i].name, k)
  {
    if |ps| == 0 then -1
    else if SameKey(ps[0].name, k) then 0
    else
      var j := IndexOf(ps[1..], k);
      if j < 0 then -1 else j + 1
  }

  /** No two properties share a name ignoring case: the map invariant. */
  predicate UniqueKeys(ps: Props)
  {
    forall i, j :: 0 <= i < j < |ps| ==> !SameKey(ps[i].name, ps[j].name)
  }

  /** Every node of the document, at every depth, has unique keys. */
  predicate WellFormed(v: Value)
  {
    match v
    case Obj(ps) => UniqueKeys(ps) && forall i :: 0 <= i < |ps| ==> WellFormed(ps[i].value)
    case Arr(items) => forall i :: 0 <= i < |items| ==> WellFormed(items[i])
    case _ => true
  }

  /** `JSNode.get`: the value of the property named `k` ignoring case, `Null` when absent. */
  function Get(ps: Props, k: string): (r: Value)
    ensures IndexOf(ps, k) < 0 ==> r == Null
    ensures IndexOf(ps, k) >= 0 ==> r == ps[IndexOf(ps, k)].value
  {
    var i := IndexOf(ps, k);
    if i < 0 then Null else ps[i].value
  }

  /** `JSNode.containsKey` / `hasProperty`. */
  predicate HasKey(ps: Props, k: string) { IndexOf(ps, k) >= 0 }

  /**
   * `JSNode.put`: an existing property keeps its position and takes the new
   * name casing and value; a new one goes at the end.
   */
  function Put(ps: Props, k: string, v: Value): (r: Props)
  {
    var i := IndexOf(ps, k);
    if i >= 0 then ps[i := Property(k, v)] else ps + [Property(k, v)]
  }

  /** `JSNode.remove` / `removeProperty`: drops the property named `k` ignoring case. */
  function RemoveKey(ps: Props, k: string): (r: Props)
    ensures |r| <= |ps|
  {
    if |ps| == 0 then []
    else (if SameKey(ps[0].name, k) then [] else [ps[0]]) + RemoveKey(ps[1..], k)
  }

  /** `JSNode.putFirst`: the property goes first, every other one keeps its order. */
  function PutFirst(ps: Props, k: string, v: Value): (r: Props)
  {
    [Property(k, v)] + RemoveKey(ps, k)
  }

  /**
   * Replaces the value of an existing property and keeps its name, as a change
   * made in place to the nested node object does.
   */
  function SetValue(ps: Props, k: string, v: Value): (r: Props)
    ensures |r| == |ps|
  {
    var i := IndexOf(ps, k);
    if i >= 0 then ps[i := Property(ps[i].name, v)] else ps
  }

  /** `JSNode.keySet`: the property names, in order, with their last-put casing. */
  function KeySet(ps: Props): (r: seq<string>)
    ensures |r| == |ps|
    ensures forall i :: 0 <= i < |ps| ==> r[i] == ps[i].name
  {
    seq(|ps|, i requires 0 <= i < |ps| => ps[i].name)
  }

  /**
   * `JSNode.values`: one value per property.  The source builds them through a
   * `HashMap`, so their order is unspecified; this model lists them in
   * property order and states nothing that depends on the order.
   */
  function Values(ps: Props): (r: seq<Value>)
    ensures |r| == |ps|
    ensures forall i :: 0 <= i < |ps| ==> r[i] == ps[i].value
  {
    seq(|ps|, i requires 0 <= i < |ps| => ps[i].value)
  }

  // ------------------------------------------------------------ lookup after an update

  lemma IndexOfPut(ps: Props, k: string, v: Value, k': string)
    ensures IndexOf(Put(ps, k, v), k') == (if IndexOf(ps, k) < 0 && SameKey(k, k') && IndexOf(ps, k') < 0 then |ps| else IndexOf(ps, k'))
  {
    var i := IndexOf(ps, k);
    var r := Put(ps, k, v);
    var j := IndexOf(r, k');
    if i >= 0 {
      IndexOfSameNames(ps, r, k');
    } else {
      IndexOfSnoc(ps, Property(k, v), k');
    }
  }

  lemma IndexOfSameNames(ps: Props, qs: Props, k: string)
    requires |ps| == |qs|
    requires forall i :: 0 <= i < |ps| ==> SameKey(ps[i].name, qs[i].name)
    ensures IndexOf(ps, k) == IndexOf(qs, k)
  {
    var a := IndexOf(ps, k);
    var b := IndexOf(qs, k);
    if a >= 0 && b >= 0 {
      assert !(a < b) && !(b < a);
    }
  }

  lemma {:induction false} IndexOfSnoc(ps: Props, p: Property, k: string)
    ensures IndexOf(ps + [p], k) == (if IndexOf(ps, k) < 0 && SameKey(p.name, k) then |ps| else IndexOf(ps, k))
  {
    if |ps| > 0 && !SameKey(ps[0].name, k) {
      IndexOfSnoc(ps[1..], p, k);
      assert ps + [p] == [ps[0]] + (ps[1..] + [p]);
      IndexOfCons(ps[0], ps[1..] + [p], k);
      IndexOfCons(ps[0], ps[1..], k);
      assert ps == [ps[0]] + ps[1..];
    }
  }

  /** After `put(k, v)`, `get` of any spelling of `k` is `v`, and every other key reads as before. */
  lemma GetPut(ps: Props, k: string, v: Value, k': string)
    ensures Get(Put(ps, k, v), k') == (if SameKey(k, k') then v else Get(ps, k'))
  {
    IndexOfPut(ps, k, v, k');
    var i := IndexOf(ps, k);
    if i >= 0 && SameKey(k, k') {
      assert IndexOf(ps, k') == i by { IndexOfSameKey(ps, k, k'); }
    } else if SameKey(k, k') {
      IndexOfSameKey(ps, k, k');
    }
  }

  lemma IndexOfSameKey(ps: Props, k: string, k': string)
    requires SameKey(k, k')
    ensures IndexOf(ps, k) == IndexOf(ps, k')
  {
  }

  /** After `remove(k)`, every spelling of `k` reads as absent, and every other key reads as before. */
  lemma {:induction false} GetRemoveKey(ps: Props, k: string, k': string)
    ensures Get(RemoveKey(ps, k), k') == (if SameKey(k, k') then Null else Get(ps, k'))
  {
    if |ps| > 0 {
      GetRemoveKey(ps[1..], k, k');
      var rest := RemoveKey(ps[1..], k);
      GetCons(ps[0], ps[1..], k');
      assert ps == [ps[0]] + ps[1..];
      if SameKey(ps[0].name, k) {
        assert RemoveKey(ps, k) == rest;
      } else {
        assert RemoveKey(ps, k) == [ps[0]] + rest;
        GetCons(ps[0], rest, k');
      }
    }
  }

  lemma GetCons(p: Property, ps: Props, k: string)
    ensures Get([p] + ps, k) == (if SameKey(p.name, k) then p.value else Get(ps, k))
  {
    if !SameKey(p.name, k) {
      IndexOfCons(p, ps, k);
    }
  }

  lemma IndexOfCons(p: Property, ps: Props, k: string)
    requires !SameKey(p.name, k)
    ensures IndexOf([p] + ps, k) == (if IndexOf(ps, k) < 0 then -1 else IndexOf(ps, k) + 1)
  {
    assert ([p] + ps)[1..] == ps;
  }

  /** Replacing a value in place: that key reads the new value, every other key reads as before. */
  lemma GetSetValue(ps: Props, k: string, v: Value, k': string)
    requires HasKey(ps, k)
    ensures Get(SetValue(ps, k, v), k') == (if SameKey(k, k') then v else Get(ps, k'))
  {
    var r := SetValue(ps, k, v);
    IndexOfSameNames(ps, r, k');
    if SameKey(k, k') {
      IndexOfSameKey(ps, k, k');
    }
  }

  lemma SetValueTwice(ps: Props, k: string, v: Value, w: Value)
    ensures SetValue(SetValue(ps, k, v), k, w) == SetValue(ps, k, w)
  {
    IndexOfSameNames(ps, SetValue(ps, k, v), k);
  }

  lemma HasKeySetValue(ps: Props, k: string, v: Value, k': string)
    ensures HasKey(SetValue(ps, k, v), k') == HasKey(ps, k')
  {
    IndexOfSameNames(ps, SetValue(ps, k, v), k');
  }

  // ------------------------------------------------------------ the map invariant

  /** `put` keeps names unique; the position of an existing key and every other entry are unchanged. */
  lemma PutKeepsKeys(ps: Props, k: string, v: Value)
    requires UniqueKeys(ps)
    ensures UniqueKeys(Put(ps, k, v))
    ensures HasKey(ps, k) ==> |Put(ps, k, v)| == |ps| && Put(ps, k, v)[IndexOf(ps, k)] == Property(k, v)
    ensures HasKey(ps, k) ==> forall i :: 0 <= i < |ps| && i != IndexOf(ps, k) ==> Put(ps, k, v)[i] == ps[i]
    ensures !HasKey(ps, k) ==> Put(ps, k, v) == ps + [Property(k, v)]
  {
  }

  lemma {:induction false} RemoveKeyKeepsOthers(ps: Props, k: string)
    ensures forall i :: 0 <= i < |RemoveKey(ps, k)| ==> RemoveKey(ps, k)[i] in ps && !SameKey(RemoveKey(ps, k)[i].name, k)
    ensures forall p :: p in ps && !SameKey(p.name, k) ==> p in RemoveKey(ps, k)
  {
    if |ps| > 0 {
      RemoveKeyKeepsOthers(ps[1..], k);
      assert ps == [ps[0]] + ps[1..];
    }
  }

  lemma {:induction false} RemoveKeyAbsent(ps: Props, k: string)
    requires !HasKey(ps, k)
    ensures RemoveKey(ps, k) == ps
  {
    if |ps| > 0 {
      IndexOfCons(ps[0], ps[1..], k);
      assert ps == [ps[0]] + ps[1..];
      RemoveKeyAbsent(ps[1..], k);
    }
  }

  lemma UniqueTail(ps: Props)
    requires UniqueKeys(ps) && |ps| > 0
    ensures UniqueKeys(ps[1..])
    ensures forall j :: 0 <= j < |ps[1..]| ==> !SameKey(ps[0].name, ps[1..][j].name)
  {
    var tail := ps[1..];
    forall i, j | 0 <= i < j < |tail|
      ensures !SameKey(tail[i].name, tail[j].name)
    {
      assert tail[i] == ps[i + 1] && tail[j] == ps[j + 1];
    }
  }

  /** `remove` keeps names unique and drops exactly the one entry named `k`, if any. */
  lemma {:induction false} RemoveKeyUnique(ps: Props, k: string)
    requires UniqueKeys(ps)
    ensures UniqueKeys(RemoveKey(ps, k))
    ensures HasKey(ps, k) ==> |RemoveKey(ps, k)| == |ps| - 1
    ensures !HasKey(ps, k) ==> RemoveKey(ps, k) == ps
  {
    if |ps| > 0 {
      var tail := ps[1..];
      UniqueTail(ps);
      if SameKey(ps[0].name, k) {
        assert !HasKey(tail, k);
        RemoveKeyAbsent(tail, k);
      } else {
        RemoveKeyUnique(tail, k);
        RemoveKeyConsUnique(ps[0], tail, k);
        IndexOfCons(ps[0], tail, k);
        assert ps == [ps[0]] + tail;
      }
    }
  }

  lemma RemoveKeyConsUnique(p: Property, tail: Props, k: string)
    requires !SameKey(p.name, k)
    requires UniqueKeys(RemoveKey(tail, k))
    requires forall j :: 0 <= j < |tail| ==> !SameKey(p.name, tail[j].name)
    ensures RemoveKey([p] + tail, k) == [p] + RemoveKey(tail, k)
    ensures UniqueKeys([p] + RemoveKey(tail, k))
  {
    assert ([p] + tail)[1..] == tail;
    RemoveKeyKeepsOthers(tail, k);
    var rest := RemoveKey(tail, k);
    forall j | 0 <= j < |rest|
      ensures !SameKey(p.name, rest[j].name)
    {
      var m :| 0 <= m < |tail| && tail[m] == rest[j];
    }
    var r := [p] + rest;
    forall i, j | 0 <= i < j < |r|
      ensures !SameKey(r[i].name, r[j].name)
    {
      if i > 0 {
        assert r[i] == rest[i - 1] && r[j] == rest[j - 1];
      } else {
        assert r[j] == rest[j - 1];
      }
    }
  }

  /**
   * `putFirst`: the property is first, reads back under every spelling of its
   * name, the other properties follow in their previous order, and names stay
   * unique.
   */
  lemma PutFirstSpec(ps: Props, k: string, v: Value, k': string)
    requires UniqueKeys(ps)
    ensures PutFirst(ps, k, v)[0] == Property(k, v)
    ensures PutFirst(ps, k, v)[1..] == RemoveKey(ps, k)
    ensures UniqueKeys(PutFirst(ps, k, v))
    ensures Get(PutFirst(ps, k, v), k') == (if SameKey(k, k') then v else Get(ps, k'))
  {
    assert PutFirst(ps, k, v)[1..] == RemoveKey(ps, k);
    PutFirstUnique(ps, k, v);
    PutFirstGet(ps, k, v, k');
  }

  lemma PutFirstUnique(ps: Props, k: string, v: Value)
    requires UniqueKeys(ps)
    ensures UniqueKeys(PutFirst(ps, k, v))
  {
    var rest := RemoveKey(ps, k);
    var r := PutFirst(ps, k, v);
    RemoveKeyUnique(ps, k);
    RemoveKeyKeepsOthers(ps, k);
    forall i, j | 0 <= i < j < |r|
      ensures !SameKey(r[i].name, r[j].name)
    {
      assert r[j] == rest[j - 1];
      if i > 0 {
        assert r[i] == rest[i - 1];
      }
    }
  }

  lemma PutFirstGet(ps: Props, k: string, v: Value, k': string)
    ensures Get(PutFirst(ps, k, v), k') == (if SameKey(k, k') then v else Get(ps, k'))
  {
    if !SameKey(k, k') {
      IndexOfCons(Property(k, v), RemoveKey(ps, k), k');
      GetRemoveKey(ps, k, k');
    }
  }

  lemma PutWellFormed(ps: Props, k: string, v: Value)
    requires WellFormed(Obj(ps)) && WellFormed(v)
    ensures WellFormed(Obj(Put(ps, k, v)))
  {
    PutKeepsKeys(ps, k, v);
  }

  lemma RemoveKeyWellFormed(ps: Props, k: string)
    requires WellFormed(Obj(ps))
    ensures WellFormed(Obj(RemoveKey(ps, k)))
  {
    RemoveKeyUnique(ps, k);
    RemoveKeyKeepsOthers(ps, k);
  }

  lemma SetValueWellFormed(ps: Props, k: string, v: Value)
    requires WellFormed(Obj(ps)) && WellFormed(v)
    ensures WellFormed(Obj(SetValue(ps, k, v)))
  {
  }

  // ------------------------------------------------------------ find

  /** `JSNode.find`, from a value and an already exploded path. */
  function FindIn(v: Value, segs: seq<string>): (r: Result<Value>)
    decreases |segs|
  {
    if segs == [] then Ok(v)
    else if v.Null? then Ok(Null)
    else if v.Obj? then FindIn(Get(v.props, segs[0]), segs[1..])
    else Err(Error(500, "ClassCastException: not a node"))
  }

  /**
   * `JSNode.find(path)`: the path is exploded on dots; a missing segment makes the
   * result null, stepping into a value that is not a node fails.
   */
  function Find(ps: Props, path: string): Result<Value>
  {
    FindIn(Obj(ps), Explode(path, '.'))
  }

  /** Once a segment is missing, everything below it reads as null. */
  lemma {:induction false} FindInMissing(v: Value, segs: seq<string>, n: nat)
    requires n <= |segs|
    requires FindIn(v, segs[..n]) == Ok(Null)
    ensures FindIn(v, segs) == Ok(Null)
    decreases n
  {
    if n == 0 {
      FindInOfNull(segs);
    } else if v.Obj? {
      assert segs[..n][1..] == segs[1..][..n - 1];
      FindInMissing(Get(v.props, segs[0]), segs[1..], n - 1);
    } else {
      FindInOfNull(segs);
    }
  }

  lemma {:induction false} FindInOfNull(segs: seq<string>)
    ensures FindIn(Null, segs) == Ok(Null)
  {
  }

  /** Looking up a path in two steps is looking it up at once. */
  lemma {:induction false} FindInConcat(v: Value, s1: seq<string>, s2: seq<string>)
    requires FindIn(v, s1).Ok?
    ensures FindIn(v, s1 + s2) == FindIn(FindIn(v, s1).value, s2)
    decreases |s1|
  {
    if s1 == [] {
      assert s1 + s2 == s2;
    } else if v.Null? {
      FindInOfNull(s2);
    } else if v.Obj? {
      assert (s1 + s2)[1..] == s1[1..] + s2;
      FindInConcat(Get(v.props, s1[0]), s1[1..], s2);
    }
  }

  // ------------------------------------------------------------ collect

  /** Whether a path segment is one of `collect`'s wildcards. */
  predicate IsWildcard(seg: string) { seg == "*" || seg == "**" }

  /**
   * `JSNode.collect(List path, List collected)` as the list it appends:
   * `*` stands for every property, `**` for one or more levels of nodes; a
   * trailing `**` collects nothing.
   */
  function CollectIn(ps: Props, path: seq<string>): seq<Value>
    requires |path| >= 1
    decreases Obj(ps), 1, 0
  {
    var seg := path[0];
    if seg == "*" then
      if |path| == 1 then Values(ps) else CollectEach(ps, path[1..], false, |ps|)
    else if seg == "**" then
      if |path| == 1 then [] else CollectEach(ps, path, true, |ps|)
    else
      var found := Get(ps, seg);
      if found.Null? then []
      else if |path| == 1 then [found]
      else if found.Obj? then CollectIn(found.props, path[1..])
      else []
  }

  /**
   * What the loop over the first `n` values appends: for each node value, the
   * collection with `path` and, under `**`, then with the rest of `path`.
   */
  function CollectEach(ps: Props, path: seq<string>, deep: bool, n: nat): seq<Value>
    requires |path| >= 1 && n <= |ps|
    requires deep ==> |path| >= 2
    decreases Obj(ps), 0, n
  {
    if n == 0 then []
    else
      var v := ps[n - 1].value;
      CollectEach(ps, path, deep, n - 1) +
        (if !v.Obj? then []
         else if deep then CollectIn(v.props, path) + CollectIn(v.props, path[1..])
         else CollectIn(v.props, path))
  }

  /** `JSNode.collect(pathStr)`: an empty path fails, as `path.get(0)` does. */
  function Collect(ps: Props, pathStr: string): Result<seq<Value>>
  {
    var path := Explode(pathStr, '.');
    if |path| == 0 then Err(Error(500, "IndexOutOfBoundsException: empty path"))
    else Ok(CollectIn(ps, path))
  }

  /** A trailing `*` collects one value per property, whatever the order of `values()`. */
  lemma CollectStar(ps: Props)
    ensures multiset(CollectIn(ps, ["*"])) == multiset(Values(ps))
    ensures |CollectIn(ps, ["*"])| == |ps|
  {
  }

  /**
   * Without wildcards, `collect` agrees with `find`: it yields the value `find`
   * reaches when that value is present, and nothing when `find` reads null or
   * would step into a value that is not a node.
   */
  lemma {:induction false} CollectAgreesWithFind(ps: Props, path: seq<string>)
    requires |path| >= 1
    requires forall i :: 0 <= i < |path| ==> !IsWildcard(path[i])
    ensures CollectIn(ps, path) ==
      (match FindIn(Obj(ps), path)
       case Ok(v) => if v.Null? then [] else [v]
       case Err(_) => [])
    decreases |path|
  {
    var found := Get(ps, path[0]);
    assert !IsWildcard(path[0]);
    if |path| > 1 {
      if found.Null? {
        FindInOfNull(path[1..]);
      } else if found.Obj? {
        CollectAgreesWithFind(found.props, path[1..]);
      }
    }
  }
}
