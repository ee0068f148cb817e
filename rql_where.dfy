/**
 * The RQL `Where` builder: every nested function token is checked against the
 * where-function list, `_key(index, v1, ...)` is expanded into comparisons on the
 * index's columns, and a root `and` is unwrapped into separate where terms.
 */
module RqlWhere {
  import opened Wrappers

  /** An RQL term: a token and its child terms.  A term without children is a leaf. */
  datatype Term = Term(token: string, terms: seq<Term>)

  predicate IsLeaf(t: Term)
  {
    |t.terms| == 0
  }

  function Leaf(token: string): (r: Term)
    ensures IsLeaf(r) && r.token == token
  {
    Term(token, [])
  }

  /** A unique index: its name and its columns in order. */
  datatype Index = Index(name: string, columns: seq<string>)

  /**
   * The collection the query runs against.  Its index lookup and its `decodeKey`,
   * which splits an entity key into (column, value) pairs, are outside this model
   * and enter as functions.
   */
  datatype Collection = Collection(
    getIndex: string -> Option<Index>,
    decodeKey: (Index, string) -> seq<(string, string)>)

  /** The where-function list the builder is registered with. */
  const WhereFunctions: set<string> :=
    {"_key", "and", "or", "not", "eq", "ne", "n", "nn", "like", "sw", "ew", "lt", "le",
     "gt", "ge", "in", "out", "if", "w", "wo", "emp", "nemp"}

  function BadRequest(message: string): Error
  {
    Error(400, message)
  }

  // ---------------------------------------------------------------------------
  // transform
  // ---------------------------------------------------------------------------

  /**
   * `transform(parent)`: the term with its non-leaf children transformed and
   * whitelisted, then `_key` expanded.  The source rewrites the tree in place;
   * here the rewritten tree is the result.
   */
  function Transform(c: Collection, t: Term): (r: Result<Term>)
    ensures r.Err? ==> r.error.status == 400
    decreases t, 1, 0
  {
    var kids :- TransformKids(c, t, |t.terms|);
    if t.token == "_key" then ExpandKey(c, kids) else Ok(Term(t.token, kids))
  }

  /** The loop over the first `n` children of `t`. */
  function TransformKids(c: Collection, t: Term, n: nat): (r: Result<seq<Term>>)
    requires n <= |t.terms|
    ensures r.Err? ==> r.error.status == 400
    ensures r.Ok? ==> |r.value| == n
    decreases t, 0, n
  {
    if n == 0 then Ok([])
    else
      var prev :- TransformKids(c, t, n - 1);
      var child := t.terms[n - 1];
      if IsLeaf(child) then Ok(prev + [child])
      else if child.token !in WhereFunctions then
        Err(BadRequest("Invalid where function token '" + child.token + "'"))
      else
        var u :- Transform(c, child);
        Ok(prev + [u])
  }

  /** The `_key` expansion over the already transformed children. */
  function ExpandKey(c: Collection, kids: seq<Term>): (r: Result<Term>)
    ensures r.Err? ==> r.error.status == 400
  {
    var index := if |kids| == 0 then None else c.getIndex(kids[0].token);
    if index.None? then
      Err(BadRequest("You can't use the _key() function unless your table has a unique index"))
    else if |index.value.columns| == 1 then
      Ok(SingleColumnKey(index.value.columns[0], kids[1..]))
    else
      var ands :- KeyConjunctions(c, index.value, kids[1..], |kids| - 1);
      Ok(if |ands| == 1 then ands[0] else Term("or", ands))
  }

  /** `in(col, v1, ..., vn)`, which becomes `eq` when there is exactly one value. */
  function SingleColumnKey(column: string, values: seq<Term>): (r: Term)
    ensures r.terms == [Leaf(column)] + values
    ensures r.token == (if |values| == 1 then "eq" else "in")
  {
    var t := Term("in", [Leaf(column)] + values);
    if |t.terms| == 2 then Term("eq", t.terms) else t
  }

  /** One `and(eq(column, value), ...)` per key value; a value that is not a leaf is refused. */
  function KeyConjunctions(c: Collection, index: Index, values: seq<Term>, n: nat): (r: Result<seq<Term>>)
    requires n <= |values|
    ensures r.Err? ==> r.error.status == 400
    ensures r.Ok? ==> |r.value| == n
  {
    if n == 0 then Ok([])
    else
      var prev :- KeyConjunctions(c, index, values, n - 1);
      var v := values[n - 1];
      if !IsLeaf(v) then Err(BadRequest("Entity key value is not a leaf node"))
      else Ok(prev + [Conjunction(c.decodeKey(index, v.token))])
  }

  /** `and(eq(k1, v1), eq(k2, v2), ...)` over the decoded key parts. */
  function Conjunction(parts: seq<(string, string)>): (r: Term)
    ensures r.token == "and" && |r.terms| == |parts|
    ensures forall i :: 0 <= i < |parts| ==> r.terms[i] == Term("eq", [Leaf(parts[i].0), Leaf(parts[i].1)])
  {
    Term("and", seq(|parts|, i requires 0 <= i < |parts| => Term("eq", [Leaf(parts[i].0), Leaf(parts[i].1)])))
  }

  // ---------------------------------------------------------------------------
  // Properties of transform
  // ---------------------------------------------------------------------------

  /** No non-leaf term of the tree is a `_key` call. */
  predicate KeyFree(t: Term)
  {
    (IsLeaf(t) || t.token != "_key") && forall i :: 0 <= i < |t.terms| ==> KeyFree(t.terms[i])
  }

  /** Every non-leaf term of the tree is a where function. */
  predicate Whitelisted(t: Term)
  {
    (IsLeaf(t) || t.token in WhereFunctions) && forall i :: 0 <= i < |t.terms| ==> Whitelisted(t.terms[i])
  }

  /** Every non-leaf descendant (the term itself excluded) is a where function. */
  predicate Clean(t: Term)
  {
    forall i :: 0 <= i < |t.terms| ==> IsLeaf(t.terms[i]) || (t.terms[i].token in WhereFunctions && Clean(t.terms[i]))
  }

  lemma ConjunctionWhitelisted(parts: seq<(string, string)>)
    ensures Whitelisted(Conjunction(parts)) && KeyFree(Conjunction(parts))
  {
    var r := Conjunction(parts);
    forall i | 0 <= i < |r.terms|
      ensures Whitelisted(r.terms[i]) && KeyFree(r.terms[i])
    {
      assert Whitelisted(r.terms[i].terms[0]) && Whitelisted(r.terms[i].terms[1]);
      assert KeyFree(r.terms[i].terms[0]) && KeyFree(r.terms[i].terms[1]);
    }
  }

  lemma {:induction false} ConjunctionsWhitelisted(c: Collection, index: Index, values: seq<Term>, n: nat)
    requires n <= |values|
    requires KeyConjunctions(c, index, values, n).Ok?
    ensures forall i :: 0 <= i < n ==> Whitelisted(KeyConjunctions(c, index, values, n).value[i])
    ensures forall i :: 0 <= i < n ==> KeyFree(KeyConjunctions(c, index, values, n).value[i])
  {
    if n > 0 {
      ConjunctionsWhitelisted(c, index, values, n - 1);
      ConjunctionWhitelisted(c.decodeKey(index, values[n - 1].token));
    }
  }

  /** A successful transform leaves no `_key`, and only where functions when the root is one. */
  lemma {:induction false} TransformOk(c: Collection, t: Term)
    requires Transform(c, t).Ok?
    ensures KeyFree(Transform(c, t).value)
    ensures t.token in WhereFunctions ==> Whitelisted(Transform(c, t).value)
    decreases t, 1, 0
  {
    TransformKidsOk(c, t, |t.terms|);
    var kids := TransformKids(c, t, |t.terms|).value;
    if t.token == "_key" {
      ExpandKeyOk(c, kids);
    }
  }

  /** The `_key` expansion of clean children is clean: its terms are `eq`, `in`, `and` and `or`. */
  lemma ExpandKeyOk(c: Collection, kids: seq<Term>)
    requires ExpandKey(c, kids).Ok?
    requires forall i :: 0 <= i < |kids| ==> KeyFree(kids[i]) && Whitelisted(kids[i])
    ensures KeyFree(ExpandKey(c, kids).value) && Whitelisted(ExpandKey(c, kids).value)
  {
    var index := c.getIndex(kids[0].token).value;
    var r := ExpandKey(c, kids).value;
    if |index.columns| == 1 {
      assert r.token == "eq" || r.token == "in";
      assert "eq" in WhereFunctions && "in" in WhereFunctions;
      assert forall i :: 0 <= i < |r.terms| ==> r.terms[i] == Leaf(index.columns[0]) || r.terms[i] in kids;
    } else {
      ConjunctionsWhitelisted(c, index, kids[1..], |kids| - 1);
      assert "or" in WhereFunctions;
    }
  }

  lemma {:induction false} TransformKidsOk(c: Collection, t: Term, n: nat)
    requires n <= |t.terms|
    requires TransformKids(c, t, n).Ok?
    ensures forall i :: 0 <= i < n ==> KeyFree(TransformKids(c, t, n).value[i])
    ensures forall i :: 0 <= i < n ==> Whitelisted(TransformKids(c, t, n).value[i])
    decreases t, 0, n
  {
    if n > 0 {
      TransformKidsOk(c, t, n - 1);
      var child := t.terms[n - 1];
      if !IsLeaf(child) {
        TransformOk(c, child);
      }
    }
  }

  /** A transform that succeeds saw only where functions below the root. */
  lemma {:induction false} TransformOkIsClean(c: Collection, t: Term)
    requires Transform(c, t).Ok?
    ensures Clean(t)
    decreases t, 1, 0
  {
    TransformKidsOkIsClean(c, t, |t.terms|);
  }

  lemma {:induction false} TransformKidsOkIsClean(c: Collection, t: Term, n: nat)
    requires n <= |t.terms|
    requires TransformKids(c, t, n).Ok?
    ensures forall i :: 0 <= i < n ==> IsLeaf(t.terms[i]) || (t.terms[i].token in WhereFunctions && Clean(t.terms[i]))
    decreases t, 0, n
  {
    if n > 0 {
      TransformKidsOkIsClean(c, t, n - 1);
      var child := t.terms[n - 1];
      if !IsLeaf(child) {
        TransformOkIsClean(c, child);
      }
    }
  }

  /** A non-leaf descendant outside the where-function list makes the transform fail with a 400. */
  lemma ForeignTokenRejected(c: Collection, t: Term)
    requires !Clean(t)
    ensures Transform(c, t).Err? && Transform(c, t).error.status == 400
  {
    if Transform(c, t).Ok? {
      TransformOkIsClean(c, t);
    }
  }

  /** A tree with only where functions and no `_key` is left exactly as it is. */
  lemma {:induction false} TransformIdentity(c: Collection, t: Term)
    requires Clean(t) && KeyFree(t) && t.token != "_key"
    ensures Transform(c, t) == Ok(t)
    decreases t, 1, 0
  {
    TransformKidsIdentity(c, t, |t.terms|);
    assert t.terms[..|t.terms|] == t.terms;
  }

  lemma {:induction false} TransformKidsIdentity(c: Collection, t: Term, n: nat)
    requires n <= |t.terms|
    requires Clean(t) && KeyFree(t)
    ensures TransformKids(c, t, n) == Ok(t.terms[..n])
    decreases t, 0, n
  {
    if n > 0 {
      TransformKidsIdentity(c, t, n - 1);
      var child := t.terms[n - 1];
      assert t.terms[..n] == t.terms[..n - 1] + [child];
      if !IsLeaf(child) {
        TransformIdentity(c, child);
      }
    }
  }

  lemma {:induction false} TransformLeafKids(c: Collection, t: Term, n: nat)
    requires n <= |t.terms|
    requires forall i :: 0 <= i < |t.terms| ==> IsLeaf(t.terms[i])
    ensures TransformKids(c, t, n) == Ok(t.terms[..n])
    decreases n
  {
    if n > 0 {
      TransformLeafKids(c, t, n - 1);
      assert t.terms[..n] == t.terms[..n - 1] + [t.terms[n - 1]];
    }
  }

  /** `_key` on an index the collection lacks is a 400. */
  lemma KeyWithoutIndex(c: Collection, t: Term)
    requires t.token == "_key" && |t.terms| >= 1
    requires forall i :: 0 <= i < |t.terms| ==> IsLeaf(t.terms[i])
    requires c.getIndex(t.terms[0].token).None?
    ensures Transform(c, t).Err? && Transform(c, t).error.status == 400
  {
    TransformLeafKids(c, t, |t.terms|);
    assert t.terms[..|t.terms|] == t.terms;
  }

  /** Single-column index: `_key(idx, v1..vn)` is `in(col, v1..vn)`, and `eq(col, v1)` exactly when n = 1. */
  lemma KeySingleColumn(c: Collection, t: Term, column: string)
    requires t.token == "_key" && |t.terms| >= 1
    requires forall i :: 0 <= i < |t.terms| ==> IsLeaf(t.terms[i])
    requires c.getIndex(t.terms[0].token).Some? && c.getIndex(t.terms[0].token).value.columns == [column]
    ensures Transform(c, t).Ok?
    ensures Transform(c, t).value.terms == [Leaf(column)] + t.terms[1..]
    ensures Transform(c, t).value.token == "eq" <==> |t.terms| == 2
    ensures Transform(c, t).value.token != "eq" ==> Transform(c, t).value.token == "in"
  {
    TransformLeafKids(c, t, |t.terms|);
    assert t.terms[..|t.terms|] == t.terms;
  }

  lemma {:induction false} LeafConjunctions(c: Collection, index: Index, values: seq<Term>, n: nat)
    requires n <= |values|
    requires forall i :: 0 <= i < |values| ==> IsLeaf(values[i])
    ensures KeyConjunctions(c, index, values, n).Ok?
    ensures forall i :: 0 <= i < n ==>
              KeyConjunctions(c, index, values, n).value[i] == Conjunction(c.decodeKey(index, values[i].token))
  {
    if n > 0 {
      LeafConjunctions(c, index, values, n - 1);
    }
  }

  /**
   * Multi-column index: `_key(idx, v1..vn)` is `or` of one `and(eq(k, v), ...)` per
   * value, in order; with one value the `or` collapses to its single `and`.
   */
  lemma KeyMultiColumn(c: Collection, t: Term, index: Index)
    requires t.token == "_key" && |t.terms| >= 1
    requires forall i :: 0 <= i < |t.terms| ==> IsLeaf(t.terms[i])
    requires c.getIndex(t.terms[0].token) == Some(index) && |index.columns| != 1
    ensures Transform(c, t).Ok?
    ensures |t.terms| == 2 ==> Transform(c, t).value == Conjunction(c.decodeKey(index, t.terms[1].token))
    ensures |t.terms| != 2 ==>
              Transform(c, t).value.token == "or" && |Transform(c, t).value.terms| == |t.terms| - 1 &&
              forall i :: 1 <= i < |t.terms| ==>
                Transform(c, t).value.terms[i - 1] == Conjunction(c.decodeKey(index, t.terms[i].token))
  {
    TransformLeafKids(c, t, |t.terms|);
    assert t.terms[..|t.terms|] == t.terms;
    LeafConjunctions(c, index, t.terms[1..], |t.terms| - 1);
  }

  /** A key value that is not a leaf is a 400 on a multi-column index. */
  lemma KeyValueNotLeaf(c: Collection, index: Index, values: seq<Term>, n: nat)
    requires n <= |values|
    requires exists i :: 0 <= i < n && !IsLeaf(values[i])
    ensures KeyConjunctions(c, index, values, n).Err?
  {
    if KeyConjunctions(c, index, values, n).Ok? {
      var i :| 0 <= i < n && !IsLeaf(values[i]);
      ConjunctionsLeaves(c, index, values, n, i);
    }
  }

  lemma {:induction false} ConjunctionsLeaves(c: Collection, index: Index, values: seq<Term>, n: nat, i: nat)
    requires i < n <= |values|
    requires KeyConjunctions(c, index, values, n).Ok?
    ensures IsLeaf(values[i])
  {
    if i < n - 1 {
      ConjunctionsLeaves(c, index, values, n - 1, i);
    }
  }

  // ---------------------------------------------------------------------------
  // addTerm
  // ---------------------------------------------------------------------------

  /** The terms a transformed where term contributes: a root `and` is unwrapped into its children. */
  function Unwrapped(t: Term): (r: seq<Term>)
    ensures t.token == "and" ==> r == t.terms
    ensures t.token != "and" ==> r == [t]
  {
    if t.token == "and" then t.terms else [t]
  }

  class Where {
    /** The where terms collected so far. */
    var terms: seq<Term>
    const collection: Collection

    constructor(collection: Collection)
      ensures this.collection == collection && terms == []
    {
      this.collection := collection;
      terms := [];
    }

    /**
     * `addTerm(token, term)`: a where function is transformed and recorded, a root
     * `and` child by child; any other token is left to the base builder, which
     * records nothing here.
     */
    method AddTerm(token: string, term: Term) returns (r: Result<bool>)
      modifies this
      ensures token !in WhereFunctions ==> r == Ok(false) && terms == old(terms)
      ensures token in WhereFunctions && Transform(collection, term).Err? ==>
                r == Err(Transform(collection, term).error) && terms == old(terms)
      ensures token in WhereFunctions && Transform(collection, term).Ok? ==>
                r == Ok(true) && terms == old(terms) + Unwrapped(Transform(collection, term).value)
    {
      if token !in WhereFunctions {
        return Ok(false);
      }
      var transformed := Transform(collection, term);
      if transformed.Err? {
        return Err(transformed.error);
      }
      var t := transformed.value;
      if t.token == "and" {
        var i := 0;
        while i < |t.terms|
          invariant 0 <= i <= |t.terms|
          invariant terms == old(terms) + t.terms[..i]
        {
          terms := terms + [t.terms[i]];
          assert t.terms[..i + 1] == t.terms[..i] + [t.terms[i]];
          i := i + 1;
        }
        assert t.terms[..i] == t.terms;
      } else {
        terms := terms + [t];
      }
      r := Ok(true);
    }
  }
}
