/**
 * `ElasticsearchQuery.toJson`: the lowering of one RQL comparison term to an
 * Elasticsearch query-DSL clause, and `getJson`, which runs it over every term.
 */
module ElasticsearchQuery {
  import opened Wrappers
  import opened Strings
  import opened JsonValues
  import opened RqlWhere

  /** The tokens `toJson` has a case for; any other token is refused. */
  const RangeTokens: set<string> := {"gt", "ge", "lt", "le"}
  const HandledTokens: set<string> := {"gt", "ge", "lt", "le", "eq", "ne", "sw", "ew", "w", "wo", "search"}

  function StringValue(s: string): Value
  {
    Scalar("String", s)
  }

  /** `new JSNode(key, value)`: a node with one property. */
  function Single(key: string, v: Value): (r: Value)
    ensures r.Obj? && |r.props| == 1 && r.props[0] == Property(key, v)
  {
    Obj([Property(key, v)])
  }

  predicate IsString(v: Value)
  {
    v.Scalar? && v.cls == "String"
  }

  /**
   * The string form Java's `+` gives a value: a string is itself, null is `"null"`,
   * and a node is its JSON text, which `show` stands for.
   */
  function Text(v: Value, show: Value -> string): (r: string)
    ensures IsString(v) ==> r == v.text
    ensures v.Null? ==> r == "null"
  {
    if IsString(v) then v.text else if v.Null? then "null" else show(v)
  }

  /** The value of a comparison: the second child's token if it is a leaf, else its own translation. */
  function ValueOf(t: Term, show: Value -> string): (r: Result<Value>)
    requires |t.terms| >= 2
    ensures IsLeaf(t.terms[1]) ==> r == Ok(StringValue(t.terms[1].token))
    decreases t, 0
  {
    if IsLeaf(t.terms[1]) then Ok(StringValue(t.terms[1].token)) else ToJson(t.terms[1], show)
  }

  /** `toJson(parent, child)`; `Ok(Null)` is the null the source returns for `wo`. */
  function ToJson(t: Term, show: Value -> string): (r: Result<Value>)
    ensures r.Ok? ==> Lower(t.token) in HandledTokens && |t.terms| >= 2 && ValueOf(t, show).Ok?
    ensures r.Ok? && r.value.Null? <==> r.Ok? && Lower(t.token) == "wo"
    decreases t, 1
  {
    var token := Lower(t.token);
    if |t.terms| < 2 then Err(Error(500, "IndexOutOfBoundsException: a comparison needs a field and a value"))
    else
      var field := t.terms[0].token;
      var value :- ValueOf(t, show);
      if token in RangeTokens then
        Ok(Single("range", Single(field, Single(token, value))))
      else if token == "eq" || token == "ne" then
        var clause := EqualityClause(field, value);
        Ok(if token == "ne" then Single("bool", Single("must_not", clause)) else clause)
      else if token == "sw" then
        Ok(Single("wildcard", Single(field, StringValue(Text(value, show) + "*"))))
      else if token == "ew" then
        Ok(Single("wildcard", Single(field, StringValue("*" + Text(value, show)))))
      else if token == "w" then
        Ok(Single("wildcard", Single(field, StringValue("*" + Text(value, show) + "*"))))
      else if token == "wo" then
        Ok(Null)
      else if token == "search" then
        Ok(Single("fuzzy", Single(field, value)))
      else
        Err(Error(500, "unexpected rql token: " + token))
  }

  /** The `eq` clause: `wildcard` for a string holding `*`, `term` otherwise. */
  function EqualityClause(field: string, value: Value): (r: Value)
    ensures r.Obj? && |r.props| == 1 && r.props[0].value == Single(field, value)
    ensures r.props[0].name == "wildcard" <==> IsString(value) && '*' in value.text
    ensures r.props[0].name != "wildcard" ==> r.props[0].name == "term"
  {
    if IsString(value) && '*' in value.text then Single("wildcard", Single(field, value))
    else Single("term", Single(field, value))
  }

  // ---------------------------------------------------------------------------
  // Properties
  // ---------------------------------------------------------------------------

  /** The token is matched ignoring case: a term and its lower-cased twin translate alike. */
  lemma TokenCaseIgnored(token: string, terms: seq<Term>, show: Value -> string)
    ensures ToJson(Term(token, terms), show) == ToJson(Term(Lower(token), terms), show)
  {
    LowerIdempotent(token);
    SameLowerTokenSameJson(Term(token, terms), Term(Lower(token), terms), show);
  }

  /** `toJson` sees the token only through its lower-cased form. */
  lemma SameLowerTokenSameJson(t: Term, u: Term, show: Value -> string)
    requires Lower(t.token) == Lower(u.token) && t.terms == u.terms
    ensures ToJson(t, show) == ToJson(u, show)
  {
    if |t.terms| >= 2 {
      assert ValueOf(t, show) == ValueOf(u, show);
    }
  }

  /** A comparison `gt`/`ge`/`lt`/`le` is `{"range": {field: {token: value}}}` with the token as inner key. */
  lemma RangeClause(t: Term, show: Value -> string)
    requires Lower(t.token) in RangeTokens && |t.terms| >= 2 && ValueOf(t, show).Ok?
    ensures ToJson(t, show) == Ok(Single("range", Single(t.terms[0].token, Single(Lower(t.token), ValueOf(t, show).value))))
  {
  }

  /** `ne` is `eq` wrapped in `bool.must_not`, and nothing else differs. */
  lemma NotEqualNegatesEqual(terms: seq<Term>, show: Value -> string)
    ensures ToJson(Term("eq", terms), show).Ok? <==> ToJson(Term("ne", terms), show).Ok?
    ensures ToJson(Term("eq", terms), show).Ok? ==>
              ToJson(Term("ne", terms), show).value == Single("bool", Single("must_not", ToJson(Term("eq", terms), show).value))
    ensures ToJson(Term("eq", terms), show).Ok? ==> ToJson(Term("eq", terms), show).value.props[0].name != "bool"
  {
    assert Lower("eq") == "eq" && Lower("ne") == "ne";
    if |terms| >= 2 {
      assert ValueOf(Term("eq", terms), show) == ValueOf(Term("ne", terms), show);
    }
  }

  /** `eq` on a leaf value is a `wildcard` exactly when the value holds `*`, and a `term` otherwise. */
  lemma EqualWildcardIff(field: string, value: string, show: Value -> string)
    ensures ToJson(Term("eq", [Leaf(field), Leaf(value)]), show).Ok?
    ensures ToJson(Term("eq", [Leaf(field), Leaf(value)]), show).value.props[0].name == "wildcard" <==> '*' in value
    ensures ToJson(Term("eq", [Leaf(field), Leaf(value)]), show).value.props[0].value == Single(field, StringValue(value))
  {
    assert Lower("eq") == "eq";
  }

  /** `sw`, `ew` and `w` on a leaf value are wildcards `value*`, `*value` and `*value*`. */
  lemma WildcardPatterns(field: string, value: string, show: Value -> string)
    ensures ToJson(Term("sw", [Leaf(field), Leaf(value)]), show) == Ok(Single("wildcard", Single(field, StringValue(value + "*"))))
    ensures ToJson(Term("ew", [Leaf(field), Leaf(value)]), show) == Ok(Single("wildcard", Single(field, StringValue("*" + value))))
    ensures ToJson(Term("w", [Leaf(field), Leaf(value)]), show) == Ok(Single("wildcard", Single(field, StringValue("*" + value + "*"))))
  {
    StartsWithPattern(field, value, show);
    EndsWithPattern(field, value, show);
    ContainsPattern(field, value, show);
  }

  lemma StartsWithPattern(field: string, value: string, show: Value -> string)
    ensures ToJson(Term("sw", [Leaf(field), Leaf(value)]), show) == Ok(Single("wildcard", Single(field, StringValue(value + "*"))))
  {
    assert Lower("sw") == "sw";
  }

  lemma EndsWithPattern(field: string, value: string, show: Value -> string)
    ensures ToJson(Term("ew", [Leaf(field), Leaf(value)]), show) == Ok(Single("wildcard", Single(field, StringValue("*" + value))))
  {
    assert Lower("ew") == "ew";
  }

  lemma ContainsPattern(field: string, value: string, show: Value -> string)
    ensures ToJson(Term("w", [Leaf(field), Leaf(value)]), show) == Ok(Single("wildcard", Single(field, StringValue("*" + value + "*"))))
  {
    assert Lower("w") == "w";
  }

  /** `wo` translates to null and `search` to `{"fuzzy": {field: value}}`. */
  lemma WithoutAndSearch(field: string, value: string, show: Value -> string)
    ensures ToJson(Term("wo", [Leaf(field), Leaf(value)]), show) == Ok(Null)
    ensures ToJson(Term("search", [Leaf(field), Leaf(value)]), show) == Ok(Single("fuzzy", Single(field, StringValue(value))))
  {
    assert Lower("wo") == "wo" && Lower("search") == "search";
  }

  /** Any token without a case is refused as an unexpected rql token. */
  lemma UnexpectedToken(t: Term, show: Value -> string)
    requires Lower(t.token) !in HandledTokens && |t.terms| >= 2 && ValueOf(t, show).Ok?
    ensures ToJson(t, show) == Err(Error(500, "unexpected rql token: " + Lower(t.token)))
  {
  }

  /** A nested comparison is translated first and its translation becomes the value. */
  lemma NestedValue(t: Term, show: Value -> string)
    requires |t.terms| >= 2 && !IsLeaf(t.terms[1])
    ensures ValueOf(t, show) == ToJson(t.terms[1], show)
    ensures ToJson(t.terms[1], show).Err? ==> ToJson(t, show) == ToJson(t.terms[1], show)
  {
  }

  /**
   * `getJson`: every term is translated and the translations are dropped, so the
   * result is an empty node when all of them translate and the first failure otherwise.
   */
  method GetJson(terms: seq<Term>, show: Value -> string) returns (r: Result<Value>)
    ensures r.Ok? <==> forall i :: 0 <= i < |terms| ==> ToJson(terms[i], show).Ok?
    ensures r.Ok? ==> r.value == Obj([])
    ensures r.Err? ==> exists i :: 0 <= i < |terms| && ToJson(terms[i], show) == Err(r.error) &&
                                  forall j :: 0 <= j < i ==> ToJson(terms[j], show).Ok?
  {
    var root := Obj([]);
    for i := 0 to |terms|
      invariant forall j :: 0 <= j < i ==> ToJson(terms[j], show).Ok?
    {
      var child := ToJson(terms[i], show);
      if child.Err? {
        assert ToJson(terms[i], show) == Err(child.error);
        return Err(child.error);
      }
    }
    r := Ok(root);
  }
}
