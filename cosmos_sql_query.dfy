/**
 * `CosmosSqlQuery`: the Cosmos DB flavour of the SQL builder.  It clamps
 * `OFFSET`/`LIMIT`, names prepared-statement variables `@key<n>`, sorts by `id`
 * by default, rewrites quoted identifiers into property access, decides whether
 * a query may cross partitions, and strips `_`-prefixed system keys from rows.
 */
module CosmosSqlQuery {
  import opened Wrappers
  import opened Strings
  import opened JsonValues
  import opened RqlWhere
  import opened JsonNode

  // ---------------------------------------------------------------------------
  // printLimitClause
  // ---------------------------------------------------------------------------

  function ClampOffset(offset: int): (r: int)
    ensures r >= 0
    ensures offset >= 0 ==> r == offset
    ensures offset < 0 ==> r == 0
  {
    if offset < 0 then 0 else offset
  }

  function ClampLimit(limit: int): (r: int)
    ensures r > 0
    ensures limit > 0 ==> r == limit
    ensures limit <= 0 ==> r == 100
  {
    if limit <= 0 then 100 else limit
  }

  /** `printLimitClause`: Cosmos needs both parts, so both are always printed. */
  function PrintLimitClause(offset: int, limit: int): (r: string)
    ensures StartsWith(r, "OFFSET ")
  {
    "OFFSET " + IntToString(ClampOffset(offset)) + " LIMIT " + IntToString(ClampLimit(limit))
  }

  /** The clause is unambiguous: it determines the clamped offset and limit. */
  lemma LimitClauseDetermines(o1: int, l1: int, o2: int, l2: int)
    requires PrintLimitClause(o1, l1) == PrintLimitClause(o2, l2)
    ensures ClampOffset(o1) == ClampOffset(o2)
    ensures ClampLimit(l1) == ClampLimit(l2)
  {
    var a1, b1 := IntToString(ClampOffset(o1)), IntToString(ClampLimit(l1));
    var a2, b2 := IntToString(ClampOffset(o2)), IntToString(ClampLimit(l2));
    NoSpaceInNumeral(ClampOffset(o1));
    NoSpaceInNumeral(ClampOffset(o2));
    ClauseParts(a1, b1, a2, b2);
    IntToStringInjective(ClampOffset(o1), ClampOffset(o2));
    IntToStringInjective(ClampLimit(l1), ClampLimit(l2));
  }

  lemma NoSpaceInNumeral(n: int)
    ensures ' ' !in IntToString(n)[1..]
  {
    var s := IntToString(n)[1..];
    assert AllDigits(s);
    forall i | 0 <= i < |s|
      ensures s[i] != ' '
    {
      assert IsDigit(s[i]);
    }
  }

  /** Two clauses with space-free numerals agree only when both numerals agree. */
  lemma ClauseParts(a1: string, b1: string, a2: string, b2: string)
    requires |a1| >= 1 && |a2| >= 1 && ' ' !in a1[1..] && ' ' !in a2[1..]
    requires "OFFSET " + a1 + " LIMIT " + b1 == "OFFSET " + a2 + " LIMIT " + b2
    ensures a1 == a2 && b1 == b2
  {
    var s1 := "OFFSET " + a1 + " LIMIT " + b1;
    var s2 := "OFFSET " + a2 + " LIMIT " + b2;
    assert s1[7..] == a1 + [' '] + ("LIMIT " + b1);
    assert s2[7..] == a2 + [' '] + ("LIMIT " + b2);
    SplitAtSeparator(a1, "LIMIT " + b1, a2, "LIMIT " + b2, ' ');
    assert b1 == ("LIMIT " + b1)[6..];
    assert b2 == ("LIMIT " + b2)[6..];
  }

  // ---------------------------------------------------------------------------
  // asVariableName and the parameter list
  // ---------------------------------------------------------------------------

  /** A bound value of the prepared statement: the column it compares and its value. */
  datatype KeyValue<V> = KeyValue(key: string, value: V)

  datatype SqlParameter<V> = SqlParameter(name: string, value: V)

  /** `asVariableName(i)`: `@`, the key of value `i`, then `i + 1`. */
  function AsVariableName(key: string, i: nat): (r: string)
    ensures |r| > |key| + 1 && r[0] == '@' && r[1..|key| + 1] == key
    ensures AllDigits(r[|key| + 1..])
  {
    "@" + key + NatToString(i + 1)
  }

  predicate EndsInDigit(s: string)
  {
    |s| > 0 && IsDigit(s[|s| - 1])
  }

  /** When no key ends in a digit, the name gives back both the key and the position. */
  lemma VariableNamesDistinct(k1: string, i: nat, k2: string, j: nat)
    requires !EndsInDigit(k1) && !EndsInDigit(k2)
    requires AsVariableName(k1, i) == AsVariableName(k2, j)
    ensures k1 == k2 && i == j
  {
    var s := AsVariableName(k1, i);
    var d1, d2 := NatToString(i + 1), NatToString(j + 1);
    TrailingDigits(k1, d1);
    TrailingDigits(k2, d2);
    assert d1 == s[|s| - |d1|..];
    assert d2 == s[|s| - |d2|..];
    assert "@" + k1 == s[..|s| - |d1|];
    assert "@" + k2 == s[..|s| - |d2|];
    assert k1 == ("@" + k1)[1..];
    assert k2 == ("@" + k2)[1..];
    NatToStringInjective(i + 1, j + 1);
  }

  /** The number of digits that end a text. */
  function TrailingDigitCount(s: string): (r: nat)
    ensures r <= |s|
  {
    if |s| == 0 || !IsDigit(s[|s| - 1]) then 0 else 1 + TrailingDigitCount(s[..|s| - 1])
  }

  /** The numeral after a key that does not end in a digit is exactly the trailing digit run. */
  lemma {:induction false} TrailingDigits(k: string, d: string)
    requires !EndsInDigit(k) && AllDigits(d)
    ensures TrailingDigitCount("@" + k + d) == |d|
  {
    var s := "@" + k + d;
    if |d| == 0 {
      assert s == "@" + k;
      if |k| > 0 {
        assert s[|s| - 1] == k[|k| - 1];
      }
    } else {
      assert s[..|s| - 1] == "@" + k + d[..|d| - 1];
      assert s[|s| - 1] == d[|d| - 1];
      TrailingDigits(k, d[..|d| - 1]);
    }
  }

  /** A key ending in a digit can collide: value 0 keyed `a1` and value 10 keyed `a` are both `@a11`. */
  lemma VariableNameCollision()
    ensures AsVariableName("a1", 0) == AsVariableName("a", 10) == "@a11"
  {
    assert NatToString(1) == "1";
    assert NatToString(11) == NatToString(1) + [DigitChar(1)];
  }

  /** The `SqlParameterCollection` loop of `doSelect`: one parameter per bound value, in order. */
  method BuildParams<V>(values: seq<KeyValue<V>>) returns (params: seq<SqlParameter<V>>)
    ensures |params| == |values|
    ensures forall i :: 0 <= i < |values| ==>
              params[i] == SqlParameter(AsVariableName(values[i].key, i), values[i].value)
  {
    params := [];
    var i := 0;
    while i < |values|
      invariant 0 <= i <= |values| && |params| == i
      invariant forall j :: 0 <= j < i ==> params[j] == SqlParameter(AsVariableName(values[j].key, j), values[j].value)
    {
      var kv := values[i];
      params := params + [SqlParameter(AsVariableName(kv.key, i), kv.value)];
      i := i + 1;
    }
  }

  /** With keys that do not end in digits, every parameter has its own name. */
  lemma ParamNamesUnique<V>(values: seq<KeyValue<V>>, params: seq<SqlParameter<V>>)
    requires |params| == |values|
    requires forall i :: 0 <= i < |values| ==>
               params[i] == SqlParameter(AsVariableName(values[i].key, i), values[i].value)
    requires forall i :: 0 <= i < |values| ==> !EndsInDigit(values[i].key)
    ensures forall i, j :: 0 <= i < j < |params| ==> params[i].name != params[j].name
  {
    forall i, j | 0 <= i < j < |params|
      ensures params[i].name != params[j].name
    {
      if params[i].name == params[j].name {
        VariableNamesDistinct(values[i].key, i, values[j].key, j);
      }
    }
  }

  // ---------------------------------------------------------------------------
  // getDefaultSorts
  // ---------------------------------------------------------------------------

  datatype Sort = Sort(property: string, asc: bool)

  /** `getDefaultSorts(parts)`: whatever the query parts, sort ascending by `id` alone. */
  function DefaultSorts<P>(parts: P): (r: seq<Sort>)
    ensures |r| == 1 && r[0].property == "id" && r[0].asc
  {
    [Sort("id", true)]
  }

  // ---------------------------------------------------------------------------
  // toSql and the statement clean-up of doSelect
  // ---------------------------------------------------------------------------

  function Quoted(q: char, table: string): string
  {
    [q] + table + [q]
  }

  /** The text a quoted column access starts with: `"t"."`. */
  function ColumnOpen(q: char, table: string): (r: string)
    ensures |r| == |table| + 4
  {
    Quoted(q, table) + "." + [q]
  }

  /**
   * The regular-expression pass of `toSql`: each leftmost `"t"."c"` becomes
   * `t["c"]`, the column being everything up to the next quote.
   */
  function RewriteColumns(s: string, q: char, table: string): string
    decreases |s|
  {
    var open := ColumnOpen(q, table);
    if |s| == 0 then ""
    else if StartsWith(s, open) && q in s[|open|..] then
      var rest := s[|open|..];
      var j := IndexOfChar(rest, q);
      table + "[\"" + rest[..j] + "\"]" + RewriteColumns(rest[j + 1..], q, table)
    else [s[0]] + RewriteColumns(s[1..], q, table)
  }

  /**
   * `toSql` as written: three passes over the whole text, `"t".*` to `*`, then
   * `"t"."c"` to `t["c"]`, then any `"t"` left to `t`. The last pass also sees
   * the quotes the second one wrote.
   */
  function ToSql(sql: string, q: char, table: string): string
  {
    var starless := ReplaceAll(sql, Quoted(q, table) + ".*", "*");
    var accessed := RewriteColumns(starless, q, table);
    ReplaceAll(accessed, Quoted(q, table), table)
  }

  /** Cosmos quotes identifiers with double quotes. */
  const ColumnQuote := '"'

  /**
   * A column access on its own becomes bracket access, as the comment on `toSql`
   * promises, as long as the column is not named like its table.
   */
  lemma ToSqlColumnAccess(table: string, col: string)
    requires ColumnQuote !in table && ColumnQuote !in col && '*' !in table && '*' !in col
    requires col != table
    ensures ToSql(ColumnOpen(ColumnQuote, table) + col + [ColumnQuote], ColumnQuote, table)
         == table + "[\"" + col + "\"]"
  {
    var q := ColumnQuote;
    var pat := Quoted(q, table);
    var accessed := AccessPasses(table, col);
    var a, b := table + "[", [q] + col + [q] + "]";
    assert accessed == a + b;
    assert pat[0] !in a;
    ReplaceAllSkip(a, b, pat, table);
    BracketedColumnKept(table, col);
    assert ReplaceAll(accessed, pat, table) == a + b;
  }

  /** The first two passes on a lone column access: nothing to do for the first, bracket access from the second. */
  lemma AccessPasses(table: string, col: string) returns (accessed: string)
    requires ColumnQuote !in table && ColumnQuote !in col && '*' !in table && '*' !in col
    ensures accessed == table + "[\"" + col + "\"]"
    ensures ToSql(ColumnOpen(ColumnQuote, table) + col + [ColumnQuote], ColumnQuote, table)
         == ReplaceAll(accessed, Quoted(ColumnQuote, table), table)
  {
    var q := ColumnQuote;
    var s := ColumnOpen(q, table) + col + [q];
    StarPassIdle(table, col);
    assert s == ColumnOpen(q, table) + col + [q] + "";
    RewriteColumnsAtStart(col, "", q, table);
    assert RewriteColumns("", q, table) == "";
    accessed := table + "[\"" + col + "\"]";
    assert RewriteColumns(s, q, table) == accessed;
    assert ReplaceAll(s, Quoted(q, table) + ".*", "*") == s;
  }

  /** The `.*` pass finds nothing in a lone column access. */
  lemma StarPassIdle(table: string, col: string)
    requires '*' !in table && '*' !in col && ColumnQuote != '*'
    ensures var s := ColumnOpen(ColumnQuote, table) + col + [ColumnQuote];
            ReplaceAll(s, Quoted(ColumnQuote, table) + ".*", "*") == s
  {
    var q := ColumnQuote;
    var s := ColumnOpen(q, table) + col + [q];
    var star := Quoted(q, table) + ".*";
    assert star[|table| + 3] == '*';
    assert s == [q] + table + [q, '.', q] + col + [q];
    ReplaceAllMissingChar(s, star, "*", |table| + 3);
  }

  /** The third pass leaves `"c"]` alone when `c` is not the table's name. */
  lemma BracketedColumnKept(table: string, col: string)
    requires ColumnQuote !in table && ColumnQuote !in col && col != table
    ensures var q := ColumnQuote;
            ReplaceAll([q] + col + [q] + "]", Quoted(q, table), table) == [q] + col + [q] + "]"
  {
    var q := ColumnQuote;
    var pat := Quoted(q, table);
    var v := col + "\"]";
    var u := [q] + v;
    assert u == [q] + col + [q] + "]";
    if |u| >= |pat| {
      assert pat[|table| + 1] == q;
      if |table| < |col| {
        assert u[..|pat|][|table| + 1] == col[|table|];
        assert col[|table|] in col;
      } else if |table| == |col| {
        assert u[..|pat|][1..|table| + 1] == col;
        assert pat[1..|table| + 1] == table;
      } else {
        assert u[..|pat|][|table| + 1] == ']';
      }
      assert u[..|pat|] != pat;
      assert u[1..] == v;
      ReplaceAllSkip(col, "\"]", pat, table);
      assert ReplaceAll("]", pat, table) == "]";
      if |table| == 0 {
        assert ("\"]")[..2] != pat;
      }
      assert ReplaceAll("\"]", pat, table) == "\"]";
    }
  }

  /**
   * As written, a column named like its table loses its quotes: the third pass
   * turns the `"t"` inside `t["t"]` into `t`, giving `t[t]`.
   */
  lemma ToSqlColumnNamedLikeTable(table: string)
    requires ColumnQuote !in table && '*' !in table
    ensures ToSql(ColumnOpen(ColumnQuote, table) + table + [ColumnQuote], ColumnQuote, table)
         == table + "[" + table + "]"
  {
    var q := ColumnQuote;
    var accessed := AccessPasses(table, table);
    var pat := Quoted(q, table);
    var a := table + "[";
    assert accessed == a + pat + "]";
    forall i | 0 <= i < |a|
      ensures !OccursAt(a + pat + "]", pat, i)
    {
      assert (a + pat + "]")[i] == a[i];
      assert a[i] in a;
    }
    ReplaceAllFirst(a, pat, "]", table);
    assert ReplaceAll("]", pat, table) == "]";
  }

  /**
   * `toSql` as its comment describes it, in one left-to-right pass, so that what
   * one rewrite writes is never rewritten again.
   */
  function ToSqlIntended(s: string, q: char, table: string): string
    decreases |s|
  {
    var star := Quoted(q, table) + ".*";
    var open := ColumnOpen(q, table);
    if |s| == 0 then ""
    else if StartsWith(s, star) then "*" + ToSqlIntended(s[|star|..], q, table)
    else if StartsWith(s, open) && q in s[|open|..] then
      var rest := s[|open|..];
      var j := IndexOfChar(rest, q);
      table + "[\"" + rest[..j] + "\"]" + ToSqlIntended(rest[j + 1..], q, table)
    else if StartsWith(s, Quoted(q, table)) then table + ToSqlIntended(s[|table| + 2..], q, table)
    else [s[0]] + ToSqlIntended(s[1..], q, table)
  }

  /** Every column access becomes bracket access, whatever the column is called, and the rest follows. */
  lemma ToSqlIntendedColumnAccess(col: string, b: string, q: char, table: string)
    requires q != '*' && q !in col
    ensures ToSqlIntended(ColumnOpen(q, table) + col + [q] + b, q, table)
         == table + "[\"" + col + "\"]" + ToSqlIntended(b, q, table)
  {
    var open := ColumnOpen(q, table);
    var s := open + col + [q] + b;
    var star := Quoted(q, table) + ".*";
    assert s[|table| + 3] == q != star[|table| + 3];
    assert !StartsWith(s, star);
    assert s[..|open|] == open;
    var rest := s[|open|..];
    assert rest == col + [q] + b;
    assert rest[..|col|] == col;
    assert rest[|col| + 1..] == b;
    FirstQuote(col, b, q);
  }

  /** `"t".*` becomes `*`, and the rest follows. */
  lemma ToSqlIntendedStar(b: string, q: char, table: string)
    ensures ToSqlIntended(Quoted(q, table) + ".*" + b, q, table) == "*" + ToSqlIntended(b, q, table)
  {
    var star := Quoted(q, table) + ".*";
    var s := star + b;
    assert s[..|star|] == star;
    assert s[|star|..] == b;
  }

  /** Text without the quote character is left alone. */
  lemma {:induction false} ToSqlIntendedUnquoted(s: string, q: char, table: string)
    requires q !in s
    ensures ToSqlIntended(s, q, table) == s
    decreases |s|
  {
    if |s| > 0 {
      assert s[0] in s;
      NoQuoteStart(s, Quoted(q, table) + ".*", q);
      NoQuoteStart(s, ColumnOpen(q, table), q);
      NoQuoteStart(s, Quoted(q, table), q);
      ToSqlIntendedUnquoted(s[1..], q, table);
      assert s == [s[0]] + s[1..];
    }
  }

  lemma NoQuoteStart(s: string, p: string, q: char)
    requires |s| > 0 && |p| > 0 && p[0] == q && s[0] != q
    ensures !StartsWith(s, p)
  {
    if |p| <= |s| {
      assert s[..|p|][0] == s[0];
    }
  }


  /** Text where no column access starts is left alone. */
  lemma {:induction false} RewriteColumnsAbsent(s: string, q: char, table: string)
    requires forall i :: 0 <= i < |s| ==> !StartsWith(s[i..], ColumnOpen(q, table))
    ensures RewriteColumns(s, q, table) == s
    decreases |s|
  {
    if |s| > 0 {
      assert s[0..] == s;
      forall i | 0 <= i < |s[1..]|
        ensures !StartsWith(s[1..][i..], ColumnOpen(q, table))
      {
        assert s[1..][i..] == s[i + 1..];
      }
      RewriteColumnsAbsent(s[1..], q, table);
    }
  }

  /** A column access at the very start is rewritten and the text after its closing quote follows. */
  lemma RewriteColumnsAtStart(col: string, b: string, q: char, table: string)
    requires q !in col
    ensures RewriteColumns(ColumnOpen(q, table) + col + [q] + b, q, table)
         == table + "[\"" + col + "\"]" + RewriteColumns(b, q, table)
  {
    var open := ColumnOpen(q, table);
    var s := open + col + [q] + b;
    assert s[..|open|] == open;
    var rest := s[|open|..];
    assert rest == col + [q] + b;
    assert rest[..|col|] == col;
    assert rest[|col| + 1..] == b;
    FirstQuote(col, b, q);
  }

  lemma FirstQuote(col: string, b: string, q: char)
    requires q !in col
    ensures IndexOfChar(col + [q] + b, q) == |col|
  {
    var rest := col + [q] + b;
    var j := IndexOfChar(rest, q);
    assert rest[|col|] == q;
    forall i | 0 <= i < |col|
      ensures rest[i] != q
    {
      assert rest[i] == col[i];
    }
    forall i | 0 <= i < j
      ensures rest[i] != q
    {
      assert rest[..j][i] == rest[i];
    }
  }

  /** Text before the leftmost column access is copied as it is. */
  lemma {:induction false} RewriteColumnsSkip(a: string, tail: string, q: char, table: string)
    requires forall i :: 0 <= i < |a| ==> !StartsWith((a + tail)[i..], ColumnOpen(q, table))
    ensures RewriteColumns(a + tail, q, table) == a + RewriteColumns(tail, q, table)
    decreases |a|
  {
    if |a| > 0 {
      var a' := a[1..];
      NoAccessInRest(a, tail, q, table);
      SkipFirst(a, tail, q, table);
      RewriteColumnsSkip(a', tail, q, table);
      var r := RewriteColumns(tail, q, table);
      assert a == [a[0]] + a';
      assert [a[0]] + (a' + r) == a + r;
    } else {
      assert a + tail == tail;
    }
  }

  /** The premise of `RewriteColumnsSkip` holds at the start and again one character on. */
  lemma NoAccessInRest(a: string, tail: string, q: char, table: string)
    requires |a| > 0
    requires forall i :: 0 <= i < |a| ==> !StartsWith((a + tail)[i..], ColumnOpen(q, table))
    ensures !StartsWith(a + tail, ColumnOpen(q, table))
    ensures forall i :: 0 <= i < |a[1..]| ==> !StartsWith((a[1..] + tail)[i..], ColumnOpen(q, table))
  {
    var s := a + tail;
    assert s[0..] == s;
    forall i | 0 <= i < |a[1..]|
      ensures !StartsWith((a[1..] + tail)[i..], ColumnOpen(q, table))
    {
      assert (a[1..] + tail)[i..] == s[i + 1..];
    }
  }

  lemma SkipFirst(a: string, tail: string, q: char, table: string)
    requires |a| > 0 && !StartsWith(a + tail, ColumnOpen(q, table))
    ensures RewriteColumns(a + tail, q, table) == [a[0]] + RewriteColumns(a[1..] + tail, q, table)
  {
    var s := a + tail;
    RewriteColumnsCopies(s, q, table);
    assert s[1..] == a[1..] + tail;
  }

  lemma RewriteColumnsCopies(s: string, q: char, table: string)
    requires |s| > 0 && !StartsWith(s, ColumnOpen(q, table))
    ensures RewriteColumns(s, q, table) == [s[0]] + RewriteColumns(s[1..], q, table)
  {
  }

  /** `replaceAll` of one character by another. */
  function ReplaceChar(s: string, c: char, d: char): (r: string)
    ensures |r| == |s|
    ensures forall i :: 0 <= i < |s| ==> r[i] == (if s[i] == c then d else s[i])
  {
    seq(|s|, i requires 0 <= i < |s| => if s[i] == c then d else s[i])
  }

  /** The prepared statement of `doSelect` after dropping carriage returns and turning newlines into spaces. */
  function OneLine(sql: string): (r: string)
    ensures '\r' !in r && '\n' !in r
    ensures forall x :: x != '\r' && x != '\n' && x != ' ' ==> (x in r <==> x in sql)
  {
    var noCr := RemoveChar(sql, '\r');
    var r := ReplaceChar(noCr, '\n', ' ');
    assert forall x :: x != '\n' && x != ' ' ==> (x in r <==> x in noCr) by {
      forall x | x != '\n' && x != ' '
        ensures x in r <==> x in noCr
      {
        if x in r {
          var i :| 0 <= i < |r| && r[i] == x;
          assert noCr[i] == x;
        }
        if x in noCr {
          var i :| 0 <= i < |noCr| && noCr[i] == x;
          assert r[i] == x;
        }
      }
    }
    r
  }

  // ---------------------------------------------------------------------------
  // Cross-partition decision
  // ---------------------------------------------------------------------------

  /** `findTerm(column, token)` matches a term with that token whose first child is the column. */
  predicate IsTermOn(t: Term, column: string, token: string)
  {
    t.token == token && |t.terms| >= 1 && t.terms[0].token == column
  }

  /**
   * The first match, depth first, below and including `t`; the result tells
   * whether the match has a parent.
   */
  function FindInTerm(t: Term, column: string, token: string, isRoot: bool): (r: Option<bool>)
    ensures r == Some(false) ==> isRoot && IsTermOn(t, column, token)
    decreases t, 1, 0
  {
    if IsTermOn(t, column, token) then Some(!isRoot) else FindInKids(t, 0, column, token)
  }

  function FindInKids(t: Term, i: nat, column: string, token: string): (r: Option<bool>)
    requires i <= |t.terms|
    ensures r != Some(false)
    decreases t, 0, |t.terms| - i
  {
    if i == |t.terms| then None
    else
      var found := FindInTerm(t.terms[i], column, token, false);
      if found.Some? then found else FindInKids(t, i + 1, column, token)
  }

  /** `findTerm` over the where terms, which have no parent. */
  function FindTerm(roots: seq<Term>, column: string, token: string): (r: Option<bool>)
    ensures r == Some(false) ==> exists i :: 0 <= i < |roots| && IsTermOn(roots[i], column, token)
    decreases |roots|
  {
    if |roots| == 0 then None
    else
      var found := FindInTerm(roots[0], column, token, true);
      if found.Some? then found else FindTerm(roots[1..], column, token)
  }

  /**
   * `enableCrossPartitionQuery`: on unless the table has a `PartitionKey` index
   * and the first `eq` on its column is a where term of its own.  An index
   * without columns fails as `getColumn(0)` does.
   */
  function CrossPartition(partitionKey: Option<Index>, roots: seq<Term>): (r: Result<bool>)
    ensures partitionKey.None? ==> r == Ok(true)
    ensures r.Err? <==> partitionKey.Some? && |partitionKey.value.columns| == 0
    ensures r == Ok(false) ==>
              partitionKey.Some? && |partitionKey.value.columns| >= 1 &&
              exists i :: 0 <= i < |roots| && IsTermOn(roots[i], partitionKey.value.columns[0], "eq")
  {
    if partitionKey.None? then Ok(true)
    else if |partitionKey.value.columns| == 0 then Err(Error(500, "IndexOutOfBoundsException: index without columns"))
    else
      var found := FindTerm(roots, partitionKey.value.columns[0], "eq");
      Ok(found.None? || found.value)
  }

  /**
   * The query stays in one partition exactly when some where term is `eq` on the
   * partition column and no earlier where term holds such an `eq` anywhere inside it:
   * `findTerm` stops at the first match, and a nested first match keeps the query
   * crossing partitions even when a later where term would have matched at the root.
   */
  lemma SinglePartitionIff(index: Index, roots: seq<Term>)
    requires |index.columns| >= 1
    ensures CrossPartition(Some(index), roots).Ok?
    ensures CrossPartition(Some(index), roots) == Ok(false) <==>
              exists i :: 0 <= i < |roots| && FirstRootMatch(roots, i, index.columns[0], "eq")
  {
    FindTermRootIff(roots, index.columns[0], "eq");
  }

  /** The `i`-th where term matches at its root, and no earlier where term matches anywhere. */
  predicate FirstRootMatch(roots: seq<Term>, i: int, column: string, token: string)
    requires 0 <= i < |roots|
  {
    IsTermOn(roots[i], column, token) && forall j :: 0 <= j < i ==> NoTermOn(roots[j], column, token)
  }

  /** `findTerm` finds a term without a parent exactly when the first matching where term matches at its root. */
  lemma {:induction false} FindTermRootIff(roots: seq<Term>, column: string, token: string)
    ensures FindTerm(roots, column, token) == Some(false) <==>
              exists i :: 0 <= i < |roots| && FirstRootMatch(roots, i, column, token)
    decreases |roots|
  {
    if |roots| > 0 {
      var found := FindInTerm(roots[0], column, token, true);
      FindTermRootIff(roots[1..], column, token);
      if IsTermOn(roots[0], column, token) {
        assert FirstRootMatch(roots, 0, column, token);
      } else if found.Some? {
        assert found != Some(false);
        assert found.value;
        forall i | 0 <= i < |roots| && FirstRootMatch(roots, i, column, token)
          ensures false
        {
          assert i > 0;
          FindInTermNone(roots[0], column, token, true);
        }
      } else {
        FindInTermFound(roots[0], column, token, true);
        if FindTerm(roots, column, token) == Some(false) {
          var k :| 0 <= k < |roots[1..]| && FirstRootMatch(roots[1..], k, column, token);
          assert FirstRootMatch(roots, k + 1, column, token) by {
            forall j | 0 <= j < k + 1
              ensures NoTermOn(roots[j], column, token)
            {
              if j > 0 {
                assert roots[j] == roots[1..][j - 1];
              }
            }
          }
        }
        if exists i :: 0 <= i < |roots| && FirstRootMatch(roots, i, column, token) {
          var i :| 0 <= i < |roots| && FirstRootMatch(roots, i, column, token);
          assert i > 0;
          assert FirstRootMatch(roots[1..], i - 1, column, token) by {
            forall j | 0 <= j < i - 1
              ensures NoTermOn(roots[1..][j], column, token)
            {
              assert roots[1..][j] == roots[j + 1];
            }
          }
        }
      }
    }
  }

  /** A search that finds nothing means no term of the tree matches. */
  lemma {:induction false} FindInTermFound(t: Term, column: string, token: string, isRoot: bool)
    requires FindInTerm(t, column, token, isRoot).None?
    ensures NoTermOn(t, column, token)
    decreases t, 1, 0
  {
    FindInKidsFound(t, 0, column, token);
  }

  lemma {:induction false} FindInKidsFound(t: Term, i: nat, column: string, token: string)
    requires i <= |t.terms| && FindInKids(t, i, column, token).None?
    ensures forall k :: i <= k < |t.terms| ==> NoTermOn(t.terms[k], column, token)
    decreases t, 0, |t.terms| - i
  {
    if i < |t.terms| {
      FindInTermFound(t.terms[i], column, token, false);
      FindInKidsFound(t, i + 1, column, token);
    }
  }

  /** A query whose first where term is `eq` on the partition column stays in one partition. */
  lemma SinglePartitionWhenFirstTermIsKey(index: Index, roots: seq<Term>)
    requires |index.columns| >= 1 && |roots| >= 1 && IsTermOn(roots[0], index.columns[0], "eq")
    ensures CrossPartition(Some(index), roots) == Ok(false)
  {
  }

  /** No `eq` on the partition column anywhere in the query means a cross-partition query. */
  lemma {:induction false} NoKeyTermMeansCrossPartition(index: Index, roots: seq<Term>)
    requires |index.columns| >= 1
    requires forall i :: 0 <= i < |roots| ==> NoTermOn(roots[i], index.columns[0], "eq")
    ensures CrossPartition(Some(index), roots) == Ok(true)
  {
    FindTermNone(roots, index.columns[0], "eq");
  }

  /** No term of the tree matches. */
  predicate NoTermOn(t: Term, column: string, token: string)
  {
    !IsTermOn(t, column, token) && forall i :: 0 <= i < |t.terms| ==> NoTermOn(t.terms[i], column, token)
  }

  lemma {:induction false} FindTermNone(roots: seq<Term>, column: string, token: string)
    requires forall i :: 0 <= i < |roots| ==> NoTermOn(roots[i], column, token)
    ensures FindTerm(roots, column, token).None?
    decreases |roots|
  {
    if |roots| > 0 {
      FindInTermNone(roots[0], column, token, true);
      FindTermNone(roots[1..], column, token);
    }
  }

  lemma {:induction false} FindInTermNone(t: Term, column: string, token: string, isRoot: bool)
    requires NoTermOn(t, column, token)
    ensures FindInTerm(t, column, token, isRoot).None?
    decreases t, 1, 0
  {
    FindInKidsNone(t, 0, column, token);
  }

  lemma {:induction false} FindInKidsNone(t: Term, i: nat, column: string, token: string)
    requires i <= |t.terms| && NoTermOn(t, column, token)
    ensures FindInKids(t, i, column, token).None?
    decreases t, 0, |t.terms| - i
  {
    if i < |t.terms| {
      FindInTermNone(t.terms[i], column, token, false);
      FindInKidsNone(t, i + 1, column, token);
    }
  }

  // ---------------------------------------------------------------------------
  // Removal of Cosmos system keys from result rows
  // ---------------------------------------------------------------------------

  /** Keys Cosmos adds to a document start with `_`. */
  predicate IsSystemKey(k: string)
  {
    |k| > 0 && k[0] == '_'
  }

  /** The row with every `_`-prefixed property dropped and the rest in order. */
  function WithoutSystemKeys(ps: Props): (r: Props)
    ensures forall i :: 0 <= i < |r| ==> !IsSystemKey(r[i].name) && r[i] in ps
    ensures forall p :: p in ps && !IsSystemKey(p.name) ==> p in r
  {
    if |ps| == 0 then []
    else (if IsSystemKey(ps[0].name) then [] else [ps[0]]) + WithoutSystemKeys(ps[1..])
  }

  predicate MatchesAny(ks: seq<string>, name: string)
  {
    exists j :: 0 <= j < |ks| && SameKey(ks[j], name)
  }

  /** The properties left once every key of `ks` has been removed. */
  function WithoutKeys(ps: Props, ks: seq<string>): Props
  {
    if |ps| == 0 then []
    else (if MatchesAny(ks, ps[0].name) then [] else [ps[0]]) + WithoutKeys(ps[1..], ks)
  }

  lemma {:induction false} RemoveKeyWithoutKeys(ps: Props, ks: seq<string>, k: string)
    ensures RemoveKey(WithoutKeys(ps, ks), k) == WithoutKeys(ps, ks + [k])
  {
    if |ps| > 0 {
      RemoveKeyWithoutKeys(ps[1..], ks, k);
      var p := ps[0];
      var head := if MatchesAny(ks, p.name) then [] else [p];
      assert MatchesAny(ks + [k], p.name) <==> MatchesAny(ks, p.name) || SameKey(k, p.name) by {
        if MatchesAny(ks, p.name) {
          var j :| 0 <= j < |ks| && SameKey(ks[j], p.name);
          assert (ks + [k])[j] == ks[j];
        }
        if SameKey(k, p.name) {
          assert (ks + [k])[|ks|] == k;
        }
      }
      RemoveKeyPrefix(head, WithoutKeys(ps[1..], ks), k);
    }
  }

  lemma RemoveKeyPrefix(head: Props, tail: Props, k: string)
    requires |head| <= 1
    ensures RemoveKey(head + tail, k) == RemoveKey(head, k) + RemoveKey(tail, k)
  {
    if |head| == 1 {
      assert (head + tail)[1..] == tail;
    } else {
      assert head + tail == tail;
    }
  }

  /** Case folding keeps a leading underscore, so a key matching a system key is one too. */
  lemma SameKeyKeepsSystem(a: string, b: string)
    requires SameKey(a, b) && IsSystemKey(a)
    ensures IsSystemKey(b)
  {
    LowerAt(a, 0);
    LowerAt(b, 0);
  }

  lemma {:induction false} WithoutSystemKeyNames(ps: Props, ks: seq<string>)
    requires forall j :: 0 <= j < |ks| ==> IsSystemKey(ks[j])
    requires forall i :: 0 <= i < |ps| && IsSystemKey(ps[i].name) ==> ps[i].name in ks
    ensures WithoutKeys(ps, ks) == WithoutSystemKeys(ps)
  {
    if |ps| > 0 {
      var p := ps[0];
      if IsSystemKey(p.name) {
        var j :| 0 <= j < |ks| && ks[j] == p.name;
        assert SameKey(ks[j], p.name);
      } else if MatchesAny(ks, p.name) {
        var j :| 0 <= j < |ks| && SameKey(ks[j], p.name);
        SameKeyKeepsSystem(ks[j], p.name);
      }
      WithoutSystemKeyNames(ps[1..], ks);
    }
  }

  /** The loop of `doSelect` that removes every key starting with `_` from a row node. */
  method StripSystemKeys(node: JSNode)
    requires node.Valid()
    modifies node
    ensures node.Valid()
    ensures node.properties == WithoutSystemKeys(old(node.properties))
  {
    var keys := KeySet(node.properties);
    ghost var removed: seq<string> := [];
    assert WithoutKeys(node.properties, []) == node.properties by {
      WithoutNoKeys(node.properties);
    }
    for i := 0 to |keys|
      invariant node.Valid()
      invariant node.properties == WithoutKeys(old(node.properties), removed)
      invariant forall j :: 0 <= j < |removed| ==> IsSystemKey(removed[j])
      invariant forall j :: 0 <= j < i && IsSystemKey(keys[j]) ==> keys[j] in removed
    {
      if IsSystemKey(keys[i]) {
        var _ := node.Remove(keys[i]);
        RemoveKeyWithoutKeys(old(node.properties), removed, keys[i]);
        removed := removed + [keys[i]];
      }
    }
    WithoutSystemKeyNames(old(node.properties), removed);
  }

  lemma {:induction false} WithoutNoKeys(ps: Props)
    ensures WithoutKeys(ps, []) == ps
  {
    if |ps| > 0 {
      WithoutNoKeys(ps[1..]);
      assert ps == [ps[0]] + ps[1..];
    }
  }
}
