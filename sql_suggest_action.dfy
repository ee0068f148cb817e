/**
 * `SqlSuggestAction`: type-ahead suggestions for `collection.property` names. It
 * checks the request, cleans the search text and builds one `SELECT DISTINCT`
 * per requested property, joined with `UNION` and ordered so that prefix matches
 * come first.
 *
 * `SqlUtils.check`, the collection lookup and the tenant filter come from code that is
 * not part of this model and are parameters: `check` either accepts a SQL fragment
 * (possibly rewriting it) or fails.
 */
module SqlSuggest {
  import opened Wrappers
  import opened Strings
  import opened Requests

  /** The three names the chain configuration can override. */
  datatype Config = Config(propertyProp: string, searchProp: string, tenantCol: string)

  /** What the action needs from the collection of the first property. */
  datatype SuggestCollection = SuggestCollection(tableName: string, dbName: string)

  /** The chain entries the action leaves for the `GET` handler: the db name and the SQL. */
  datatype Suggestion = Suggestion(db: string, select: string)

  /** `Utils.empty` on a request parameter: missing or the empty string. */
  predicate Empty(s: Option<string>) { s.None? || s.value == "" }

  const Union := " \r\nUNION "

  // ---------------------------------------------------------------------------
  // Search text
  // ---------------------------------------------------------------------------

  /** The search text: empty when missing, else trimmed and stripped of backticks, single and double quotes. */
  function Sanitize(value: Option<string>): (r: string)
    ensures '`' !in r && '\'' !in r && '"' !in r
    ensures Empty(value) ==> r == ""
    ensures |r| <= (if value.Some? then |value.value| else 0)
  {
    if Empty(value) then ""
    else
      var t := Trim(value.value);
      var a := RemoveChar(t, '`');
      var b := RemoveChar(a, '\'');
      RemoveChar(b, '"')
  }

  /** Every character of the original survives sanitising unless it is a quote or trimmed off the ends. */
  lemma {:induction false} SanitizeKeeps(value: string, c: char)
    requires value != "" && c !in "`'\""
    ensures c in Sanitize(Some(value)) <==> c in Trim(value)
  {
  }

  // ---------------------------------------------------------------------------
  // Whitelist
  // ---------------------------------------------------------------------------

  /** The lower-cased forms of the entries. */
  function LowerAll(xs: seq<string>): set<string>
  {
    set x | x in xs :: Lower(x)
  }

  lemma LowerAllSnoc(xs: seq<string>, x: string)
    ensures LowerAll(xs + [x]) == LowerAll(xs) + {Lower(x)}
  {
    var l, r := LowerAll(xs + [x]), LowerAll(xs) + {Lower(x)};
    forall y | y in l ensures y in r {
      var z :| z in xs + [x] && Lower(z) == y;
      if z != x {
        assert z in xs;
      }
    }
    forall y | y in r ensures y in l {
      if y != Lower(x) {
        var z :| z in xs && Lower(z) == y;
        assert z in xs + [x];
      } else {
        assert x in xs + [x];
      }
    }
  }

  /** The whitelist in force: the configured one, lower-cased and exploded on commas, else the action's own. */
  function EffectiveWhitelist(whitelistStr: Option<string>, whitelist: set<string>): set<string>
  {
    if whitelistStr.Some? then set x | x in Explode(Lower(whitelistStr.value), ',') else whitelist
  }

  /** The pieces of every argument of `withWhitelist(String...)`, exploded on commas, in order. */
  function ExplodeAll(ws: seq<string>): (r: seq<string>)
    ensures forall i :: 0 <= i < |r| ==> r[i] != "" && IsTrimmed(r[i])
  {
    if ws == [] then [] else Explode(ws[0], ',') + ExplodeAll(ws[1..])
  }

  /** The stored whitelist holds lower-case names only, so a lookup by `Lower(p)` is a case-insensitive match. */
  lemma WhitelistIgnoresCase(entries: seq<string>, p: string)
    ensures Lower(p) in LowerAll(entries) <==> exists e :: e in entries && EqualsIgnoreCase(p, e)
  {
    if Lower(p) in LowerAll(entries) {
      var e :| e in entries && Lower(e) == Lower(p);
      assert EqualsIgnoreCase(p, e);
    }
  }

  /** The action's whitelist, which it only ever stores lower-cased. */
  class SqlSuggestAction {
    var whitelist: set<string>

    constructor()
      ensures whitelist == {}
    {
      whitelist := {};
    }

    /** `setWhitelist`: clears the whitelist and adds every entry lower-cased. */
    method SetWhitelist(entries: seq<string>)
      modifies this
      ensures whitelist == LowerAll(entries)
      ensures forall w :: w in whitelist ==> Lower(w) == w
    {
      whitelist := {};
      for i := 0 to |entries|
        invariant whitelist == LowerAll(entries[..i])
      {
        assert entries[..i + 1] == entries[..i] + [entries[i]];
        LowerAllSnoc(entries[..i], entries[i]);
        whitelist := whitelist + {Lower(entries[i])};
      }
      assert entries[..|entries|] == entries;
      forall w | w in whitelist
        ensures Lower(w) == w
      {
        var x :| x in entries && Lower(x) == w;
        LowerIdempotent(x);
      }
    }

    /** `withWhitelist(String...)`: the same as `setWhitelist` on every comma-separated piece of the arguments. */
    method WithWhitelist(ws: seq<string>)
      modifies this
      ensures whitelist == LowerAll(ExplodeAll(ws))
      ensures forall w :: w in whitelist ==> Lower(w) == w
    {
      SetWhitelist(ExplodeAll(ws));
    }
  }

  // ---------------------------------------------------------------------------
  // SQL text
  // ---------------------------------------------------------------------------

  /** The part of `collection.property` after the first dot. */
  function Column(prop: string): (r: string)
    requires '.' in prop
    ensures |r| < |prop| && r == prop[|prop| - |r|..]
  {
    prop[IndexOfChar(prop, '.') + 1..]
  }

  function Header(searchProp: string): string
  {
    " SELECT DISTINCT " + searchProp + " \r\n FROM ("
  }

  function Footer(searchProp: string, value: string): string
  {
    " \r\n ) as v " + " \r\n ORDER BY CASE WHEN " + searchProp + " LIKE '" + value + "%' THEN 0 ELSE 1 END, " + searchProp
  }

  /** The text of one sub-select, once its table, column and value have been checked. */
  function SelectText(cfg: Config, table: string, column: string, value: string, tenant: Option<string>): string
  {
    " \r\nSELECT DISTINCT " + column + " AS " + cfg.searchProp + " FROM " + table + " WHERE " + column +
    " LIKE '%" + value + "%' AND " + column + " != ''" +
    (if tenant.Some? then " AND " + cfg.tenantCol + "=" + tenant.value else "")
  }

  const NotWhitelisted := "One of the properties you requested is not in the SuggestHandler whitelist, please edit your query or your config and try again"

  function NotDotted(propertyProp: string): string
  {
    "Query param '" + propertyProp + "' must be of the form '" + propertyProp + "=collection.property[,collection.property...]"
  }

  function MissingProperties(propertyProp: string): string
  {
    "Missing query param '" + propertyProp + "' which should be a comma separated list of collection.property names to query"
  }

  function UndottedProperties(propertyProp: string): string
  {
    "Query param '" + propertyProp + "' must be in the format '{collection}.{property}'"
  }

  /**
   * One property's sub-select: refused unless whitelisted (lower-cased) and dotted;
   * the table, column and value each go through `check`. `tenant` is the tenant id
   * when the api is multi-tenant and the table has the tenant column.
   */
  function SubSelect(cfg: Config, whitelist: set<string>, prop: string, table: string, value: string,
                     check: string -> Result<string>, tenant: Option<string>): (r: Result<string>)
    ensures r.Ok? ==> Lower(prop) in whitelist && '.' in prop
    ensures Lower(prop) !in whitelist ==> r.Err? && r.error.status == 400
    ensures Lower(prop) in whitelist && '.' !in prop ==> r.Err? && r.error.status == 400
  {
    if Lower(prop) !in whitelist then
      Err(Error(400, NotWhitelisted))
    else if '.' !in prop then
      Err(Error(400, NotDotted(cfg.propertyProp)))
    else
      var t :- check(table);
      var c :- check(Column(prop));
      var v :- check(value);
      Ok(SelectText(cfg, t, c, v, tenant))
  }

  /** `f` applied to every element in order, or the first failure. */
  function MapResult<A, B>(f: A -> Result<B>, xs: seq<A>): (r: Result<seq<B>>)
    ensures r.Ok? ==> |r.value| == |xs|
  {
    if xs == [] then Ok([])
    else
      var init :- MapResult(f, xs[..|xs| - 1]);
      var last :- f(xs[|xs| - 1]);
      Ok(init + [last])
  }

  /** A failure among the first elements is the failure of the whole sequence. */
  lemma {:induction false} MapResultErrorSticks<A, B>(f: A -> Result<B>, xs: seq<A>, k: nat)
    requires k <= |xs|
    requires MapResult(f, xs[..k]).Err?
    ensures MapResult(f, xs) == MapResult(f, xs[..k])
    decreases |xs| - k
  {
    if k < |xs| {
      assert xs[..k + 1][..k] == xs[..k];
      MapResultErrorSticks(f, xs, k + 1);
    } else {
      assert xs[..k] == xs;
    }
  }

  /** The sequence maps exactly when every element does, and then to their images, in order. */
  lemma {:induction false} MapResultOk<A, B>(f: A -> Result<B>, xs: seq<A>)
    ensures MapResult(f, xs).Ok? <==> forall i :: 0 <= i < |xs| ==> f(xs[i]).Ok?
    ensures MapResult(f, xs).Ok? ==> forall i :: 0 <= i < |xs| ==> MapResult(f, xs).value[i] == f(xs[i]).value
    decreases |xs|
  {
    if xs != [] {
      var init := xs[..|xs| - 1];
      MapResultOk(f, init);
      assert forall i :: 0 <= i < |init| ==> init[i] == xs[i];
    }
  }

  /** The sub-selects of all properties, in order, or the first failure. */
  function SubSelects(cfg: Config, whitelist: set<string>, props: seq<string>, table: string, value: string,
                      check: string -> Result<string>, tenant: Option<string>): (r: Result<seq<string>>)
    ensures r.Ok? ==> |r.value| == |props|
  {
    MapResult(SubSelectOf(cfg, whitelist, table, value, check, tenant), props)
  }

  /** `SubSelect` with everything but the property fixed. */
  function SubSelectOf(cfg: Config, whitelist: set<string>, table: string, value: string,
                       check: string -> Result<string>, tenant: Option<string>): string -> Result<string>
  {
    p => SubSelect(cfg, whitelist, p, table, value, check, tenant)
  }

  /** The whole query: the header, the sub-selects joined with `UNION`, then the ordering. */
  function SelectSql(cfg: Config, whitelist: set<string>, props: seq<string>, table: string, value: string,
                     check: string -> Result<string>, tenant: Option<string>): (r: Result<string>)
  {
    var parts :- SubSelects(cfg, whitelist, props, table, value, check, tenant);
    var v :- check(value);
    Ok(Header(cfg.searchProp) + Join(Union, parts) + Footer(cfg.searchProp, v))
  }

  /** The loop of `run` that appends the sub-selects and the `UNION`s between them. */
  method BuildSql(cfg: Config, whitelist: set<string>, props: seq<string>, table: string, value: string,
                  check: string -> Result<string>, tenant: Option<string>) returns (r: Result<string>)
    ensures r == SelectSql(cfg, whitelist, props, table, value, check, tenant)
  {
    var sql := Header(cfg.searchProp);
    ghost var f := SubSelectOf(cfg, whitelist, table, value, check, tenant);
    ghost var parts: seq<string> := [];
    for i := 0 to |props|
      invariant MapResult(f, props[..i]) == Ok(parts)
      invariant sql == Header(cfg.searchProp) + Join(Union, parts) + (if 0 < i < |props| then Union else "")
    {
      assert props[..i + 1][..i] == props[..i];
      var part := SubSelect(cfg, whitelist, props[i], table, value, check, tenant);
      assert f(props[i]) == part;
      if part.Err? {
        assert MapResult(f, props[..i + 1]) == Err(part.error);
        MapResultErrorSticks(f, props, i + 1);
        assert SubSelects(cfg, whitelist, props, table, value, check, tenant) == Err(part.error);
        return Err(part.error);
      }
      AppendPart(sql, cfg.searchProp, parts, part.value, i, |props|);
      parts := parts + [part.value];
      sql := sql + part.value;
      if i + 1 < |props| {
        sql := sql + Union;
      }
    }
    assert props[..|props|] == props;
    assert SubSelects(cfg, whitelist, props, table, value, check, tenant) == Ok(parts);
    var v := check(value);
    if v.Err? {
      return Err(v.error);
    }
    assert sql == Header(cfg.searchProp) + Join(Union, parts);
    r := Ok(sql + Footer(cfg.searchProp, v.value));
  }

  lemma AppendPart(sql: string, searchProp: string, parts: seq<string>, part: string, i: nat, n: nat)
    requires |parts| == i < n
    requires sql == Header(searchProp) + Join(Union, parts) + (if 0 < i then Union else "")
    ensures sql + part == Header(searchProp) + Join(Union, parts + [part])
  {
    if i > 0 {
      JoinSnoc(Union, parts, part);
    } else {
      assert parts + [part] == [part];
    }
  }

  /**
   * `run`: the request checks in source order, the search text, then the rest on
   * the exploded property list. `getCollection` is `Api.getCollection`.
   */
  function Suggest(cfg: Config, whitelistStr: Option<string>, whitelist: set<string>,
                   properties: Option<string>, value: Option<string>,
                   getCollection: string -> Option<SuggestCollection>,
                   check: string -> Result<string>, tenant: Option<string>): (r: Result<Suggestion>)
  {
    if Empty(properties) then
      Err(Error(400, MissingProperties(cfg.propertyProp)))
    else if '.' !in properties.value then
      Err(Error(400, UndottedProperties(cfg.propertyProp)))
    else
      SuggestFor(cfg, EffectiveWhitelist(whitelistStr, whitelist), Explode(properties.value, ','), Sanitize(value),
                 getCollection, check, tenant)
  }

  /** The rest of `run`: the collection of the first property, then the query over its table. */
  function SuggestFor(cfg: Config, allowed: set<string>, props: seq<string>, value: string,
                      getCollection: string -> Option<SuggestCollection>,
                      check: string -> Result<string>, tenant: Option<string>): (r: Result<Suggestion>)
  {
    if props == [] then Err(Error(500, "IndexOutOfBoundsException: no property"))
    else
      var dot := IndexOfChar(props[0], '.');
      if dot < 0 then Err(Error(500, "StringIndexOutOfBoundsException: the first property has no '.'"))
      else
        var key := props[0][..dot];
        var coll := getCollection(key);
        if coll.None? then Err(Error(404, "Collection '" + key + "' could not be found"))
        else
          var sql :- SelectSql(cfg, allowed, props, coll.value.tableName, value, check, tenant);
          Ok(Suggestion(coll.value.dbName, sql))
  }

  /** Whether `run` gets past its two checks of the property list. */
  predicate PropertiesAccepted(properties: Option<string>)
  {
    !Empty(properties) && '.' in properties.value
  }

  /**
   * `run` on the request's parameters: the property list is taken off the request
   * first, the search text only once the list passed its checks, and `tenantId`
   * only when a query was built, so that the `GET` handler adds no second tenant
   * filter. The answer is `Suggest` of what was taken off.
   */
  method Run(cfg: Config, whitelistStr: Option<string>, whitelist: set<string>, req: Request,
             getCollection: string -> Option<SuggestCollection>,
             check: string -> Result<string>, tenant: Option<string>) returns (r: Result<Suggestion>)
    modifies req
    ensures var properties := Lookup(old(req.params), cfg.propertyProp);
            var value := Lookup(old(req.params) - {cfg.propertyProp}, cfg.searchProp);
            r == Suggest(cfg, whitelistStr, whitelist, properties, value, getCollection, check, tenant)
    ensures !PropertiesAccepted(Lookup(old(req.params), cfg.propertyProp)) ==>
              req.params == old(req.params) - {cfg.propertyProp}
    ensures PropertiesAccepted(Lookup(old(req.params), cfg.propertyProp)) && r.Err? ==>
              req.params == old(req.params) - {cfg.propertyProp} - {cfg.searchProp}
    ensures r.Ok? ==> req.params == old(req.params) - {cfg.propertyProp} - {cfg.searchProp} - {"tenantId"}
  {
    var properties := req.RemoveParam(cfg.propertyProp);
    r := RunChecked(cfg, whitelistStr, whitelist, properties, req, getCollection, check, tenant);
  }

  /** `run` once the property list is off the request: its checks, then the rest. */
  method RunChecked(cfg: Config, whitelistStr: Option<string>, whitelist: set<string>, properties: Option<string>,
                    req: Request, getCollection: string -> Option<SuggestCollection>,
                    check: string -> Result<string>, tenant: Option<string>) returns (r: Result<Suggestion>)
    modifies req
    ensures r == Suggest(cfg, whitelistStr, whitelist, properties, Lookup(old(req.params), cfg.searchProp),
                         getCollection, check, tenant)
    ensures !PropertiesAccepted(properties) ==> req.params == old(req.params)
    ensures PropertiesAccepted(properties) && r.Err? ==> req.params == old(req.params) - {cfg.searchProp}
    ensures r.Ok? ==> req.params == old(req.params) - {cfg.searchProp} - {"tenantId"}
  {
    if Empty(properties) {
      r := Err(Error(400, MissingProperties(cfg.propertyProp)));
    } else if '.' !in properties.value {
      r := Err(Error(400, UndottedProperties(cfg.propertyProp)));
    } else {
      ghost var value := Lookup(req.params, cfg.searchProp);
      r := RunAccepted(cfg, EffectiveWhitelist(whitelistStr, whitelist), properties.value, req, getCollection, check, tenant);
      SuggestAccepted(cfg, whitelistStr, whitelist, properties, value, getCollection, check, tenant);
    }
  }

  /** `run` once the property list passed its checks: the search text comes off the request, and `tenantId` on success. */
  method RunAccepted(cfg: Config, allowed: set<string>, properties: string, req: Request,
                     getCollection: string -> Option<SuggestCollection>,
                     check: string -> Result<string>, tenant: Option<string>) returns (r: Result<Suggestion>)
    modifies req
    ensures r == SuggestFor(cfg, allowed, Explode(properties, ','), Sanitize(Lookup(old(req.params), cfg.searchProp)),
                            getCollection, check, tenant)
    ensures r.Err? ==> req.params == old(req.params) - {cfg.searchProp}
    ensures r.Ok? ==> req.params == old(req.params) - {cfg.searchProp} - {"tenantId"}
  {
    var value := req.RemoveParam(cfg.searchProp);
    r := RunFor(cfg, allowed, Explode(properties, ','), Sanitize(value), getCollection, check, tenant);
    if r.Ok? {
      var _ := req.RemoveParam("tenantId");
    }
  }

  /** The rest of `run`, from the first property's collection to the chain entries. */
  method RunFor(cfg: Config, allowed: set<string>, props: seq<string>, value: string,
                getCollection: string -> Option<SuggestCollection>,
                check: string -> Result<string>, tenant: Option<string>) returns (r: Result<Suggestion>)
    ensures r == SuggestFor(cfg, allowed, props, value, getCollection, check, tenant)
  {
    if props == [] {
      return Err(Error(500, "IndexOutOfBoundsException: no property"));
    }
    var dot := IndexOfChar(props[0], '.');
    if dot < 0 {
      return Err(Error(500, "StringIndexOutOfBoundsException: the first property has no '.'"));
    }
    var key := props[0][..dot];
    var coll := getCollection(key);
    if coll.None? {
      return Err(Error(404, "Collection '" + key + "' could not be found"));
    }
    var sql := BuildSql(cfg, allowed, props, coll.value.tableName, value, check, tenant);
    if sql.Err? {
      return Err(sql.error);
    }
    r := Ok(Suggestion(coll.value.dbName, sql.value));
  }

  // ---------------------------------------------------------------------------
  // Properties
  // ---------------------------------------------------------------------------

  /** A missing or empty property list is a 400, and so is one without a dot. */
  lemma BadPropertiesRejected(cfg: Config, whitelistStr: Option<string>, whitelist: set<string>,
                              properties: Option<string>, value: Option<string>,
                              getCollection: string -> Option<SuggestCollection>,
                              check: string -> Result<string>, tenant: Option<string>)
    requires Empty(properties) || '.' !in properties.value
    ensures var r := Suggest(cfg, whitelistStr, whitelist, properties, value, getCollection, check, tenant);
            r.Err? && r.error.status == 400
  {
  }

  /**
   * Once the property list passed its checks, it explodes to at least one piece:
   * the dot survives the trim. So the `IndexOutOfBoundsException` branch of
   * `SuggestFor` is never reached from `Suggest`.
   */
  lemma AcceptedPropertiesNotEmpty(properties: Option<string>)
    requires PropertiesAccepted(properties)
    ensures Explode(properties.value, ',') != []
  {
    ExplodeNonWhite(properties.value, ',', '.');
  }

  /**
   * The dot check looks at the whole list, not at its first piece: a list such as
   * `x,orders.name` passes it, and then taking the collection key of `x` fails.
   */
  lemma UndottedFirstPropertyFails(cfg: Config, whitelistStr: Option<string>, whitelist: set<string>,
                                   first: string, rest: string, value: Option<string>,
                                   getCollection: string -> Option<SuggestCollection>,
                                   check: string -> Result<string>, tenant: Option<string>)
    requires IsSegment(first, ',') && '.' !in first
    requires IsSegment(rest, ',') && '.' in rest
    ensures PropertiesAccepted(Some(first + "," + rest))
    ensures Suggest(cfg, whitelistStr, whitelist, Some(first + "," + rest), value, getCollection, check, tenant)
         == Err(Error(500, "StringIndexOutOfBoundsException: the first property has no '.'"))
  {
    var p := first + "," + rest;
    var xs := [first, rest];
    assert Join([','], xs) == p;
    ExplodeJoin(xs, ',');
    var i := IndexOfChar(rest, '.');
    assert p[|first| + 1 + i] == rest[i];
    SuggestAccepted(cfg, whitelistStr, whitelist, Some(p), value, getCollection, check, tenant);
    UndottedFirst(cfg, EffectiveWhitelist(whitelistStr, whitelist), xs, Sanitize(value),
                  getCollection, check, tenant);
  }

  /** Past its two checks, `run` goes on with the exploded list and the sanitised search text. */
  lemma SuggestAccepted(cfg: Config, whitelistStr: Option<string>, whitelist: set<string>,
                        properties: Option<string>, value: Option<string>,
                        getCollection: string -> Option<SuggestCollection>,
                        check: string -> Result<string>, tenant: Option<string>)
    requires PropertiesAccepted(properties)
    ensures Suggest(cfg, whitelistStr, whitelist, properties, value, getCollection, check, tenant)
         == SuggestFor(cfg, EffectiveWhitelist(whitelistStr, whitelist), Explode(properties.value, ','),
                       Sanitize(value), getCollection, check, tenant)
  {
  }

  /** A first property without a dot fails when its collection key is taken. */
  lemma UndottedFirst(cfg: Config, allowed: set<string>, props: seq<string>, value: string,
                      getCollection: string -> Option<SuggestCollection>,
                      check: string -> Result<string>, tenant: Option<string>)
    requires props != [] && '.' !in props[0]
    ensures SuggestFor(cfg, allowed, props, value, getCollection, check, tenant)
         == Err(Error(500, "StringIndexOutOfBoundsException: the first property has no '.'"))
  {
  }

  /** An unknown collection for the first property is a 404 naming it. */
  lemma UnknownCollection(cfg: Config, whitelistStr: Option<string>, whitelist: set<string>,
                          properties: string, value: Option<string>,
                          getCollection: string -> Option<SuggestCollection>,
                          check: string -> Result<string>, tenant: Option<string>)
    requires properties != "" && '.' in properties
    requires var props := Explode(properties, ',');
             props != [] && '.' in props[0] && getCollection(props[0][..IndexOfChar(props[0], '.')]).None?
    ensures var r := Suggest(cfg, whitelistStr, whitelist, Some(properties), value, getCollection, check, tenant);
            var props := Explode(properties, ',');
            r == Err(Error(404, "Collection '" + props[0][..IndexOfChar(props[0], '.')] + "' could not be found"))
  {
  }

  /**
   * A suggestion is the query over the first property's table, built with the
   * effective whitelist and the sanitised search text, handed to that property's db.
   */
  lemma SuggestionUsesFirstTable(cfg: Config, allowed: set<string>, props: seq<string>, value: string,
                                 getCollection: string -> Option<SuggestCollection>,
                                 check: string -> Result<string>, tenant: Option<string>)
    requires SuggestFor(cfg, allowed, props, value, getCollection, check, tenant).Ok?
    ensures props != [] && '.' in props[0]
    ensures var coll := getCollection(props[0][..IndexOfChar(props[0], '.')]);
            coll.Some? &&
            var sql := SelectSql(cfg, allowed, props, coll.value.tableName, value, check, tenant);
            sql.Ok? && SuggestFor(cfg, allowed, props, value, getCollection, check, tenant).value == Suggestion(coll.value.dbName, sql.value)
  {
  }

  /**
   * A query is only ever built from whitelisted, dotted properties: one sub-select
   * per property, in order, joined with `UNION` between the header and the ordering.
   */
  lemma SelectSqlShape(cfg: Config, whitelist: set<string>, props: seq<string>, table: string, value: string,
                       check: string -> Result<string>, tenant: Option<string>)
    requires SelectSql(cfg, whitelist, props, table, value, check, tenant).Ok?
    ensures forall i :: 0 <= i < |props| ==> Lower(props[i]) in whitelist && '.' in props[i]
    ensures var parts := SubSelects(cfg, whitelist, props, table, value, check, tenant);
            parts.Ok? && |parts.value| == |props| &&
            (forall i :: 0 <= i < |props| ==> SubSelect(cfg, whitelist, props[i], table, value, check, tenant) == Ok(parts.value[i])) &&
            SelectSql(cfg, whitelist, props, table, value, check, tenant).value ==
              Header(cfg.searchProp) + Join(Union, parts.value) + Footer(cfg.searchProp, check(value).value)
  {
    var f := SubSelectOf(cfg, whitelist, table, value, check, tenant);
    MapResultOk(f, props);
    forall i | 0 <= i < |props|
      ensures Lower(props[i]) in whitelist && '.' in props[i]
    {
      assert f(props[i]).Ok?;
    }
  }

  /** When `check` accepts fragments unchanged, each sub-select reads the first property's table and its own column. */
  lemma SubSelectText(cfg: Config, whitelist: set<string>, prop: string, table: string, value: string, tenant: Option<string>)
    requires Lower(prop) in whitelist && '.' in prop
    ensures SubSelect(cfg, whitelist, prop, table, value, s => Ok(s), tenant) ==
            Ok(SelectText(cfg, table, Column(prop), value, tenant))
  {
  }
}
