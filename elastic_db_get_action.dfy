/**
 * The parts of the Elasticsearch `GET` action that do not talk to the server:
 * the `wantedpage` adjustment, the search URL, the paging `meta` block with its
 * `prev`/`next` links, the sort-value "start" string, and the flattening of hits
 * into the response's `data` array.
 *
 * `ElasticRql.MAX_NORMAL_ELASTIC_QUERY_SIZE` is the parameter `max` throughout.
 */
module ElasticDbGetAction {
  import opened Wrappers
  import opened Strings
  import opened JsonValues
  import opened Requests

  /** The action's `maxRows`: the page size used when the request gives a negative one. */
  const MaxRows := 100

  // ---------------------------------------------------------------------------
  // Page adjustment
  // ---------------------------------------------------------------------------

  /** The number of whole pages of `pageSize` rows that fit in the first `max` rows. */
  function PagesWithin(pageSize: int, max: int): (n: int)
    requires pageSize > 0
    ensures n >= 0
    ensures n == 0 || n * pageSize <= max
    ensures max < (n + 1) * pageSize
  {
    if max < 0 then 0
    else
      var q := max / pageSize;
      assert q * pageSize + max % pageSize == max;
      assert (q + 1) * pageSize == q * pageSize + pageSize;
      q
  }

  /** No page beyond `PagesWithin` ends inside the window. */
  lemma PagesWithinIsLargest(pageSize: int, max: int, k: int)
    requires pageSize > 0 && k >= 1 && k * pageSize <= max
    ensures k <= PagesWithin(pageSize, max)
  {
    MulLess(k, PagesWithin(pageSize, max) + 1, pageSize);
  }

  /** The loop in `doGet` that counts pages up to the window, and stops one past the last. */
  method CountPagesWithin(pageSize: int, max: int) returns (n: int)
    requires pageSize > 0
    ensures n == PagesWithin(pageSize, max)
  {
    var newPageNum := 1;
    while newPageNum * pageSize <= max
      invariant newPageNum >= 1
      invariant newPageNum == 1 || (newPageNum - 1) * pageSize <= max
      decreases max - newPageNum * pageSize
    {
      assert (newPageNum + 1) * pageSize == newPageNum * pageSize + pageSize;
      newPageNum := newPageNum + 1;
    }
    n := newPageNum - 1;
    PagesWithinUnique(pageSize, max, n);
  }

  lemma MulLess(a: int, b: int, c: int)
    requires c > 0 && a * c < b * c
    ensures a < b
  {
    assert (b - a) * c == b * c - a * c;
  }

  /** `PagesWithin` is the only count with its two bounds. */
  lemma PagesWithinUnique(pageSize: int, max: int, n: int)
    requires pageSize > 0 && n >= 0
    requires n == 0 || n * pageSize <= max
    requires max < (n + 1) * pageSize
    ensures n == PagesWithin(pageSize, max)
  {
    var m := PagesWithin(pageSize, max);
    if m > 0 {
      MulLess(m, n + 1, pageSize);
    }
    if n > 0 {
      MulLess(n, m + 1, pageSize);
    }
  }

  /**
   * The page `doGet` asks for once a `wantedpage` is known (ElasticDbGetAction.java, lines 122-145): the wanted
   * page when it lies inside the window; otherwise, when going backwards, the last
   * page inside the window; otherwise the requested page.
   */
  method AdjustPage(wanted: Option<int>, pageNum: int, pageSize: int, max: int) returns (r: int)
    requires wanted.Some? && wanted.value * pageSize > max && wanted.value < pageNum ==> pageSize > 0
    ensures wanted.None? ==> r == pageNum
    ensures wanted.Some? && wanted.value * pageSize <= max ==> r == wanted.value
    ensures wanted.Some? && wanted.value * pageSize > max && wanted.value < pageNum ==>
              r == PagesWithin(pageSize, max)
    ensures wanted.Some? && wanted.value * pageSize > max && wanted.value >= pageNum ==> r == pageNum
  {
    r := pageNum;
    if wanted.Some? {
      if wanted.value * pageSize <= max {
        r := wanted.value;
      } else if wanted.value < pageNum {
        r := CountPagesWithin(pageSize, max);
      }
    }
  }

  /**
   * ElasticDbGetAction.java, lines 108-118: takes `wantedpage` off the request; when it points before the
   * requested `pagenum`, the `start` and `prevstart` cursors are dropped as well.
   * `toInt` is `ElasticRql.toInt`.
   */
  method TakeWantedPage(req: Request, toInt: Option<string> -> int) returns (wanted: Option<int>)
    modifies req
    ensures "wantedpage" in old(req.params) <==> wanted.Some?
    ensures wanted.None? ==> req.params == old(req.params)
    ensures wanted.Some? ==> wanted.value == toInt(Some(old(req.params)["wantedpage"]))
    ensures wanted.Some? && wanted.value < toInt(Lookup(old(req.params), "pagenum")) ==>
              req.params == old(req.params) - {"wantedpage", "start", "prevstart"}
    ensures wanted.Some? && wanted.value >= toInt(Lookup(old(req.params), "pagenum")) ==>
              req.params == old(req.params) - {"wantedpage"}
  {
    wanted := None;
    if "wantedpage" in req.params {
      var raw := req.RemoveParam("wantedpage");
      wanted := Some(toInt(raw));
      assert Lookup(req.params, "pagenum") == Lookup(old(req.params), "pagenum");
      if wanted.value < toInt(Lookup(req.params, "pagenum")) {
        var _ := req.RemoveParam("start");
        var _ := req.RemoveParam("prevstart");
      }
    }
  }

  // ---------------------------------------------------------------------------
  // Search URL
  // ---------------------------------------------------------------------------

  /** The index-and-type part of the search URL. */
  function IndexAndType(table: string, paths: seq<string>): string
  {
    if |paths| < 3 then "/" + table + "/_doc/"
    else if Lower(paths[2]) == "no-type" then "/" + table + "/"
    else "/" + table + "/" + paths[2] + "/"
  }

  /**
   * `buildSearchUrlAndHeaders`: the `_search` URL of the table's index, and the
   * header list with `Content-Type: application/json` added.
   */
  function SearchUrlAndHeaders(dbUrl: string, table: string, paths: seq<string>, headers: seq<(string, string)>)
    : (r: (string, seq<(string, string)>))
    ensures r.1 == headers + [("Content-Type", "application/json")]
    ensures StartsWith(r.0, dbUrl + "/" + table + "/")
  {
    (dbUrl + IndexAndType(table, paths) + "_search", headers + [("Content-Type", "application/json")])
  }

  /** The segments after the database URL: the index, then the type unless it is `no-type`, then `_search`. */
  function SearchSegments(table: string, paths: seq<string>): seq<string>
  {
    if |paths| < 3 then ["", table, "_doc", "_search"]
    else if Lower(paths[2]) == "no-type" then ["", table, "_search"]
    else ["", table, paths[2], "_search"]
  }

  /**
   * The three shapes of the search URL: splitting what follows the database URL on
   * `/` gives back the index, the type (`_doc` by default, none for `no-type`) and `_search`.
   */
  lemma SearchUrlSegments(dbUrl: string, table: string, paths: seq<string>, headers: seq<(string, string)>)
    requires '/' !in table
    requires |paths| >= 3 ==> '/' !in paths[2]
    ensures var url := SearchUrlAndHeaders(dbUrl, table, paths, headers).0;
            StartsWith(url, dbUrl) && SplitOn(url[|dbUrl|..], '/') == SearchSegments(table, paths)
  {
    var url := SearchUrlAndHeaders(dbUrl, table, paths, headers).0;
    var tail := IndexAndType(table, paths) + "_search";
    assert url == dbUrl + tail;
    assert url[..|dbUrl|] == dbUrl && url[|dbUrl|..] == tail;
    if |paths| < 3 {
      DefaultTypeSegments(table);
    } else if Lower(paths[2]) == "no-type" {
      NoTypeSegments(table);
    } else {
      NamedTypeSegments(table, paths[2]);
    }
  }

  lemma DefaultTypeSegments(table: string)
    requires '/' !in table
    ensures SplitOn("/" + table + "/_doc/" + "_search", '/') == ["", table, "_doc", "_search"]
  {
    assert "/" + table + "/_doc/" + "_search" == "" + "/" + table + "/" + "_doc" + "/" + "_search";
    SplitFour("", table, "_doc", "_search");
  }

  lemma NoTypeSegments(table: string)
    requires '/' !in table
    ensures SplitOn("/" + table + "/" + "_search", '/') == ["", table, "_search"]
  {
    assert "/" + table + "/" + "_search" == "" + "/" + table + "/" + "_search";
    SplitThree("", table, "_search");
  }

  lemma NamedTypeSegments(table: string, typ: string)
    requires '/' !in table && '/' !in typ
    ensures SplitOn("/" + table + "/" + typ + "/" + "_search", '/') == ["", table, typ, "_search"]
  {
    assert "/" + table + "/" + typ + "/" + "_search" == "" + "/" + table + "/" + typ + "/" + "_search";
    SplitFour("", table, typ, "_search");
  }

  lemma SplitThree(a: string, b: string, c: string)
    requires '/' !in a && '/' !in b && '/' !in c
    ensures SplitOn(a + "/" + b + "/" + c, '/') == [a, b, c]
  {
    JoinThree(a, b, c);
    SplitOnJoin([a, b, c], '/');
  }

  lemma SplitFour(a: string, b: string, c: string, d: string)
    requires '/' !in a && '/' !in b && '/' !in c && '/' !in d
    ensures SplitOn(a + "/" + b + "/" + c + "/" + d, '/') == [a, b, c, d]
  {
    JoinFour(a, b, c, d);
    SplitOnJoin([a, b, c, d], '/');
  }

  lemma JoinThree(a: string, b: string, c: string)
    ensures Join("/", [a, b, c]) == a + "/" + b + "/" + c
  {
    assert [a, b, c][1..] == [b, c];
    assert [b, c][1..] == [c];
    assert Join("/", [b, c]) == b + "/" + c;
    assert Join("/", [a, b, c]) == a + "/" + (b + "/" + c);
  }

  lemma JoinFour(a: string, b: string, c: string, d: string)
    ensures Join("/", [a, b, c, d]) == a + "/" + b + "/" + c + "/" + d
  {
    assert [a, b, c, d][1..] == [b, c, d];
    JoinThree(b, c, d);
    assert Join("/", [a, b, c, d]) == a + "/" + (b + "/" + c + "/" + d);
  }

  // ---------------------------------------------------------------------------
  // The start string of a page
  // ---------------------------------------------------------------------------

  /**
   * One entry of `srcObjectFieldsToStringBySortList`: the field's value lower-cased
   * when the source is a node holding it, the source itself when it is a string, and
   * `[NULL]` otherwise. `show` is the JSON text of a nested node or array.
   */
  function SortEntry(source: Value, field: string, show: Value -> string): (r: string)
    ensures source.Obj? && Get(source.props, field).Scalar? ==> r == Lower(Get(source.props, field).text)
    ensures (source.Obj? && Get(source.props, field).Null?) || source.Null? ==> r == "[NULL]"
    ensures source.Scalar? && source.cls == "String" ==> r == source.text
  {
    if source.Obj? && !Get(source.props, field).Null? then
      var v := Get(source.props, field);
      Lower(if v.Scalar? then v.text else show(v))
    else if source.Scalar? && source.cls == "String" then source.text
    else "[NULL]"
  }

  /** The entries, one per sort field, in sort order. */
  function SortEntries(source: Value, sortList: seq<string>, show: Value -> string): (r: seq<string>)
    ensures |r| == |sortList|
    ensures forall i :: 0 <= i < |r| ==> r[i] == SortEntry(source, sortList[i], show)
  {
    if sortList == [] then [] else [SortEntry(source, sortList[0], show)] + SortEntries(source, sortList[1..], show)
  }

  /** `srcObjectFieldsToStringBySortList`, collecting the entries in a list and joining them with commas. */
  method SortString(source: Value, sortList: seq<string>, show: Value -> string) returns (r: string)
    ensures r == Join(",", SortEntries(source, sortList, show))
  {
    var list: seq<string> := [];
    for i := 0 to |sortList|
      invariant list == SortEntries(source, sortList[..i], show)
    {
      assert sortList[..i + 1] == sortList[..i] + [sortList[i]];
      SortEntriesSnoc(source, sortList[..i], sortList[i], show);
      list := list + [SortEntry(source, sortList[i], show)];
    }
    assert sortList[..|sortList|] == sortList;
    r := Join(",", list);
  }

  lemma SortEntriesSnoc(source: Value, fields: seq<string>, f: string, show: Value -> string)
    ensures SortEntries(source, fields + [f], show) == SortEntries(source, fields, show) + [SortEntry(source, f, show)]
  {
  }

  /**
   * The start string holds one entry per sort field: splitting it on commas gives the
   * entries back whenever none of them holds a comma.
   */
  lemma SortStringSplits(source: Value, sortList: seq<string>, show: Value -> string)
    requires |sortList| >= 1
    requires forall i :: 0 <= i < |sortList| ==> ',' !in SortEntry(source, sortList[i], show)
    ensures SplitOn(Join(",", SortEntries(source, sortList, show)), ',') == SortEntries(source, sortList, show)
    ensures |SplitOn(Join(",", SortEntries(source, sortList, show)), ',')| == |sortList|
  {
    SplitOnJoin(SortEntries(source, sortList, show), ',');
  }

  // ---------------------------------------------------------------------------
  // Paging meta block
  // ---------------------------------------------------------------------------

  /** The `meta` node, field by field in the order `buildMeta` puts them. */
  datatype Meta = Meta(rowCount: int, pageNum: int, pageSize: int, pageCount: int, prev: Option<string>, next: Option<string>)

  /**
   * What `buildMeta` reads from the query DSL and from the server:
   * the source text of each where term, the sort fields, the requested sources, the
   * `prevstart` cursor, the `search_after` text, and the `_source` of the last hit of
   * the reverse query that looks up the previous page's cursor (`None` when that
   * query fails or finds nothing).
   */
  datatype LinkContext = LinkContext(
    whereSrcs: seq<string>,
    sortList: seq<string>,
    sources: Option<seq<string>>,
    previousStart: Option<string>,
    searchAfter: string,
    reverseLast: Option<Value>)

  /** Java's `(int) Math.ceil((double) totalHits / size)` for a size that is not negative. */
  function PageCount(totalHits: int, size: int): (pages: int)
    requires size >= 0
    ensures size > 0 ==> totalHits <= pages * size && (pages - 1) * size < totalHits
    ensures size == 0 ==> pages == (if totalHits > 0 then 0x7fff_ffff else if totalHits == 0 then 0 else -0x8000_0000)
  {
    if size == 0 then
      if totalHits > 0 then 0x7fff_ffff else if totalHits == 0 then 0 else -0x8000_0000
    else
      var q := (-totalHits) / size;
      assert q * size + (-totalHits) % size == -totalHits;
      assert (-q - 1) * size == -(q * size) - size;
      -q
  }

  /** The ceiling is the least page count that covers every hit. */
  lemma PageCountIsLeast(totalHits: int, size: int, p: int)
    requires size > 0 && totalHits <= p * size
    ensures PageCount(totalHits, size) <= p
  {
    var pages := PageCount(totalHits, size);
    MulLess(pages - 1, p, size);
  }

  predicate HasTenant(src: string) { Contains(src, "tenantid") }

  /** The where terms that go back into the links: all but those that mention `tenantid`, in order. */
  function QueryTerms(srcs: seq<string>): (r: seq<string>)
    ensures forall i :: 0 <= i < |r| ==> !HasTenant(r[i]) && r[i] in srcs
    ensures forall s :: s in srcs && !HasTenant(s) ==> s in r
    ensures |r| <= |srcs|
  {
    if srcs == [] then []
    else QueryTerms(srcs[..|srcs| - 1]) + (if HasTenant(srcs[|srcs| - 1]) then [] else [srcs[|srcs| - 1]])
  }

  /** The `apiUrl` without one trailing `/`. */
  function TrimSlash(apiUrl: string): string
  {
    if |apiUrl| > 0 && apiUrl[|apiUrl| - 1] == '/' then apiUrl[..|apiUrl| - 1] else apiUrl
  }

  /** The link every `prev`/`next` URL extends: the query, the page size, the sort and the sources. */
  function BaseUrl(apiUrl: string, size: int, ctx: LinkContext): (r: string)
    ensures StartsWith(r, TrimSlash(apiUrl) + "?" + Join("&", QueryTerms(ctx.whereSrcs)) + "&pageSize=" + IntToString(size))
  {
    var head := TrimSlash(apiUrl) + "?" + Join("&", QueryTerms(ctx.whereSrcs)) + "&pageSize=" + IntToString(size);
    assert StartsWith(head, head) by { assert head[..|head|] == head; }
    StartsWithAppend(head, head, "&sort=");
    StartsWithAppend(head + "&sort=", head, Join(",", ctx.sortList));
    var url := if |ctx.sortList| > 0 then head + "&sort=" + Join(",", ctx.sortList) else head;
    StartsWithAppend(url, head, "&source=");
    if ctx.sources.Some? then
      StartsWithAppend(url + "&source=", head, Join(",", ctx.sources.value));
      url + "&source=" + Join(",", ctx.sources.value)
    else url
  }

  function PageLink(url: string, page: int): string
  {
    url + "&pageNum=" + IntToString(page)
  }

  /** `Java`'s text for a possibly-null start string. */
  function StartText(source: Value, sortList: seq<string>, show: Value -> string): string
  {
    if source.Null? then "null" else Join(",", SortEntries(source, sortList, show))
  }

  /** The `prev` link once the next page lies beyond the window (ElasticDbGetAction.java, lines 422-465). */
  function DeepPrev(url: string, size: int, pageNum: int, ctx: LinkContext, prev: Option<string>, max: int, show: Value -> string)
    : Option<string>
  {
    var prevPage := pageNum - 1;
    if prevPage == 1 then (if pageNum == 1 then None else Some(PageLink(url, prevPage)))
    else if ctx.previousStart.Some? then
      (if pageNum == 1 then None else Some(PageLink(url, prevPage) + "&start=" + ctx.previousStart.value))
    else if size * prevPage > max - 1 && ctx.reverseLast.Some? then
      (if pageNum == 1 then None
       else Some(PageLink(url, prevPage) + "&start=" + Join(",", SortEntries(ctx.reverseLast.value, ctx.sortList, show))))
    else prev
  }

  /** The `prev` and `next` links of `buildMeta` for a request with an `apiUrl`. */
  function Links(url: string, size: int, pageNum: int, pages: int, ctx: LinkContext, lastSource: Value, max: int, show: Value -> string)
    : (Option<string>, Option<string>)
  {
    var prevPage := pageNum - 1;
    var nextPage := pageNum + 1;
    var prev := if size * prevPage <= max && prevPage > 0 then Some(PageLink(url, prevPage)) else None;
    var next := if size * nextPage <= max && pages > pageNum then Some(PageLink(url, nextPage)) else None;
    if next.None? && size * nextPage > max then
      var start := StartText(lastSource, ctx.sortList, show);
      (DeepPrev(url, size, pageNum, ctx, prev, max, show),
       if pages > pageNum then Some(PageLink(url, nextPage) + "&start=" + start + "&prevStart=" + ctx.searchAfter) else next)
    else (prev, next)
  }

  /** `buildMeta` as a value: the paging numbers and, when there is an `apiUrl`, the links. */
  function MetaOf(size: int, pageNum: int, totalHits: int, apiUrl: Option<string>, ctx: LinkContext,
                  lastSource: Value, max: int, show: Value -> string): Meta
  {
    var page := if pageNum == -1 then 1 else pageNum;
    var rows := if size < 0 then MaxRows else size;
    var pages := PageCount(totalHits, rows);
    var links := if apiUrl.None? then (None, None)
                 else Links(BaseUrl(apiUrl.value, rows, ctx), rows, page, pages, ctx, lastSource, max, show);
    Meta(totalHits, page, rows, pages, links.0, links.1)
  }

  /** `buildMeta`, step by step: the numbers, then the links when there is an `apiUrl`. */
  method BuildMeta(size: int, pageNum: int, totalHits: int, apiUrl: Option<string>, ctx: LinkContext,
                   lastSource: Value, max: int, show: Value -> string) returns (m: Meta)
    ensures m == MetaOf(size, pageNum, totalHits, apiUrl, ctx, lastSource, max, show)
  {
    var page := if pageNum == -1 then 1 else pageNum;
    var rows := if size < 0 then MaxRows else size;
    var pages := PageCount(totalHits, rows);
    var prev: Option<string> := None;
    var next: Option<string> := None;
    if apiUrl.Some? {
      var url := BuildUrl(apiUrl.value, rows, ctx);
      prev, next := BuildLinks(url, rows, page, pages, ctx, lastSource, max, show);
    }
    m := Meta(totalHits, page, rows, pages, prev, next);
  }

  /** The link prefix, gathering the where terms without `tenantid` in a loop. */
  method BuildUrl(apiUrl: string, rows: int, ctx: LinkContext) returns (url: string)
    ensures url == BaseUrl(apiUrl, rows, ctx)
  {
    var rqlQuery: seq<string> := [];
    for i := 0 to |ctx.whereSrcs|
      invariant rqlQuery == QueryTerms(ctx.whereSrcs[..i])
    {
      assert ctx.whereSrcs[..i + 1][..i] == ctx.whereSrcs[..i];
      if !HasTenant(ctx.whereSrcs[i]) {
        rqlQuery := rqlQuery + [ctx.whereSrcs[i]];
      }
    }
    assert ctx.whereSrcs[..|ctx.whereSrcs|] == ctx.whereSrcs;
    url := TrimSlash(apiUrl) + "?" + Join("&", rqlQuery) + "&pageSize=" + IntToString(rows);
    if |ctx.sortList| > 0 {
      url := url + "&sort=" + Join(",", ctx.sortList);
    }
    if ctx.sources.Some? {
      url := url + "&source=" + Join(",", ctx.sources.value);
    }
  }

  /** The `prev`/`next` puts of `buildMeta`, in source order. */
  method BuildLinks(url: string, rows: int, page: int, pages: int, ctx: LinkContext, lastSource: Value,
                    max: int, show: Value -> string) returns (prev: Option<string>, next: Option<string>)
    ensures (prev, next) == Links(url, rows, page, pages, ctx, lastSource, max, show)
  {
    var prevPageNum := page - 1;
    var nextPageNum := page + 1;
    prev, next := None, None;
    if rows * prevPageNum <= max && prevPageNum > 0 {
      prev := Some(PageLink(url, prevPageNum));
    }
    if rows * nextPageNum <= max && pages > page {
      next := Some(PageLink(url, nextPageNum));
    }
    if next.None? && rows * nextPageNum > max {
      prev := DeepPrev(url, rows, page, ctx, prev, max, show);
      if pages > page {
        next := Some(PageLink(url, nextPageNum) + "&start=" + StartText(lastSource, ctx.sortList, show)
                     + "&prevStart=" + ctx.searchAfter);
      }
    }
  }

  // ---------------------------------------------------------------------------
  // Properties of the meta block
  // ---------------------------------------------------------------------------

  /** Page -1 is page 1, a negative size is `maxRows`, and the page count is the ceiling of hits over size. */
  lemma MetaPaging(size: int, pageNum: int, totalHits: int, apiUrl: Option<string>, ctx: LinkContext,
                   lastSource: Value, max: int, show: Value -> string)
    ensures var m := MetaOf(size, pageNum, totalHits, apiUrl, ctx, lastSource, max, show);
            m.rowCount == totalHits &&
            m.pageNum == (if pageNum == -1 then 1 else pageNum) &&
            m.pageSize == (if size < 0 then MaxRows else size) &&
            (m.pageSize > 0 ==> totalHits <= m.pageCount * m.pageSize && (m.pageCount - 1) * m.pageSize < totalHits)
  {
  }

  /** Without an `apiUrl` both links stay null. */
  lemma NoLinksWithoutApiUrl(size: int, pageNum: int, totalHits: int, ctx: LinkContext,
                             lastSource: Value, max: int, show: Value -> string)
    ensures MetaOf(size, pageNum, totalHits, None, ctx, lastSource, max, show).prev == None
    ensures MetaOf(size, pageNum, totalHits, None, ctx, lastSource, max, show).next == None
  {
  }

  /** There is a `next` link exactly when there is an `apiUrl` and the page is not the last one. */
  lemma NextIffMorePages(size: int, pageNum: int, totalHits: int, apiUrl: Option<string>, ctx: LinkContext,
                         lastSource: Value, max: int, show: Value -> string)
    ensures var m := MetaOf(size, pageNum, totalHits, apiUrl, ctx, lastSource, max, show);
            m.next.Some? <==> apiUrl.Some? && m.pageCount > m.pageNum
  {
  }

  /**
   * While the next page still lies in the window, the links are plain page links:
   * `prev` exactly when there is a previous page inside the window, `next` exactly
   * when there are more pages.
   */
  lemma LinksInsideWindow(size: int, pageNum: int, totalHits: int, url: string, ctx: LinkContext,
                          lastSource: Value, max: int, show: Value -> string)
    requires size >= 0 && size * ((if pageNum == -1 then 1 else pageNum) + 1) <= max
    ensures var m := MetaOf(size, pageNum, totalHits, Some(url), ctx, lastSource, max, show);
            var base := BaseUrl(url, size, ctx);
            (m.prev.Some? <==> m.pageNum - 1 > 0 && size * (m.pageNum - 1) <= max) &&
            (m.prev.Some? ==> m.prev.value == PageLink(base, m.pageNum - 1)) &&
            (m.next.Some? <==> m.pageCount > m.pageNum) &&
            (m.next.Some? ==> m.next.value == PageLink(base, m.pageNum + 1))
  {
  }

  /**
   * Beyond the window the `next` link carries the cursors: the last hit's sort values
   * as `start` and the current `search_after` as `prevStart`.
   */
  lemma NextBeyondWindow(size: int, pageNum: int, totalHits: int, url: string, ctx: LinkContext,
                         lastSource: Value, max: int, show: Value -> string)
    requires pageNum != -1 && size >= 0 && size * (pageNum + 1) > max
    requires PageCount(totalHits, size) > pageNum
    ensures MetaOf(size, pageNum, totalHits, Some(url), ctx, lastSource, max, show).next ==
            Some(PageLink(BaseUrl(url, size, ctx), pageNum + 1) + "&start=" + StartText(lastSource, ctx.sortList, show)
                 + "&prevStart=" + ctx.searchAfter)
  {
  }

  lemma PrefixOfConcat(a: string, b: string)
    ensures StartsWith(a + b, a)
  {
    assert (a + b)[..|a|] == a;
  }

  /** Each link `Links` builds begins with the page link of the neighbouring page. */
  lemma LinksAdjacent(url: string, size: int, pageNum: int, pages: int, ctx: LinkContext, lastSource: Value,
                      max: int, show: Value -> string)
    ensures var links := Links(url, size, pageNum, pages, ctx, lastSource, max, show);
            (links.0.Some? ==> StartsWith(links.0.value, PageLink(url, pageNum - 1))) &&
            (links.1.Some? ==> StartsWith(links.1.value, PageLink(url, pageNum + 1)))
  {
    var prevLink := PageLink(url, pageNum - 1);
    var nextLink := PageLink(url, pageNum + 1);
    PrefixOfConcat(prevLink, "");
    PrefixOfConcat(nextLink, "");
    var prev := if size * (pageNum - 1) <= max && pageNum - 1 > 0 then Some(prevLink) else None;
    DeepPrevAdjacent(url, size, pageNum, ctx, prev, max, show);
    var t := "&start=" + StartText(lastSource, ctx.sortList, show) + "&prevStart=" + ctx.searchAfter;
    PrefixOfConcat(nextLink, t);
    assert nextLink + "&start=" + StartText(lastSource, ctx.sortList, show) + "&prevStart=" + ctx.searchAfter == nextLink + t;
  }

  lemma DeepPrevAdjacent(url: string, size: int, pageNum: int, ctx: LinkContext, prev: Option<string>, max: int, show: Value -> string)
    requires prev.Some? ==> StartsWith(prev.value, PageLink(url, pageNum - 1))
    ensures var p := DeepPrev(url, size, pageNum, ctx, prev, max, show);
            p.Some? ==> StartsWith(p.value, PageLink(url, pageNum - 1))
  {
    var prevLink := PageLink(url, pageNum - 1);
    PrefixOfConcat(prevLink, "");
    if ctx.previousStart.Some? {
      PrefixOfConcat(prevLink, "&start=" + ctx.previousStart.value);
      assert prevLink + "&start=" + ctx.previousStart.value == prevLink + ("&start=" + ctx.previousStart.value);
    }
    if ctx.reverseLast.Some? {
      var s := "&start=" + Join(",", SortEntries(ctx.reverseLast.value, ctx.sortList, show));
      PrefixOfConcat(prevLink, s);
      assert prevLink + "&start=" + Join(",", SortEntries(ctx.reverseLast.value, ctx.sortList, show)) == prevLink + s;
    }
  }

  /** Every link names the page next to the current one. */
  lemma LinksNameAdjacentPages(size: int, pageNum: int, totalHits: int, url: string, ctx: LinkContext,
                               lastSource: Value, max: int, show: Value -> string)
    ensures var m := MetaOf(size, pageNum, totalHits, Some(url), ctx, lastSource, max, show);
            var base := BaseUrl(url, m.pageSize, ctx);
            (m.prev.Some? ==> StartsWith(m.prev.value, PageLink(base, m.pageNum - 1))) &&
            (m.next.Some? ==> StartsWith(m.next.value, PageLink(base, m.pageNum + 1)))
  {
    var page := if pageNum == -1 then 1 else pageNum;
    var rows := if size < 0 then MaxRows else size;
    LinksAdjacent(BaseUrl(url, rows, ctx), rows, page, PageCount(totalHits, rows), ctx, lastSource, max, show);
  }

  /** On page 2, beyond the window, `prev` goes back to page 1 without a cursor. */
  lemma SecondPagePrev(size: int, totalHits: int, url: string, ctx: LinkContext,
                       lastSource: Value, max: int, show: Value -> string)
    requires size >= 0 && size * 3 > max
    ensures MetaOf(size, 2, totalHits, Some(url), ctx, lastSource, max, show).prev == Some(PageLink(BaseUrl(url, size, ctx), 1))
  {
  }

  // ---------------------------------------------------------------------------
  // Response data
  // ---------------------------------------------------------------------------

  /**
   * One element of `createDataJsArray`: the hit's `_source`, tagged with `_meta`
   * (`index` and `type`) for an `all` request, or only the value of the single
   * requested source field. A hit or `_source` that is not a node is a class-cast
   * failure, and a missing `_source` fails as soon as it is used.
   */
  function DataItem(isAll: bool, isOneSrcArr: bool, hit: Value, field: string): (r: Result<Value>)
    ensures r.Ok? ==> hit.Obj?
    ensures r.Ok? && !isAll && !isOneSrcArr ==> r.value == Get(hit.props, "_source")
  {
    if !hit.Obj? then Err(Error(500, "ClassCastException: a hit is not a node"))
    else
      var src := Get(hit.props, "_source");
      if !src.Obj? && !src.Null? then Err(Error(500, "ClassCastException: _source is not a node"))
      else if src.Null? && (isAll || isOneSrcArr) then Err(Error(500, "NullPointerException: the hit has no _source"))
      else if src.Null? then Ok(Null)
      else
        var tagged := if isAll then Obj(Put(src.props, "_meta", MetaTag(hit))) else src;
        if isOneSrcArr then Ok(Get(tagged.props, field)) else Ok(tagged)
  }

  /** The `_meta` node of an `all` request: the hit's index and type. */
  function MetaTag(hit: Value): (r: Value)
    requires hit.Obj?
    ensures r.Obj? && Get(r.props, "index") == Get(hit.props, "_index") && Get(r.props, "type") == Get(hit.props, "_type")
  {
    var p := Put([], "index", Get(hit.props, "_index"));
    var q := Put(p, "type", Get(hit.props, "_type"));
    assert !SameKey("type", "index") by { LowerAt("type", 0); LowerAt("index", 0); }
    GetPut([], "index", Get(hit.props, "_index"), "index");
    GetPut(p, "type", Get(hit.props, "_type"), "index");
    GetPut(p, "type", Get(hit.props, "_type"), "type");
    Obj(q)
  }

  /** `createDataJsArray`: one element per hit, in hit order, or the first failure. */
  method CreateData(isAll: bool, isOneSrcArr: bool, hits: seq<Value>, field: string) returns (r: Result<seq<Value>>)
    ensures r.Ok? <==> forall i :: 0 <= i < |hits| ==> DataItem(isAll, isOneSrcArr, hits[i], field).Ok?
    ensures r.Ok? ==> |r.value| == |hits| &&
                      forall i :: 0 <= i < |hits| ==> r.value[i] == DataItem(isAll, isOneSrcArr, hits[i], field).value
    ensures r.Err? ==> exists i :: 0 <= i < |hits| && DataItem(isAll, isOneSrcArr, hits[i], field) == Err(r.error) &&
                                   forall j :: 0 <= j < i ==> DataItem(isAll, isOneSrcArr, hits[j], field).Ok?
  {
    var data: seq<Value> := [];
    for i := 0 to |hits|
      invariant |data| == i
      invariant forall j :: 0 <= j < i ==> DataItem(isAll, isOneSrcArr, hits[j], field) == Ok(data[j])
    {
      var item := DataItem(isAll, isOneSrcArr, hits[i], field);
      if item.Err? {
        return Err(item.error);
      }
      CreateDataStep(isAll, isOneSrcArr, hits, field, data, item.value);
      data := data + [item.value];
    }
    r := Ok(data);
  }

  lemma CreateDataStep(isAll: bool, isOneSrcArr: bool, hits: seq<Value>, field: string, data: seq<Value>, x: Value)
    requires |data| < |hits|
    requires forall j :: 0 <= j < |data| ==> DataItem(isAll, isOneSrcArr, hits[j], field) == Ok(data[j])
    requires DataItem(isAll, isOneSrcArr, hits[|data|], field) == Ok(x)
    ensures forall j :: 0 <= j <= |data| ==> DataItem(isAll, isOneSrcArr, hits[j], field) == Ok((data + [x])[j])
  {
  }

  /** With one source requested, an element is that field of the hit's `_source`. */
  lemma OneSourceProjects(hit: Value, field: string)
    requires hit.Obj? && Get(hit.props, "_source").Obj?
    ensures DataItem(false, true, hit, field) == Ok(Get(Get(hit.props, "_source").props, field))
  {
  }

  /** An `all` request returns the `_source` with a `_meta` naming the hit's index and type. */
  lemma AllTagsMeta(hit: Value, field: string)
    requires hit.Obj? && Get(hit.props, "_source").Obj?
    ensures DataItem(true, false, hit, field).Ok?
    ensures var d := DataItem(true, false, hit, field).value;
            d.Obj? && Get(d.props, "_meta") == MetaTag(hit) &&
            forall k :: !SameKey(k, "_meta") ==> Get(d.props, k) == Get(Get(hit.props, "_source").props, k)
  {
    var src := Get(hit.props, "_source");
    forall k | !SameKey(k, "_meta")
      ensures Get(Put(src.props, "_meta", MetaTag(hit)), k) == Get(src.props, k)
    {
      GetPut(src.props, "_meta", MetaTag(hit), k);
    }
    GetPut(src.props, "_meta", MetaTag(hit), "_meta");
  }
}
