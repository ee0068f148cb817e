/**
 * The `Api` registry: its databases, collections, endpoints and actions, the
 * case-insensitive lookups over them, the code fallbacks, and the re-entrancy
 * guard of `startup`.
 *
 * The registered objects are compared by `equals`, which their classes (not part of
 * this model) inherit from `Object`; each is modelled as a value carrying an `id`
 * that stands for its identity.
 */
module ApiModel {
  import opened Wrappers
  import opened Strings
  import opened Sequences

  datatype Collection = Collection(id: nat, name: string, tableName: string, isLinkTbl: bool, isExclude: bool)
  datatype Db = Db(id: nat, name: Option<string>, collections: seq<Collection>)
  datatype Endpoint = Endpoint(id: nat, order: int)
  datatype Action = Action(id: nat)

  /** Endpoints in non-decreasing `order`. */
  predicate SortedByOrder(es: seq<Endpoint>)
  {
    forall i, j :: 0 <= i < j < |es| ==> es[i].order <= es[j].order
  }

  /** A collection the registry refuses: a link table or one marked excluded. */
  predicate Ignored(c: Collection) { c.isLinkTbl || c.isExclude }

  // ---------------------------------------------------------------------------
  // The registry's lists as values: what each update makes of them
  // ---------------------------------------------------------------------------

  /** The collection list after `withCollection(c)`. */
  function AddCollection(cs: seq<Collection>, c: Collection): (r: seq<Collection>)
  {
    if Ignored(c) then cs else AddOnce(cs, c)
  }

  /** The collection list after `withCollection` of each of `news`, in order. */
  function AddCollections(cs: seq<Collection>, news: seq<Collection>): (r: seq<Collection>)
    decreases |news|
  {
    if news == [] then cs else AddCollections(AddCollection(cs, news[0]), news[1..])
  }

  /** The index before which `withEndpoint` inserts: the first endpoint with a strictly greater order. */
  function InsertionPoint(es: seq<Endpoint>, order: int): (i: int)
    ensures 0 <= i <= |es|
    ensures forall j :: 0 <= j < i ==> es[j].order <= order
    ensures i < |es| ==> order < es[i].order
  {
    if es == [] || order < es[0].order then 0 else 1 + InsertionPoint(es[1..], order)
  }

  /** The endpoint list after `withEndpoint(e)` for an endpoint not yet registered. */
  function InsertByOrder(es: seq<Endpoint>, e: Endpoint): (r: seq<Endpoint>)
  {
    var i := InsertionPoint(es, e.order);
    es[..i] + [e] + es[i..]
  }

  // ---------------------------------------------------------------------------
  // Properties of the list updates
  // ---------------------------------------------------------------------------

  /** Inserting keeps the list sorted and places `e` after every endpoint of equal order. */
  lemma InsertByOrderSorted(es: seq<Endpoint>, e: Endpoint)
    requires SortedByOrder(es)
    ensures SortedByOrder(InsertByOrder(es, e))
  {
    var i := InsertionPoint(es, e.order);
    var r := InsertByOrder(es, e);
    forall a, b | 0 <= a < b < |r|
      ensures r[a].order <= r[b].order
    {
      if b < i || a > i {
      } else if a == i {
        assert r[b] == es[b - 1];
      } else if b == i {
        assert r[a] == es[a];
      } else {
        assert r[a] == es[a] && r[b] == es[b - 1];
      }
    }
  }

  /**
   * Inserting is stable: the old endpoints keep their relative order (taking `e`
   * out gives back the old list), every endpoint before `e` has an order no greater
   * than it, and every one after it a strictly greater one.
   */
  lemma InsertByOrderStable(es: seq<Endpoint>, e: Endpoint)
    ensures var r := InsertByOrder(es, e);
            var i := InsertionPoint(es, e.order);
            |r| == |es| + 1 && r[i] == e && r[..i] + r[i + 1..] == es &&
            (forall j :: 0 <= j < i ==> r[j].order <= e.order) &&
            (SortedByOrder(es) ==> forall j :: i < j < |r| ==> e.order < r[j].order)
    ensures multiset(InsertByOrder(es, e)) == multiset(es) + multiset{e}
  {
    InsertByOrderSplit(es, e);
    if SortedByOrder(es) {
      InsertByOrderAfter(es, e);
    }
    InsertByOrderPermutes(es, e);
  }

  lemma InsertByOrderSplit(es: seq<Endpoint>, e: Endpoint)
    ensures var r := InsertByOrder(es, e);
            var i := InsertionPoint(es, e.order);
            |r| == |es| + 1 && r[i] == e && r[..i] + r[i + 1..] == es &&
            (forall j :: 0 <= j < i ==> r[j].order <= e.order)
  {
    var r := InsertByOrder(es, e);
    var i := InsertionPoint(es, e.order);
    assert forall j :: 0 <= j < i ==> r[j] == es[j];
    assert r[..i] == es[..i];
    assert r[i + 1..] == es[i..];
    assert es[..i] + es[i..] == es;
  }

  lemma InsertByOrderAfter(es: seq<Endpoint>, e: Endpoint)
    requires SortedByOrder(es)
    ensures var r := InsertByOrder(es, e);
            forall j :: InsertionPoint(es, e.order) < j < |r| ==> e.order < r[j].order
  {
    var r := InsertByOrder(es, e);
    var i := InsertionPoint(es, e.order);
    forall j | i < j < |es| + 1
      ensures e.order < r[j].order
    {
      assert r[j] == es[j - 1];
      assert es[i].order <= es[j - 1].order;
    }
  }

  lemma InsertByOrderPermutes(es: seq<Endpoint>, e: Endpoint)
    ensures multiset(InsertByOrder(es, e)) == multiset(es) + multiset{e}
  {
    var i := InsertionPoint(es, e.order);
    assert es[..i] + es[i..] == es;
    calc {
      multiset(InsertByOrder(es, e));
      multiset(es[..i]) + multiset{e} + multiset(es[i..]);
      multiset(es[..i] + es[i..]) + multiset{e};
    }
  }

  /** An endpoint not yet present is added exactly once. */
  lemma InsertByOrderNoDuplicates(es: seq<Endpoint>, e: Endpoint)
    requires NoDuplicates(es) && e !in es
    ensures NoDuplicates(InsertByOrder(es, e))
  {
    var r := InsertByOrder(es, e);
    var i := InsertionPoint(es, e.order);
    forall a, b | 0 <= a < b < |r|
      ensures r[a] != r[b]
    {
      if a == i {
        assert r[b] == es[b - 1];
      } else if b == i {
        assert r[a] == es[a];
      } else {
        var a' := if a < i then a else a - 1;
        var b' := if b < i then b else b - 1;
        assert r[a] == es[a'] && r[b] == es[b'] && a' < b';
      }
    }
  }

  /** Registering collections keeps the list free of duplicates and of ignored collections. */
  lemma {:induction false} AddCollectionsValid(cs: seq<Collection>, news: seq<Collection>)
    requires NoDuplicates(cs) && forall c :: c in cs ==> !Ignored(c)
    ensures var r := AddCollections(cs, news);
            NoDuplicates(r) && forall c :: c in r ==> !Ignored(c)
    decreases |news|
  {
    if news != [] {
      AddCollectionsValid(AddCollection(cs, news[0]), news[1..]);
    }
  }

  /** After registering, a collection is listed exactly when it was before or is one of the new ones that is not ignored. */
  lemma {:induction false} AddCollectionsMembers(cs: seq<Collection>, news: seq<Collection>, c: Collection)
    ensures c in AddCollections(cs, news) <==> c in cs || (c in news && !Ignored(c))
    decreases |news|
  {
    if news != [] {
      AddCollectionsMembers(AddCollection(cs, news[0]), news[1..], c);
      assert c in news <==> c == news[0] || c in news[1..];
    }
  }

  /** The old collections keep their places: registering only appends. */
  lemma {:induction false} AddCollectionsExtends(cs: seq<Collection>, news: seq<Collection>)
    ensures |cs| <= |AddCollections(cs, news)| && AddCollections(cs, news)[..|cs|] == cs
    decreases |news|
  {
    if news != [] {
      var next := AddCollection(cs, news[0]);
      AddCollectionsExtends(next, news[1..]);
      assert next[..|cs|] == cs;
    }
  }

  /** A collection answers to its collection name or its table name, ignoring case. */
  predicate CollectionMatches(c: Collection, name: string)
  {
    EqualsIgnoreCase(name, c.name) || EqualsIgnoreCase(name, c.tableName)
  }

  predicate DbMatches(db: Db, name: string)
  {
    db.name.Some? && EqualsIgnoreCase(name, db.name.value)
  }

  // ---------------------------------------------------------------------------
  // The registry
  // ---------------------------------------------------------------------------

  class Api {
    var name: Option<string>
    var apiCode: Option<string>
    var accountCode: Option<string>
    var dbs: seq<Db>
    var endpoints: seq<Endpoint>
    var actions: seq<Action>
    var collections: seq<Collection>
    var started: bool
    var starting: bool

    /** What the registration methods keep true. */
    ghost predicate Valid()
      reads this
    {
      NoDuplicates(dbs) && NoDuplicates(endpoints) && SortedByOrder(endpoints) &&
      NoDuplicates(actions) && NoDuplicates(collections) &&
      forall c :: c in collections ==> !Ignored(c)
    }

    /** `new Api(name)`: the name doubles as the api code. */
    constructor(name: Option<string>)
      ensures Valid()
      ensures this.name == name && apiCode == name && accountCode == None
      ensures dbs == [] && endpoints == [] && actions == [] && collections == []
      ensures !started && !starting
    {
      this.name := name;
      apiCode := name;
      accountCode := None;
      dbs := [];
      endpoints := [];
      actions := [];
      collections := [];
      started := false;
      starting := false;
    }

    /** `getApiCode`: the api code, or the name when none was set. */
    function ApiCode(): (r: Option<string>)
      reads this
      ensures apiCode.Some? ==> r == apiCode
      ensures apiCode.None? ==> r == name
    {
      if apiCode.Some? then apiCode else name
    }

    /** `getAccountCode`: the account code, or else the api code with its own fallback. */
    function AccountCode(): (r: Option<string>)
      reads this
      ensures accountCode.Some? ==> r == accountCode
      ensures accountCode.None? && apiCode.Some? ==> r == apiCode
      ensures accountCode.None? && apiCode.None? ==> r == name
    {
      if accountCode.Some? then accountCode else ApiCode()
    }

    /** `withCollection`: ignored collections are skipped, and a collection is listed once. */
    method WithCollection(c: Collection)
      requires Valid()
      modifies this
      ensures Valid()
      ensures collections == AddCollection(old(collections), c)
      ensures dbs == old(dbs) && endpoints == old(endpoints) && actions == old(actions)
      ensures name == old(name) && apiCode == old(apiCode) && accountCode == old(accountCode)
      ensures started == old(started) && starting == old(starting)
    {
      if Ignored(c) {
        return;
      }
      if c !in collections {
        collections := collections + [c];
      }
    }

    /** `withDb`: a new db is listed and its collections registered; a known one changes nothing. */
    method WithDb(db: Db)
      requires Valid()
      modifies this
      ensures Valid()
      ensures dbs == AddOnce(old(dbs), db)
      ensures collections == if db in old(dbs) then old(collections) else AddCollections(old(collections), db.collections)
      ensures endpoints == old(endpoints) && actions == old(actions)
      ensures name == old(name) && apiCode == old(apiCode) && accountCode == old(accountCode)
      ensures started == old(started) && starting == old(starting)
    {
      if db !in dbs {
        dbs := dbs + [db];
        WithCollections(db.collections);
      }
    }

    /** The loop of `withDb` that registers a new db's collections in order. */
    method WithCollections(cs: seq<Collection>)
      requires Valid()
      modifies this
      ensures Valid()
      ensures collections == AddCollections(old(collections), cs)
      ensures dbs == old(dbs) && endpoints == old(endpoints) && actions == old(actions)
      ensures name == old(name) && apiCode == old(apiCode) && accountCode == old(accountCode)
      ensures started == old(started) && starting == old(starting)
    {
      for i := 0 to |cs|
        invariant Valid()
        invariant collections == AddCollections(old(collections), cs[..i])
        invariant dbs == old(dbs) && endpoints == old(endpoints) && actions == old(actions)
        invariant name == old(name) && apiCode == old(apiCode) && accountCode == old(accountCode)
        invariant started == old(started) && starting == old(starting)
      {
        AddCollectionsSnoc(old(collections), cs[..i], cs[i]);
        assert cs[..i + 1] == cs[..i] + [cs[i]];
        WithCollection(cs[i]);
      }
      assert cs[..|cs|] == cs;
    }

    /** `withAction`: an action is listed once. */
    method WithAction(a: Action)
      requires Valid()
      modifies this
      ensures Valid()
      ensures actions == AddOnce(old(actions), a)
      ensures dbs == old(dbs) && endpoints == old(endpoints) && collections == old(collections)
      ensures name == old(name) && apiCode == old(apiCode) && accountCode == old(accountCode)
      ensures started == old(started) && starting == old(starting)
    {
      if a !in actions {
        actions := actions + [a];
      }
    }

    /**
     * `withEndpoint`: a new endpoint goes in before the first one with a strictly
     * greater order, or at the end; a registered one changes nothing.
     */
    method WithEndpoint(e: Endpoint)
      requires Valid()
      modifies this
      ensures Valid()
      ensures endpoints == if e in old(endpoints) then old(endpoints) else InsertByOrder(old(endpoints), e)
      ensures e in endpoints
      ensures dbs == old(dbs) && actions == old(actions) && collections == old(collections)
      ensures name == old(name) && apiCode == old(apiCode) && accountCode == old(accountCode)
      ensures started == old(started) && starting == old(starting)
    {
      if e !in endpoints {
        InsertByOrderSorted(endpoints, e);
        InsertByOrderNoDuplicates(endpoints, e);
        var inserted := false;
        for i := 0 to |endpoints|
          invariant endpoints == old(endpoints)
          invariant forall j :: 0 <= j < i ==> endpoints[j].order <= e.order
        {
          if e.order < endpoints[i].order {
            InsertionPointAt(endpoints, e.order, i);
            endpoints := endpoints[..i] + [e] + endpoints[i..];
            inserted := true;
            break;
          }
        }
        if !inserted {
          InsertionPointAt(endpoints, e.order, |endpoints|);
          assert endpoints[|endpoints|..] == [] && endpoints[..|endpoints|] == endpoints;
          endpoints := endpoints + [e];
        }
        assert endpoints[InsertionPoint(old(endpoints), e.order)] == e;
      }
    }

    /** `getCollection`: the first collection whose name or table name is `name`, ignoring case. */
    method GetCollection(name: string) returns (r: Option<Collection>)
      ensures r.None? <==> forall i :: 0 <= i < |collections| ==> !CollectionMatches(collections[i], name)
      ensures r.Some? ==> exists i :: 0 <= i < |collections| && collections[i] == r.value &&
                                      CollectionMatches(r.value, name) &&
                                      forall j :: 0 <= j < i ==> !CollectionMatches(collections[j], name)
    {
      for i := 0 to |collections|
        invariant forall j :: 0 <= j < i ==> !CollectionMatches(collections[j], name)
      {
        if CollectionMatches(collections[i], name) {
          return Some(collections[i]);
        }
      }
      return None;
    }

    /** `getDb`: nothing for a null name, else the first db whose name matches, ignoring case. */
    method GetDb(name: Option<string>) returns (r: Option<Db>)
      ensures name.None? ==> r.None?
      ensures name.Some? ==> (r.None? <==> forall i :: 0 <= i < |dbs| ==> !DbMatches(dbs[i], name.value))
      ensures r.Some? ==> name.Some?
      ensures r.Some? ==> exists i :: 0 <= i < |dbs| && dbs[i] == r.value &&
                                      DbMatches(r.value, name.value) &&
                                      forall j :: 0 <= j < i ==> !DbMatches(dbs[j], name.value)
    {
      if name.None? {
        return None;
      }
      for i := 0 to |dbs|
        invariant forall j :: 0 <= j < i ==> !DbMatches(dbs[j], name.value)
      {
        if DbMatches(dbs[i], name.value) {
          return Some(dbs[i]);
        }
      }
      return None;
    }

    /**
     * `startup` with its guard. `nested` counts the calls back into `startup` that the
     * databases make while they start (each db's `startup` is otherwise not part of this
     * model); the guard turns each of them into a no-op, and the outer call leaves the
     * api started and no longer starting.
     */
    method Startup(nested: nat)
      modifies this
      decreases nested
      ensures old(started) || old(starting) ==> started == old(started) && starting == old(starting)
      ensures !old(started) && !old(starting) ==> started && !starting
      ensures dbs == old(dbs) && endpoints == old(endpoints) && actions == old(actions) && collections == old(collections)
      ensures name == old(name) && apiCode == old(apiCode) && accountCode == old(accountCode)
    {
      if started || starting {
        return;
      }
      starting := true;
      if nested > 0 {
        Startup(nested - 1);
      }
      started := true;
      starting := false;
    }
  }

  lemma {:induction false} AddCollectionsSnoc(cs: seq<Collection>, news: seq<Collection>, c: Collection)
    ensures AddCollections(cs, news + [c]) == AddCollection(AddCollections(cs, news), c)
    decreases |news|
  {
    if news == [] {
      assert [c][1..] == [];
    } else {
      assert (news + [c])[1..] == news[1..] + [c];
      AddCollectionsSnoc(AddCollection(cs, news[0]), news[1..], c);
    }
  }

  lemma InsertionPointAt(es: seq<Endpoint>, order: int, i: int)
    requires 0 <= i <= |es|
    requires forall j :: 0 <= j < i ==> es[j].order <= order
    requires i < |es| ==> order < es[i].order
    ensures InsertionPoint(es, order) == i
  {
  }
}
