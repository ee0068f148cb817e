/**
 * The request's query parameters: a map from names to values that the actions
 * read with `getParam` and take off with `removeParam`.
 */
module Requests {
  import opened Wrappers

  /** The request's query parameters, which the actions edit before the query is built. */
  class Request {
    var params: map<string, string>

    constructor(params: map<string, string>)
      ensures this.params == params
    {
      this.params := params;
    }

    /** `removeParam`: drops the parameter and hands back its value, if it had one. */
    method RemoveParam(name: string) returns (v: Option<string>)
      modifies this
      ensures params == old(params) - {name}
      ensures name in old(params) <==> v.Some?
      ensures v.Some? ==> v.value == old(params)[name]
    {
      v := if name in params then Some(params[name]) else None;
      params := params - {name};
    }
  }

  /** `getParam`: the parameter's value, or null. */
  function Lookup(m: map<string, string>, k: string): (r: Option<string>)
    ensures r.Some? <==> k in m
    ensures r.Some? ==> r.value == m[k]
  {
    if k in m then Some(m[k]) else None
  }
}
