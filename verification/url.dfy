/**
 * Client-side locations with their query parameters, as `navigate` writes them
 * and `URLSearchParams` reads them. Parameters are kept decoded: the percent-
 * encoding done by `encodeURIComponent` and undone by `URLSearchParams` is not
 * part of this model.
 */
module Url {
  import opened Wrappers

  /** A path with its query parameters in the order they were written. */
  datatype Location = Location(path: string, query: seq<(string, string)>)

  /** `URLSearchParams.get`: the value of the first parameter named `key`, if any. */
  function Get(query: seq<(string, string)>, key: string): (r: Option<string>)
    ensures r.None? <==> forall k :: 0 <= k < |query| ==> query[k].0 != key
    ensures r.Some? ==> exists k :: 0 <= k < |query| && query[k] == (key, r.value)
                                    && forall j :: 0 <= j < k ==> query[j].0 != key
  {
    if query == [] then None
    else if query[0].0 == key then Some(query[0].1)
    else
      var r := Get(query[1..], key);
      assert forall k :: 1 <= k < |query| ==> query[k] == query[1..][k - 1];
      if r.Some? then
        var k :| 0 <= k < |query[1..]| && query[1..][k] == (key, r.value)
                 && forall j :: 0 <= j < k ==> query[1..][j].0 != key;
        assert query[k + 1] == (key, r.value);
        r
      else r
  }
}
