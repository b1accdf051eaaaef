/** The query string of a URL as `URLSearchParams` sees it: name/value pairs in order. */
module SearchParams {
  import opened Wrappers

  datatype Param = Param(name: string, value: string)

  /** `params.get(name)`: the value of the first pair called `name`, or null. */
  function Get(params: seq<Param>, name: string): (r: Option<string>)
    ensures r.None? <==> forall i :: 0 <= i < |params| ==> params[i].name != name
    ensures r.Some? ==> Param(name, r.value) in params
    ensures r.Some? ==> exists i :: FirstNamed(params, name, i) && params[i].value == r.value
  {
    if params == [] then None
    else if params[0].name == name then
      assert FirstNamed(params, name, 0);
      Some(params[0].value)
    else
      var r := Get(params[1..], name);
      assert forall i :: 1 <= i < |params| ==> params[i] == params[1..][i - 1];
      assert r.Some? ==> exists i :: FirstNamed(params, name, i) && params[i].value == r.value by {
        if r.Some? {
          var k :| FirstNamed(params[1..], name, k) && params[1..][k].value == r.value;
          assert FirstNamed(params, name, k + 1);
        }
      }
      r
  }

  /** Index `i` holds the first pair called `name`. */
  predicate FirstNamed(params: seq<Param>, name: string, i: int) {
    && 0 <= i < |params| && params[i].name == name
    && forall j :: 0 <= j < i ==> params[j].name != name
  }

  /** A name carried by pairs that all hold `value` reads as `value`. */
  lemma GetSole(params: seq<Param>, name: string, value: string)
    requires Param(name, value) in params
    requires forall p :: p in params && p.name == name ==> p.value == value
    ensures Get(params, name) == Some(value)
  {
  }

  /** A name no pair carries reads as null. */
  lemma GetAbsent(params: seq<Param>, name: string)
    requires forall p :: p in params ==> p.name != name
    ensures Get(params, name) == None
  {
  }
}
