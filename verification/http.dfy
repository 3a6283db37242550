/**
 The request values the blocking backend builds and sends: a method, a URL,
 a header set, query pairs and a body. `Set` and `Query` are the two ways the
 backend writes to a request; the string maps it reads them from (the
 crate's `Headers`, `Query` and `Form`, all `HashMap<String, String>`) are
 modelled as their pairs in iteration order, keys pairwise distinct.
 */
module Http {

  /** One (key, value) entry of a header set, query or form. */
  type Pair = (string, string)

  /** No key occurs twice, as in any hash map. */
  predicate DistinctKeys(ps: seq<Pair>)
  {
    forall i, j :: 0 <= i < j < |ps| ==> ps[i].0 != ps[j].0
  }

  /** A `HashMap<String, String>` seen through its iterator. */
  type StringMap = ps: seq<Pair> | DistinctKeys(ps) witness []

  /** The keys occurring in `ps`. */
  function KeysOf(ps: seq<Pair>): (ks: set<string>)
  {
    set i | 0 <= i < |ps| :: ps[i].0
  }

  /** No later entry of `ps` has the same key as entry `i`. */
  predicate IsLast(ps: seq<Pair>, i: int)
    requires 0 <= i < |ps|
  {
    forall j :: i < j < |ps| ==> ps[j].0 != ps[i].0
  }

  /** The reference reading of a string map: each key bound to its value. */
  function ToMap(ps: StringMap): (m: map<string, string>)
    ensures m.Keys == KeysOf(ps)
    ensures forall i :: 0 <= i < |ps| ==> m[ps[i].0] == ps[i].1
  {
    map i | 0 <= i < |ps| :: ps[i].0 := ps[i].1
  }

  datatype Method = GET | POST | PUT | DELETE

  /** What `send_json` and `send_form` attach; a JSON value is kept as its text. */
  datatype Body = NoBody | Json(text: string) | Form(pairs: seq<Pair>)

  datatype HttpRequest = HttpRequest(
    verb: Method,
    url: string,
    headers: map<string, string>,
    query: seq<Pair>,
    body: Body)

  /** `ureq::get(url)` and its siblings: a request with nothing set yet. */
  function NewRequest(verb: Method, url: string): (r: HttpRequest)
  {
    HttpRequest(verb, url, map[], [], NoBody)
  }

  /** `Request::set`: a header replaces any value set before under its name. */
  function Set(req: HttpRequest, key: string, value: string): (r: HttpRequest)
  {
    req.(headers := req.headers[key := value])
  }

  /** `Request::query`: the pair is appended to the query. */
  function Query(req: HttpRequest, key: string, value: string): (r: HttpRequest)
  {
    req.(query := req.query + [(key, value)])
  }

  /** Calling `set` for each pair of `ps` in order. Only the header set
      changes; it gains the keys of `ps`, each bound to the last value given
      for it, and keeps every other header it had. */
  function SetAll(req: HttpRequest, ps: seq<Pair>): (r: HttpRequest)
    ensures r.verb == req.verb && r.url == req.url && r.query == req.query && r.body == req.body
    ensures r.headers.Keys == req.headers.Keys + KeysOf(ps)
    ensures forall k :: k in req.headers && k !in KeysOf(ps) ==> r.headers[k] == req.headers[k]
    decreases |ps|
  {
    if ps == [] then req
    else
      var init := ps[..|ps| - 1];
      var last := ps[|ps| - 1];
      assert forall i :: 0 <= i < |init| ==> init[i] == ps[i];
      assert KeysOf(ps) == KeysOf(init) + {last.0};
      Set(SetAll(req, init), last.0, last.1)
  }

  /** Insert-replaces: a key ends up bound to the value of its last occurrence in `ps`. */
  lemma {:induction false} SetAllLastWins(req: HttpRequest, ps: seq<Pair>, i: int)
    requires 0 <= i < |ps| && IsLast(ps, i)
    ensures SetAll(req, ps).headers[ps[i].0] == ps[i].1
    decreases |ps|
  {
    var init := ps[..|ps| - 1];
    if i < |ps| - 1 {
      assert IsLast(init, i) by {
        assert forall j :: 0 <= j < |init| ==> init[j] == ps[j];
      }
      SetAllLastWins(req, init, i);
    }
  }

  /** With distinct keys every pair is the last of its key, so each pair is set verbatim. */
  lemma SetAllDistinct(req: HttpRequest, ps: StringMap)
    ensures forall i :: 0 <= i < |ps| ==> SetAll(req, ps).headers[ps[i].0] == ps[i].1
  {
    forall i | 0 <= i < |ps|
      ensures SetAll(req, ps).headers[ps[i].0] == ps[i].1
    {
      SetAllLastWins(req, ps, i);
    }
  }

  /** Setting a hash map's pairs in its iteration order gives the request's
      headers overridden by the map's entries, so the iteration order of the
      map does not matter. */
  lemma SetAllIsOverride(req: HttpRequest, ps: StringMap)
    ensures SetAll(req, ps).headers == req.headers + ToMap(ps)
  {
    SetAllDistinct(req, ps);
    var r := SetAll(req, ps).headers;
    var m := req.headers + ToMap(ps);
    assert r.Keys == m.Keys;
    forall k | k in r
      ensures r[k] == m[k]
    {
      if k in KeysOf(ps) {
        var i :| 0 <= i < |ps| && ps[i].0 == k;
      }
    }
  }

  /** Every entry of `ps` is an entry of the reference map of `qs`. */
  lemma ToMapIncludes(ps: StringMap, qs: StringMap)
    requires forall p :: p in ps ==> p in qs
    ensures forall k :: k in ToMap(ps) ==> k in ToMap(qs) && ToMap(ps)[k] == ToMap(qs)[k]
  {
    var mp, mq := ToMap(ps), ToMap(qs);
    forall k | k in mp
      ensures k in mq && mp[k] == mq[k]
    {
      var i :| 0 <= i < |ps| && ps[i].0 == k;
      assert ps[i] in qs;
      var j :| 0 <= j < |qs| && qs[j] == ps[i];
    }
  }

  /** The reference map does not depend on the iteration order. */
  lemma ToMapOrderIrrelevant(ps: StringMap, qs: StringMap)
    requires forall p :: p in ps <==> p in qs
    ensures ToMap(ps) == ToMap(qs)
  {
    ToMapIncludes(ps, qs);
    ToMapIncludes(qs, ps);
    var mp, mq := ToMap(ps), ToMap(qs);
    assert mp.Keys == mq.Keys;
  }

  /** Two hash maps holding the same pairs, iterated in any two orders, set the same headers. */
  lemma SetAllOrderIrrelevant(req: HttpRequest, ps: StringMap, qs: StringMap)
    requires forall p :: p in ps <==> p in qs
    ensures SetAll(req, ps) == SetAll(req, qs)
  {
    SetAllIsOverride(req, ps);
    SetAllIsOverride(req, qs);
    ToMapOrderIrrelevant(ps, qs);
  }

  /** Calling `query` for each pair of `ps` in order appends `ps` to the query. */
  function AddQueries(req: HttpRequest, ps: seq<Pair>): (r: HttpRequest)
    ensures r.(query := req.query) == req
    ensures r.query == req.query + ps
    decreases |ps|
  {
    if ps == [] then req
    else
      var init := ps[..|ps| - 1];
      assert ps == init + [ps[|ps| - 1]];
      Query(AddQueries(req, init), ps[|ps| - 1].0, ps[|ps| - 1].1)
  }
}
