/** The listing search: a filter assembled from the query string, applied
    to every listing, answered unsorted and unpaginated. */
module Search {
  import opened Common
  import opened Text
  import opened Store
  import opened Listings

  /** The query-string parameters the search reads; absent is `None`. A
      price bound is present when its parameter is a non-empty string,
      and is then its numeric value. */
  datatype SearchQuery = SearchQuery(
    propertyType: Option<string>,
    city: Option<string>,
    state: Option<string>,
    status: Option<string>,
    minPrice: Option<int>,
    maxPrice: Option<int>)

  const NoQuery: SearchQuery := SearchQuery(None, None, None, None, None, None)

  /** One entry of the filter document. */
  datatype Condition =
    | TypeIs(propertyType: string)
    | CityContains(city: string)
    | StateContains(state: string)
    | StatusIs(status: string)
    | PriceAtLeast(min: int)
    | PriceAtMost(max: int)

  /** What one condition asks of a listing: equality for the type and
      status, a case-insensitive substring for the city and state, an
      inclusive bound for the price. */
  predicate Holds(c: Condition, l: Listing) {
    match c
    case TypeIs(t) => l.propertyType == t
    case CityContains(s) => ContainsIgnoringCase(l.location.city, s)
    case StateContains(s) => ContainsIgnoringCase(l.location.state, s)
    case StatusIs(s) => l.status == s
    case PriceAtLeast(m) => l.price >= m
    case PriceAtMost(m) => l.price <= m
  }

  /** The filter the handler assembles: one condition per non-empty
      string parameter and one per present price bound. */
  function BuildFilter(q: SearchQuery): (f: seq<Condition>)
    ensures |f| <= 6
    ensures q == NoQuery ==> f == []
  {
    (if Truthy(q.propertyType) then [TypeIs(q.propertyType.value)] else [])
    + (if Truthy(q.city) then [CityContains(q.city.value)] else [])
    + (if Truthy(q.state) then [StateContains(q.state.value)] else [])
    + (if Truthy(q.status) then [StatusIs(q.status.value)] else [])
    + (if q.minPrice.Some? then [PriceAtLeast(q.minPrice.value)] else [])
    + (if q.maxPrice.Some? then [PriceAtMost(q.maxPrice.value)] else [])
  }

  /** A listing matches a filter when it meets all of its conditions. */
  predicate Matches(f: seq<Condition>, l: Listing) {
    f == [] || (Holds(f[0], l) && Matches(f[1..], l))
  }

  /** What the search promises, read straight off the query: every
      parameter given narrows the result, every parameter left out or
      empty does not. */
  predicate Satisfies(q: SearchQuery, l: Listing) {
    && (Truthy(q.propertyType) ==> l.propertyType == q.propertyType.value)
    && (Truthy(q.city) ==> ContainsIgnoringCase(l.location.city, q.city.value))
    && (Truthy(q.state) ==> ContainsIgnoringCase(l.location.state, q.state.value))
    && (Truthy(q.status) ==> l.status == q.status.value)
    && (q.minPrice.Some? ==> l.price >= q.minPrice.value)
    && (q.maxPrice.Some? ==> l.price <= q.maxPrice.value)
  }

  /** A filter joined from two parts asks what both parts ask. */
  lemma {:induction false} MatchesAppend(f: seq<Condition>, g: seq<Condition>, l: Listing)
    ensures Matches(f + g, l) <==> Matches(f, l) && Matches(g, l)
  {
    if f == [] {
      assert f + g == g;
    } else {
      MatchesAppend(f[1..], g, l);
      assert (f + g)[0] == f[0] && (f + g)[1..] == f[1..] + g;
    }
  }

  lemma MatchesSingle(c: Condition, l: Listing)
    ensures Matches([], l)
    ensures Matches([c], l) <==> Holds(c, l)
  {
    assert [c][1..] == [];
  }

  /** The assembled filter selects exactly the listings the query asks
      for. */
  lemma {:induction false} FilterMeansQuery(q: SearchQuery, l: Listing)
    ensures Matches(BuildFilter(q), l) <==> Satisfies(q, l)
  {
    var a := (if Truthy(q.propertyType) then [TypeIs(q.propertyType.value)] else []);
    var b := (if Truthy(q.city) then [CityContains(q.city.value)] else []);
    var c := (if Truthy(q.state) then [StateContains(q.state.value)] else []);
    var d := (if Truthy(q.status) then [StatusIs(q.status.value)] else []);
    var e := (if q.minPrice.Some? then [PriceAtLeast(q.minPrice.value)] else []);
    var g := (if q.maxPrice.Some? then [PriceAtMost(q.maxPrice.value)] else []);
    MatchesAppend(a, b, l);
    MatchesAppend(a + b, c, l);
    MatchesAppend(a + b + c, d, l);
    MatchesAppend(a + b + c + d, e, l);
    assert BuildFilter(q) == a + b + c + d + e + g;
    if Truthy(q.propertyType) { MatchesSingle(TypeIs(q.propertyType.value), l); }
    if Truthy(q.city) { MatchesSingle(CityContains(q.city.value), l); }
    if Truthy(q.state) { MatchesSingle(StateContains(q.state.value), l); }
    if Truthy(q.status) { MatchesSingle(StatusIs(q.status.value), l); }
    if q.minPrice.Some? { MatchesSingle(PriceAtLeast(q.minPrice.value), l); }
    if q.maxPrice.Some? { MatchesSingle(PriceAtMost(q.maxPrice.value), l); }
    assert Matches(a, l) <==> (Truthy(q.propertyType) ==> l.propertyType == q.propertyType.value);
    assert Matches(b, l) <==> (Truthy(q.city) ==> ContainsIgnoringCase(l.location.city, q.city.value));
    assert Matches(c, l) <==> (Truthy(q.state) ==> ContainsIgnoringCase(l.location.state, q.state.value));
    assert Matches(d, l) <==> (Truthy(q.status) ==> l.status == q.status.value);
    assert Matches(e, l) <==> (q.minPrice.Some? ==> l.price >= q.minPrice.value);
    assert Matches(g, l) <==> (q.maxPrice.Some? ==> l.price <= q.maxPrice.value);
    MatchesAppend(a + b + c + d + e, g, l);
  }

  function MatchesFilter(f: seq<Condition>): Listing -> bool {
    (l: Listing) => Matches(f, l)
  }

  /** The search answer: the number of hits and the hits themselves. */
  datatype SearchResult = SearchResult(count: nat, data: seq<Doc<Listing>>)

  /** `search`: every listing the filter selects, in natural order, all of
      them at once. */
  function Search(rows: map<Id, Listing>, bound: nat, q: SearchQuery): (r: SearchResult)
    requires Below(rows, bound)
    ensures r.count == |r.data|
    ensures forall i :: 0 <= i < |r.data| ==>
      r.data[i].id in rows && r.data[i].record == rows[r.data[i].id] && Satisfies(q, r.data[i].record)
    ensures forall id :: id in rows && Satisfies(q, rows[id]) ==> exists i :: 0 <= i < |r.data| && r.data[i].id == id
    ensures forall i, j :: 0 <= i < j < |r.data| ==> r.data[i].id < r.data[j].id
    ensures r.data == [] <==> forall id :: id in rows ==> !Satisfies(q, rows[id])
  {
    var f := BuildFilter(q);
    var data := FindAll(rows, bound, MatchesFilter(f));
    forall id | id in rows
      ensures MatchesFilter(f)(rows[id]) == Satisfies(q, rows[id])
    {
      FilterMeansQuery(q, rows[id]);
    }
    SearchResult(|data|, data)
  }

  /** A search with no parameters returns every listing. */
  lemma EmptySearchFindsAll(rows: map<Id, Listing>, bound: nat)
    requires Below(rows, bound)
    ensures forall id :: id in rows ==> exists i :: 0 <= i < |Search(rows, bound, NoQuery).data| && Search(rows, bound, NoQuery).data[i].id == id
  {
    var r := Search(rows, bound, NoQuery);
    forall id | id in rows
      ensures exists i :: 0 <= i < |r.data| && r.data[i].id == id
    {
      assert Satisfies(NoQuery, rows[id]);
    }
  }

  /** A price range whose lower bound lies above its upper bound selects
      nothing. */
  lemma EmptyPriceRange(rows: map<Id, Listing>, bound: nat, q: SearchQuery)
    requires Below(rows, bound)
    requires q.minPrice.Some? && q.maxPrice.Some? && q.minPrice.value > q.maxPrice.value
    ensures Search(rows, bound, q).count == 0
  {
    assert forall id :: id in rows ==> !Satisfies(q, rows[id]);
  }
}
