/** The review handlers: create (with its existence and duplicate checks),
    the two listings with their average rating, read by id, and the
    guarded update and delete. */
module Reviews {
  import opened Common
  import opened Paging
  import opened Store
  import Listings

  /** A stored review. */
  datatype Review = Review(property: Id, user: Id, rating: int, comment: string)

  const DefaultReviewPage: PageQuery := PageQuery(1, 10)
  const DefaultPropertyReviewPage: PageQuery := PageQuery(1, 5)

  /** The schema bounds the rating to 1..5. */
  predicate SchemaValid(r: Review) {
    1 <= r.rating <= 5
  }

  function AuthorOf(r: Review): Id { r.user }

  /** Some stored review is by `user` about `property`. */
  predicate Reviewed(rows: map<Id, Review>, property: Id, user: Id) {
    exists id :: id in rows && rows[id].property == property && rows[id].user == user
  }

  /** No two stored reviews share a (property, user) pair. */
  predicate OnePerPair(rows: map<Id, Review>) {
    forall a, b :: a in rows && b in rows && a != b ==>
      rows[a].property != rows[b].property || rows[a].user != rows[b].user
  }

  /** The answer `createReview` gives before it writes: 404 for an unknown
      property, then 400 for a pair already reviewed, then the schema's
      500; `None` lets the review be saved. */
  function CreateCheck(rows: map<Id, Review>, listings: map<Id, Listings.Listing>, body: Review): (e: Option<Error>)
    ensures e == Some(NotFound) <==> body.property !in listings
    ensures e == Some(BadRequest) <==> body.property in listings && Reviewed(rows, body.property, body.user)
    ensures e == Some(ServerError) <==>
      body.property in listings && !Reviewed(rows, body.property, body.user) && !SchemaValid(body)
    ensures e == None <==> body.property in listings && !Reviewed(rows, body.property, body.user) && SchemaValid(body)
  {
    if body.property !in listings then Some(NotFound)
    else if Reviewed(rows, body.property, body.user) then Some(BadRequest)
    else if !SchemaValid(body) then Some(ServerError)
    else None
  }

  /** Saving a review whose pair is not yet reviewed keeps one review per
      pair. */
  lemma {:induction false} InsertKeepsOnePerPair(rows: map<Id, Review>, id: Id, r: Review)
    requires OnePerPair(rows)
    requires id !in rows && !Reviewed(rows, r.property, r.user)
    ensures OnePerPair(rows[id := r])
  {
    var rows' := rows[id := r];
    forall a, b | a in rows' && b in rows' && a != b
      ensures rows'[a].property != rows'[b].property || rows'[a].user != rows'[b].user
    {
      if a == id {
        assert b in rows && rows'[b] == rows[b];
      } else if b == id {
        assert a in rows && rows'[a] == rows[a];
      }
    }
  }

  /** Deleting never creates a duplicate. */
  lemma DeleteKeepsOnePerPair(rows: map<Id, Review>, id: Id)
    requires OnePerPair(rows)
    ensures OnePerPair(rows - {id})
  {
  }

  /** `createReview`: the review is exactly the body (its author comes
      from the body, never from the caller), answered 201. The caller
      argument is there because the route authenticates; the handler
      never reads it. */
  method CreateReview(t: Table<Review>, listings: map<Id, Listings.Listing>, caller: Caller, body: Review)
    returns (r: Result<Id>)
    requires t.Valid()
    modifies t
    ensures t.Valid()
    ensures CreateCheck(old(t.rows), listings, body).Some? ==>
      r == Err(CreateCheck(old(t.rows), listings, body).value) && t.rows == old(t.rows)
    ensures CreateCheck(old(t.rows), listings, body).None? ==>
      r.Ok? && r.value !in old(t.rows) && t.rows == old(t.rows)[r.value := body]
    ensures OnePerPair(old(t.rows)) ==> OnePerPair(t.rows)
  {
    var refused := CreateCheck(t.rows, listings, body);
    if refused.Some? {
      return Err(refused.value);
    }
    ghost var before := t.rows;
    var id := t.Insert(body);
    if OnePerPair(before) {
      InsertKeepsOnePerPair(before, id, body);
    }
    r := Ok(id);
  }

  /** `updateReview`: 404, then 403 unless the caller wrote the review or
      is an Admin, then the schema's 500; otherwise the validated body
      replaces that review alone. */
  method UpdateReview(t: Table<Review>, caller: Caller, id: Id, body: Review) returns (r: Result<Review>)
    requires t.Valid()
    modifies t
    ensures t.Valid()
    ensures OwnedAccess(old(t.rows), id, caller, AuthorOf).Some? ==>
      r == Err(OwnedAccess(old(t.rows), id, caller, AuthorOf).value) && t.rows == old(t.rows)
    ensures OwnedAccess(old(t.rows), id, caller, AuthorOf).None? && !SchemaValid(body) ==>
      r == Err(ServerError) && t.rows == old(t.rows)
    ensures OwnedAccess(old(t.rows), id, caller, AuthorOf).None? && SchemaValid(body) ==>
      r == Ok(body) && t.rows == old(t.rows)[id := body]
  {
    var denied := OwnedAccess(t.rows, id, caller, AuthorOf);
    if denied.Some? {
      return Err(denied.value);
    }
    if !SchemaValid(body) {
      return Err(ServerError);
    }
    t.Replace(id, body);
    r := Ok(body);
  }

  /** An update runs no duplicate check: whenever one user has reviewed two
      different properties, an Admin may move one review onto the other's
      property, and the table then holds two reviews of one pair. */
  lemma {:induction false} UpdateCanDuplicate(rows: map<Id, Review>, a: Id, b: Id, admin: Caller)
    requires OnePerPair(rows)
    requires a in rows && b in rows && a != b
    requires rows[a].user == rows[b].user && rows[a].property != rows[b].property
    requires IsAdmin(admin)
    ensures OwnedAccess(rows, b, admin, AuthorOf) == None
    ensures SchemaValid(rows[b]) ==> SchemaValid(rows[b].(property := rows[a].property))
    ensures !OnePerPair(rows[b := rows[b].(property := rows[a].property)])
  {
    var rows' := rows[b := rows[b].(property := rows[a].property)];
    assert rows'[a] == rows[a];
    assert rows'[a].property == rows'[b].property && rows'[a].user == rows'[b].user;
  }

  /** One table the lemma above applies to. */
  lemma UpdateCanDuplicateExample()
    ensures var rows := map[0 := Review(7, 1, 4, "Lovely"), 1 := Review(8, 1, 3, "Decent")];
      && OnePerPair(rows)
      && OwnedAccess(rows, 1, Caller(2, Some(AdminRole)), AuthorOf) == None
      && !OnePerPair(rows[1 := Review(7, 1, 3, "Decent")])
  {
    var rows := map[0 := Review(7, 1, 4, "Lovely"), 1 := Review(8, 1, 3, "Decent")];
    UpdateCanDuplicate(rows, 0, 1, Caller(2, Some(AdminRole)));
  }

  /** `deleteReview`: 404, then 403; otherwise exactly that review goes. */
  method DeleteReview(t: Table<Review>, caller: Caller, id: Id) returns (r: Result<()>)
    requires t.Valid()
    modifies t
    ensures t.Valid()
    ensures OwnedAccess(old(t.rows), id, caller, AuthorOf).Some? ==>
      r == Err(OwnedAccess(old(t.rows), id, caller, AuthorOf).value) && t.rows == old(t.rows)
    ensures OwnedAccess(old(t.rows), id, caller, AuthorOf).None? ==>
      r == Ok(()) && t.rows == old(t.rows) - {id}
  {
    var denied := OwnedAccess(t.rows, id, caller, AuthorOf);
    if denied.Some? {
      return Err(denied.value);
    }
    t.Delete(id);
    r := Ok(());
  }

  /** `getReviewById`: the review, or 404. */
  function ReviewById(rows: map<Id, Review>, id: Id): Result<Review> {
    FindById(rows, id)
  }

  /** The sum of the ratings on a page (the handlers' `reduce`). */
  function RatingSum(page: seq<Doc<Review>>): (s: int)
    ensures (forall i :: 0 <= i < |page| ==> SchemaValid(page[i].record)) ==> |page| <= s <= 5 * |page|
  {
    if page == [] then 0 else page[0].record.rating + RatingSum(page[1..])
  }

  /** The mean rating of a page, 0 for an empty page. The handlers round
      it to one decimal; the rounding is not modelled. */
  function AverageRating(page: seq<Doc<Review>>): (avg: real)
    ensures page == [] ==> avg == 0.0
    ensures page != [] ==> avg * (|page| as real) == RatingSum(page) as real
    ensures page != [] && (forall i :: 0 <= i < |page| ==> SchemaValid(page[i].record)) ==> 1.0 <= avg <= 5.0
  {
    if page == [] then 0.0
    else
      var n, s := |page| as real, RatingSum(page) as real;
      MeanBounds(s, n);
      s / n
  }

  lemma MeanBounds(s: real, n: real)
    requires n > 0.0
    ensures n <= s <= 5.0 * n ==> 1.0 <= s / n <= 5.0
  {
    var m := s / n;
    if m < 1.0 {
      assert m * n < n;
    }
    if m > 5.0 {
      assert m * n > 5.0 * n;
    }
  }

  /** The answer of both review listings. */
  datatype ReviewPage = ReviewPage(count: nat, totalCount: nat, averageRating: real, data: seq<Doc<Review>>)

  function AboutProperty(property: Option<Id>): Review -> bool {
    (r: Review) => property.None? || r.property == property.value
  }

  /** The page both review listings answer for a query `q`: one page,
      newest first, of every review or of the reviews of one property;
      `count` is the length of the page, `totalCount` counts every
      matching review, and the average is taken over the page alone. */
  function ReviewPageOf(rows: map<Id, Review>, bound: nat, property: Option<Id>, q: PageQuery): (r: ReviewPage)
    requires Below(rows, bound)
    ensures r.data == FindPage(rows, bound, AboutProperty(property), q)
    ensures property.Some? ==> forall i :: 0 <= i < |r.data| ==> r.data[i].record.property == property.value
    ensures r.count == |r.data| <= q.limit
    ensures r.totalCount == CountWhere(rows, AboutProperty(property))
    ensures property.None? ==> r.totalCount == |rows|
    ensures r.averageRating == AverageRating(r.data)
  {
    var keep := AboutProperty(property);
    var data := FindPage(rows, bound, keep, q);
    CountIsListingLength(rows, bound, keep);
    assert property.None? ==> Matching(rows, keep) == rows.Keys;
    ReviewPage(|data|, CountWhere(rows, keep), AverageRating(data), data)
  }

  /** `getAllReviews`: the review page, filtered by property when the
      query names one; `page` and `limit` default to 1 and 10. */
  function AllReviews(rows: map<Id, Review>, bound: nat, property: Option<Id>, page: Option<Pos>, limit: Option<Pos>)
    : (r: ReviewPage)
    requires Below(rows, bound)
    ensures var q := QueryOf(page, limit, DefaultReviewPage);
      && r.data == FindPage(rows, bound, AboutProperty(property), q)
      && r.count == |r.data| <= q.limit
    ensures r.totalCount == CountWhere(rows, AboutProperty(property))
    ensures property.None? ==> r.totalCount == |rows|
    ensures r.averageRating == AverageRating(r.data)
  {
    ReviewPageOf(rows, bound, property, QueryOf(page, limit, DefaultReviewPage))
  }

  /** `getReviewsByProperty` as written: it reads `propertyId` from the
      query string, so the route's `:propertyId` path parameter is never
      consulted; without the query parameter the answer is 400. `page`
      and `limit` default to 1 and 5. */
  function ReviewsByProperty(
    rows: map<Id, Review>, bound: nat, pathPropertyId: Id, queryPropertyId: Option<Id>,
    page: Option<Pos>, limit: Option<Pos>)
    : (r: Result<ReviewPage>)
    requires Below(rows, bound)
    ensures queryPropertyId.None? <==> r == Err(BadRequest)
    ensures queryPropertyId.Some? ==>
      r == Ok(ReviewPageOf(rows, bound, queryPropertyId, QueryOf(page, limit, DefaultPropertyReviewPage)))
    ensures r.Ok? ==> r.value == ReviewPageOf(rows, bound, queryPropertyId, QueryOf(page, limit, DefaultPropertyReviewPage))
    ensures r.Ok? && limit.None? ==> r.value.count <= DefaultPropertyReviewPage.limit
  {
    if queryPropertyId.None? then Err(BadRequest)
    else Ok(ReviewPageOf(rows, bound, queryPropertyId, QueryOf(page, limit, DefaultPropertyReviewPage)))
  }

  /** A request to `/property/:propertyId` without the query parameter is
      refused whatever the path says. */
  lemma PathParameterIgnored(rows: map<Id, Review>, bound: nat, pathPropertyId: Id, page: Option<Pos>, limit: Option<Pos>)
    requires Below(rows, bound)
    ensures ReviewsByProperty(rows, bound, pathPropertyId, None, page, limit) == Err(BadRequest)
  {
  }

  /** `getReviewsByProperty` as the route intends it: the path parameter
      selects the property, so every request to the route is answered. */
  function ReviewsByPropertyFromPath(
    rows: map<Id, Review>, bound: nat, propertyId: Id, page: Option<Pos>, limit: Option<Pos>)
    : (r: ReviewPage)
    requires Below(rows, bound)
    ensures forall i :: 0 <= i < |r.data| ==> r.data[i].record.property == propertyId
    ensures r.totalCount == |Matching(rows, AboutProperty(Some(propertyId)))|
    ensures r.count == |r.data| <= QueryOf(page, limit, DefaultPropertyReviewPage).limit
    ensures r.averageRating == AverageRating(r.data)
    ensures r == ReviewPageOf(rows, bound, Some(propertyId), QueryOf(page, limit, DefaultPropertyReviewPage))
  {
    ReviewPageOf(rows, bound, Some(propertyId), QueryOf(page, limit, DefaultPropertyReviewPage))
  }
}
