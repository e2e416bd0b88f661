/** The pagination arithmetic the list handlers share: skip
    `(page - 1) * limit` records, return at most `limit` of them, and
    report `pages = ceil(total / limit)`. */
module Paging {
  import opened Common

  /** A positive page number or page size. */
  type Pos = n: int | n >= 1 witness 1

  /** The `page` and `limit` query parameters, after their defaults. */
  datatype PageQuery = PageQuery(page: Pos, limit: Pos)

  /** The query a list handler works with: each of `page` and `limit`
      the request leaves out takes the handler's default, each it gives
      is used as given. */
  function QueryOf(page: Option<Pos>, limit: Option<Pos>, defaults: PageQuery): (q: PageQuery)
    ensures page.None? ==> q.page == defaults.page
    ensures page.Some? ==> q.page == page.value
    ensures limit.None? ==> q.limit == defaults.limit
    ensures limit.Some? ==> q.limit == limit.value
  {
    PageQuery(
      if page.Some? then page.value else defaults.page,
      if limit.Some? then limit.value else defaults.limit)
  }

  /** How many records the query skips. */
  function Skip(q: PageQuery): (n: nat)
    ensures q.page == 1 ==> n == 0
    ensures n % q.limit == 0 && n / q.limit == q.page - 1
  {
    var n := (q.page - 1) * q.limit;
    assert n / q.limit == q.page - 1 by {
      MulDiv(q.page - 1, q.limit);
    }
    n
  }

  lemma MulDiv(a: nat, b: Pos)
    ensures (a * b) % b == 0 && (a * b) / b == a
  {
    DivUnique(a * b, b, a, 0);
  }

  /** Euclidean division has one quotient and one remainder. */
  lemma DivUnique(n: int, b: Pos, q: int, r: int)
    requires n == q * b + r && 0 <= r < b
    ensures n / b == q && n % b == r
  {
    var q0, r0 := n / b, n % b;
    assert q0 * b + r0 == n;
    assert (q - q0) * b == r0 - r;
    if q > q0 {
      MulMono(1, q - q0, b);
    } else if q < q0 {
      MulMono(1, q0 - q, b);
    }
  }

  function Min(a: int, b: int): int { if a <= b then a else b }

  /** The records of one page: skip, then limit. */
  function PageOf<T>(s: seq<T>, q: PageQuery): (r: seq<T>)
    ensures |r| <= q.limit
    ensures |r| == if Skip(q) >= |s| then 0 else Min(q.limit, |s| - Skip(q))
    ensures forall k :: 0 <= k < |r| ==> r[k] == s[Skip(q) + k]
  {
    if Skip(q) >= |s| then [] else s[Skip(q)..Min(|s|, Skip(q) + q.limit)]
  }

  /** `Math.ceil(total / limit)`: the fewest pages of `limit` records that
      hold `total` records. */
  function PageCount(total: nat, limit: Pos): (pages: nat)
    ensures total <= pages * limit
    ensures pages > 0 ==> (pages - 1) * limit < total
    ensures total == 0 <==> pages == 0
  {
    var pages := (total + limit - 1) / limit;
    DivBounds(total + limit - 1, limit);
    pages
  }

  lemma DivBounds(n: nat, d: Pos)
    ensures (n / d) * d <= n < (n / d) * d + d
  {
  }

  /** A page holds records exactly when its number is at most the page
      count the handler reports. */
  lemma {:induction false} PageNonEmptyIff<T>(s: seq<T>, q: PageQuery)
    ensures |PageOf(s, q)| > 0 <==> q.page <= PageCount(|s|, q.limit)
  {
    var pages := PageCount(|s|, q.limit);
    var skip := Skip(q);
    assert skip == (q.page - 1) * q.limit;
    if q.page <= pages {
      MulMono(q.page - 1, pages - 1, q.limit);
    } else {
      MulMono(pages, q.page - 1, q.limit);
    }
  }

  lemma MulMono(a: nat, b: nat, c: Pos)
    requires a <= b
    ensures a * c <= b * c
  {
  }

  /** Every record appears on exactly one page: record `i` is at position
      `i % limit` of page `i / limit + 1`. */
  lemma {:induction false} PageHolds<T>(s: seq<T>, limit: Pos, i: nat)
    requires i < |s|
    ensures var q := PageQuery(i / limit + 1, limit);
      i % limit < |PageOf(s, q)| && PageOf(s, q)[i % limit] == s[i]
  {
    var q := PageQuery(i / limit + 1, limit);
    DivBounds(i, limit);
    assert Skip(q) == (i / limit) * limit;
    assert Skip(q) + i % limit == i;
  }
}
