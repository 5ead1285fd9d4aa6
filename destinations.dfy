/** The destination catalog routes (backend/routes/destinations.js). The
    catalog is read-only here: its rows are a sequence the routes filter,
    order by creation time (newest first) and paginate. */
module Destinations {
  import opened Wrappers
  import opened Http
  import opened Seqs
  import opened Sql

  /** One row of the `destinations` table (the display-only image, rating and
      coordinate columns are not part of this model). */
  datatype Destination = Destination(
    id: int,
    name: string,
    description: string,
    location: string,
    category: string,
    createdAt: int)

  const DefaultLimit := 20
  const DefaultOffset := 0
  const SearchQueryRequired := "Search query is required"
  const DestinationNotFound := "Destination not found"

  function CreatedAt(d: Destination): int {
    d.createdAt
  }

  /** A query-string value that JavaScript treats as true: present and not "". */
  predicate Truthy(v: Option<string>) {
    v.Some? && v.value != ""
  }

  // ---------------------------------------------------------------------
  // GET /?limit&offset&category

  /** The query string of GET /, with `limit` and `offset` already parsed as
      integers. */
  datatype ListRequest = ListRequest(limit: Option<int>, offset: Option<int>, category: Option<string>)

  /** `SELECT * FROM destinations WHERE 1=1 [AND category = $c]
      ORDER BY created_at DESC LIMIT $l OFFSET $o`, by its placeholder numbers. */
  datatype ListQuery = ListQuery(categoryParam: Option<nat>, limitParam: nat, offsetParam: nat)

  /** The placeholder numbers in the order they appear in the query text. */
  function ListPlaceholders(q: ListQuery): seq<nat> {
    (if q.categoryParam.Some? then [q.categoryParam.value] else []) + [q.limitParam, q.offsetParam]
  }

  /** The rows in the requested category, or all rows when no category (or an
      empty one) was given. */
  function InCategory(catalog: seq<Destination>, category: Option<string>): (r: seq<Destination>)
    ensures Truthy(category) ==> forall d :: d in r <==> d in catalog && d.category == category.value
    ensures Truthy(category) ==>
      forall d :: multiset(r)[d] == if d.category == category.value then multiset(catalog)[d] else 0
    ensures !Truthy(category) ==> r == catalog
  {
    if Truthy(category) then Filter(catalog, (d: Destination) => d.category == category.value) else catalog
  }

  /** What GET / returns for valid `limit` and `offset`: the rows of the
      category, newest first, skipping `offset` and keeping at most `limit`. */
  function Listing(catalog: seq<Destination>, category: Option<string>, limit: nat, offset: nat): (r: seq<Destination>)
    ensures Truthy(category) ==> forall d :: d in r ==> d.category == category.value
    ensures forall d :: d in r ==> d in catalog
    ensures SortedDesc(r, CreatedAt)
    ensures |r| <= limit
    ensures var m := InCategory(catalog, category);
      |r| == if offset >= |m| then 0 else if |m| - offset < limit then |m| - offset else limit
    ensures forall i :: 0 <= i < |r| ==> r[i] == SortDesc(InCategory(catalog, category), CreatedAt)[offset + i]
  {
    var matching := InCategory(catalog, category);
    var sorted := SortDesc(matching, CreatedAt);
    var r := Page(sorted, offset, limit);
    PageOfSorted(sorted, offset, limit, CreatedAt);
    assert forall d :: d in sorted ==> d in matching by {
      forall d | d in sorted ensures d in matching {
        assert multiset(sorted)[d] > 0;
      }
    }
    r
  }

  /** Fetching page after page with a fixed size never skips nor repeats a
      row: two consecutive pages are the page that spans both. */
  lemma ConsecutivePages(catalog: seq<Destination>, category: Option<string>, offset: nat, a: nat, b: nat)
    ensures Listing(catalog, category, a, offset) + Listing(catalog, category, b, offset + a)
         == Listing(catalog, category, a + b, offset)
  {
    PagesAdjacent(SortDesc(InCategory(catalog, category), CreatedAt), offset, a, b);
  }

  /** PostgreSQL fixes no order among rows with equal `created_at`, and two
      queries may order them differently. When no two different rows share a
      creation time, every order a query may return is the model's, so pages
      fetched by separate queries still neither skip nor repeat a row. */
  lemma ConsecutivePagesDistinct(catalog: seq<Destination>, category: Option<string>, offset: nat, a: nat, b: nat,
                                 first: seq<Destination>, second: seq<Destination>)
    requires forall x, y :: x in catalog && y in catalog && x.createdAt == y.createdAt ==> x == y
    requires SortedDesc(first, CreatedAt) && multiset(first) == multiset(InCategory(catalog, category))
    requires SortedDesc(second, CreatedAt) && multiset(second) == multiset(InCategory(catalog, category))
    ensures Page(first, offset, a) + Page(second, offset + a, b) == Listing(catalog, category, a + b, offset)
  {
    var m := InCategory(catalog, category);
    var sorted := SortDesc(m, CreatedAt);
    assert forall x :: x in sorted ==> x in catalog by {
      forall x | x in sorted ensures x in catalog {
        assert x in multiset(m);
      }
    }
    SortedUnique(sorted, first, CreatedAt);
    SortedUnique(sorted, second, CreatedAt);
    PagesAdjacent(sorted, offset, a, b);
  }

  /** With two rows created at the same time, both orders are sorted, and a
      first page taken from one order followed by a second page taken from
      the other repeats a row. */
  lemma TiedPagesMayRepeat(x: Destination, y: Destination)
    requires x != y && x.createdAt == y.createdAt
    ensures SortedDesc([x, y], CreatedAt) && SortedDesc([y, x], CreatedAt)
    ensures multiset([x, y]) == multiset([y, x])
    ensures Page([x, y], 0, 1) + Page([y, x], 1, 1) == [x, x]
  {
  }

  /** A page large enough for the whole catalog lists every row of the
      category, each as often as it occurs. */
  lemma ListingComplete(catalog: seq<Destination>, category: Option<string>)
    ensures multiset(Listing(catalog, category, |catalog|, 0)) == multiset(InCategory(catalog, category))
  {
    var sorted := SortDesc(InCategory(catalog, category), CreatedAt);
    assert Listing(catalog, category, |catalog|, 0) == sorted;
  }

  /** The handler's query building: an optional `category = $1`, then LIMIT
      and OFFSET numbered after it. Every placeholder is bound, and the
      placeholders are exactly $1..$n for n values, in order. */
  method BuildListQuery(req: ListRequest) returns (q: ListQuery, params: seq<Value>)
    ensures q.categoryParam.Some? <==> Truthy(req.category)
    ensures |params| == if Truthy(req.category) then 3 else 2
    ensures |ListPlaceholders(q)| == |params|
    ensures forall i :: 0 <= i < |params| ==> ListPlaceholders(q)[i] == i + 1
    ensures q.categoryParam.Some? ==> Param(params, q.categoryParam.value) == Some(Text(req.category.value))
    ensures Param(params, q.limitParam) == Some(Int(req.limit.GetOr(DefaultLimit)))
    ensures Param(params, q.offsetParam) == Some(Int(req.offset.GetOr(DefaultOffset)))
  {
    var limit := req.limit.GetOr(DefaultLimit);
    var offset := req.offset.GetOr(DefaultOffset);
    var categoryParam: Option<nat> := None;
    params := [];
    var paramCount := 0;
    if Truthy(req.category) {
      paramCount := paramCount + 1;
      categoryParam := Some(paramCount);
      params := params + [Text(req.category.value)];
    }
    q := ListQuery(categoryParam, paramCount + 1, paramCount + 2);
    params := params + [Int(limit), Int(offset)];
  }

  /** The rows the database returns for the query, or a rejection: a
      placeholder without a value, a value of the wrong type, or a negative
      LIMIT or OFFSET. */
  function RunList(catalog: seq<Destination>, q: ListQuery, params: seq<Value>): Option<seq<Destination>> {
    var category := if q.categoryParam.Some? then Param(params, q.categoryParam.value) else Some(Null);
    var limit := Param(params, q.limitParam);
    var offset := Param(params, q.offsetParam);
    if category.None? || limit.None? || offset.None? then None
    else if !(category.value.Null? || category.value.Text?) || !limit.value.Int? || !offset.value.Int? then None
    else if limit.value.i < 0 || offset.value.i < 0 then None
    else
      var filter := if category.value.Text? then Some(category.value.s) else None;
      Some(Page(SortDesc(InCategory(catalog, filter), CreatedAt), offset.value.i, limit.value.i))
  }

  /** GET /: 20 rows from offset 0 unless asked otherwise; a negative limit
      or offset is rejected by the database and replies 500. */
  method List(catalog: seq<Destination>, req: ListRequest) returns (reply: Reply<seq<Destination>>)
    ensures var limit, offset := req.limit.GetOr(DefaultLimit), req.offset.GetOr(DefaultOffset);
      reply == if limit < 0 || offset < 0 then Fail(500, InternalError)
               else Ok(200, Listing(catalog, req.category, limit, offset))
  {
    var q, params := BuildListQuery(req);
    var rows := RunList(catalog, q, params);
    if rows.None? {
      reply := Fail(500, InternalError);
    } else {
      reply := Ok(200, rows.value);
    }
  }

  // ---------------------------------------------------------------------
  // GET /search?q

  /** ASCII case folding, as ILIKE compares. */
  function Lower(c: char): char {
    if 'A' <= c <= 'Z' then (c as int - 'A' as int + 'a' as int) as char else c
  }

  function LowerText(s: string): (r: string)
    ensures |r| == |s|
    ensures forall i :: 0 <= i < |s| ==> r[i] == Lower(s[i])
    ensures forall i :: 0 <= i < |r| ==> !('A' <= r[i] <= 'Z')
    ensures forall i :: 0 <= i < |s| && !('A' <= s[i] <= 'Z') ==> r[i] == s[i]
    ensures forall i :: 0 <= i < |s| && 'A' <= s[i] <= 'Z' ==> 'a' <= r[i] <= 'z' && r[i] as int - s[i] as int == 32
  {
    seq(|s|, i requires 0 <= i < |s| => Lower(s[i]))
  }

  /** `q` occurs in `s` as a contiguous piece. */
  predicate ContainsText(s: string, q: string) {
    exists i | 0 <= i <= |s| :: q <= s[i..]
  }

  /** `s ILIKE '%q%'`: `q` occurs in `s` ignoring letter case. */
  predicate ILike(s: string, q: string) {
    ContainsText(LowerText(s), LowerText(q))
  }

  /** The search predicate: name, description or location contains `q`. */
  predicate SearchMatch(d: Destination, q: string) {
    ILike(d.name, q) || ILike(d.description, q) || ILike(d.location, q)
  }

  /** GET /search: 400 without a query; otherwise exactly the rows matching
      it in one of the three fields, newest first. */
  function Search(catalog: seq<Destination>, q: Option<string>): (r: Reply<seq<Destination>>)
    ensures !Truthy(q) ==> r == Fail(400, SearchQueryRequired)
    ensures Truthy(q) ==> r.Ok? && r.status == 200
    ensures r.Ok? ==> forall d :: d in r.body <==> d in catalog && SearchMatch(d, q.value)
    ensures r.Ok? ==> forall d :: multiset(r.body)[d] == if SearchMatch(d, q.value) then multiset(catalog)[d] else 0
    ensures r.Ok? ==> SortedDesc(r.body, CreatedAt)
  {
    if !Truthy(q) then Fail(400, SearchQueryRequired)
    else
      var hits := Filter(catalog, (d: Destination) => SearchMatch(d, q.value));
      var sorted := SortDesc(hits, CreatedAt);
      assert forall d :: d in sorted <==> d in hits by {
        forall d ensures d in sorted <==> d in hits {
          assert multiset(sorted)[d] == multiset(hits)[d];
        }
      }
      Ok(200, sorted)
  }

  lemma LowerTextIdempotent(s: string)
    ensures LowerText(LowerText(s)) == LowerText(s)
  {
  }

  /** The search does not depend on the letter case of the query. */
  lemma SearchIgnoresCase(catalog: seq<Destination>, q: string)
    ensures Search(catalog, Some(q)) == Search(catalog, Some(LowerText(q)))
  {
    LowerTextIdempotent(q);
    var lq := LowerText(q);
    assert q == "" <==> lq == "";
    FilterSame(catalog, (d: Destination) => SearchMatch(d, q), (d: Destination) => SearchMatch(d, lq));
  }

  // ---------------------------------------------------------------------
  // GET /:id

  /** GET /:id: the destination with that id, or 404. */
  function GetDestination(catalog: seq<Destination>, id: int): (r: Reply<Destination>)
    ensures r.Ok? <==> exists d :: d in catalog && d.id == id
    ensures r.Ok? ==> r.status == 200 && r.body in catalog && r.body.id == id
    ensures !r.Ok? ==> r == Fail(404, DestinationNotFound)
  {
    var found := Filter(catalog, (d: Destination) => d.id == id);
    if found == [] then Fail(404, DestinationNotFound)
    else
      assert found[0] in found;
      Ok(200, found[0])
  }
}
