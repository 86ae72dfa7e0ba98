/** The product catalog: records with a creator and a soft-delete stamp, the reads that
    hide soft-deleted records, the creator-only mutations, and the paginated listing that
    narrows to the caller's own products for the `user` role. */
module Products {
  import opened Common
  import opened Pagination
  import opened Store

  /** A stored product (fields of the product schema). */
  datatype Product = Product(
    name: string,
    description: string,
    image: string,
    createdBy: Id,
    updatedBy: Option<Id>,
    createdAt: int,
    updatedAt: int,
    deletedAt: Option<int>)

  /** The create/update request body (ProductAddRequest). */
  datatype ProductBody = ProductBody(name: string, description: string, image: string)

  /** The projection every product operation returns. */
  datatype ProductDetails = ProductDetails(
    id: Id,
    name: string,
    description: string,
    image: string,
    createdBy: Id,
    createdAt: int)

  /** The listing's `query` object; `deletedAt: null` is always part of it. */
  datatype ProductQuery = ProductQuery(search: Option<string>, createdAt: Option<DateRange>, createdBy: Option<Id>)

  const ProductNotFound := "Product not found"
  const NotAllowedToUpdate := "You are not allowed to update this product"
  const NotAllowedToDelete := "You are not allowed to delete this product"

  function Details(id: Id, p: Product): ProductDetails
  {
    ProductDetails(id, p.name, p.description, p.image, p.createdBy, p.createdAt)
  }

  /** The record `create` stores: the body's fields, the caller as creator, both
      timestamps at `now`, no editor and no deletion stamp. */
  function NewProduct(loggedInUser: Claims, body: ProductBody, now: int): Product
  {
    Product(body.name, body.description, body.image, loggedInUser.id, None, now, now, None)
  }

  /** `findOne({_id: id, deletedAt: null})` finds the record. */
  predicate Live(store: map<Id, Product>, id: Id)
  {
    id in store && store[id].deletedAt.None?
  }

  /** Whether the store's evaluation of the listing query admits a record. */
  predicate Admits(q: ProductQuery, matches: Matcher, p: Product)
  {
    && p.deletedAt.None?
    && (q.search.Some? ==> matches(q.search.value, p.name) || matches(q.search.value, p.description))
    && (q.createdAt.Some? ==> InRange(p.createdAt, q.createdAt.value))
    && (q.createdBy.Some? ==> p.createdBy == q.createdBy.value)
  }

  function Keep(q: ProductQuery, matches: Matcher): Product -> bool
  {
    p => Admits(q, matches, p)
  }

  /** The query the listing builds: search only when non-empty, the date range when
      given, and the creator when the caller's role is `user`. */
  function QueryFor(user: Claims, filters: ListFilters): (q: ProductQuery)
    ensures q.createdBy.Some? <==> user.role == User
    ensures q.createdBy.Some? ==> q.createdBy.value == user.id
    ensures q.search.Some? <==> SearchGiven(filters.search)
    ensures q.search.Some? ==> q.search == filters.search
    ensures q.createdAt == filters.createdAt
  {
    ProductQuery(
      if SearchGiven(filters.search) then filters.search else None,
      filters.createdAt,
      if user.role == User then Some(user.id) else None)
  }

  function DetailsOf(store: map<Id, Product>, ids: seq<Id>): (ds: seq<ProductDetails>)
    requires forall k :: 0 <= k < |ids| ==> ids[k] in store
    ensures |ds| == |ids|
    ensures forall k :: 0 <= k < |ids| ==> ds[k] == Details(ids[k], store[ids[k]])
  {
    seq(|ids|, k requires 0 <= k < |ids| => Details(ids[k], store[ids[k]]))
  }

  // ---------------------------------------------------------------------------
  // sort({createdAt: -1})

  predicate NewestFirst(s: seq<ProductDetails>)
  {
    forall i, j :: 0 <= i < j < |s| ==> s[i].createdAt >= s[j].createdAt
  }

  /** Places `d` before the first element that is not newer, so among equal
      timestamps the element inserted last (the earlier id) comes first. */
  function InsertNewestFirst(d: ProductDetails, s: seq<ProductDetails>): (r: seq<ProductDetails>)
    requires NewestFirst(s)
    ensures NewestFirst(r)
    ensures multiset(r) == multiset(s) + multiset{d}
  {
    if s == [] then [d]
    else if s[0].createdAt <= d.createdAt then [d] + s
    else
      var tail := InsertNewestFirst(d, s[1..]);
      assert s == [s[0]] + s[1..];
      assert forall x | x in tail :: x.createdAt <= s[0].createdAt by {
        forall x | x in tail ensures x.createdAt <= s[0].createdAt {
          assert x in multiset(tail);
          if x != d {
            assert x in multiset(s[1..]);
          }
        }
      }
      [s[0]] + tail
  }

  /** A stable sort by `createdAt`, newest first. */
  function SortNewestFirst(s: seq<ProductDetails>): (r: seq<ProductDetails>)
    ensures NewestFirst(r)
    ensures multiset(r) == multiset(s)
  {
    if s == [] then []
    else
      assert s == [s[0]] + s[1..];
      InsertNewestFirst(s[0], SortNewestFirst(s[1..]))
  }

  /** Every record the query admits, as details, newest first. */
  function Listing(store: map<Id, Product>, n: nat, q: ProductQuery, matches: Matcher): seq<ProductDetails>
  {
    SortNewestFirst(DetailsOf(store, SelectIds(store, Keep(q, matches), n)))
  }

  // ---------------------------------------------------------------------------
  // The operations, on the product collection

  /** getProduct: the details of a record that exists and is not soft-deleted. */
  function GetProduct(store: map<Id, Product>, id: Id): (r: Result<ProductDetails>)
    ensures r.Err? <==> !Live(store, id)
    ensures r.Err? ==> r.error == NotFound(ProductNotFound)
    ensures r.Ok? ==> r.value == Details(id, store[id])
  {
    if Live(store, id) then Ok(Details(id, store[id])) else Err(NotFound(ProductNotFound))
  }

  /** update: NotFound for an absent or soft-deleted record, then Forbidden unless the
      caller created it (whatever the caller's role); only then the body's three fields
      are written, and nothing else in the collection changes. */
  function UpdateStep(store: map<Id, Product>, loggedInUser: Claims, id: Id, body: ProductBody): (r: Step<Product, ProductDetails>)
    ensures r.result == Err(NotFound(ProductNotFound)) <==> !Live(store, id)
    ensures r.result == Err(Forbidden(NotAllowedToUpdate)) <==> Live(store, id) && store[id].createdBy != loggedInUser.id
    ensures r.result.Err? ==> r.store == store
    ensures r.result.Ok? <==> Live(store, id) && store[id].createdBy == loggedInUser.id
    ensures r.result.Ok? ==>
              && r.store.Keys == store.Keys
              && (forall other :: other in store && other != id ==> r.store[other] == store[other])
              && r.store[id].name == body.name
              && r.store[id].description == body.description
              && r.store[id].image == body.image
              && r.store[id].createdBy == store[id].createdBy
              && r.store[id].updatedBy == store[id].updatedBy
              && r.store[id].createdAt == store[id].createdAt
              && r.store[id].updatedAt == store[id].updatedAt
              && r.store[id].deletedAt == store[id].deletedAt
              && r.result.value == Details(id, r.store[id])
  {
    if !Live(store, id) then Step(Err(NotFound(ProductNotFound)), store)
    else if store[id].createdBy != loggedInUser.id then Step(Err(Forbidden(NotAllowedToUpdate)), store)
    else
      var updated := store[id].(name := body.name, description := body.description, image := body.image);
      var after := store[id := updated];
      Step(Ok(Details(id, updated)), after)
  }

  /** delete: looks the record up without the deletedAt filter, so only an absent id is
      NotFound; Forbidden unless the caller created it; otherwise the record stays and
      only its deletedAt becomes `now`. */
  function DeleteStep(store: map<Id, Product>, loggedInUser: Claims, id: Id, now: int): (r: Step<Product, ()>)
    ensures r.result == Err(NotFound(ProductNotFound)) <==> id !in store
    ensures r.result == Err(Forbidden(NotAllowedToDelete)) <==> id in store && store[id].createdBy != loggedInUser.id
    ensures r.result.Err? ==> r.store == store
    ensures r.result.Ok? <==> id in store && store[id].createdBy == loggedInUser.id
    ensures r.result.Ok? ==> id in store && r.store == store[id := store[id].(deletedAt := Some(now))]
  {
    if id !in store then Step(Err(NotFound(ProductNotFound)), store)
    else if store[id].createdBy != loggedInUser.id then Step(Err(Forbidden(NotAllowedToDelete)), store)
    else Step(Ok(()), store[id := store[id].(deletedAt := Some(now))])
  }

  /** findAllWithPagination: the window of the newest-first matches, with the count of
      all matches and the requested page and limit echoed. */
  function ListPage(store: map<Id, Product>, n: nat, user: Claims, page: int, limit: int,
                    filters: ListFilters, matches: Matcher): (r: Result<Envelope<ProductDetails>>)
    ensures r.Err? <==> (page - 1) * limit < 0
    ensures r.Err? ==> r.error == StoreFailure(NegativeSkip)
    ensures r.Ok? ==>
              var all := Listing(store, n, QueryFor(user, filters), matches);
              && r.value.page == page && r.value.limit == limit
              && r.value.total == |all|
              && forall k :: 0 <= k < |r.value.data| ==>
                   (page - 1) * limit + k < |all| && r.value.data[k] == all[(page - 1) * limit + k]
  {
    var q := QueryFor(user, filters);
    var all := Listing(store, n, q, matches);
    ListTotal(store, n, q, matches);
    match Paginate(all, page, limit)
    case Err(e) => Err(e)
    case Ok(data) => Ok(Envelope(data, |SelectIds(store, Keep(q, matches), n)|, page, limit))
  }

  // ---------------------------------------------------------------------------
  // Properties of the listing

  lemma ListingMembers(store: map<Id, Product>, n: nat, q: ProductQuery, matches: Matcher, d: ProductDetails)
    ensures d in Listing(store, n, q, matches) <==>
              d.id < n && d.id in store && Admits(q, matches, store[d.id]) && d == Details(d.id, store[d.id])
  {
    var ids := SelectIds(store, Keep(q, matches), n);
    var ds := DetailsOf(store, ids);
    assert d in Listing(store, n, q, matches) <==> d in multiset(ds);
    if d.id < n && d.id in store && Admits(q, matches, store[d.id]) && d == Details(d.id, store[d.id]) {
      assert Keep(q, matches)(store[d.id]);
      var k :| 0 <= k < |ids| && ids[k] == d.id;
      assert ds[k] == d;
    }
  }

  /** Every listed item is a live record that matches the search in its name or
      description, lies in the date range, and is shown as stored. */
  lemma ListSound(store: map<Id, Product>, n: nat, user: Claims, page: int, limit: int,
                  filters: ListFilters, matches: Matcher)
    requires ListPage(store, n, user, page, limit, filters, matches).Ok?
    ensures forall d | d in ListPage(store, n, user, page, limit, filters, matches).value.data ::
              && d.id in store
              && d == Details(d.id, store[d.id])
              && store[d.id].deletedAt.None?
              && (SearchGiven(filters.search) ==>
                    matches(filters.search.value, store[d.id].name) || matches(filters.search.value, store[d.id].description))
              && (filters.createdAt.Some? ==> InRange(store[d.id].createdAt, filters.createdAt.value))
  {
    var q := QueryFor(user, filters);
    var all := Listing(store, n, q, matches);
    forall d | d in ListPage(store, n, user, page, limit, filters, matches).value.data
      ensures d in all
    {
      var data := ListPage(store, n, user, page, limit, filters, matches).value.data;
      var k :| 0 <= k < |data| && data[k] == d;
    }
    forall d | d in all
      ensures d.id in store && d == Details(d.id, store[d.id]) && Admits(q, matches, store[d.id])
    {
      ListingMembers(store, n, q, matches, d);
    }
  }

  /** A caller with role `user` sees only products it created; an admin's query carries
      no creator condition, so every live match is counted for it whoever created it. */
  lemma ListOwnerScoped(store: map<Id, Product>, n: nat, user: Claims, page: int, limit: int,
                        filters: ListFilters, matches: Matcher)
    requires ListPage(store, n, user, page, limit, filters, matches).Ok?
    ensures user.role == User ==>
              forall d | d in ListPage(store, n, user, page, limit, filters, matches).value.data ::
                d.createdBy == user.id
    ensures user.role == Admin ==>
              forall id | id in store && id < n && store[id].deletedAt.None?
                          && (SearchGiven(filters.search) ==>
                                matches(filters.search.value, store[id].name) || matches(filters.search.value, store[id].description))
                          && (filters.createdAt.Some? ==> InRange(store[id].createdAt, filters.createdAt.value)) ::
                Details(id, store[id]) in Listing(store, n, QueryFor(user, filters), matches)
  {
    var q := QueryFor(user, filters);
    var all := Listing(store, n, q, matches);
    if user.role == User {
      forall d | d in ListPage(store, n, user, page, limit, filters, matches).value.data
        ensures d.createdBy == user.id
      {
        var data := ListPage(store, n, user, page, limit, filters, matches).value.data;
        var k :| 0 <= k < |data| && data[k] == d;
        assert d in all;
        ListingMembers(store, n, q, matches, d);
      }
    } else {
      forall id | id in store && id < n && store[id].deletedAt.None?
                  && (SearchGiven(filters.search) ==>
                        matches(filters.search.value, store[id].name) || matches(filters.search.value, store[id].description))
                  && (filters.createdAt.Some? ==> InRange(store[id].createdAt, filters.createdAt.value))
        ensures Details(id, store[id]) in all
      {
        ListingMembers(store, n, q, matches, Details(id, store[id]));
      }
    }
  }

  /** The page is sorted newest first, holds at most `limit` items (for a positive
      limit; for page and limit >= 1 exactly what is left of the matches, up to
      `limit`) taken from offset (page-1)*limit of all matches, echoes page and limit,
      and its total is the number of all matches in the collection, whatever the page. */
  lemma ListWindow(store: map<Id, Product>, n: nat, user: Claims, page: int, limit: int,
                   filters: ListFilters, matches: Matcher)
    requires Bounded(store, n)
    requires ListPage(store, n, user, page, limit, filters, matches).Ok?
    ensures var env := ListPage(store, n, user, page, limit, filters, matches).value;
            var all := Listing(store, n, QueryFor(user, filters), matches);
            && NewestFirst(env.data)
            && (limit > 0 ==> |env.data| <= limit)
            && (limit < 0 ==> |env.data| <= -limit)
            && (page >= 1 && limit == 0 ==> |env.data| == env.total)
            && (page >= 1 && limit >= 1 ==> |env.data| == Max(0, Min(limit, env.total - (page - 1) * limit)))
            && (forall k :: 0 <= k < |env.data| ==> env.data[k] == all[(page - 1) * limit + k])
            && env.page == page && env.limit == limit
            && env.total == |all|
            && env.total == |Matching(store, Keep(QueryFor(user, filters), matches))|
  {
    var q := QueryFor(user, filters);
    ListTotal(store, n, q, matches);
    SelectCount(store, Keep(q, matches), n);
    ListPageSorted(store, n, user, page, limit, filters, matches);
    if page >= 1 && limit >= 1 {
      ListPageSize(store, n, user, page, limit, filters, matches);
    }
  }

  /** A window of a newest-first sequence is newest first. */
  lemma WindowNewestFirst(all: seq<ProductDetails>, skip: int, limit: int)
    requires NewestFirst(all)
    requires Window(all, skip, limit).Ok?
    ensures NewestFirst(Window(all, skip, limit).value)
  {
    var data := Window(all, skip, limit).value;
    forall i, j | 0 <= i < j < |data| ensures data[i].createdAt >= data[j].createdAt {
      assert data[i] == all[skip + i] && data[j] == all[skip + j];
    }
  }

  /** The listing page is newest first. */
  lemma ListPageSorted(store: map<Id, Product>, n: nat, user: Claims, page: int, limit: int,
                       filters: ListFilters, matches: Matcher)
    requires ListPage(store, n, user, page, limit, filters, matches).Ok?
    ensures NewestFirst(ListPage(store, n, user, page, limit, filters, matches).value.data)
  {
    WindowNewestFirst(Listing(store, n, QueryFor(user, filters), matches), (page - 1) * limit, limit);
  }

  /** The listing's total is the length of the whole sorted listing. */
  lemma ListTotal(store: map<Id, Product>, n: nat, q: ProductQuery, matches: Matcher)
    ensures |Listing(store, n, q, matches)| == |SelectIds(store, Keep(q, matches), n)|
  {
    var ids := SelectIds(store, Keep(q, matches), n);
    var all := Listing(store, n, q, matches);
    assert |all| == |multiset(all)| == |multiset(DetailsOf(store, ids))| == |ids|;
  }

  /** For page and limit >= 1 the page holds what is left of the matches after the
      offset, up to `limit`. */
  lemma ListPageSize(store: map<Id, Product>, n: nat, user: Claims, page: int, limit: int,
                     filters: ListFilters, matches: Matcher)
    requires page >= 1 && limit >= 1
    ensures var env := ListPage(store, n, user, page, limit, filters, matches).value;
            |env.data| == Max(0, Min(limit, env.total - (page - 1) * limit))
  {
    ListTotal(store, n, QueryFor(user, filters), matches);
    PageBounds(Listing(store, n, QueryFor(user, filters), matches), page, limit);
  }

  // ---------------------------------------------------------------------------
  // Properties relating several operations

  /** A created product can be read back, with the caller as its creator. */
  lemma CreateThenGet(store: map<Id, Product>, id: Id, loggedInUser: Claims, body: ProductBody, now: int)
    requires id !in store
    ensures var after := store[id := NewProduct(loggedInUser, body, now)];
            && GetProduct(after, id) == Ok(ProductDetails(id, body.name, body.description, body.image, loggedInUser.id, now))
            && (forall other :: other in store ==> other in after && after[other] == store[other])
  {
  }

  /** After a successful delete the record is still stored, with deletedAt = now,
      but reading, updating and listing treat it as absent; deleting it again
      succeeds for its creator and re-stamps deletedAt. */
  lemma DeleteIsSoft(store: map<Id, Product>, n: nat, loggedInUser: Claims, id: Id, now: int, later: int,
                     body: ProductBody, q: ProductQuery, matches: Matcher)
    requires DeleteStep(store, loggedInUser, id, now).result.Ok?
    ensures var after := DeleteStep(store, loggedInUser, id, now).store;
            && id in after && after[id].deletedAt == Some(now)
            && GetProduct(after, id) == Err(NotFound(ProductNotFound))
            && UpdateStep(after, loggedInUser, id, body).result == Err(NotFound(ProductNotFound))
            && (forall d | d in Listing(after, n, q, matches) :: d.id != id)
            && DeleteStep(after, loggedInUser, id, later).result.Ok?
            && DeleteStep(after, loggedInUser, id, later).store[id].deletedAt == Some(later)
  {
    var after := DeleteStep(store, loggedInUser, id, now).store;
    forall d | d in Listing(after, n, q, matches) ensures d.id != id {
      ListingMembers(after, n, q, matches, d);
    }
  }

  // ---------------------------------------------------------------------------
  // The service, holding the product collection

  class ProductsService {
    var products: map<Id, Product>
    var nextId: nat

    ghost predicate Valid()
      reads this
    {
      Bounded(products, nextId)
    }

    constructor ()
      ensures Valid() && products == map[] && nextId == 0
    {
      products := map[];
      nextId := 0;
    }

    /** create: inserts one new record under a fresh id and returns its details. */
    method Create(loggedInUser: Claims, product: ProductBody, now: int) returns (details: ProductDetails)
      requires Valid()
      modifies this
      ensures Valid()
      ensures details.id == old(nextId) && details.id !in old(products)
      ensures products == old(products)[details.id := NewProduct(loggedInUser, product, now)]
      ensures details == Details(details.id, products[details.id])
    {
      var id := nextId;
      products := products[id := NewProduct(loggedInUser, product, now)];
      nextId := nextId + 1;
      details := Details(id, products[id]);
    }

    /** findAllWithPagination: builds the query step by step, then finds, sorts,
        skips, limits and counts. */
    method FindAllWithPagination(user: Claims, page: int, limit: int, filters: ListFilters, matches: Matcher)
      returns (r: Result<Envelope<ProductDetails>>)
      requires Valid()
      ensures r == ListPage(products, nextId, user, page, limit, filters, matches)
    {
      var query := ProductQuery(None, None, None);
      if SearchGiven(filters.search) {
        query := query.(search := filters.search);
      }
      if filters.createdAt.Some? {
        query := query.(createdAt := filters.createdAt);
      }
      if user.role == User {
        query := query.(createdBy := Some(user.id));
      }
      assert query == QueryFor(user, filters);
      var skip := (page - 1) * limit;
      var ids := SelectIds(products, Keep(query, matches), nextId);
      var found := Window(SortNewestFirst(DetailsOf(products, ids)), skip, limit);
      if found.Err? {
        return Err(found.error);
      }
      var total := |ids|;
      r := Ok(Envelope(found.value, total, page, limit));
    }

    /** update: see UpdateStep. */
    method Update(loggedInUser: Claims, id: Id, product: ProductBody) returns (r: Result<ProductDetails>)
      requires Valid()
      modifies this
      ensures Valid() && nextId == old(nextId)
      ensures r == UpdateStep(old(products), loggedInUser, id, product).result
      ensures products == UpdateStep(old(products), loggedInUser, id, product).store
    {
      if !Live(products, id) {
        return Err(NotFound(ProductNotFound));
      }
      if products[id].createdBy != loggedInUser.id {
        return Err(Forbidden(NotAllowedToUpdate));
      }
      products := products[id := products[id].(name := product.name, description := product.description, image := product.image)];
      r := Ok(Details(id, products[id]));
    }

    /** delete: see DeleteStep. */
    method Delete(loggedInUser: Claims, id: Id, now: int) returns (r: Result<()>)
      requires Valid()
      modifies this
      ensures Valid() && nextId == old(nextId)
      ensures r == DeleteStep(old(products), loggedInUser, id, now).result
      ensures products == DeleteStep(old(products), loggedInUser, id, now).store
    {
      if id !in products {
        return Err(NotFound(ProductNotFound));
      }
      if products[id].createdBy != loggedInUser.id {
        return Err(Forbidden(NotAllowedToDelete));
      }
      products := products[id := products[id].(deletedAt := Some(now))];
      r := Ok(());
    }
  }
}
