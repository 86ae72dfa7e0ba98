/** The paginated envelope and the store's `skip`/`limit` semantics. */
module Pagination {
  import opened Common

  /** `{data, total, page, limit}` returned by both paginated listings. */
  datatype Envelope<T> = Envelope(data: seq<T>, total: nat, page: int, limit: int)

  const NegativeSkip := "skip value must be non-negative"

  function Abs(x: int): nat { if x < 0 then -x else x }

  function Min(a: int, b: int): int { if a <= b then a else b }

  function Max(a: int, b: int): int { if a <= b then b else a }

  /** `.skip(skip).limit(limit)` on an ordered result: the store rejects a negative
      skip, treats limit 0 as "no limit" and a negative limit as its absolute value. */
  function Window<T>(s: seq<T>, skip: int, limit: int): (r: Result<seq<T>>)
    ensures r.Err? <==> skip < 0
    ensures r.Ok? ==> forall k :: 0 <= k < |r.value| ==> skip + k < |s| && r.value[k] == s[skip + k]
    ensures r.Ok? && limit != 0 ==> |r.value| == Min(Abs(limit), Max(0, |s| - skip))
    ensures r.Ok? && limit == 0 ==> |r.value| == Max(0, |s| - skip)
  {
    if skip < 0 then Err(StoreFailure(NegativeSkip))
    else
      var rest := if skip < |s| then s[skip..] else [];
      var n := if limit == 0 || Abs(limit) > |rest| then |rest| else Abs(limit);
      Ok(rest[..n])
  }

  /** `skip = (page - 1) * limit`, then the window. */
  function Paginate<T>(s: seq<T>, page: int, limit: int): Result<seq<T>>
  {
    Window(s, (page - 1) * limit, limit)
  }

  /** For page >= 1 and limit >= 1 the page always exists, holds at most `limit` items,
      holds exactly min(limit, |s| - (page-1)*limit) of them (none past the end),
      and starts at offset (page-1)*limit of the ordered matches. */
  lemma PageBounds<T>(s: seq<T>, page: int, limit: int)
    requires page >= 1 && limit >= 1
    ensures Paginate(s, page, limit).Ok?
    ensures |Paginate(s, page, limit).value| <= limit
    ensures |Paginate(s, page, limit).value| == Max(0, Min(limit, |s| - (page - 1) * limit))
    ensures forall k :: 0 <= k < |Paginate(s, page, limit).value| ==>
              Paginate(s, page, limit).value[k] == s[(page - 1) * limit + k]
  {
  }

  /** 25 matches with limit 10: pages 1 and 2 hold 10 items, page 3 holds 5, page 4 none. */
  lemma TwentyFiveMatchesExample(s: seq<int>)
    requires |s| == 25
    ensures |Paginate(s, 1, 10).value| == 10 && |Paginate(s, 2, 10).value| == 10
    ensures |Paginate(s, 3, 10).value| == 5 && |Paginate(s, 4, 10).value| == 0
  {
    PageBounds(s, 1, 10);
    PageBounds(s, 2, 10);
    PageBounds(s, 3, 10);
    PageBounds(s, 4, 10);
  }

  /** Page 0 with a positive limit asks for a negative skip, which the store rejects. */
  lemma PageZeroRejected<T>(s: seq<T>, limit: int)
    requires limit >= 1
    ensures Paginate(s, 0, limit).Err?
  {
  }
}
