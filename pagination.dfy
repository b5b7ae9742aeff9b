/** Offset pagination of src/common/dto/pagination.dto.ts: the page/limit
    query parameters, the skip/take they translate to, and the metadata
    block of a paginated answer. */
module Pagination {
  import opened Common

  const DEFAULT_PAGE: nat := 1
  const DEFAULT_LIMIT: nat := 10
  const MAX_LIMIT: nat := 100

  /** The query DTO after validation; `Valid` is what its validators admit. */
  datatype PaginationDto = PaginationDto(page: int, limit: int)
  {
    predicate Valid()
    {
      page >= 1 && 1 <= limit <= MAX_LIMIT
    }

    /** Rows before the page: the previous pages, full. */
    function Skip(): (r: nat)
      requires Valid()
      ensures r == PageStart(page, limit)
      ensures r % limit == 0 && r / limit == page - 1
    {
      PageStartDivides(page, limit);
      (page - 1) * limit
    }

    function Take(): (r: nat)
      requires Valid()
      ensures 1 <= r <= MAX_LIMIT
    {
      limit
    }
  }

  /** Each omitted parameter takes its declared default, independently of
      the other; a given one is kept. */
  function DtoOf(page: Option<int>, limit: Option<int>): (d: PaginationDto)
    ensures d.page == (if page.None? then DEFAULT_PAGE else page.value)
    ensures d.limit == (if limit.None? then DEFAULT_LIMIT else limit.value)
    ensures (page.None? || 1 <= page.value) && (limit.None? || 1 <= limit.value <= MAX_LIMIT) ==> d.Valid()
    ensures page.None? && limit.None? ==> d.Valid() && d.Skip() == 0 && d.Take() == DEFAULT_LIMIT
  {
    PaginationDto(if page.Some? then page.value else DEFAULT_PAGE, if limit.Some? then limit.value else DEFAULT_LIMIT)
  }

  /** The first row index of page `page` (counting from 1). */
  function PageStart(page: int, limit: nat): int
  {
    (page - 1) * limit
  }

  lemma MulMonotone(a: int, b: int, l: nat)
    requires a <= b
    ensures a * l <= b * l
  {
    assert b * l == a * l + (b - a) * l;
  }

  /** Euclidean division has one quotient and remainder. */
  lemma DivUnique(n: int, l: nat, q: int, r: int)
    requires l >= 1 && 0 <= r < l && n == q * l + r
    ensures n / l == q && n % l == r
  {
    var q0, r0 := n / l, n % l;
    assert n == q0 * l + r0;
    if q0 < q {
      MulMonotone(q0 + 1, q, l);
    } else if q < q0 {
      MulMonotone(q + 1, q0, l);
    }
  }

  lemma PageStartDivides(page: int, limit: nat)
    requires page >= 1 && limit >= 1
    ensures PageStart(page, limit) >= 0
    ensures PageStart(page, limit) % limit == 0 && PageStart(page, limit) / limit == page - 1
  {
    MulMonotone(0, page - 1, limit);
    DivUnique(PageStart(page, limit), limit, page - 1, 0);
  }

  /** Every row index lies on exactly one page, the page `n / limit + 1`. */
  lemma PageOfRow(n: nat, limit: nat, page: int)
    requires limit >= 1
    ensures PageStart(n / limit + 1, limit) <= n < PageStart(n / limit + 1, limit) + limit
    ensures page >= 1 && PageStart(page, limit) <= n < PageStart(page, limit) + limit ==> page == n / limit + 1
  {
    var q := n / limit;
    assert PageStart(q + 1, limit) == q * limit;
    if page >= 1 && PageStart(page, limit) <= n < PageStart(page, limit) + limit {
      DivUnique(n, limit, page - 1, n - PageStart(page, limit));
    }
  }

  /** `Math.ceil(total / limit)` for a positive limit. */
  function CeilDiv(total: nat, limit: nat): (r: nat)
    requires limit >= 1
    ensures r * limit >= total
    ensures r == 0 || (r - 1) * limit < total
    ensures r == 0 <==> total == 0
  {
    var r := (total + limit - 1) / limit;
    assert total + limit - 1 == r * limit + (total + limit - 1) % limit;
    assert (r - 1) * limit == r * limit - limit;
    r
  }

  /** `page < ceil(total / limit)` says exactly that rows exist past the
      current page. */
  lemma BelowCeilIffRowsRemain(page: int, total: nat, limit: nat)
    requires limit >= 1
    ensures page < CeilDiv(total, limit) <==> page * limit < total
  {
    var c := CeilDiv(total, limit);
    if page < c {
      MulMonotone(page, c as int - 1, limit);
    } else {
      MulMonotone(c, page, limit);
    }
  }

  datatype Meta = Meta(total: nat, page: int, limit: nat, totalPages: nat, hasNextPage: bool, hasPrevPage: bool)
  datatype PaginatedResponse<T> = PaginatedResponse(data: seq<T>, meta: Meta)

  /** `createPaginatedResponse`: there is a next page exactly when rows
      exist past this one, and a previous page exactly when this is not the
      first. */
  function CreatePaginatedResponse<T>(data: seq<T>, total: nat, page: int, limit: nat): (r: PaginatedResponse<T>)
    requires limit >= 1
    ensures r.data == data && r.meta.total == total && r.meta.page == page && r.meta.limit == limit
    ensures r.meta.totalPages * limit >= total && (r.meta.totalPages == 0 || (r.meta.totalPages - 1) * limit < total)
    ensures r.meta.hasNextPage <==> page * limit < total
    ensures r.meta.hasPrevPage <==> page > 1
  {
    var totalPages := CeilDiv(total, limit);
    BelowCeilIffRowsRemain(page, total, limit);
    PaginatedResponse(data, Meta(total, page, limit, totalPages, page < totalPages, page > 1))
  }

  /** Prisma's `skip`/`take` on an ordered result: at most `take` rows,
      starting `skip` rows in. */
  function PageSlice<T>(rows: seq<T>, skip: nat, take: nat): (r: seq<T>)
    ensures |r| == if skip >= |rows| then 0 else if skip + take <= |rows| then take else |rows| - skip
    ensures forall i :: 0 <= i < |r| ==> r[i] == rows[skip + i]
  {
    if skip >= |rows| then [] else if skip + take <= |rows| then rows[skip..skip + take] else rows[skip..]
  }

  /** The first `k` pages, one after another. */
  function FirstPages<T>(rows: seq<T>, limit: nat, k: nat): seq<T>
  {
    if k == 0 then [] else FirstPages(rows, limit, k - 1) + PageSlice(rows, PageStart(k, limit), limit)
  }

  /** The first `k` pages are exactly the first `k * limit` rows, so
      the pages neither skip nor repeat a row. */
  lemma {:induction false} FirstPagesArePrefix<T>(rows: seq<T>, limit: nat, k: nat)
    requires limit >= 1
    ensures FirstPages(rows, limit, k) == rows[..if k * limit <= |rows| then k * limit else |rows|]
  {
    if k > 0 {
      FirstPagesArePrefix(rows, limit, k - 1);
      var s := PageStart(k, limit);
      assert s == (k - 1) * limit;
      assert k * limit == s + limit;
      var prev := if s <= |rows| then s else |rows|;
      var next := if k * limit <= |rows| then k * limit else |rows|;
      assert rows[..next] == rows[..prev] + rows[prev..next];
    }
  }

  /** Reading pages 1 to `totalPages` returns every row once, in order. */
  lemma AllPagesCoverRows<T>(rows: seq<T>, limit: nat)
    requires limit >= 1
    ensures FirstPages(rows, limit, CreatePaginatedResponse(rows, |rows|, 1, limit).meta.totalPages) == rows
  {
    var n := CeilDiv(|rows|, limit);
    FirstPagesArePrefix(rows, limit, n);
  }
}
