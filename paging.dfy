/**
 * The page-link computation that every listing handler of the web
 * application repeats: from a row count and a requested page number it
 * derives the number of pages, the previous/next links and two runs of
 * page numbers around the current page, each with an ellipsis flag.
 * The rows shown for a page are the window `limit 10 offset (page-1)*10`
 * of the listing's ordered result.
 */
module Paging {
  import opened Wrappers

  /** Rows per page: every listing query says `limit 10`. */
  const PAGE_SIZE: nat := 10

  /** The number of pages needed for `count` rows: the quotient, plus one
      when a partial page remains. */
  function TotalPages(count: nat): (n: nat)
    ensures count <= n * PAGE_SIZE
    ensures n == 0 || (n - 1) * PAGE_SIZE < count
    ensures n == 0 <==> count == 0
  {
    var q := count / PAGE_SIZE;
    if count % PAGE_SIZE != 0 then q + 1 else q
  }

  /** The page numbers lo, lo+1, ..., hi, built the way the handlers build
      them: by appending one number at a time. Empty when hi < lo. */
  function Span(lo: int, hi: int): (s: seq<int>)
    decreases hi - lo
    ensures |s| == if hi < lo then 0 else hi - lo + 1
    ensures forall k :: 0 <= k < |s| ==> s[k] == lo + k
  {
    if hi < lo then [] else Span(lo, hi - 1) + [hi]
  }

  /** The `pagination` object a listing page is rendered with. The two
      ellipsis keys are either set to true or absent; absent reads as false. */
  datatype Pagination = Pagination(
    total: nat,
    current: int,
    previous: Option<int>,
    next: Option<int>,
    leftEllipsis: bool,
    rightEllipsis: bool,
    pagesLeft: seq<int>,
    pagesRight: seq<int>)

  /** The pagination object for `count` rows viewed at `page`, or None when
      there are no rows (no pagination object is emitted at all then). */
  function Window(count: nat, page: int): (r: Option<Pagination>)
    requires page >= 1
    ensures r.None? <==> count == 0
    ensures r.Some? ==> r.value.total == TotalPages(count) && r.value.current == page
    ensures r.Some? ==> (r.value.previous.Some? <==> page > 1)
    ensures r.Some? && r.value.previous.Some? ==> r.value.previous.value == page - 1
    ensures r.Some? ==> (r.value.next.Some? <==> page < r.value.total)
    ensures r.Some? && r.value.next.Some? ==> r.value.next.value == page + 1
    ensures r.Some? ==> (r.value.leftEllipsis <==> page - 3 > 2)
    ensures r.Some? ==> (r.value.rightEllipsis <==> page + 3 < r.value.total - 1)
    ensures r.Some? && r.value.leftEllipsis ==> r.value.pagesLeft == [page - 3, page - 2, page - 1]
    ensures r.Some? && !r.value.leftEllipsis ==> r.value.pagesLeft == Span(1, page - 1)
    ensures r.Some? && r.value.rightEllipsis ==> r.value.pagesRight == [page + 1, page + 2, page + 3]
    ensures r.Some? && !r.value.rightEllipsis ==> r.value.pagesRight == Span(page + 1, r.value.total)
  {
    var total := TotalPages(count);
    if total == 0 then None
    else
      var leftEllipsis := page - 3 > 2;
      var rightEllipsis := page + 3 < total - 1;
      var lower := if leftEllipsis then page - 3 else 1;
      var upper := if rightEllipsis then page + 3 else total;
      Some(Pagination(
        total, page,
        if page > 1 then Some(page - 1) else None,
        if page < total then Some(page + 1) else None,
        leftEllipsis, rightEllipsis,
        Span(lower, page - 1), Span(page + 1, upper)))
  }

  /** The pagination block of a listing handler: the flags are set by two
      tests on the page number, and the two runs are filled by counting
      loops that append one page number per step. */
  method Paginate(count: nat, page: int) returns (r: Option<Pagination>)
    requires page >= 1
    ensures r == Window(count, page)
  {
    var total := TotalPages(count);
    if total == 0 {
      return None;
    }
    var previous: Option<int> := None;
    var next: Option<int> := None;
    if page > 1 {
      previous := Some(page - 1);
    }
    if page < total {
      next := Some(page + 1);
    }
    var lower := page - 3;
    var upper := page + 3;
    var leftEllipsis := false;
    var rightEllipsis := false;
    if page - 3 > 2 {
      leftEllipsis := true;
    } else {
      lower := 1;
    }
    if page + 3 < total - 1 {
      rightEllipsis := true;
    } else {
      upper := total;
    }
    var pagesLeft: seq<int> := [];
    var i := lower;
    while i < page
      invariant lower <= i <= page
      invariant pagesLeft == Span(lower, i - 1)
    {
      pagesLeft := pagesLeft + [i];
      i := i + 1;
    }
    var pagesRight: seq<int> := [];
    i := page + 1;
    while i <= upper
      invariant i == page + 1 || page + 1 <= i <= upper + 1
      invariant pagesRight == Span(page + 1, i - 1)
    {
      pagesRight := pagesRight + [i];
      i := i + 1;
    }
    r := Some(Pagination(total, page, previous, next, leftEllipsis, rightEllipsis, pagesLeft, pagesRight));
  }

  /** For a page inside [1, total], the links shown (left run, the current
      page, right run) are consecutive page numbers, all inside [1, total]. */
  lemma WindowIsContiguous(count: nat, page: int)
    requires 1 <= page <= TotalPages(count)
    ensures Window(count, page).Some?
    ensures var w := Window(count, page).value;
            var shown := w.pagesLeft + [w.current] + w.pagesRight;
            && 1 <= shown[0]
            && shown[|shown| - 1] <= w.total
            && forall k :: 0 <= k < |shown| ==> shown[k] == shown[0] + k
  {
  }

  /** Each run holds at most four page numbers, so at most nine page links
      are ever shown. */
  lemma WindowSize(count: nat, page: int)
    requires page >= 1
    ensures Window(count, page).Some? ==>
              |Window(count, page).value.pagesLeft| <= 4 &&
              |Window(count, page).value.pagesRight| <= 4
  {
  }

  /** An ellipsis always stands for at least one hidden page, and a run
      without an ellipsis reaches the first (resp. last) page. */
  lemma EllipsisHidesAPage(count: nat, page: int)
    requires 1 <= page <= TotalPages(count)
    ensures var w := Window(count, page).value;
            && (w.leftEllipsis ==> w.pagesLeft[0] >= 3)
            && (!w.leftEllipsis && page > 1 ==> w.pagesLeft[0] == 1)
            && (w.rightEllipsis ==> w.pagesRight[|w.pagesRight| - 1] <= w.total - 2)
            && (!w.rightEllipsis && page < w.total ==> w.pagesRight[|w.pagesRight| - 1] == w.total)
  {
  }

  /** The rows of page `page`: `limit 10 offset (page-1)*10` over the
      listing's ordered result. */
  function PageSlice<T>(rows: seq<T>, page: int): (s: seq<T>)
    requires page >= 1
    ensures |s| <= PAGE_SIZE
    ensures (page - 1) * PAGE_SIZE >= |rows| ==> s == []
    ensures (page - 1) * PAGE_SIZE < |rows| ==>
              |s| == if |rows| - (page - 1) * PAGE_SIZE < PAGE_SIZE then |rows| - (page - 1) * PAGE_SIZE else PAGE_SIZE
    ensures forall k :: 0 <= k < |s| ==> s[k] == rows[(page - 1) * PAGE_SIZE + k]
  {
    var offset := (page - 1) * PAGE_SIZE;
    if offset >= |rows| then []
    else rows[offset .. if offset + PAGE_SIZE < |rows| then offset + PAGE_SIZE else |rows|]
  }

  /** Pages 1..n of `rows`, one after another. */
  function Pages<T>(rows: seq<T>, n: nat): seq<T>
  {
    if n == 0 then [] else Pages(rows, n - 1) + PageSlice(rows, n)
  }

  /** Pages 1..n together are the first n*10 rows (or all of them). */
  lemma {:induction false} PagesArePrefix<T>(rows: seq<T>, n: nat)
    ensures Pages(rows, n) == rows[..if n * PAGE_SIZE < |rows| then n * PAGE_SIZE else |rows|]
  {
    if n > 0 {
      PagesArePrefix(rows, n - 1);
      var before := if (n - 1) * PAGE_SIZE < |rows| then (n - 1) * PAGE_SIZE else |rows|;
      var after := if n * PAGE_SIZE < |rows| then n * PAGE_SIZE else |rows|;
      assert PageSlice(rows, n) == rows[before..after];
      assert rows[..before] + rows[before..after] == rows[..after];
    }
  }

  /** Pages 1..TotalPages(|rows|) reconstruct the whole listing with no
      row missing and none repeated. */
  lemma AllPagesReconstruct<T>(rows: seq<T>)
    ensures Pages(rows, TotalPages(|rows|)) == rows
  {
    PagesArePrefix(rows, TotalPages(|rows|));
  }

  /** A page past the last one has no rows; every page inside [1, total]
      has at least one. */
  lemma PageInRangeIffNonEmpty<T>(rows: seq<T>, page: int)
    requires page >= 1
    ensures PageSlice(rows, page) != [] <==> page <= TotalPages(|rows|)
  {
  }
}
