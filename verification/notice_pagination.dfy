/** Pagination of the filtered notice list (frontend/src/app/notice/page.tsx):
    ten notices per page, the page shown is a slice of the filtered list, and
    the previous/next buttons clamp the page number. */
module NoticePagination {

  const NoticesPerPage: nat := 10

  function Min(a: int, b: int): int
  {
    if a <= b then a else b
  }

  /** `Math.ceil(n / noticesPerPage)`: the fewest pages that hold `n` notices. */
  function TotalPages(n: nat): (t: nat)
    ensures t * NoticesPerPage >= n
    ensures t == 0 || (t - 1) * NoticesPerPage < n
    ensures t == 0 <==> n == 0
  {
    (n + NoticesPerPage - 1) / NoticesPerPage
  }

  /** How `Array.prototype.slice` reads one bound: a negative bound counts
      back from the end, and every bound is clamped to [0, len]. */
  function SliceBound(k: int, len: nat): (r: nat)
    ensures r <= len
    ensures 0 <= k <= len ==> r == k
  {
    if k < 0 then (if len + k < 0 then 0 else len + k)
    else if k < len then k
    else len
  }

  /** `xs.slice(start, end)`. */
  function JsSlice<T>(xs: seq<T>, start: int, end: int): seq<T>
  {
    var from := SliceBound(start, |xs|);
    var to := SliceBound(end, |xs|);
    if from < to then xs[from..to] else []
  }

  /** `currentNotices`: the slice from `indexOfFirstNotice` to
      `indexOfLastNotice` for page `page` (pages count from 1). */
  function CurrentPage<T>(filtered: seq<T>, page: int): (r: seq<T>)
    ensures page >= 1 && (page - 1) * NoticesPerPage <= |filtered| ==>
      r == filtered[(page - 1) * NoticesPerPage..Min(page * NoticesPerPage, |filtered|)]
    ensures page >= 1 && (page - 1) * NoticesPerPage >= |filtered| ==> r == []
    ensures page >= 1 ==> |r| <= NoticesPerPage
  {
    var indexOfLast := page * NoticesPerPage;
    var indexOfFirst := indexOfLast - NoticesPerPage;
    JsSlice(filtered, indexOfFirst, indexOfLast)
  }

  /** Pages 1 to k, one after the other. */
  function PagesUpTo<T>(xs: seq<T>, k: nat): seq<T>
  {
    if k == 0 then [] else PagesUpTo(xs, k - 1) + CurrentPage(xs, k)
  }

  /** The first k pages are the first 10k notices (or all of them). */
  lemma {:induction false} PagesUpToIsPrefix<T>(xs: seq<T>, k: nat)
    ensures PagesUpTo(xs, k) == xs[..Min(k * NoticesPerPage, |xs|)]
  {
    if k > 0 {
      PagesUpToIsPrefix(xs, k - 1);
      var a := Min((k - 1) * NoticesPerPage, |xs|);
      var b := Min(k * NoticesPerPage, |xs|);
      assert xs[..b] == xs[..a] + xs[a..b];
    }
  }

  /** Reading pages 1 to totalPages in turn shows every filtered notice once,
      in order, and nothing else. */
  lemma PagesCoverList<T>(xs: seq<T>)
    ensures PagesUpTo(xs, TotalPages(|xs|)) == xs
  {
    PagesUpToIsPrefix(xs, TotalPages(|xs|));
  }

  /** The i-th filtered notice is shown on page i/10 + 1, at row i % 10, and
      that page exists. */
  lemma NoticeOnItsPage<T>(xs: seq<T>, i: nat)
    requires i < |xs|
    ensures 1 <= i / NoticesPerPage + 1 <= TotalPages(|xs|)
    ensures i % NoticesPerPage < |CurrentPage(xs, i / NoticesPerPage + 1)|
    ensures CurrentPage(xs, i / NoticesPerPage + 1)[i % NoticesPerPage] == xs[i]
  {
  }

  /** "이전" (previous): `Math.max(1, currentPage - 1)`. */
  function PrevPage(p: int): (r: int)
    ensures r >= 1
    ensures p >= 1 ==> p - 1 <= r <= p
    ensures r == p <==> p == 1
  {
    if p - 1 >= 1 then p - 1 else 1
  }

  /** "다음" (next): `Math.min(totalPages, currentPage + 1)`. */
  function NextPage(p: int, totalPages: int): (r: int)
    ensures r <= totalPages
    ensures p <= totalPages ==> p <= r <= p + 1
    ensures r == p <==> p == totalPages
  {
    if p + 1 <= totalPages then p + 1 else totalPages
  }

  /** The page buttons are rendered only when there is more than one page. */
  predicate PaginationShown(totalPages: int)
  {
    totalPages > 1
  }
}
