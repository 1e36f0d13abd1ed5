/**
 * The arithmetic of the picker's pagination control: how many pages a result count
 * fills, which results the current page shows, when the previous and next buttons are
 * disabled, and how a page request is clamped.
 */
module Pagination {

  function Min(a: int, b: int): int { if a < b then a else b }

  function Max(a: int, b: int): int { if a > b then a else b }

  /** `Math.ceil(resultCount / resultsPerPage)` for a whole count and a positive page size. */
  function PageCount(count: nat, perPage: nat): nat
    requires perPage >= 1
  {
    (count + perPage - 1) / perPage
  }

  /** The 1-based index of the first result on `page`. */
  function FirstOnPage(count: nat, perPage: nat, page: int): int {
    Min((page - 1) * perPage + 1, count)
  }

  /** The 1-based index of the last result on `page`. */
  function LastOnPage(count: nat, perPage: nat, page: int): int {
    Min(page * perPage, count)
  }

  /** A number in the pagination text; `n || '-'` shows a dash for zero. */
  datatype Cell = Number(n: int) | Dash

  function OrDash(n: int): Cell {
    if n == 0 then Dash else Number(n)
  }

  /** What the pagination text says, before localisation of its label. */
  datatype Caption = NoResults | Range(first: Cell, last: Cell, total: Cell)

  /** Everything the pagination control shows for a result count, page size and page. */
  datatype View = View(pageCount: nat, first: int, last: int,
                       prevDisabled: bool, nextDisabled: bool, caption: Caption)

  function ComputeView(count: nat, perPage: nat, page: int): (r: View)
    requires perPage >= 1
    ensures r.first <= r.last <= count
    ensures r.caption == NoResults <==> count == 0
    ensures r.pageCount == 0 <==> count == 0
    ensures r.nextDisabled <==> page >= r.pageCount
  {
    PageCountIsCeiling(count, perPage);
    var pageCount := PageCount(count, perPage);
    var first := FirstOnPage(count, perPage, page);
    var last := LastOnPage(count, perPage, page);
    View(pageCount, first, last, page <= 1, page >= pageCount,
         if count == 0 then NoResults else Range(OrDash(first), OrDash(last), OrDash(count)))
  }

  /** The page count is the ceiling of count / perPage: just enough pages to hold every result. */
  lemma PageCountIsCeiling(count: nat, perPage: nat)
    requires perPage >= 1
    ensures PageCount(count, perPage) == 0 <==> count == 0
    ensures count <= PageCount(count, perPage) * perPage
    ensures count > 0 ==> (PageCount(count, perPage) - 1) * perPage < count
  {
    var x := count + perPage - 1;
    var q, r := x / perPage, x % perPage;
    assert x == q * perPage + r && 0 <= r < perPage;
    assert (q - 1) * perPage == q * perPage - perPage;
  }

  /** On an existing page the bounds are 1 <= first <= last <= count, at most perPage results
    * apart, and every page but the last is full. */
  lemma PageBounds(count: nat, perPage: nat, page: int)
    requires perPage >= 1
    requires 1 <= page <= PageCount(count, perPage)
    ensures var f, l := FirstOnPage(count, perPage, page), LastOnPage(count, perPage, page);
      && f == (page - 1) * perPage + 1
      && 1 <= f <= l <= count
      && l - f < perPage
      && (page < PageCount(count, perPage) ==> l == page * perPage)
      && (page == PageCount(count, perPage) ==> l == count)
  {
    var pc := PageCount(count, perPage);
    PageCountIsCeiling(count, perPage);
    assert (page - 1) * perPage <= (pc - 1) * perPage by {
      MulMonotone(page - 1, pc - 1, perPage);
    }
    assert page * perPage == (page - 1) * perPage + perPage;
    if page < pc {
      MulMonotone(page, pc - 1, perPage);
    } else {
      assert pc * perPage >= count;
    }
  }

  lemma MulMonotone(a: int, b: int, k: nat)
    requires a <= b
    ensures a * k <= b * k
  {
    assert b * k - a * k == (b - a) * k;
  }

  /** The page holding the k-th result. */
  function PageOf(k: nat, perPage: nat): nat
    requires perPage >= 1
  {
    (k - 1) / perPage + 1
  }

  /** Every result 1..count is shown on exactly one existing page. */
  lemma EveryResultOnOnePage(count: nat, perPage: nat, k: int, page: int)
    requires perPage >= 1 && 1 <= k <= count
    ensures 1 <= PageOf(k, perPage) <= PageCount(count, perPage)
    ensures FirstOnPage(count, perPage, PageOf(k, perPage)) <= k <= LastOnPage(count, perPage, PageOf(k, perPage))
    ensures 1 <= page <= PageCount(count, perPage)
            && FirstOnPage(count, perPage, page) <= k <= LastOnPage(count, perPage, page)
            ==> page == PageOf(k, perPage)
  {
    var p := PageOf(k, perPage);
    var q, r := (k - 1) / perPage, (k - 1) % perPage;
    assert k - 1 == q * perPage + r && 0 <= r < perPage;
    assert p * perPage == q * perPage + perPage;
    assert k <= p * perPage;
    PageCountIsCeiling(count, perPage);
    var pc := PageCount(count, perPage);
    if p > pc {
      MulMonotone(pc, p - 1, perPage);
      assert false;
    }
    if 1 <= page <= pc && FirstOnPage(count, perPage, page) <= k <= LastOnPage(count, perPage, page) {
      PageBounds(count, perPage, page);
      assert (page - 1) * perPage < k;
      assert k <= page * perPage;
      if page < p {
        MulMonotone(page, q, perPage);
        assert false;
      } else if page > p {
        MulMonotone(p, page - 1, perPage);
        assert false;
      }
    }
  }

  /** With no results both buttons are disabled and the text reports no results; with some
    * results on an existing page the text shows its real bounds, never a dash. */
  lemma ViewCaption(count: nat, perPage: nat, page: int)
    requires perPage >= 1
    ensures count == 0 && 0 <= page <= 1 ==>
      var v := ComputeView(count, perPage, page);
      v.pageCount == 0 && v.prevDisabled && v.nextDisabled && v.caption == NoResults
    ensures count > 0 && 1 <= page <= PageCount(count, perPage) ==>
      ComputeView(count, perPage, page).caption
        == Range(Number((page - 1) * perPage + 1), Number(LastOnPage(count, perPage, page)), Number(count))
  {
    if count > 0 && 1 <= page <= PageCount(count, perPage) {
      PageBounds(count, perPage, page);
    }
  }

  /** On an existing page, prev is enabled away from the first page and next away from the last. */
  lemma ViewButtons(count: nat, perPage: nat, page: int)
    requires perPage >= 1
    requires 1 <= page <= PageCount(count, perPage)
    ensures var v := ComputeView(count, perPage, page);
      && (v.prevDisabled <==> page == 1)
      && (v.nextDisabled <==> page == v.pageCount)
  {
  }

  /** The pages of a worked example: 37 results at 15 per page, and no results at all. */
  lemma ViewExamples()
    ensures ComputeView(0, 15, 1) == View(0, 0, 0, true, true, NoResults)
    ensures ComputeView(37, 15, 3) == View(3, 31, 37, false, true, Range(Number(31), Number(37), Number(37)))
    ensures ComputeView(37, 15, 1) == View(3, 1, 15, true, false, Range(Number(1), Number(15), Number(37)))
    ensures ComputeView(0, 15, 3) == View(0, 0, 0, false, true, NoResults)
  {
  }

  /** The argument of `setPage`: `'prev'`, `'next'` or a page number. */
  datatype PageTarget = Prev | Next | Page(n: int)

  /** The page `setPage` asks for before clamping. */
  function Requested(target: PageTarget, current: int): int {
    match target
    case Prev => current - 1
    case Next => current + 1
    case Page(n) => n
  }

  /** `Math.min(Math.max(page, 1), pageCount)`: it lands on an existing page, keeps a page
    * that is already valid, and gives 0 when there are no pages at all. */
  function ClampPage(target: PageTarget, current: int, pageCount: nat): (r: nat)
    ensures pageCount == 0 ==> r == 0
    ensures pageCount >= 1 ==> 1 <= r <= pageCount
    ensures 1 <= Requested(target, current) <= pageCount ==> r == Requested(target, current)
  {
    Min(Max(Requested(target, current), 1), pageCount)
  }

  /** `page || 1`, where 0 stands for both a zero page and an absent one. */
  function PageOrFirst(page: nat): (r: nat)
    ensures r >= 1 && (page >= 1 ==> r == page)
  {
    if page == 0 then 1 else page
  }

  /** After `page || 1`, the clamp in the code agrees with the intended rule
    * max(1, min(requested, max(pageCount, 1))). */
  lemma ClampAgreesWithRule(target: PageTarget, current: int, pageCount: nat)
    ensures PageOrFirst(ClampPage(target, current, pageCount))
            == Max(1, Min(Requested(target, current), Max(pageCount, 1)))
  {
  }

  /** 'next' on the last page and 'prev' on the first page stay where they are. */
  lemma ClampAtEdges(current: int, pageCount: nat)
    ensures current == pageCount >= 1 ==> ClampPage(Next, current, pageCount) == current
    ensures current == 1 ==> ClampPage(Prev, current, pageCount) == Min(1, pageCount)
  {
  }
}
