/** The pagination bar (app/presentation/components/Pagination.tsx): the
    "showing X to Y" range, the window of page buttons with its ellipses,
    whether the bar is rendered at all, and the previous/next buttons. */
module Pagination {
  import opened Optional

  /** An entry of the page window: a page button or an ellipsis. */
  datatype PageItem = Num(n: int) | Gap

  /** The props the bar reads; `onPageChange` is the click's target below. */
  datatype Props = Props(
    currentPage: int,
    totalPages: int,
    totalItems: int,
    itemsPerPage: int,
    hasPrevious: bool,
    hasNext: bool)

  const MaxVisiblePages: int := 5

  // ---------------------------------------------------------------------
  // The item range

  /** `startItem`. */
  function StartItem(p: Props): int {
    (p.currentPage - 1) * p.itemsPerPage + 1
  }

  /** `endItem`: `Math.min` of the page's last slot and the item count. */
  function EndItem(p: Props): (e: int)
    ensures e <= p.currentPage * p.itemsPerPage && e <= p.totalItems
    ensures e == p.currentPage * p.itemsPerPage || e == p.totalItems
  {
    if p.currentPage * p.itemsPerPage <= p.totalItems then p.currentPage * p.itemsPerPage
    else p.totalItems
  }

  /** On a page that holds items, the range is non-empty, lies within the
      items, and spans at most one page's worth; it is a full page unless
      it is the page holding the last item. */
  lemma ItemRangeWithinPage(p: Props)
    requires p.currentPage >= 1 && p.itemsPerPage >= 1
    requires (p.currentPage - 1) * p.itemsPerPage < p.totalItems
    ensures 1 <= StartItem(p) <= EndItem(p) <= p.totalItems
    ensures EndItem(p) - StartItem(p) + 1 <= p.itemsPerPage
    ensures EndItem(p) < p.totalItems ==> EndItem(p) - StartItem(p) + 1 == p.itemsPerPage
  {
    assert (p.currentPage - 1) * p.itemsPerPage >= 0;
    assert p.currentPage * p.itemsPerPage == (p.currentPage - 1) * p.itemsPerPage + p.itemsPerPage;
  }

  // ---------------------------------------------------------------------
  // The page window

  /** The pages `lo` to `hi` in order, as pushed by a counting loop. */
  function Range(lo: int, hi: int): (r: seq<PageItem>)
    decreases hi - lo + 1
  {
    if hi < lo then [] else Range(lo, hi - 1) + [Num(hi)]
  }

  lemma {:induction false} RangeAt(lo: int, hi: int)
    ensures |Range(lo, hi)| == if hi < lo then 0 else hi - lo + 1
    ensures forall k :: 0 <= k < |Range(lo, hi)| ==> Range(lo, hi)[k] == Num(lo + k)
    decreases hi - lo + 1
  {
    if hi >= lo {
      RangeAt(lo, hi - 1);
    }
  }

  lemma RangeOfFour(lo: int)
    ensures Range(lo, lo + 3) == [Num(lo), Num(lo + 1), Num(lo + 2), Num(lo + 3)]
  {
    RangeAt(lo, lo + 3);
  }

  lemma RangeOfThree(lo: int)
    ensures Range(lo, lo + 2) == [Num(lo), Num(lo + 1), Num(lo + 2)]
  {
    RangeAt(lo, lo + 2);
  }

  /** What `getPageNumbers` returns: every page when there are at most five,
      otherwise the first and last pages, a window around the current one,
      and an ellipsis wherever pages are skipped. */
  function PageWindow(current: int, total: int): seq<PageItem> {
    if total <= MaxVisiblePages then Range(1, total)
    else if current <= 3 then Range(1, 4) + [Gap, Num(total)]
    else if current >= total - 2 then [Num(1), Gap] + Range(total - 3, total)
    else [Num(1), Gap] + Range(current - 1, current + 1) + [Gap, Num(total)]
  }

  /** `getPageNumbers`, with its counting loops. */
  method GetPageNumbers(current: int, total: int) returns (pages: seq<PageItem>)
    ensures pages == PageWindow(current, total)
  {
    pages := [];
    if total <= MaxVisiblePages {
      var i := 1;
      while i <= total
        invariant 1 <= i <= if total >= 1 then total + 1 else 1
        invariant pages == Range(1, i - 1)
        decreases total - i
      {
        pages := pages + [Num(i)];
        i := i + 1;
      }
    } else {
      if current <= 3 {
        for i := 1 to 5
          invariant pages == Range(1, i - 1)
        {
          pages := pages + [Num(i)];
        }
        pages := pages + [Gap];
        pages := pages + [Num(total)];
      } else if current >= total - 2 {
        pages := pages + [Num(1)];
        pages := pages + [Gap];
        for i := total - 3 to total + 1
          invariant pages == [Num(1), Gap] + Range(total - 3, i - 1)
        {
          pages := pages + [Num(i)];
        }
      } else {
        pages := pages + [Num(1)];
        pages := pages + [Gap];
        for i := current - 1 to current + 2
          invariant pages == [Num(1), Gap] + Range(current - 1, i - 1)
        {
          pages := pages + [Num(i)];
        }
        pages := pages + [Gap];
        pages := pages + [Num(total)];
      }
    }
  }

  /** Page numbers only grow from left to right. */
  predicate Increasing(w: seq<PageItem>) {
    forall i, j :: 0 <= i < j < |w| && w[i].Num? && w[j].Num? ==> w[i].n < w[j].n
  }

  /** Every page number is a real page. */
  predicate InBounds(w: seq<PageItem>, total: int) {
    forall i :: 0 <= i < |w| && w[i].Num? ==> 1 <= w[i].n <= total
  }

  /** Two neighbouring page buttons are consecutive pages. */
  predicate NoSilentSkip(w: seq<PageItem>) {
    forall i :: 0 < i < |w| && w[i - 1].Num? && w[i].Num? ==> w[i].n == w[i - 1].n + 1
  }

  /** Every ellipsis sits between two page buttons and hides at least one
      page. */
  predicate GapsHidePages(w: seq<PageItem>) {
    forall i :: 0 <= i < |w| && w[i].Gap? ==>
      0 < i < |w| - 1 && w[i - 1].Num? && w[i + 1].Num? && w[i + 1].n >= w[i - 1].n + 2
  }

  /** Up to five pages are all listed, in order. */
  lemma SmallWindowListsAll(current: int, total: int)
    requires total <= MaxVisiblePages
    ensures |PageWindow(current, total)| == if total < 1 then 0 else total
    ensures forall k :: 0 <= k < |PageWindow(current, total)| ==> PageWindow(current, total)[k] == Num(k + 1)
  {
    RangeAt(1, total);
  }

  /** With more than five pages the window has six entries near either end
      and seven in the middle. */
  lemma LargeWindowLength(current: int, total: int)
    requires total > MaxVisiblePages
    ensures |PageWindow(current, total)| == if current <= 3 || current >= total - 2 then 6 else 7
  {
    RangeOfFour(1);
    RangeOfFour(total - 3);
    RangeOfThree(current - 1);
  }

  /** The shape every window has: numbers increase, stay within the pages,
      start at page 1 and end at the last page, neighbouring numbers are
      consecutive, and each ellipsis hides at least one page. */
  predicate WellFormed(w: seq<PageItem>, total: int) {
    && Increasing(w) && InBounds(w, total) && NoSilentSkip(w) && GapsHidePages(w)
    && (total >= 1 ==> w != [] && w[0] == Num(1) && w[|w| - 1] == Num(total))
  }

  lemma SmallWindowWellFormed(current: int, total: int)
    requires total <= MaxVisiblePages
    ensures WellFormed(PageWindow(current, total), total)
  {
    SmallWindowListsAll(current, total);
  }

  lemma LeftWindowWellFormed(current: int, total: int)
    requires total > MaxVisiblePages && current <= 3
    ensures WellFormed(PageWindow(current, total), total)
  {
    RangeOfFour(1);
    var w := [Num(1), Num(2), Num(3), Num(4), Gap, Num(total)];
    assert PageWindow(current, total) == w;
    assert WellFormed(w, total);
  }

  lemma RightWindowWellFormed(current: int, total: int)
    requires total > MaxVisiblePages && 3 < current && current >= total - 2
    ensures WellFormed(PageWindow(current, total), total)
  {
    RangeOfFour(total - 3);
    var w := [Num(1), Gap, Num(total - 3), Num(total - 2), Num(total - 1), Num(total)];
    assert PageWindow(current, total) == w;
    assert WellFormed(w, total);
  }

  lemma MiddleWindowWellFormed(current: int, total: int)
    requires total > MaxVisiblePages && 3 < current < total - 2
    ensures WellFormed(PageWindow(current, total), total)
  {
    RangeOfThree(current - 1);
    var w := [Num(1), Gap, Num(current - 1), Num(current), Num(current + 1), Gap, Num(total)];
    assert PageWindow(current, total) == w;
    assert WellFormed(w, total);
  }

  /** Every window, whatever the current page, is well formed. */
  lemma WindowWellFormed(current: int, total: int)
    ensures WellFormed(PageWindow(current, total), total)
  {
    if total <= MaxVisiblePages {
      SmallWindowWellFormed(current, total);
    } else if current <= 3 {
      LeftWindowWellFormed(current, total);
    } else if current >= total - 2 {
      RightWindowWellFormed(current, total);
    } else {
      MiddleWindowWellFormed(current, total);
    }
  }

  /** The current page, when it is a real page, always has its button. */
  lemma CurrentPageListed(current: int, total: int)
    requires 1 <= current <= total
    ensures Num(current) in PageWindow(current, total)
  {
    var w := PageWindow(current, total);
    if total <= MaxVisiblePages {
      SmallWindowListsAll(current, total);
      assert w[current - 1] == Num(current);
    } else if current <= 3 {
      RangeOfFour(1);
    } else if current >= total - 2 {
      RangeOfFour(total - 3);
    } else {
      RangeOfThree(current - 1);
    }
  }

  // ---------------------------------------------------------------------
  // What is rendered

  /** A navigation button: the page it requests and whether it is disabled. */
  datatype NavButton = NavButton(target: int, disabled: bool)

  /** The rendered bar: the item range, the previous button, the page
      entries and the next button. */
  datatype Bar = Bar(startItem: int, endItem: int, totalItems: int,
                     previous: NavButton, pages: seq<PageItem>, next: NavButton)

  /** The component's output: nothing for at most one page. */
  function Render(p: Props): (bar: Option<Bar>)
    ensures bar.None? <==> p.totalPages <= 1
    ensures bar.Some? ==>
      && bar.value.previous == NavButton(p.currentPage - 1, !p.hasPrevious)
      && bar.value.next == NavButton(p.currentPage + 1, !p.hasNext)
  {
    if p.totalPages <= 1 then None
    else Some(Bar(StartItem(p), EndItem(p), p.totalItems,
                  NavButton(p.currentPage - 1, !p.hasPrevious),
                  PageWindow(p.currentPage, p.totalPages),
                  NavButton(p.currentPage + 1, !p.hasNext)))
  }

  /** The rendered page buttons request pages that exist, and the current
      page is among them. */
  lemma RenderedPagesAreReal(p: Props)
    requires 1 <= p.currentPage <= p.totalPages
    requires Render(p).Some?
    ensures forall i :: 0 <= i < |Render(p).value.pages| && Render(p).value.pages[i].Num? ==>
      1 <= Render(p).value.pages[i].n <= p.totalPages
    ensures Num(p.currentPage) in Render(p).value.pages
  {
    WindowWellFormed(p.currentPage, p.totalPages);
    CurrentPageListed(p.currentPage, p.totalPages);
  }

  /** Page 1 of 10, ten items per page, 100 items: "Mostrando 1 a 10 de 100
      resultados", the previous button disabled, next requesting page 2,
      and page 3 listed. */
  lemma FirstPageOfTen(p: Props)
    requires p == Props(1, 10, 100, 10, false, true)
    ensures Render(p).Some?
    ensures var bar := Render(p).value;
      && bar.startItem == 1 && bar.endItem == 10 && bar.totalItems == 100
      && bar.previous.disabled && bar.next == NavButton(2, false)
      && Num(3) in bar.pages
  {
    RangeOfFour(1);
  }

  /** A single page renders nothing. */
  lemma SinglePageHidden(p: Props)
    requires p.totalPages == 1
    ensures Render(p) == None
  {
  }
}
