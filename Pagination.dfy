/** The arithmetic of the `Pagination` component (src/components/Pagination/index.tsx):
    the window of at most five page buttons, the first/previous/next/last
    buttons with their targets and disabled flags, and the "showing X to Y of
    Z" range. Page numbers start at 1; JSX rendering is left out. */
module Pagination {

  /** One numbered button: the page its click selects, and whether it is drawn
      highlighted as the current page. */
  datatype PageButton = PageButton(page: int, highlighted: bool)

  /** A first/previous/next/last button: the page its click selects, and its
      `disabled` flag. */
  datatype NavButton = NavButton(target: int, disabled: bool)

  const WindowSize := 5

  function Clamp(x: int, lo: int, hi: int): int
    requires lo <= hi
  {
    if x < lo then lo else if x > hi then hi else x
  }

  /** Reference definition of the window: all pages when there are at most
      five, otherwise the five consecutive pages starting as close to
      `current - 2` as the range 1..totalPages allows. */
  function WindowStart(current: int, totalPages: int): int {
    if totalPages <= WindowSize then 1 else Clamp(current - 2, 1, totalPages - 4)
  }

  function WindowEnd(current: int, totalPages: int): int {
    if totalPages <= WindowSize then totalPages else WindowStart(current, totalPages) + 4
  }

  /** `getPageButtons`: choose `startPage`/`endPage` by cases, then push one
      button per page from the first to the last. */
  method PageButtons(current: int, totalPages: int) returns (buttons: seq<PageButton>)
    ensures var lo, hi := WindowStart(current, totalPages), WindowEnd(current, totalPages);
      && |buttons| == (if lo <= hi then hi - lo + 1 else 0)
      && forall k :: 0 <= k < |buttons| ==> buttons[k] == PageButton(lo + k, lo + k == current)
  {
    var startPage: int;
    var endPage: int;
    if totalPages <= 5 {
      startPage, endPage := 1, totalPages;
    } else if current < 3 {
      startPage, endPage := 1, 5;
    } else if current > totalPages - 2 {
      startPage, endPage := totalPages - 4, totalPages;
    } else {
      startPage, endPage := current - 2, current + 2;
    }
    buttons := [];
    var i := startPage;
    while i <= endPage
      invariant startPage <= i <= if startPage <= endPage then endPage + 1 else startPage
      invariant |buttons| == i - startPage
      invariant forall k :: 0 <= k < |buttons| ==> buttons[k] == PageButton(startPage + k, startPage + k == current)
    {
      buttons := buttons + [PageButton(i, i == current)];
      i := i + 1;
    }
  }

  /** With at most five pages the window is exactly 1..totalPages. */
  lemma SmallWindowShowsAll(current: int, totalPages: int)
    requires totalPages <= WindowSize
    ensures WindowStart(current, totalPages) == 1 && WindowEnd(current, totalPages) == totalPages
  {
  }

  /** The three cases of the source, read off the reference definition. */
  lemma LargeWindowCases(current: int, totalPages: int)
    requires totalPages > WindowSize
    ensures current < 3 ==> WindowStart(current, totalPages) == 1 && WindowEnd(current, totalPages) == 5
    ensures current >= 3 && current > totalPages - 2 ==>
      WindowStart(current, totalPages) == totalPages - 4 && WindowEnd(current, totalPages) == totalPages
    ensures 3 <= current <= totalPages - 2 ==>
      WindowStart(current, totalPages) == current - 2 && WindowEnd(current, totalPages) == current + 2
  {
  }

  /** With more than five pages the window holds exactly five; for a current
      page in range it lies inside 1..totalPages and contains the current page. */
  lemma WindowBounds(current: int, totalPages: int)
    ensures totalPages > WindowSize ==> WindowEnd(current, totalPages) - WindowStart(current, totalPages) + 1 == WindowSize
    ensures 1 <= current <= totalPages ==>
      && 1 <= WindowStart(current, totalPages) <= current <= WindowEnd(current, totalPages) <= totalPages
  {
  }

  /** Only the button of the current page is highlighted, and it is there when
      the current page is in range. */
  lemma OnlyCurrentHighlighted(current: int, totalPages: int, buttons: seq<PageButton>)
    requires 1 <= current <= totalPages
    requires |buttons| == WindowEnd(current, totalPages) - WindowStart(current, totalPages) + 1
    requires forall k :: 0 <= k < |buttons| ==>
      buttons[k] == PageButton(WindowStart(current, totalPages) + k, WindowStart(current, totalPages) + k == current)
    ensures exists k :: 0 <= k < |buttons| && buttons[k].page == current
    ensures forall k :: 0 <= k < |buttons| ==> (buttons[k].highlighted <==> buttons[k].page == current)
  {
    WindowBounds(current, totalPages);
    var k := current - WindowStart(current, totalPages);
    assert buttons[k].page == current;
  }

  /** The four navigation buttons. */
  function FirstButton(current: int): NavButton {
    NavButton(1, current == 1)
  }

  function PrevButton(current: int): NavButton {
    NavButton(if current - 1 > 1 then current - 1 else 1, current == 1)
  }

  function NextButton(current: int, totalPages: int): NavButton {
    NavButton(if current + 1 < totalPages then current + 1 else totalPages, current == totalPages)
  }

  function LastButton(current: int, totalPages: int): NavButton {
    NavButton(totalPages, current == totalPages)
  }

  /** Every navigation target is a valid page when the current page is; first
      and previous are disabled exactly on the first page, next and last
      exactly on the last; an enabled previous or next button moves one page. */
  lemma NavigationTargets(current: int, totalPages: int)
    requires 1 <= current <= totalPages
    ensures var buttons := [FirstButton(current), PrevButton(current), NextButton(current, totalPages), LastButton(current, totalPages)];
      forall b :: b in buttons ==> 1 <= b.target <= totalPages
    ensures FirstButton(current).target == 1 && LastButton(current, totalPages).target == totalPages
    ensures FirstButton(current).disabled == PrevButton(current).disabled == (current == 1)
    ensures NextButton(current, totalPages).disabled == LastButton(current, totalPages).disabled == (current == totalPages)
    ensures !PrevButton(current).disabled ==> PrevButton(current).target == current - 1
    ensures !NextButton(current, totalPages).disabled ==> NextButton(current, totalPages).target == current + 1
    ensures PrevButton(current).disabled ==> PrevButton(current).target == current
    ensures NextButton(current, totalPages).disabled ==> NextButton(current, totalPages).target == current
  {
  }

  /** With no pages at all (`totalPages == 0`) on page 1, next and last stay
      enabled and select page 0. */
  lemma EmptyListForwardButtons()
    ensures NextButton(1, 0) == NavButton(0, false)
    ensures LastButton(1, 0) == NavButton(0, false)
  {
  }

  /** "显示第 X 到 Y 条，共 Z 条": the first and last item shown. */
  function RangeFrom(current: int, pageSize: int): int {
    (current - 1) * pageSize + 1
  }

  function RangeTo(current: int, pageSize: int, total: int): int {
    if current * pageSize < total then current * pageSize else total
  }

  /** On a page that holds at least one item, the range lies inside 1..total,
      spans at most one page, and spans a whole page unless it ends the list. */
  lemma RangeWithinTotal(current: int, pageSize: int, total: int)
    requires pageSize >= 1 && current >= 1
    requires (current - 1) * pageSize < total
    ensures 1 <= RangeFrom(current, pageSize) <= RangeTo(current, pageSize, total) <= total
    ensures RangeTo(current, pageSize, total) - RangeFrom(current, pageSize) + 1 <= pageSize
    ensures RangeTo(current, pageSize, total) - RangeFrom(current, pageSize) + 1 == pageSize
            || RangeTo(current, pageSize, total) == total
  {
    assert current * pageSize == (current - 1) * pageSize + pageSize;
    assert (current - 1) * pageSize >= 0;
  }

  /** When `totalPages` is the number of pages `total` items fill, every page
      in range holds at least one item, so `RangeWithinTotal` applies to it. */
  lemma PageInRangeHoldsItems(current: int, pageSize: int, total: int, totalPages: int)
    requires pageSize >= 1 && total >= 0
    requires totalPages == (total + pageSize - 1) / pageSize
    requires 1 <= current <= totalPages
    ensures (current - 1) * pageSize < total
  {
    var q := (total + pageSize - 1) / pageSize;
    var r := (total + pageSize - 1) % pageSize;
    assert total + pageSize - 1 == q * pageSize + r;
    assert (current - 1) * pageSize <= (q - 1) * pageSize by {
      MultiplyMonotone(current - 1, q - 1, pageSize);
    }
    assert (q - 1) * pageSize == q * pageSize - pageSize;
  }

  lemma MultiplyMonotone(a: int, b: int, c: int)
    requires a <= b && c >= 0
    ensures a * c <= b * c
  {
    assert b * c - a * c == (b - a) * c;
  }

  /** With no items the text reads "1 to 0 of 0". */
  lemma EmptyListRange(pageSize: int)
    requires pageSize >= 0
    ensures RangeFrom(1, pageSize) == 1 && RangeTo(1, pageSize, 0) == 0
  {
  }
}
