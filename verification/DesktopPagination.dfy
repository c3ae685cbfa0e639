/** The page buttons of client/src/shared/legacyPaginationDesktop.ts. */
module DesktopPagination {
  datatype Item = Page(number: int) | Ellipsis

  const TOTAL_VISIBLE := 12

  function Max(a: int, b: int): int { if a < b then b else a }

  function Min(a: int, b: int): int { if a < b then a else b }

  function Range(from: int, to: int): seq<Item> {
    seq(Max(0, to - from + 1), i => Page(from + i))
  }

  method DesktopPaginationRange(from: int, to: int) returns (range: seq<Item>)
    ensures range == Range(from, to)
  {
    range := [];
    var pageNumber := from;
    while pageNumber <= to
      invariant pageNumber == from + |range| && pageNumber <= Max(from, to + 1)
      invariant range == Range(from, pageNumber - 1)
    {
      range := range + [Page(pageNumber)];
      pageNumber := pageNumber + 1;
    }
  }

  function MaxLength(pageCount: int, maxButtons: int): int {
    Min(TOTAL_VISIBLE, Min(if maxButtons > 0 then maxButtons else pageCount, pageCount))
  }

  function IsEven(maxLength: int): int { if maxLength % 2 == 0 then 1 else 0 }

  function Right(pageCount: int, maxLength: int): int { pageCount - maxLength / 2 + 1 + IsEven(maxLength) }

  function Interior(pageCount: int, start: int, end: int): seq<Item> {
    [Page(1), if start - 1 == 2 then Page(2) else Ellipsis] + Range(start, end)
    + [if end + 1 == pageCount - 1 then Page(end + 1) else Ellipsis, Page(pageCount)]
  }

  function Leading(end: int, pageCount: int): seq<Item> { Range(1, end) + [Ellipsis, Page(pageCount)] }

  function Trailing(start: int, pageCount: int): seq<Item> { [Page(1), Ellipsis] + Range(start, pageCount) }

  function BothEnds(left: int, right: int, pageCount: int): seq<Item> { Range(1, left) + [Ellipsis] + Range(right, pageCount) }

  /** The four layouts, before repeated ellipses are collapsed; the leading one ends at `firstEnd`. */
  function Layout(pageCount: int, currentPage: int, maxLength: int, firstEnd: int): seq<Item> {
    var left, right := maxLength / 2, Right(pageCount, maxLength);
    if left < currentPage < right then Interior(pageCount, currentPage - left + 2, currentPage + left - 2 - IsEven(maxLength))
    else if currentPage == left then Leading(firstEnd, pageCount)
    else if currentPage == right then Trailing(currentPage - left + 1, pageCount)
    else BothEnds(left, right, pageCount)
  }

  /** Where the leading range ends when the current page is its middle, before the clamp. */
  function FirstEnd(currentPage: int, maxLength: int): int {
    currentPage + maxLength / 2 - 1 - IsEven(maxLength)
  }

  function Collapse(items: seq<Item>): seq<Item> {
    if items == [] then []
    else
      var last := |items| - 1;
      Collapse(items[..last]) + if items[last].Ellipsis? && last > 0 && items[last - 1].Ellipsis? then [] else [items[last]]
  }

  function Items(pageCount: int, currentPage: int, maxButtons: int): seq<Item> {
    var maxLength := MaxLength(pageCount, maxButtons);
    if pageCount <= maxLength then Range(1, pageCount)
    else Collapse(Layout(pageCount, currentPage, maxLength, Max(1, FirstEnd(currentPage, maxLength))))
  }

  method WithoutRepeats(items: seq<Item>) returns (r: seq<Item>)
    ensures r == Collapse(items)
  {
    r := [];
    for i := 0 to |items|
      invariant r == Collapse(items[..i])
    {
      assert items[..i + 1][..i] == items[..i];
      if !items[i].Ellipsis? || i == 0 || !items[i - 1].Ellipsis? { r := r + [items[i]]; }
    }
    assert items[..|items|] == items;
  }

  method MakeInterior(pageCount: int, start: int, end: int) returns (items: seq<Item>)
    ensures items == Interior(pageCount, start, end)
  {
    var secondItem := if start - 1 == 2 then Page(2) else Ellipsis;
    var beforeLastItem := if end + 1 == pageCount - 1 then Page(end + 1) else Ellipsis;
    var between := DesktopPaginationRange(start, end);
    items := [Page(1), secondItem] + between + [beforeLastItem, Page(pageCount)];
  }

  method ComputeDesktopPaginationItems(pageCount: int, currentPage: int, maxButtons: int) returns (items: seq<Item>)
    ensures items == Items(pageCount, currentPage, maxButtons)
  {
    var maxLength := MaxLength(pageCount, maxButtons);
    if pageCount <= maxLength {
      items := DesktopPaginationRange(1, pageCount);
      return;
    }
    var isEven := if maxLength % 2 == 0 then 1 else 0;
    var left := maxLength / 2;
    var right := pageCount - left + 1 + isEven;
    var all: seq<Item>;
    if currentPage > left && currentPage < right {
      all := MakeInterior(pageCount, currentPage - left + 2, currentPage + left - 2 - isEven);
    } else if currentPage == left {
      var front := DesktopPaginationRange(1, Max(1, currentPage + left - 1 - isEven));
      all := front + [Ellipsis, Page(pageCount)];
    } else if currentPage == right {
      var back := DesktopPaginationRange(currentPage - left + 1, pageCount);
      all := [Page(1), Ellipsis] + back;
    } else {
      var front := DesktopPaginationRange(1, left);
      var back := DesktopPaginationRange(right, pageCount);
      all := front + [Ellipsis] + back;
    }
    assert all == Layout(pageCount, currentPage, maxLength, Max(1, FirstEnd(currentPage, maxLength)));
    items := WithoutRepeats(all);
  }

  ghost predicate NoneAdjacent(items: seq<Item>) {
    forall i :: 0 < i < |items| ==> !(items[i - 1].Ellipsis? && items[i].Ellipsis?)
  }

  ghost predicate Bounded(items: seq<Item>, pageCount: int) {
    items != [] && items[0] == Page(1) && items[|items| - 1] == Page(pageCount)
  }

  lemma {:induction false} CollapseShape(items: seq<Item>)
    requires items != []
    ensures var r := Collapse(items);
      r != [] && r[0] == items[0] && r[|r| - 1] == items[|items| - 1] && NoneAdjacent(r)
  {
    var last := |items| - 1;
    if last > 0 { CollapseShape(items[..last]); }
  }

  lemma {:induction false} CollapseKeeps(items: seq<Item>)
    requires NoneAdjacent(items)
    ensures Collapse(items) == items
  {
    if items != [] {
      CollapseKeeps(items[..|items| - 1]);
      assert items[..|items| - 1] + [items[|items| - 1]] == items;
    }
  }

  lemma LayoutBounds(pageCount: int, currentPage: int, maxLength: int)
    requires 1 <= currentPage <= pageCount && 1 <= maxLength < pageCount
    ensures Bounded(Layout(pageCount, currentPage, maxLength, Max(1, FirstEnd(currentPage, maxLength))), pageCount)
  {
  }

  /** For any numbers at all, every range that is asked for starts at page 1 or later. */
  lemma RangesStartInside(pageCount: int, currentPage: int, maxButtons: int)
    requires pageCount > MaxLength(pageCount, maxButtons)
    ensures var maxLength := MaxLength(pageCount, maxButtons);
      var left, right := maxLength / 2, Right(pageCount, maxLength);
      && right >= 1
      && (left < currentPage < right ==> currentPage - left + 2 >= 1)
      && (currentPage == right ==> currentPage - left + 1 >= 1)
  {
  }

  /** For any width the items start at page 1, end at the last page, and repeat no ellipsis. */
  lemma ItemsBounded(pageCount: int, currentPage: int, maxButtons: int)
    requires 1 <= currentPage <= pageCount
    ensures var items := Items(pageCount, currentPage, maxButtons); Bounded(items, pageCount) && NoneAdjacent(items)
  {
    var maxLength := MaxLength(pageCount, maxButtons);
    if pageCount > maxLength {
      LayoutBounds(pageCount, currentPage, maxLength);
      CollapseShape(Layout(pageCount, currentPage, maxLength, Max(1, FirstEnd(currentPage, maxLength))));
    }
  }

  /** Neighbouring pages follow one another, and an ellipsis stands between pages for at least two others. */
  ghost predicate Covers(items: seq<Item>) {
    && (forall i :: 0 < i < |items| && items[i - 1].Page? && items[i].Page? ==> items[i].number == items[i - 1].number + 1)
    && (forall i :: 0 <= i < |items| && items[i].Ellipsis? ==>
          && 0 < i < |items| - 1 && items[i - 1].Page? && items[i + 1].Page?
          && items[i + 1].number >= items[i - 1].number + 3)
  }

  ghost predicate Complete(items: seq<Item>, length: int, currentPage: int) {
    |items| == length && Covers(items) && Page(currentPage) in items
  }

  lemma InteriorCovers(pageCount: int, start: int, end: int, currentPage: int)
    requires 3 <= start <= currentPage <= end <= pageCount - 2
    ensures Complete(Interior(pageCount, start, end), end - start + 5, currentPage)
  {
    assert Interior(pageCount, start, end)[2 + currentPage - start] == Page(currentPage);
  }

  lemma LeadingCovers(end: int, pageCount: int, currentPage: int)
    requires 1 <= currentPage <= end <= pageCount - 3
    ensures Complete(Leading(end, pageCount), end + 2, currentPage)
  {
    assert Leading(end, pageCount)[currentPage - 1] == Page(currentPage);
  }

  lemma TrailingCovers(start: int, pageCount: int, currentPage: int)
    requires 4 <= start <= currentPage <= pageCount
    ensures Complete(Trailing(start, pageCount), pageCount - start + 3, currentPage)
  {
    assert Trailing(start, pageCount)[2 + currentPage - start] == Page(currentPage);
  }

  lemma BothEndsCover(left: int, right: int, pageCount: int, currentPage: int)
    requires 1 <= left && left + 3 <= right <= pageCount && (1 <= currentPage <= left || right <= currentPage <= pageCount)
    ensures Complete(BothEnds(left, right, pageCount), left + 2 + pageCount - right, currentPage)
  {
    var at := if currentPage <= left then currentPage - 1 else left + 1 + currentPage - right;
    assert BothEnds(left, right, pageCount)[at] == Page(currentPage);
  }

  lemma LayoutCovers(pageCount: int, currentPage: int, maxLength: int)
    requires 1 <= currentPage <= pageCount && 5 <= maxLength <= 12 && maxLength < pageCount
    ensures Complete(Layout(pageCount, currentPage, maxLength, FirstEnd(currentPage, maxLength)), maxLength, currentPage)
  {
    var left, right, isEven := maxLength / 2, Right(pageCount, maxLength), IsEven(maxLength);
    assert maxLength == 2 * left + 1 - isEven;
    assert right == pageCount - left + 1 + isEven;
    var items := Layout(pageCount, currentPage, maxLength, FirstEnd(currentPage, maxLength));
    if left < currentPage < right {
      InteriorCovers(pageCount, currentPage - left + 2, currentPage + left - 2 - isEven, currentPage);
      assert items == Interior(pageCount, currentPage - left + 2, currentPage + left - 2 - isEven);
    } else if currentPage == left {
      LeadingCovers(currentPage + left - 1 - isEven, pageCount, currentPage);
      assert items == Leading(currentPage + left - 1 - isEven, pageCount);
    } else if currentPage == right {
      TrailingCovers(currentPage - left + 1, pageCount, currentPage);
      assert items == Trailing(currentPage - left + 1, pageCount);
    } else {
      BothEndsCover(left, right, pageCount, currentPage);
      assert items == BothEnds(left, right, pageCount);
    }
  }

  /**
   Unless the width leaves room for one to four buttons: as many items as fit, covering every page
   with the current one among them; and neither the clamp nor the collapse changes anything.
   */
  lemma ItemsCover(pageCount: int, currentPage: int, maxButtons: int)
    requires 1 <= currentPage <= pageCount && (maxButtons <= 0 || maxButtons >= 5)
    ensures var items := Items(pageCount, currentPage, maxButtons); var maxLength := MaxLength(pageCount, maxButtons);
      && Complete(items, maxLength, currentPage)
      && (maxLength < pageCount ==> items == Layout(pageCount, currentPage, maxLength, FirstEnd(currentPage, maxLength)))
  {
    var maxLength := MaxLength(pageCount, maxButtons);
    if pageCount <= maxLength {
      assert Items(pageCount, currentPage, maxButtons)[currentPage - 1] == Page(currentPage);
    } else {
      LayoutCovers(pageCount, currentPage, maxLength);
      var layout := Layout(pageCount, currentPage, maxLength, FirstEnd(currentPage, maxLength));
      assert Layout(pageCount, currentPage, maxLength, Max(1, FirstEnd(currentPage, maxLength))) == layout;
      CollapseKeeps(layout);
    }
  }

  /** How many items there are: as many as there are pages, but no more than twelve or than the width allows. */
  lemma HowMany(pageCount: int, currentPage: int, maxButtons: int)
    requires 1 <= currentPage <= pageCount && (maxButtons <= 0 || maxButtons >= 5)
    ensures var n := |Items(pageCount, currentPage, maxButtons)|;
      && (maxButtons <= 0 ==> n == if pageCount <= 12 then pageCount else 12)
      && (maxButtons > 0 ==> n <= pageCount && n <= 12 && n <= maxButtons && (n == pageCount || n == 12 || n == maxButtons))
  {
    ItemsCover(pageCount, currentPage, maxButtons);
  }

  /** The pages shown when there is room for `n` items: a window around the current page, or both ends. */
  ghost predicate Shown(pageCount: int, currentPage: int, n: int, q: int) {
    var last := pageCount - (n - 1) / 2 + 1;
    if n / 2 < currentPage < last then
      var from, to := currentPage - (n - 4) / 2, currentPage + (n - 5) / 2;
      q == 1 || from <= q <= to || (q == 2 && from == 3) || (q == pageCount - 1 && to == pageCount - 2) || q == pageCount
    else if currentPage == n / 2 then 1 <= q <= n - 2 || q == pageCount
    else if currentPage == last then q == 1 || pageCount - n + 3 <= q <= pageCount
    else 1 <= q <= n / 2 || last <= q <= pageCount
  }

  lemma RangeHas(from: int, to: int, q: int)
    ensures Page(q) in Range(from, to) <==> from <= q <= to
  {
    if from <= q <= to { assert Range(from, to)[q - from] == Page(q); }
  }

  /** Exactly these pages are shown. */
  lemma ShowsExactly(pageCount: int, currentPage: int, maxButtons: int, n: int, q: int)
    requires 1 <= currentPage <= pageCount && (maxButtons <= 0 || maxButtons >= 5)
    requires n < pageCount && n == if 5 <= maxButtons <= 12 then maxButtons else 12
    ensures Page(q) in Items(pageCount, currentPage, maxButtons) <==> Shown(pageCount, currentPage, n, q)
  {
    ItemsCover(pageCount, currentPage, maxButtons);
    LayoutShows(pageCount, currentPage, n, q);
  }

  lemma LayoutShows(pageCount: int, currentPage: int, n: int, q: int)
    requires 1 <= currentPage <= pageCount && 5 <= n < pageCount
    ensures Page(q) in Layout(pageCount, currentPage, n, FirstEnd(currentPage, n)) <==> Shown(pageCount, currentPage, n, q)
  {
    var left, right := n / 2, Right(pageCount, n);
    HalvesOf(n);
    if left < currentPage < right {
      InteriorShows(pageCount, currentPage - (n - 4) / 2, currentPage + (n - 5) / 2, q);
    } else if currentPage == left {
      RangeHas(1, n - 2, q);
    } else if currentPage == right {
      RangeHas(pageCount - n + 3, pageCount, q);
    } else {
      RangeHas(1, left, q);
      RangeHas(right, pageCount, q);
    }
  }

  /** The halves in the layouts, for even and odd lengths at once. */
  lemma HalvesOf(n: int)
    ensures n / 2 - IsEven(n) == (n - 1) / 2 && n / 2 - 2 == (n - 4) / 2 && n / 2 - 2 - IsEven(n) == (n - 5) / 2
    ensures 2 * (n / 2) == n - 1 + IsEven(n)
  {
  }

  lemma InteriorShows(pageCount: int, start: int, end: int, q: int)
    ensures Page(q) in Interior(pageCount, start, end)
       <==> q == 1 || start <= q <= end || (q == 2 && start == 3) || (q == pageCount - 1 && end == pageCount - 2) || q == pageCount
  {
    RangeHas(start, end, q);
  }

  // Room for one to four buttons

  /** Which page besides the first and the last is shown: page 2, the last but one, or none. */
  function NarrowItems(pageCount: int, currentPage: int, maxButtons: int): seq<Item> {
    if (maxButtons == 1 && currentPage == 1) || (2 <= maxButtons <= 3 && currentPage == 2) || (maxButtons == 4 && currentPage <= 3)
    then [Page(1), Page(2), Ellipsis, Page(pageCount)]
    else if currentPage >= (if maxButtons <= 2 then pageCount else pageCount - 1) && !(maxButtons == 3 && currentPage == pageCount)
    then [Page(1), Ellipsis, Page(pageCount - 1), Page(pageCount)]
    else [Page(1), Ellipsis, Page(pageCount)]
  }

  lemma CollapseFour(first: Item, second: Item, third: Item, last: Item)
    requires first.Page? && last.Page?
    ensures Collapse([first, second, third, last])
         == if second.Ellipsis? && third.Ellipsis? then [first, second, last] else [first, second, third, last]
  {
    CollapseNext([], first);
    CollapseNext([first], second);
    CollapseNext([first, second], third);
    CollapseNext([first, second, third], last);
    assert [] + [first] == [first] && [first] + [second] == [first, second] && [first, second] + [third] == [first, second, third];
    assert [first, second, third] + [last] == [first, second, third, last];
  }

  lemma CollapseNext(items: seq<Item>, next: Item)
    ensures Collapse(items + [next])
         == Collapse(items) + if next.Ellipsis? && items != [] && items[|items| - 1].Ellipsis? then [] else [next]
  {
    assert (items + [next])[..|items|] == items;
  }

  lemma NarrowInterior(pageCount: int, currentPage: int, maxButtons: int)
    requires 1 <= currentPage <= pageCount && 1 <= maxButtons <= 4 && maxButtons < pageCount
    requires maxButtons / 2 < currentPage < Right(pageCount, maxButtons)
    ensures Items(pageCount, currentPage, maxButtons) == NarrowItems(pageCount, currentPage, maxButtons)
  {
    var left, isEven := maxButtons / 2, IsEven(maxButtons);
    var start, end := currentPage - left + 2, currentPage + left - 2 - isEven;
    assert Range(start, end) == [];
    var second := if start - 1 == 2 then Page(2) else Ellipsis;
    var beforeLast := if end + 1 == pageCount - 1 then Page(end + 1) else Ellipsis;
    assert Interior(pageCount, start, end) == [Page(1), second, beforeLast, Page(pageCount)];
    CollapseFour(Page(1), second, beforeLast, Page(pageCount));
  }

  lemma NarrowEnds(pageCount: int, currentPage: int, maxButtons: int)
    requires 1 <= currentPage <= pageCount && 1 <= maxButtons <= 4 && maxButtons < pageCount
    requires !(maxButtons / 2 < currentPage < Right(pageCount, maxButtons))
    ensures Items(pageCount, currentPage, maxButtons) == NarrowItems(pageCount, currentPage, maxButtons)
  {
    var layout := Layout(pageCount, currentPage, maxButtons, Max(1, FirstEnd(currentPage, maxButtons)));
    assert Range(1, 1) == [Page(1)] && Range(1, 2) == [Page(1), Page(2)] && Range(pageCount, pageCount) == [Page(pageCount)];
    assert Range(pageCount - 1, pageCount) == [Page(pageCount - 1), Page(pageCount)];
    assert layout == NarrowItems(pageCount, currentPage, maxButtons);
    CollapseKeeps(layout);
  }

  /** When the items of a narrow width still cover every page with the current one among them. */
  predicate NarrowCovers(pageCount: int, currentPage: int, maxButtons: int) {
    || pageCount <= maxButtons
    || (maxButtons == 1 && pageCount >= 5 && (currentPage == 1 || currentPage == pageCount))
    || (maxButtons == 2 && ((currentPage == 1 && pageCount >= 4) || (pageCount >= 5 && (currentPage == 2 || currentPage == pageCount))))
    || (maxButtons == 3 && (currentPage == 1 || currentPage == pageCount || (pageCount >= 5 && (currentPage == 2 || currentPage == pageCount - 1))))
    || (maxButtons == 4 && (currentPage <= 2 || currentPage >= pageCount - 1))
  }

  lemma NarrowCoverExactly(pageCount: int, currentPage: int, maxButtons: int)
    requires 1 <= currentPage <= pageCount && 1 <= maxButtons <= 4
    ensures var items := Items(pageCount, currentPage, maxButtons);
      Covers(items) && Page(currentPage) in items <==> NarrowCovers(pageCount, currentPage, maxButtons)
  {
    if pageCount <= maxButtons {
      assert Items(pageCount, currentPage, maxButtons)[currentPage - 1] == Page(currentPage);
    } else {
      if maxButtons / 2 < currentPage < Right(pageCount, maxButtons) {
        NarrowInterior(pageCount, currentPage, maxButtons);
      } else {
        NarrowEnds(pageCount, currentPage, maxButtons);
      }
      NarrowItemsCover(pageCount, currentPage, maxButtons);
    }
  }

  lemma NarrowItemsCover(pageCount: int, currentPage: int, maxButtons: int)
    requires 1 <= currentPage <= pageCount && 1 <= maxButtons <= 4 && maxButtons < pageCount
    ensures var items := NarrowItems(pageCount, currentPage, maxButtons);
      Covers(items) && Page(currentPage) in items <==> NarrowCovers(pageCount, currentPage, maxButtons)
  {
    var items := NarrowItems(pageCount, currentPage, maxButtons);
    assert items[0] == Page(1) && items[|items| - 1] == Page(pageCount);
    if |items| == 3 {
      assert Covers(items) <==> pageCount >= 4 by { if Covers(items) { assert items[1].Ellipsis?; } }
    } else if items[1].Page? {
      assert Covers(items) <==> pageCount >= 5 by { if Covers(items) { assert items[2].Ellipsis?; } }
    } else {
      assert Covers(items) <==> pageCount >= 5 by { if Covers(items) { assert items[1].Ellipsis?; } }
    }
  }
}
