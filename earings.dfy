/**
 * The earrings page: the built-in 24-item catalog, the 12-per-page slicing,
 * the pagination bar (prev, a 5-wide window of page numbers with "1 ..." and
 * "... N" shortcuts, next) and the current page that its buttons move.
 */
module Pagination {
  import opened Options
  import opened JsBuiltins

  /** One product of the page's own catalog. */
  datatype Earing = Earing(id: int, name: string, price: string, images: seq<string>, category: string)

  const ItemsPerPage: nat := 12
  const MaxVisiblePages: nat := 5


  /** `Math.ceil(n / itemsPerPage)`: the fewest 12-item pages that hold `n` items. */
  function TotalPages(n: nat): (t: nat)
    ensures n <= t * ItemsPerPage
    ensures n > 0 ==> (t - 1) * ItemsPerPage < n
    ensures t == 0 <==> n == 0
  {
    (n + ItemsPerPage - 1) / ItemsPerPage
  }

  /** `earings.slice((page - 1) * 12, (page - 1) * 12 + 12)`: the items page `page` shows. */
  function PageItems<T>(items: seq<T>, page: int): seq<T> {
    var startIndex := (page - 1) * ItemsPerPage;
    Slice(items, startIndex, startIndex + ItemsPerPage)
  }

  /**
   * Page `p` shows the items at indices `[(p-1)*12, p*12)` clipped to the
   * list, in catalog order, so never more than 12.
   */
  lemma PageItemsSpec<T>(items: seq<T>, page: int)
    requires page >= 1
    ensures var lo := Min((page - 1) * ItemsPerPage, |items|);
      var hi := Min(page * ItemsPerPage, |items|);
      PageItems(items, page) == items[lo..hi]
    ensures |PageItems(items, page)| <= ItemsPerPage
    ensures page > TotalPages(|items|) ==> PageItems(items, page) == []
  {
  }

  /** Item `i` is shown on page `i / 12 + 1`, which is a real page, at slot `i % 12`. */
  lemma ItemOnItsPage<T>(items: seq<T>, i: nat)
    requires i < |items|
    ensures var p := i / ItemsPerPage + 1;
      1 <= p <= TotalPages(|items|) &&
      i % ItemsPerPage < |PageItems(items, p)| &&
      PageItems(items, p)[i % ItemsPerPage] == items[i]
  {
    var p := i / ItemsPerPage + 1;
    PageItemsSpec(items, p);
  }

  /** The pages `p..total` laid end to end. */
  function PagesFrom<T>(items: seq<T>, p: int, total: int): seq<T>
    decreases total - p
  {
    if p > total then [] else PageItems(items, p) + PagesFrom(items, p + 1, total)
  }

  /** Reading every page in turn gives back the whole catalog, each item once and in order. */
  lemma {:induction false} PagesCoverCatalog<T>(items: seq<T>)
    ensures PagesFrom(items, 1, TotalPages(|items|)) == items
  {
    PagesFromSuffix(items, 1);
  }

  lemma {:induction false} PagesFromSuffix<T>(items: seq<T>, p: int)
    requires p >= 1
    ensures PagesFrom(items, p, TotalPages(|items|)) == items[Min((p - 1) * ItemsPerPage, |items|)..]
    decreases TotalPages(|items|) - p
  {
    var total := TotalPages(|items|);
    if p <= total {
      var lo := Min((p - 1) * ItemsPerPage, |items|);
      var hi := Min(p * ItemsPerPage, |items|);
      PageItemsSpec(items, p);
      assert PageItems(items, p) == items[lo..hi];
      PagesFromSuffix(items, p + 1);
      assert (p + 1 - 1) * ItemsPerPage == p * ItemsPerPage;
      assert PagesFrom(items, p + 1, total) == items[hi..];
      assert items[lo..] == items[lo..hi] + items[hi..];
    } else {
      assert (p - 1) * ItemsPerPage >= total * ItemsPerPage >= |items|;
    }
  }

  /**
   * The window of numbered buttons around `page`: centred where it can be,
   * shifted to stay inside `[1, total]`, `min(5, total)` wide.
   */
  function Window(page: int, total: nat): (w: (int, int))
    ensures 1 <= w.0 && w.1 <= total
    ensures 1 <= page <= total ==>
      w.0 <= page <= w.1 && w.1 - w.0 + 1 == Min(MaxVisiblePages, total)
  {
    var start0 := Max(1, page - MaxVisiblePages / 2);
    var end := Min(total, start0 + MaxVisiblePages - 1);
    var start := if end - start0 + 1 < MaxVisiblePages then Max(1, end - MaxVisiblePages + 1) else start0;
    (start, end)
  }

  /** What a button shows. */
  datatype Label = PrevArrow | NextArrow | Number(n: int)

  /** One element of the pagination bar; `onClick` is the page its handler goes to. */
  datatype Control =
    | Button(content: Label, enabled: bool, active: bool, onClick: Option<int>)
    | Ellipsis

  /** `createPaginationButton`: a disabled button gets no click handler. */
  function PaginationButton(content: Label, enabled: bool, target: int): Control {
    Button(content, enabled, false, if enabled then Some(target) else None)
  }

  /** A numbered button of the window, marked active when it is the current page. */
  function NumberButton(i: int, page: int): Control {
    Button(Number(i), true, i == page, Some(i))
  }

  /** The window's numbered buttons `from..to`, in order. */
  function NumberButtons(from: int, to: int, page: int): seq<Control>
    decreases to - from + 1
  {
    if to < from then [] else NumberButtons(from, to - 1, page) + [NumberButton(to, page)]
  }

  /** The "1" shortcut, and the ellipsis after it, shown when the window starts after page 1. */
  function Leading(start: int): seq<Control> {
    if start > 1 then [PaginationButton(Number(1), true, 1)] + (if start > 2 then [Ellipsis] else []) else []
  }

  /** The ellipsis and the last-page shortcut, shown when the window ends before the last page. */
  function Trailing(end: int, total: nat): seq<Control> {
    if end < total then (if end < total - 1 then [Ellipsis] else []) + [PaginationButton(Number(total), true, total)] else []
  }

  /** `updatePagination(page)`: the whole bar, left to right. */
  function PaginationBar(page: int, total: nat): seq<Control> {
    var start, end := Window(page, total).0, Window(page, total).1;
    [PaginationButton(PrevArrow, page > 1, page - 1)] + Leading(start)
    + NumberButtons(start, end, page)
    + Trailing(end, total) + [PaginationButton(NextArrow, page < total, page + 1)]
  }

  /** The bar, built as the page builds it: prev, shortcuts, the numbered buttons one by one, shortcuts, next. */
  method UpdatePagination(page: int, total: nat) returns (controls: seq<Control>)
    ensures controls == PaginationBar(page, total)
  {
    var start, end := Window(page, total).0, Window(page, total).1;
    controls := [PaginationButton(PrevArrow, page > 1, page - 1)];
    controls := AppendLeading(controls, start);
    controls := AppendNumberButtons(controls, start, end, page);
    controls := AppendTrailing(controls, end, total);
    controls := controls + [PaginationButton(NextArrow, page < total, page + 1)];
  }

  /** The "1" shortcut and the leading ellipsis pushed after `controls`, when the window starts late. */
  method AppendLeading(controls: seq<Control>, start: int) returns (r: seq<Control>)
    ensures r == controls + Leading(start)
  {
    r := controls;
    if start > 1 {
      r := r + [PaginationButton(Number(1), true, 1)];
      if start > 2 {
        r := r + [Ellipsis];
      }
    }
  }

  /** The numbered buttons `start..end` pushed after `controls`, one per loop round. */
  method AppendNumberButtons(controls: seq<Control>, start: int, end: int, page: int) returns (r: seq<Control>)
    ensures r == controls + NumberButtons(start, end, page)
  {
    r := controls;
    var i := start;
    while i <= end
      invariant start <= i && (i <= end + 1 || i == start)
      invariant r == controls + NumberButtons(start, i - 1, page)
    {
      r := r + [NumberButton(i, page)];
      i := i + 1;
    }
  }

  /** The trailing ellipsis and the last-page shortcut pushed after `controls`, when the window ends early. */
  method AppendTrailing(controls: seq<Control>, end: int, total: nat) returns (r: seq<Control>)
    ensures r == controls + Trailing(end, total)
  {
    r := controls;
    if end < total {
      if end < total - 1 {
        r := r + [Ellipsis];
      }
      r := r + [PaginationButton(Number(total), true, total)];
    }
  }

  /** The window's `k`-th button is page `from + k`. */
  lemma {:induction false} NumberButtonsAt(from: int, to: int, page: int)
    decreases to - from + 1
    ensures |NumberButtons(from, to, page)| == Max(0, to - from + 1)
    ensures forall k :: 0 <= k < |NumberButtons(from, to, page)| ==> NumberButtons(from, to, page)[k] == NumberButton(from + k, page)
  {
    if to >= from {
      NumberButtonsAt(from, to - 1, page);
    }
  }

  /** Every button of the window is an enabled page `from..to` going to itself, active exactly on `page`. */
  lemma {:induction false} NumberButtonsMembers(from: int, to: int, page: int)
    decreases to - from + 1
    ensures forall c :: c in NumberButtons(from, to, page) ==>
      c.Button? && c.content.Number? && from <= c.content.n <= to && c.enabled &&
      c.onClick == Some(c.content.n) && (c.active <==> c.content.n == page)
  {
    if to >= from {
      NumberButtonsMembers(from, to - 1, page);
    }
  }

  /** Every control of the bar comes from one of its five parts. */
  lemma BarMembers(page: int, total: nat, start: int, end: int)
    requires (start, end) == Window(page, total)
    ensures forall c :: c in PaginationBar(page, total) ==>
      c == PaginationButton(PrevArrow, page > 1, page - 1) || c in Leading(start) ||
      c in NumberButtons(start, end, page) || c in Trailing(end, total) ||
      c == PaginationButton(NextArrow, page < total, page + 1)
  {
  }

  /** Where each part of the bar sits: prev, shortcuts, window, shortcuts, next. */
  lemma BarLayout(page: int, total: nat, start: int, end: int)
    requires (start, end) == Window(page, total)
    ensures |PaginationBar(page, total)| == 3 + |Leading(start)| + (end - start) + |Trailing(end, total)|
    ensures PaginationBar(page, total)[0] == PaginationButton(PrevArrow, page > 1, page - 1)
    ensures PaginationBar(page, total)[|PaginationBar(page, total)| - 1] == PaginationButton(NextArrow, page < total, page + 1)
    ensures forall i :: 1 <= i < 1 + |Leading(start)| ==>
                PaginationBar(page, total)[i] == Leading(start)[i - 1]
    ensures forall i :: 1 + |Leading(start)| <= i < 2 + |Leading(start)| + (end - start) ==>
                PaginationBar(page, total)[i] == NumberButton(start + i - 1 - |Leading(start)|, page)
    ensures forall i :: 2 + |Leading(start)| + (end - start) <= i < |PaginationBar(page, total)| - 1 ==>
                PaginationBar(page, total)[i] == Trailing(end, total)[i - 2 - |Leading(start)| - (end - start)]
  {
    NumberButtonsAt(start, end, page);
  }

  /** The number of buttons marked active. */
  function CountActive(cs: seq<Control>): nat {
    if cs == [] then 0 else (if cs[0].Button? && cs[0].active then 1 else 0) + CountActive(cs[1..])
  }

  lemma {:induction false} CountActiveAppend(xs: seq<Control>, ys: seq<Control>)
    ensures CountActive(xs + ys) == CountActive(xs) + CountActive(ys)
  {
    if xs != [] {
      assert (xs + ys)[1..] == xs[1..] + ys;
      CountActiveAppend(xs[1..], ys);
    } else {
      assert xs + ys == ys;
    }
  }

  lemma {:induction false} CountActiveNumbers(from: int, to: int, page: int)
    decreases to - from + 1
    ensures CountActive(NumberButtons(from, to, page)) == (if from <= page <= to then 1 else 0)
  {
    if to >= from {
      CountActiveNumbers(from, to - 1, page);
      CountActiveAppend(NumberButtons(from, to - 1, page), [NumberButton(to, page)]);
    }
  }

  /** The bar's active count is the sum over its five parts. */
  lemma CountActiveOfBar(page: int, total: nat, start: int, end: int)
    requires (start, end) == Window(page, total)
    ensures CountActive(PaginationBar(page, total)) ==
      CountActive([PaginationButton(PrevArrow, page > 1, page - 1)]) + CountActive(Leading(start)) +
      CountActive(NumberButtons(start, end, page)) + CountActive(Trailing(end, total)) +
      CountActive([PaginationButton(NextArrow, page < total, page + 1)])
  {
    var p := [PaginationButton(PrevArrow, page > 1, page - 1)];
    var n := [PaginationButton(NextArrow, page < total, page + 1)];
    var w := NumberButtons(start, end, page);
    CountActiveAppend(p, Leading(start));
    CountActiveAppend(p + Leading(start), w);
    CountActiveAppend(p + Leading(start) + w, Trailing(end, total));
    CountActiveAppend(p + Leading(start) + w + Trailing(end, total), n);
  }

  /** The shortcuts and ellipses are never marked active. */
  lemma ShortcutsInactive(start: int, end: int, total: nat)
    ensures CountActive(Leading(start)) == 0 && CountActive(Trailing(end, total)) == 0
  {
    if start > 2 {
      CountActiveAppend([PaginationButton(Number(1), true, 1)], [Ellipsis]);
    }
    if end < total - 1 {
      CountActiveAppend([Ellipsis], [PaginationButton(Number(total), true, total)]);
    }
  }

  /** Exactly one button of the bar is marked active, and it is the current page's. */
  lemma ExactlyOneActive(page: int, total: nat)
    requires 1 <= page <= total
    ensures CountActive(PaginationBar(page, total)) == 1
    ensures forall c :: c in PaginationBar(page, total) && c.Button? && c.active ==> c.content == Number(page)
  {
    var start, end := Window(page, total).0, Window(page, total).1;
    OneActiveButton(page, total, start, end);
    OnlyCurrentPageActive(page, total, start, end);
  }

  lemma OneActiveButton(page: int, total: nat, start: int, end: int)
    requires (start, end) == Window(page, total) && start <= page <= end
    ensures CountActive(PaginationBar(page, total)) == 1
  {
    CountActiveOfBar(page, total, start, end);
    ShortcutsInactive(start, end, total);
    CountActiveNumbers(start, end, page);
  }

  lemma OnlyCurrentPageActive(page: int, total: nat, start: int, end: int)
    requires (start, end) == Window(page, total)
    ensures forall c :: c in PaginationBar(page, total) && c.Button? && c.active ==> c.content == Number(page)
  {
    BarMembers(page, total, start, end);
    NumberButtonsMembers(start, end, page);
  }

  /**
   * Every enabled button, and only those, has a handler, and every handler
   * goes to a page in `[1, total]`: clicking can never leave the catalog.
   */
  lemma HandlersStayInRange(page: int, total: nat)
    requires 1 <= page <= Max(1, total)
    ensures forall c :: c in PaginationBar(page, total) && c.Button? ==>
      (c.onClick.Some? <==> c.enabled) &&
      (c.onClick.Some? ==> 1 <= c.onClick.value <= total)
  {
    var start, end := Window(page, total).0, Window(page, total).1;
    BarMembers(page, total, start, end);
    NumberButtonsMembers(start, end, page);
  }

  /**
   * Prev is enabled exactly when there is a page before and goes to it; next
   * is enabled exactly when there is a page after and goes to it. Between
   * them the first numbered button is always page 1 and the last is the last
   * page, so both ends of the catalog are one click away.
   */
  lemma BarEnds(page: int, total: nat)
    requires 1 <= page <= total
    ensures var cs := PaginationBar(page, total);
      |cs| >= 3 &&
      cs[0].Button? && cs[0].content == PrevArrow && cs[0].enabled == (page > 1) &&
      (page > 1 ==> cs[0].onClick == Some(page - 1)) &&
      cs[|cs| - 1].Button? && cs[|cs| - 1].content == NextArrow && cs[|cs| - 1].enabled == (page < total) &&
      (page < total ==> cs[|cs| - 1].onClick == Some(page + 1)) &&
      cs[1].Button? && cs[1].content == Number(1) &&
      cs[|cs| - 2].Button? && cs[|cs| - 2].content == Number(total)
  {
    var start, end := Window(page, total).0, Window(page, total).1;
    BarLayout(page, total, start, end);
  }

  predicate IsNumber(c: Control) {
    c.Button? && c.content.Number?
  }

  /** Adjacent numbered buttons are consecutive pages; an ellipsis sits between two non-consecutive ones. */
  predicate GapsMarked(cs: seq<Control>) {
    (forall i :: 0 <= i < |cs| - 1 && IsNumber(cs[i]) && IsNumber(cs[i + 1]) ==>
       cs[i + 1].content.n == cs[i].content.n + 1) &&
    (forall i :: 0 < i < |cs| - 1 && cs[i] == Ellipsis ==>
       IsNumber(cs[i - 1]) && IsNumber(cs[i + 1]) && cs[i - 1].content.n + 1 < cs[i + 1].content.n)
  }

  lemma GapsMarkedByLayout(cs: seq<Control>, start: int, end: int, total: nat, page: int, a: int, b: int)
    requires 1 <= start <= end <= total
    requires a == 1 + |Leading(start)| && b == a + (end - start + 1) && |cs| == b + |Trailing(end, total)| + 1
    requires cs[0].Button? && !cs[0].content.Number? && cs[|cs| - 1].Button? && !cs[|cs| - 1].content.Number?
    requires forall i :: 1 <= i < a ==> cs[i] == Leading(start)[i - 1]
    requires forall i :: a <= i < b ==> cs[i] == NumberButton(start + (i - a), page)
    requires forall i :: b <= i < |cs| - 1 ==> cs[i] == Trailing(end, total)[i - b]
    ensures GapsMarked(cs)
  {
    forall i | 0 <= i < |cs| - 1 && IsNumber(cs[i]) && IsNumber(cs[i + 1])
      ensures cs[i + 1].content.n == cs[i].content.n + 1
    {
      if i < a - 1 {
        assert false;
      } else if i == a - 1 {
        assert cs[i + 1] == NumberButton(start, page);
        assert i != 0 && start == 2;
      } else if i < b - 1 {
        assert cs[i] == NumberButton(start + (i - a), page);
        assert cs[i + 1] == NumberButton(start + (i + 1 - a), page);
      } else {
        assert i == b - 1 && cs[i] == NumberButton(end, page);
        assert i + 1 != |cs| - 1 && end == total - 1;
      }
    }
    forall i | 0 < i < |cs| - 1 && cs[i] == Ellipsis
      ensures IsNumber(cs[i - 1]) && IsNumber(cs[i + 1]) && cs[i - 1].content.n + 1 < cs[i + 1].content.n
    {
      if i < a {
        assert i == 2 && start > 2;
        assert cs[3] == NumberButton(start, page);
      } else if i < b {
        assert false;
      } else {
        assert i == b && end < total - 1;
        assert cs[b - 1] == NumberButton(end, page);
      }
    }
  }

  /**
   * The ellipses mark exactly the skipped pages: two numbered buttons side by
   * side are consecutive pages, and an ellipsis always sits between two
   * numbered buttons with at least one page missing between them. So the "1"
   * shortcut is followed by an ellipsis exactly when the window starts after
   * page 2, and the last-page shortcut is preceded by one exactly when the
   * window ends before the page before last.
   */
  lemma EllipsisMarksGap(page: int, total: nat)
    requires 1 <= page <= total
    ensures GapsMarked(PaginationBar(page, total))
  {
    var start, end := Window(page, total).0, Window(page, total).1;
    BarLayout(page, total, start, end);
    GapsMarkedByLayout(PaginationBar(page, total), start, end, total, page,
      1 + |Leading(start)|, 1 + |Leading(start)| + (end - start + 1));
  }

  /** The page's built-in catalog. */
  const BuiltInCatalog: seq<Earing> := [
    Earing(1, "Pearl Drops", "₱299", ["earing1_1.jpg", "earing1_2.jpg", "earing1_3.jpg"], "dangle"),
    Earing(2, "Gold Hoops", "₱349", ["earing2_1.jpg", "earing2_2.jpg", "earing2_3.jpg"], "hoop"),
    Earing(3, "Statement Studs", "₱399", ["earing3_1.jpg", "earing3_2.jpg", "earing3_3.jpg"], "stud"),
    Earing(4, "Crystal Dangles", "₱329", ["earing4_1.jpg", "earing4_2.jpg", "earing4_3.jpg"], "dangle"),
    Earing(5, "Silver Hoops", "₱279", ["earing5_1.jpg", "earing5_2.jpg", "earing5_3.jpg"], "hoop"),
    Earing(6, "Rose Gold Studs", "₱359", ["earing6_1.jpg", "earing6_2.jpg", "earing6_3.jpg"], "stud"),
    Earing(7, "Geometric Earrings", "₱319", ["earing7_1.jpg", "earing7_2.jpg", "earing7_3.jpg"], "dangle"),
    Earing(8, "Floral Drops", "₱369", ["earing8_1.jpg", "earing8_2.jpg", "earing8_3.jpg"], "dangle"),
    Earing(9, "Minimalist Hoops", "₱259", ["earing9_1.jpg", "earing9_2.jpg", "earing9_3.jpg"], "hoop"),
    Earing(10, "Bold Statement", "₱429", ["earing10_1.jpg", "earing10_2.jpg", "earing10_3.jpg"], "statement"),
    Earing(11, "Moon & Stars", "₱389", ["earing11_1.jpg", "earing11_2.jpg", "earing11_3.jpg"], "dangle"),
    Earing(12, "Feather Dangles", "₱339", ["earing12_1.jpg", "earing12_2.jpg", "earing12_3.jpg"], "dangle"),
    Earing(13, "Pearl Cluster", "₱379", ["earing13_1.jpg", "earing13_2.jpg", "earing13_3.jpg"], "stud"),
    Earing(14, "Gold Bar", "₱299", ["earing14_1.jpg", "earing14_2.jpg", "earing14_3.jpg"], "hoop"),
    Earing(15, "Diamond Studs", "₱449", ["earing15_1.jpg", "earing15_2.jpg", "earing15_3.jpg"], "stud"),
    Earing(16, "Silver Leaves", "₱329", ["earing16_1.jpg", "earing16_2.jpg", "earing16_3.jpg"], "dangle"),
    Earing(17, "Turquoise Drops", "₱399", ["earing17_1.jpg", "earing17_2.jpg", "earing17_3.jpg"], "dangle"),
    Earing(18, "Crystal Hoops", "₱369", ["earing18_1.jpg", "earing18_2.jpg", "earing18_3.jpg"], "hoop"),
    Earing(19, "Ruby Red", "₱419", ["earing19_1.jpg", "earing19_2.jpg", "earing19_3.jpg"], "stud"),
    Earing(20, "Sapphire Blue", "₱439", ["earing20_1.jpg", "earing20_2.jpg", "earing20_3.jpg"], "stud"),
    Earing(21, "Emerald Green", "₱429", ["earing21_1.jpg", "earing21_2.jpg", "earing21_3.jpg"], "stud"),
    Earing(22, "Amethyst Drops", "₱389", ["earing22_1.jpg", "earing22_2.jpg", "earing22_3.jpg"], "dangle"),
    Earing(23, "Citrine Studs", "₱359", ["earing23_1.jpg", "earing23_2.jpg", "earing23_3.jpg"], "stud"),
    Earing(24, "Opal Dreams", "₱469", ["earing24_1.jpg", "earing24_2.jpg", "earing24_3.jpg"], "statement")
  ]

  /**
   * The built-in catalog fills exactly two pages of 12, and on the first page
   * the bar is: prev (disabled), 1 (active), 2, next (to page 2).
   */
  lemma BuiltInCatalogPages()
    ensures TotalPages(|BuiltInCatalog|) == 2
    ensures PageItems(BuiltInCatalog, 1) == BuiltInCatalog[..12]
    ensures PageItems(BuiltInCatalog, 2) == BuiltInCatalog[12..]
    ensures PaginationBar(1, 2) == [
      Button(PrevArrow, false, false, None),
      Button(Number(1), true, true, Some(1)),
      Button(Number(2), true, false, Some(2)),
      Button(NextArrow, true, false, Some(2))]
  {
    assert NumberButtons(1, 2, 1) == [NumberButton(1, 1), NumberButton(2, 1)] by {
      assert NumberButtons(1, 0, 1) == [];
    }
  }

  /**
   * The earrings page: the catalog it pages through, the current page, and
   * what the page currently shows (the cards of the current page and the
   * pagination bar under them).
   */
  class EaringsPage {
    const earings: seq<Earing>
    var currentPage: int
    var shown: seq<Earing>
    var pagination: seq<Control>

    /** What is shown is the current page and its bar. */
    ghost predicate Valid()
      reads this
    {
      shown == PageItems(earings, currentPage) &&
      pagination == PaginationBar(currentPage, TotalPages(|earings|))
    }

    /** The current page is a page of the catalog (page 1 when the catalog is empty). */
    ghost predicate InRange()
      reads this
    {
      1 <= currentPage <= Max(1, TotalPages(|earings|))
    }

    /** `initEaringsPage`: start on page 1 and display it. */
    constructor (earings: seq<Earing>)
      ensures this.earings == earings && currentPage == 1
      ensures Valid() && InRange()
    {
      this.earings := earings;
      currentPage := 1;
      new;
      DisplayEarings(1);
    }

    /** `displayEarings(page)`: show page `page`'s cards and its bar. */
    method DisplayEarings(page: int)
      modifies this`shown, this`pagination
      ensures shown == PageItems(earings, page)
      ensures pagination == PaginationBar(page, TotalPages(|earings|))
    {
      var startIndex := (page - 1) * ItemsPerPage;
      var endIndex := startIndex + ItemsPerPage;
      shown := Slice(earings, startIndex, endIndex);
      pagination := UpdatePagination(page, TotalPages(|earings|));
    }

    /** `goToPage(pageNum)`: make `pageNum` current and display it. */
    method GoToPage(pageNum: int)
      modifies this
      ensures currentPage == pageNum && Valid()
    {
      currentPage := pageNum;
      DisplayEarings(currentPage);
    }

    /**
     * A click on element `i` of the bar: a button with a handler goes to its
     * page (prev and next to the page before or after, a number to itself);
     * a disabled button or an ellipsis does nothing. The current page stays
     * a page of the catalog.
     */
    method Click(i: nat)
      requires Valid() && InRange()
      modifies this
      ensures Valid() && InRange()
      ensures i < |old(pagination)| && old(pagination)[i].Button? && old(pagination)[i].onClick.Some? ==>
        currentPage == old(pagination)[i].onClick.value
      ensures !(i < |old(pagination)| && old(pagination)[i].Button? && old(pagination)[i].onClick.Some?) ==>
        currentPage == old(currentPage) && shown == old(shown) && pagination == old(pagination)
    {
      if i < |pagination| && pagination[i].Button? && pagination[i].onClick.Some? {
        HandlersStayInRange(currentPage, TotalPages(|earings|));
        assert pagination[i] in pagination;
        GoToPage(pagination[i].onClick.value);
      }
    }
  }
}
