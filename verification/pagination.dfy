/** The compact pager window of the blog's index view: from the current page
    p, the page count n and whether the post list is split into pages at all,
    it picks up to two page numbers on each side of p, and four flags that say
    whether an ellipsis and a separate link are needed towards page 1 and
    towards page n.
 */
module Pagination {
  import opened Wrappers
  import opened PyList

  /** The data handed to the template; the view's dictionary keys
      left, right, left_has_more, right_has_more, first and last. */
  datatype Window = Window(
    left: seq<int>,
    right: seq<int>,
    leftHasMore: bool,
    rightHasMore: bool,
    first: bool,
    last: bool)

  /** The paginator's page range: the pages 1..n. */
  function PageRange(n: int): (r: seq<int>)
    ensures forall x :: x in r <==> 1 <= x <= n
  {
    Span(1, n)
  }

  /** Lower slice bound for the left window, written as the view writes it.
      It is never negative, so Python's count-from-the-end rule never applies
      to it, and it lies at most two places before the upper bound p - 1,
      exactly two once p >= 3. */
  function LeftStart(p: int): (r: int)
    ensures 0 <= r
    ensures p - 1 - r <= 2
    ensures p >= 3 ==> p - 1 - r == 2
  {
    if p - 3 > 0 then p - 3 else 0
  }

  /** The view's computation as written, for any integers: `Success(None)` is
      the empty dictionary, `Failure(IndexError)` is the exception raised when
      `right[-1]` or `left[0]` is taken of an empty window. */
  function Run(p: int, n: int, isPaginated: bool): (r: Result<Option<Window>, PyError>)
    ensures !isPaginated ==> r == Success(None)
    ensures r.Success? && r.value.Some? ==> isPaginated
  {
    if !isPaginated then Success(None)
    else
      var pageRange := PageRange(n);
      if p == 1 then
        var right := Slice(pageRange, p, p + 2);
        var tail :- At(right, -1);
        Success(Some(Window([], right, false, tail < n - 1, false, tail < n)))
      else if p == n then
        var left := Slice(pageRange, LeftStart(p), p - 1);
        var head :- At(left, 0);
        Success(Some(Window(left, [], head > 2, false, head > 1, false)))
      else
        var left := Slice(pageRange, LeftStart(p), p - 1);
        var right := Slice(pageRange, p, p + 2);
        var tail :- At(right, -1);
        var head :- At(left, 0);
        Success(Some(Window(left, right, head > 2, tail < n - 1, head > 1, tail < n)))
  }

  /** What Django guarantees the view: a paginated list has at least two
      pages, and the page number is one of them. */
  predicate DjangoInput(p: int, n: int, isPaginated: bool) {
    isPaginated ==> 2 <= n && 1 <= p <= n
  }

  /** The left window for page p: the up to two pages just before p. */
  function LeftWindow(p: int): seq<int> {
    Span(Max(p - 2, 1), p - 1)
  }

  /** The right window for page p of n: the up to two pages just after p. */
  function RightWindow(p: int, n: int): seq<int> {
    Span(p + 1, Min(p + 2, n))
  }

  /** Both windows, as the view slices them out of the page range. */
  lemma WindowsAsSliced(p: int, n: int)
    requires 1 <= p <= n
    ensures Slice(PageRange(n), LeftStart(p), p - 1) == LeftWindow(p)
    ensures Slice(PageRange(n), p, p + 2) == RightWindow(p, n)
  {
    SliceOfSpan(n, LeftStart(p), p - 1);
    SliceOfSpan(n, p, p + 2);
  }

  /** The pager data on the inputs Django produces, in closed form. Not
      paginated: nothing, whatever p and n are. Paginated: at most two pages on
      each side of p, increasing, inside 1..n and never p itself. */
  function PaginationData(p: int, n: int, isPaginated: bool): (r: Option<Window>)
    requires DjangoInput(p, n, isPaginated)
    ensures r.None? <==> !isPaginated
    ensures r.Some? ==> |r.value.left| <= 2 && |r.value.right| <= 2
    ensures r.Some? ==> Increasing(r.value.left) && Increasing(r.value.right)
    ensures r.Some? ==> forall x :: x in r.value.left ==> 1 <= x < p
    ensures r.Some? ==> forall x :: x in r.value.right ==> p < x <= n
  {
    if !isPaginated then None
    else
      SpanIncreasing(Max(p - 2, 1), p - 1);
      SpanIncreasing(p + 1, Min(p + 2, n));
      Some(Window(LeftWindow(p), RightWindow(p, n), p >= 5, p <= n - 4, p >= 4, p <= n - 3))
  }

  /** On every input Django can produce, the view as written raises nothing
      and returns exactly the closed form. */
  lemma RunIsPaginationData(p: int, n: int, isPaginated: bool)
    requires DjangoInput(p, n, isPaginated)
    ensures Run(p, n, isPaginated) == Success(PaginationData(p, n, isPaginated))
  {
    if isPaginated {
      WindowsAsSliced(p, n);
      var left := LeftWindow(p);
      var right := RightWindow(p, n);
      if p == 1 {
        EndsOfSpan(p + 1, Min(p + 2, n));
        assert left == [];
        var tail := Min(p + 2, n);
        assert At(right, -1) == Success(tail);
        assert Run(p, n, true) == Success(Some(Window([], right, false, tail < n - 1, false, tail < n)));
      } else if p == n {
        EndsOfSpan(Max(p - 2, 1), p - 1);
        assert right == [];
        var head := Max(p - 2, 1);
        assert At(left, 0) == Success(head);
        assert Run(p, n, true) == Success(Some(Window(left, [], head > 2, false, head > 1, false)));
      } else {
        EndsOfSpan(Max(p - 2, 1), p - 1);
        EndsOfSpan(p + 1, Min(p + 2, n));
        var head := Max(p - 2, 1);
        var tail := Min(p + 2, n);
        assert At(left, 0) == Success(head);
        assert At(right, -1) == Success(tail);
        assert Run(p, n, true) == Success(Some(Window(left, right, head > 2, tail < n - 1, head > 1, tail < n)));
      }
    }
  }

  /** The view as written fails exactly when a window it indexes is empty. */
  lemma RunSucceedsOnNonEmptyWindows(p: int, n: int)
    ensures var pageRange := PageRange(n);
      var left := Slice(pageRange, LeftStart(p), p - 1);
      var right := Slice(pageRange, p, p + 2);
      Run(p, n, true).Success? <==>
        if p == 1 then right != []
        else if p == n then left != []
        else left != [] && right != []
  {
  }

  /** Exactly where the view as written succeeds, for n >= 1: on Django's
      inputs, and on two ranges of page numbers below 1 for which the negative
      slice bounds of Python happen to give non-empty windows; everywhere else
      it raises IndexError, in particular for a paginated single page. */
  lemma RunSucceedsIff(p: int, n: int)
    requires 1 <= n
    ensures Run(p, n, true).Success? <==>
      (2 <= n && 0 <= p <= n) || (2 - n <= p <= -3)
  {
    var pageRange := PageRange(n);
    assert |pageRange| == n;
    var left := Slice(pageRange, LeftStart(p), p - 1);
    var right := Slice(pageRange, p, p + 2);
    assert |left| == Max(Clip(p - 1, n) - Clip(LeftStart(p), n), 0);
    assert |right| == Max(Clip(p + 2, n) - Clip(p, n), 0);
    RunSucceedsOnNonEmptyWindows(p, n);
  }

  /** A paginated list of a single page makes the view raise IndexError,
      whatever the page number: Django never calls it so. */
  lemma SinglePageRaises(p: int)
    ensures Run(p, 1, true) == Failure(IndexError)
  {
    RunSucceedsIff(p, 1);
  }

  /** Right window, for every page but the last: the one or two pages right
      after p, increasing, none beyond n. */
  lemma RightWindowShape(p: int, n: int)
    requires 2 <= n && 1 <= p < n
    ensures var w := PaginationData(p, n, true).value;
      && w.right == Span(p + 1, Min(p + 2, n))
      && 1 <= |w.right| <= 2
      && Increasing(w.right)
      && (forall x :: x in w.right ==> p < x <= n)
  {
    SpanIncreasing(p + 1, Min(p + 2, n));
  }

  /** Left window, for every page but the first: the one or two pages right
      before p, increasing, none below 1. */
  lemma LeftWindowShape(p: int, n: int)
    requires 2 <= n && 1 < p <= n
    ensures var w := PaginationData(p, n, true).value;
      && w.left == Span(Max(p - 2, 1), p - 1)
      && 1 <= |w.left| <= 2
      && Increasing(w.left)
      && (forall x :: x in w.left ==> 1 <= x < p)
  {
    SpanIncreasing(Max(p - 2, 1), p - 1);
  }

  /** On the first page nothing is shown to the left: only the right window
      and the flags towards page n can be set. */
  lemma FirstPage(n: int)
    requires 2 <= n
    ensures var w := PaginationData(1, n, true).value;
      && w.left == [] && !w.leftHasMore && !w.first
      && w.right == Span(2, Min(3, n))
      && (w.rightHasMore <==> n >= 5) && (w.last <==> n >= 4)
  {
  }

  /** On the last page nothing is shown to the right: only the left window
      and the flags towards page 1 can be set. */
  lemma LastPage(n: int)
    requires 2 <= n
    ensures var w := PaginationData(n, n, true).value;
      && w.right == [] && !w.rightHasMore && !w.last
      && w.left == Span(Max(n - 2, 1), n - 1)
      && (w.leftHasMore <==> n >= 5) && (w.first <==> n >= 4)
  {
  }

  /** The right flags compare the window's largest page with n - 1 and n;
      with no right window both are off. An ellipsis towards n therefore
      always comes with the link to n. */
  lemma RightFlags(p: int, n: int)
    requires 2 <= n && 1 <= p <= n
    ensures var w := PaginationData(p, n, true).value;
      && (w.right != [] ==>
            (w.rightHasMore <==> w.right[|w.right| - 1] < n - 1)
            && (w.last <==> w.right[|w.right| - 1] < n))
      && (w.right == [] ==> !w.rightHasMore && !w.last)
      && (w.rightHasMore ==> w.last)
  {
  }

  /** The left flags compare the window's smallest page with 2 and 1; with no
      left window both are off. An ellipsis towards page 1 therefore always
      comes with the link to page 1. */
  lemma LeftFlags(p: int, n: int)
    requires 2 <= n && 1 <= p <= n
    ensures var w := PaginationData(p, n, true).value;
      && (w.left != [] ==> (w.leftHasMore <==> w.left[0] > 2) && (w.first <==> w.left[0] > 1))
      && (w.left == [] ==> !w.leftHasMore && !w.first)
      && (w.leftHasMore ==> w.first)
  {
  }

  /** Page 1 is offered exactly once: it is the current page, or it lies in
      the left window, or the separate first-page link is drawn. */
  lemma PageOneOnce(p: int, n: int)
    requires 2 <= n && 1 <= p <= n
    ensures var w := PaginationData(p, n, true).value;
      && (p == 1 || 1 in w.left || w.first)
      && !(p == 1 && 1 in w.left) && !(p == 1 && w.first) && !(1 in w.left && w.first)
  {
  }

  /** Page n is offered exactly once: it is the current page, or it lies in
      the right window, or the separate last-page link is drawn. */
  lemma LastPageOnce(p: int, n: int)
    requires 2 <= n && 1 <= p <= n
    ensures var w := PaginationData(p, n, true).value;
      && (p == n || n in w.right || w.last)
      && !(p == n && n in w.right) && !(p == n && w.last) && !(n in w.right && w.last)
  {
  }

  /** The page numbers of s seen from the other end of 1..n, in increasing order. */
  function Reflect(s: seq<int>, n: int): (r: seq<int>)
    ensures |r| == |s|
  {
    seq(|s|, k requires 0 <= k < |s| => n + 1 - s[|s| - 1 - k])
  }

  lemma ReflectSpan(a: int, b: int, n: int)
    ensures Reflect(Span(a, b), n) == Span(n + 1 - b, n + 1 - a)
  {
    var r := Reflect(Span(a, b), n);
    var t := Span(n + 1 - b, n + 1 - a);
    assert |r| == |t|;
    forall k | 0 <= k < |r|
      ensures r[k] == t[k]
    {
    }
  }

  /** The pager is symmetric: the window of page n + 1 - p is the window of
      page p read from the other end, with the left and right parts and
      flags exchanged. */
  lemma Mirror(p: int, n: int)
    requires 2 <= n && 1 <= p <= n
    ensures var w := PaginationData(p, n, true).value;
      var m := PaginationData(n + 1 - p, n, true).value;
      && m.left == Reflect(w.right, n) && m.right == Reflect(w.left, n)
      && m.leftHasMore == w.rightHasMore && m.rightHasMore == w.leftHasMore
      && m.first == w.last && m.last == w.first
  {
    var q := n + 1 - p;
    ReflectedWindows(p, n);
    var w := PaginationData(p, n, true).value;
    var m := PaginationData(q, n, true).value;
    assert w.left == LeftWindow(p) && w.right == RightWindow(p, n);
    assert m.left == LeftWindow(q) && m.right == RightWindow(q, n);
  }

  /** Each window of page p, reflected, is the opposite window of page n + 1 - p. */
  lemma ReflectedWindows(p: int, n: int)
    requires 1 <= p <= n
    ensures Reflect(RightWindow(p, n), n) == LeftWindow(n + 1 - p)
    ensures Reflect(LeftWindow(p), n) == RightWindow(n + 1 - p, n)
  {
    ReflectSpan(p + 1, Min(p + 2, n), n);
    ReflectSpan(Max(p - 2, 1), p - 1, n);
    assert Max(n + 1 - p - 2, 1) == n + 1 - Min(p + 2, n);
    assert Min(n + 1 - p + 2, n) == n + 1 - Max(p - 2, 1);
  }

  /** The example of the view's own comment: four pages, first page. */
  lemma FourPagesFirstPage()
    ensures Run(1, 4, true) == Success(Some(Window([], [2, 3], false, false, false, true)))
  {
    RunIsPaginationData(1, 4, true);
    assert Span(2, 3) == [2, 3];
  }

  /** Four pages, last page: the left window is [2, 3] and, as 2 > 1, the
      link to page 1 is drawn, without an ellipsis. */
  lemma FourPagesLastPage()
    ensures Run(4, 4, true) == Success(Some(Window([2, 3], [], false, false, true, false)))
  {
    RunIsPaginationData(4, 4, true);
    assert Span(2, 3) == [2, 3];
  }

  /** Ten pages, page five: both windows full, both ellipses and both links. */
  lemma TenPagesMiddle()
    ensures Run(5, 10, true) == Success(Some(Window([3, 4], [6, 7], true, true, true, true)))
  {
    RunIsPaginationData(5, 10, true);
    assert Span(3, 4) == [3, 4];
    assert Span(6, 7) == [6, 7];
  }

  /** Page numbers below 1 are not rejected by the view: page 0 of five
      yields overlapping windows taken from the front of the page range. */
  lemma PageZeroSlipsThrough()
    ensures Run(0, 5, true) == Success(Some(Window([1, 2, 3, 4], [1, 2], false, true, false, true)))
  {
    SliceOfSpan(5, 0, -1);
    SliceOfSpan(5, 0, 2);
    assert Span(1, 4) == [1, 2, 3, 4];
    assert Span(1, 2) == [1, 2];
  }
}
