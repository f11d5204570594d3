/** The navigation strip the index page draws from the pager data: the
    page-1 link when `first` is set, an ellipsis when `left_has_more` is set,
    the left window, the current page, the right window, an ellipsis when
    `right_has_more` is set and the page-n link when `last` is set.
    The strip is a compressed picture of the whole page range 1..n.
 */
module NavBar {
  import opened PyList
  import opened Pagination

  datatype Item = Page(number: int) | Ellipsis

  function Pages(s: seq<int>): (r: seq<Item>)
    ensures |r| == |s|
    ensures forall k :: 0 <= k < |s| ==> r[k] == Page(s[k])
  {
    seq(|s|, k requires 0 <= k < |s| => Page(s[k]))
  }

  /** Everything up to and including the current page. */
  function LeftPart(p: int, w: Window): seq<Item> {
    (if w.first then [Page(1)] else [])
    + (if w.leftHasMore then [Ellipsis] else [])
    + Pages(w.left) + [Page(p)]
  }

  /** Everything after the current page. */
  function RightPart(w: Window, n: int): seq<Item> {
    Pages(w.right)
    + (if w.rightHasMore then [Ellipsis] else [])
    + (if w.last then [Page(n)] else [])
  }

  /** The strip in drawing order: the page-1 link if `first`, an ellipsis if
      `left_has_more`, the left window, the current page, the right window,
      an ellipsis if `right_has_more`, the page-n link if `last`. Every page
      of either window and the current page are drawn; an ellipsis is drawn
      exactly when one of the two has-more flags is set; the strip opens with
      page 1 when `first` is set and closes with page n when `last` is set. */
  function Bar(p: int, w: Window, n: int): (r: seq<Item>)
    ensures Page(p) in r
    ensures forall x :: x in w.left ==> Page(x) in r
    ensures forall x :: x in w.right ==> Page(x) in r
    ensures Ellipsis in r <==> w.leftHasMore || w.rightHasMore
    ensures w.first ==> r[0] == Page(1)
    ensures w.last ==> r[|r| - 1] == Page(n)
  {
    var a := LeftPart(p, w);
    var b := RightPart(w, n);
    assert a[|a| - 1] == Page(p);
    forall x | x in w.left
      ensures Page(x) in a
    {
      var k :| 0 <= k < |w.left| && w.left[k] == x;
      assert Pages(w.left)[k] == Page(x);
    }
    forall x | x in w.right
      ensures Page(x) in b
    {
      var k :| 0 <= k < |w.right| && w.right[k] == x;
      assert Pages(w.right)[k] == Page(x);
    }
    assert Ellipsis !in Pages(w.left) && Ellipsis !in Pages(w.right);
    a + b
  }

  /** Item i and its successor fit together: two pages in a row are
      neighbours, and an ellipsis sits between two pages with at least one
      page skipped between them. */
  predicate Step(bar: seq<Item>, i: int)
    requires 0 <= i < |bar| - 1
  {
    && (bar[i].Page? && bar[i + 1].Page? ==> bar[i + 1].number == bar[i].number + 1)
    && (bar[i].Ellipsis? ==>
          0 < i && bar[i - 1].Page? && bar[i + 1].Page?
          && bar[i + 1].number > bar[i - 1].number + 1)
  }

  predicate Chained(bar: seq<Item>) {
    forall i :: 0 <= i < |bar| - 1 ==> Step(bar, i)
  }

  /** bar stands for the page range 1..n: it starts at page 1, ends at page n,
      lists neighbouring pages in order, and each ellipsis hides at least one page. */
  predicate Compressed(bar: seq<Item>, n: int) {
    |bar| > 0 && bar[0] == Page(1) && bar[|bar| - 1] == Page(n) && Chained(bar)
  }

  /** Two chained strips joined at neighbouring pages form a chained strip. */
  lemma ChainedConcat(a: seq<Item>, b: seq<Item>)
    requires Chained(a) && Chained(b) && a != [] && b != []
    requires a[|a| - 1].Page? && b[0] == Page(a[|a| - 1].number + 1)
    ensures Chained(a + b)
  {
    var c := a + b;
    forall i | 0 <= i < |c| - 1
      ensures Step(c, i)
    {
      if i < |a| - 1 {
        assert Step(a, i);
      } else if i >= |a| {
        assert Step(b, i - |a|);
      }
    }
  }

  /** The part up to the current page runs from page 1 to page p. */
  lemma LeftPartShape(p: int, w: Window)
    requires 1 <= p && w.left == LeftWindow(p)
    requires (w.leftHasMore <==> p >= 5) && (w.first <==> p >= 4)
    ensures var a := LeftPart(p, w);
      a[0] == Page(1) && a[|a| - 1] == Page(p) && Chained(a)
  {
    var a := LeftPart(p, w);
    if p == 1 {
      assert w.left == [];
      assert a == [Page(1)];
    } else if p == 2 {
      assert w.left == [1];
      assert a == [Page(1), Page(2)];
    } else if p == 3 {
      assert w.left == [1, 2];
      assert a == [Page(1), Page(2), Page(3)];
    } else if p == 4 {
      assert w.left == [2, 3];
      assert a == [Page(1), Page(2), Page(3), Page(4)];
    } else {
      assert w.left == [p - 2, p - 1];
      assert a == [Page(1), Ellipsis, Page(p - 2), Page(p - 1), Page(p)];
      assert Step(a, 1);
    }
  }

  /** The part after the current page is empty on the last page, and otherwise
      runs from page p + 1 to page n. */
  lemma RightPartShape(p: int, n: int, w: Window)
    requires p <= n && w.right == RightWindow(p, n)
    requires (w.rightHasMore <==> p <= n - 4) && (w.last <==> p <= n - 3)
    ensures var b := RightPart(w, n);
      && (b == [] <==> p == n)
      && (b != [] ==> b[0] == Page(p + 1) && b[|b| - 1] == Page(n) && Chained(b))
  {
    var b := RightPart(w, n);
    if p == n {
      assert w.right == [];
      assert b == [];
    } else if p == n - 1 {
      assert w.right == [n];
      assert b == [Page(n)];
    } else if p == n - 2 {
      assert w.right == [n - 1, n];
      assert b == [Page(n - 1), Page(n)];
    } else if p == n - 3 {
      assert w.right == [n - 2, n - 1];
      assert b == [Page(n - 2), Page(n - 1), Page(n)];
    } else {
      assert w.right == [p + 1, p + 2];
      assert b == [Page(p + 1), Page(p + 2), Ellipsis, Page(n)];
      assert Step(b, 2);
    }
  }

  /** On every input Django produces, the strip drawn from the pager data is a
      faithful compressed picture of the pages 1..n that shows the current page:
      no page is missing without an ellipsis, none is drawn twice, and no
      ellipsis hides nothing. */
  lemma BarCompressed(p: int, n: int)
    requires 2 <= n && 1 <= p <= n
    ensures var bar := Bar(p, PaginationData(p, n, true).value, n);
      Compressed(bar, n) && Page(p) in bar
  {
    var w := PaginationData(p, n, true).value;
    var a := LeftPart(p, w);
    var b := RightPart(w, n);
    LeftPartShape(p, w);
    RightPartShape(p, n, w);
    assert a[|a| - 1] == Page(p);
    if b == [] {
      assert a + b == a;
    } else {
      ChainedConcat(a, b);
    }
    assert (a + b)[|a| - 1] == Page(p);
  }
}
