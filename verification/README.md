# Compact pager window of the blog index view

This project models `IndexView.pagination_data` of the blog application
(`blogproject/blog/views.py`), the one piece of original logic in the
repository. Given the current page `p`, the paginator's page count `n` and
whether the post list is paginated at all, the view returns the data for a
compact navigation strip:

- `left`: up to two page numbers right before `p`;
- `right`: up to two page numbers right after `p`;
- `left_has_more` / `right_has_more`: whether an ellipsis is drawn towards page 1 / page `n`;
- `first` / `last`: whether a separate link to page 1 / page `n` is drawn.

When the list is not paginated the view returns an empty dictionary.

Modules:

- `Wrappers` (`wrappers.dfy`): `Option` and a failure-compatible `Result`.
- `PyList` (`py_list.dfy`): the Python list semantics the view relies on.
  `Span(a, b)` is the run `a..b`, as `paginator.page_range` is for `a = 1`.
  `Slice` is `s[i:j]`, with negative bounds counted from the end and clipping.
  `At` is `s[i]`, with negative positions and `IndexError`.
- `Pagination` (`pagination.dfy`): the `Window` record and two functions.
  `Run` is the view line by line, for any integers. It returns `Success(None)`
  for the empty dictionary and `Failure(IndexError)` when `right[-1]` or
  `left[0]` is taken of an empty list. `PaginationData` is the closed form on
  the inputs Django produces. `RunIsPaginationData` proves the two agree there.
- `NavBar` (`nav_bar.dfy`): the strip drawn from the data, in the order the
  view's comments describe (link to 1, ellipsis, left, current page, right,
  ellipsis, link to `n`). It is proved to be a faithful compressed picture
  of the pages `1..n`.

Preconditions. The view trusts Django: `is_paginated` is set only when there
are at least two pages, and the page number is a valid one. `PaginationData`
states this as `requires is_paginated ==> 2 <= n && 1 <= p <= n`. When not
paginated it requires nothing, since the view returns before it reads `p` or
`n`. `Run` has no precondition. `RunSucceedsIff` states exactly where it
raises. It fails for a paginated single page. It also fails for any
`p > n`, for `p = -1`, for `p = -2`, and for `p <= 1 - n`. It succeeds,
with meaningless windows, for `p = 0` and for `2 - n <= p <= -3`.

Facts about the view that the lemmas pin down:

- The window width is fixed at 2 pages on each side of `p`.
- `left` may contain page 1 (on pages 2 and 3), and `right` may contain page
  `n`. The `first`/`last` flags stop those pages from being drawn twice
  (`PageOneOnce`, `LastPageOnce`).
- A paginated single page raises `IndexError` (`SinglePageRaises`). Django
  never makes that call.
- Page numbers are not validated by the view (`PageZeroSlipsThrough`,
  `RunSucceedsIff`).
- The pager is symmetric under `p -> n + 1 - p` (`Mirror`). In closed form:
  `first <=> p >= 4`, `left_has_more <=> p >= 5`, `last <=> p <= n - 3`,
  `right_has_more <=> p <= n - 4`.

## Model

| member | source | states |
|---|---|---|
| `Pagination.Run` | blogproject/blog/views.py:82-177 | When the list is not paginated the result is the empty dictionary, whatever the page values; a window is only ever produced for a paginated list |
| `Pagination.PaginationData` | blogproject/blog/views.py:83-167 | On Django's inputs: no data exactly when not paginated; otherwise each window has at most two pages, is strictly increasing, lies inside 1..n, left entirely below p and right entirely above p |
| `Pagination.RunIsPaginationData` | blogproject/blog/views.py:119-177 | On every input Django produces the view raises nothing and its result equals the closed form: windows max(p-2,1)..p-1 and p+1..min(p+2,n), first iff p>=4, left_has_more iff p>=5, last iff p<=n-3, right_has_more iff p<=n-4 |
| `Pagination.LeftStart` | blogproject/blog/views.py:140 | The lower bound `(p-3) if (p-3) > 0 else 0` of the left slice is never negative, lies at most two places before the upper bound p-1, and exactly two once p >= 3 |
| `Pagination.WindowsAsSliced` | blogproject/blog/views.py:140-155 | The Python slices page_range[max(p-3,0):p-1] and page_range[p:p+2] are the runs max(p-2,1)..p-1 and p+1..min(p+2,n) |
| `Pagination.RunSucceedsOnNonEmptyWindows` | blogproject/blog/views.py:119-167 | The paginated view fails exactly when a window it indexes is empty: right on page 1, left on page n, both elsewhere |
| `Pagination.RunSucceedsIff` | blogproject/blog/views.py:119-167 | For n >= 1 the paginated view raises no IndexError if and only if 2 <= n and 0 <= p <= n, or 2-n <= p <= -3 |
| `Pagination.SinglePageRaises` | blogproject/blog/views.py:119-134 | With one page, a paginated call raises IndexError whatever the page number (right[-1] or left[0] of an empty list) |
| `Pagination.RightWindowShape` | blogproject/blog/views.py:155 | For p < n the right window is the contiguous run p+1..min(p+2,n), of length 1 or 2, strictly increasing, every element in (p, n] |
| `Pagination.LeftWindowShape` | blogproject/blog/views.py:154 | For p > 1 the left window is the contiguous run max(p-2,1)..p-1, of length 1 or 2, strictly increasing, every element in [1, p) |
| `Pagination.FirstPage` | blogproject/blog/views.py:119-134 | On page 1 the left window is empty and left_has_more and first stay false; right is 2..min(3,n), right_has_more iff n>=5, last iff n>=4 |
| `Pagination.LastPage` | blogproject/blog/views.py:135-150 | On page n the right window is empty and right_has_more and last stay false; left is max(n-2,1)..n-1, left_has_more iff n>=5, first iff n>=4 |
| `Pagination.RightFlags` | blogproject/blog/views.py:126-161 | With a non-empty right window, right_has_more iff right[-1] < n-1 and last iff right[-1] < n; with an empty one both are false; right_has_more implies last |
| `Pagination.LeftFlags` | blogproject/blog/views.py:142-167 | With a non-empty left window, left_has_more iff left[0] > 2 and first iff left[0] > 1; with an empty one both are false; left_has_more implies first |
| `Pagination.PageOneOnce` | blogproject/blog/views.py:100-104 | Page 1 is offered exactly once: as the current page, inside the left window, or through the first link, never two of these |
| `Pagination.LastPageOnce` | blogproject/blog/views.py:106-108 | Page n is offered exactly once: as the current page, inside the right window, or through the last link, never two of these |
| `Pagination.ReflectedWindows` | blogproject/blog/views.py:140-155 | The right window of page p, read from the other end of 1..n, is the left window of page n+1-p, and the other way round |
| `Pagination.Mirror` | blogproject/blog/views.py:119-167 | The pager is symmetric: page n+1-p gets page p's windows reflected and exchanged, with left_has_more/right_has_more and first/last exchanged |
| `Pagination.FourPagesFirstPage` | blogproject/blog/views.py:119-134 | The example of the view's comment, on the view as written: n=4, p=1 gives right=[2,3], last true, right_has_more false, left empty |
| `Pagination.FourPagesLastPage` | blogproject/blog/views.py:135-150 | The view as written, on n=4, p=4, gives left=[2,3], first true (2 > 1), left_has_more false, right empty |
| `Pagination.TenPagesMiddle` | blogproject/blog/views.py:151-167 | The view as written, on n=10, p=5, gives left=[3,4], right=[6,7] and all four flags true |
| `Pagination.PageZeroSlipsThrough` | blogproject/blog/views.py:151-167 | The view does not reject page 0: with n=5 it returns left=[1,2,3,4] and right=[1,2] |
| `Pagination.PageRange` | blogproject/blog/views.py:116-117 | The page range holds exactly the pages 1..n |
| `PyList.Span` | blogproject/blog/views.py:116-117 | The run a..b has max(b-a+1,0) elements, holds exactly the integers in [a,b], and its k-th element is a+k |
| `PyList.SpanIncreasing` | blogproject/blog/views.py:116-117 | A run is strictly increasing |
| `PyList.Slice` | blogproject/blog/views.py:124 | Python s[i:j]: length max(clip(j)-clip(i),0), element k is s[clip(i)+k], with negative bounds counted from the end and clipped to the list |
| `PyList.Clip` | blogproject/blog/views.py:124 | Python's adjustment of a slice bound: the result lies in 0..len; a non-negative bound is capped at len; a negative one counts from the end and stops at 0 |
| `PyList.At` | blogproject/blog/views.py:128 | Python s[i] succeeds iff -len <= i < len, giving s[i] or s[len+i]; otherwise IndexError |
| `PyList.SliceOfSpan` | blogproject/blog/views.py:124 | A slice of 1..n is the run clip(i)+1..clip(j) |
| `PyList.EndsOfSpan` | blogproject/blog/views.py:144 | On a non-empty run, index 0 gives its smallest and index -1 its largest element |
| `NavBar.Bar` | blogproject/blog/views.py:94-108 | The strip is page-1 link if first, ellipsis if left_has_more, left, p, right, ellipsis if right_has_more, page-n link if last: it draws p and every page of both windows, has an ellipsis exactly when a has-more flag is set, opens with page 1 when first and closes with page n when last |
| `NavBar.LeftPartShape` | blogproject/blog/views.py:142-150 | The strip up to the current page starts at page 1, ends at page p, and is chained |
| `NavBar.RightPartShape` | blogproject/blog/views.py:126-134 | The strip after the current page is empty exactly on page n, and otherwise runs chained from page p+1 to page n |
| `NavBar.BarCompressed` | blogproject/blog/views.py:94-108 | The drawn strip starts at page 1, ends at page n, shows p, puts consecutive pages next to each other, and marks with one ellipsis each gap of at least one hidden page |

## Left out

- Django's class-based view machinery (`get_context_data`, `super()` dispatch) and the `ArchivesView`, `CategoryView`, `TagView` querysets. They are framework plumbing and ORM filtering.
- Django's `Paginator` and `Page` objects. The page count `n`, the page number and `is_paginated` are inputs; how Django computes them is library code that is not part of this model. The page range is modelled as the list `1..n` that Django provides.
- The text of the index template is not part of this model. `NavBar.Bar` rebuilds its drawing order from the comments at `blogproject/blog/views.py:94-108`, and `NavBar.BarCompressed` holds for that rebuilt order.
- `search`: a database `icontains` query plus template rendering.
- `PostDetailView`: Markdown and table-of-contents rendering and the view counter are a foreign library plus database writes.
- `Post.save` and `increase_views` in `models.py`: excerpt generation through the `markdown` library, and database writes.
- Model field declarations, template tags (ORM aggregates), the URL table, admin registration, the comment form and the deployment script. They are declarations or I/O, with no logic of their own.
