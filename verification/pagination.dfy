/** The length-aware pagination the history endpoints apply to a query
    (Laravel's `paginate($perPage, ['*'], 'page', $page)`): a page of at most
    `per_page` items and the metadata total, per_page, current_page and
    last_page. */
module Pagination {

  /** The controllers' defaults when `page` / `per_page` are absent. */
  const DefaultPage: int := 1
  const DefaultPerPage: nat := 20

  /** The Eloquent model's page size, used when `per_page` is 0. */
  const ModelPerPage: nat := 15

  datatype Page<T> = Page(items: seq<T>, total: nat, perPage: nat, currentPage: nat, lastPage: nat)

  function EffectivePerPage(perPage: nat): (r: nat)
    ensures r >= 1
    ensures perPage >= 1 ==> r == perPage
  {
    if perPage == 0 then ModelPerPage else perPage
  }

  /** A page number below 1 is served as page 1. */
  function EffectivePage(page: int): (r: nat)
    ensures r >= 1
    ensures page >= 1 ==> r == page
  {
    if page >= 1 then page else 1
  }

  /** The number of rows before page `page`. */
  function Offset(page: nat, perPage: nat): nat
    requires page >= 1
  {
    MulMonotone(0, page - 1, perPage);
    (page - 1) * perPage
  }

  function Min(a: int, b: int): int {
    if a <= b then a else b
  }

  /** `ceil(total / perPage)`, but never below 1. */
  function LastPage(total: nat, perPage: nat): (r: nat)
    requires perPage >= 1
    ensures r >= 1
    ensures r * perPage >= total
    ensures r == 1 || (r - 1) * perPage < total
  {
    var c := (total + perPage - 1) / perPage;
    assert c * perPage <= total + perPage - 1 < (c + 1) * perPage;
    if c >= 1 then c else 1
  }

  function Paginate<T>(all: seq<T>, page: int, perPage: nat): (p: Page<T>)
    ensures p.total == |all|
    ensures p.perPage == EffectivePerPage(perPage) && p.currentPage == EffectivePage(page)
    ensures p.lastPage == LastPage(|all|, p.perPage)
    ensures |p.items| <= p.perPage
    ensures forall i | 0 <= i < |p.items| ::
              Offset(p.currentPage, p.perPage) + i < |all| && p.items[i] == all[Offset(p.currentPage, p.perPage) + i]
    ensures |p.items| > 0 ==> Offset(p.currentPage, p.perPage) + |p.items| <= |all|
    ensures p.currentPage > p.lastPage ==> p.items == []
    ensures p.currentPage < p.lastPage ==> |p.items| == p.perPage
    ensures 0 < |all| && p.currentPage == p.lastPage ==> |p.items| > 0
  {
    var pp := EffectivePerPage(perPage);
    var cp := EffectivePage(page);
    var start := Offset(cp, pp);
    var items := if start >= |all| then [] else all[start..Min(start + pp, |all|)];
    var last := LastPage(|all|, pp);
    PageBounds(|all|, pp, cp, last);
    Page(items, |all|, pp, cp, last)
  }

  /** Every row of a page is a row of the list. */
  lemma PageItemsIn<T>(all: seq<T>, page: int, perPage: nat)
    ensures forall x | x in Paginate(all, page, perPage).items :: x in all
  {
    var p := Paginate(all, page, perPage);
    forall x | x in p.items ensures x in all {
      var i :| 0 <= i < |p.items| && p.items[i] == x;
      assert all[Offset(p.currentPage, p.perPage) + i] == x;
    }
  }

  lemma MulMonotone(a: int, b: int, c: nat)
    requires a <= b
    ensures a * c <= b * c
  {
  }

  /** Where page `cp` starts relative to the list's end. */
  lemma PageBounds(total: nat, pp: nat, cp: nat, last: nat)
    requires pp >= 1 && cp >= 1 && last == LastPage(total, pp)
    ensures cp > last ==> Offset(cp, pp) >= total
    ensures cp < last ==> Offset(cp, pp) + pp <= total
    ensures 0 < total && cp == last ==> Offset(cp, pp) < total
  {
    if cp > last {
      MulMonotone(last, cp - 1, pp);
    }
    if cp < last {
      MulMonotone(cp, last - 1, pp);
      assert (cp - 1) * pp + pp == cp * pp;
    }
  }

  /** The items of pages 1 to k, in order. */
  function PagesUpTo<T>(all: seq<T>, perPage: nat, k: nat): seq<T>
    requires perPage >= 1
    decreases k
  {
    if k == 0 then [] else PagesUpTo(all, perPage, k - 1) + Paginate(all, k, perPage).items
  }

  /** Pages 1 to `k` of a paged endpoint, joined in page order; `pageAt(i)`
      is the endpoint's answer for page `i`. */
  function JoinPages<T>(pageAt: nat -> seq<T>, k: nat): seq<T>
    decreases k
  {
    if k == 0 then [] else JoinPages(pageAt, k - 1) + pageAt(k)
  }

  /** An endpoint whose every page is the matching window of one list joins
      to the same rows as the windows themselves. */
  lemma {:induction false} JoinPagesOfWindows<T>(pageAt: nat -> seq<T>, all: seq<T>, perPage: nat, k: nat)
    requires perPage >= 1
    requires forall i: nat | 1 <= i <= k :: pageAt(i) == Paginate(all, i, perPage).items
    ensures JoinPages(pageAt, k) == PagesUpTo(all, perPage, k)
    decreases k
  {
    if k > 0 {
      JoinPagesOfWindows(pageAt, all, perPage, k - 1);
    }
  }

  /** Page k + 1 starts exactly where page k's window ends. */
  lemma OffsetStep(k: nat, perPage: nat)
    requires k >= 1
    ensures Offset(k + 1, perPage) == Offset(k, perPage) + perPage
  {
    assert (k + 1 - 1) * perPage == (k - 1) * perPage + perPage;
  }

  /** Walking the pages in order yields a prefix of the list, without gaps or
      repeats: pages 1 to k hold the rows before page k + 1. */
  lemma {:induction false} PagesUpToIsPrefix<T>(all: seq<T>, perPage: nat, k: nat)
    requires perPage >= 1
    ensures PagesUpTo(all, perPage, k) == all[..Min(Offset(k + 1, perPage), |all|)]
    decreases k
  {
    if k > 0 {
      PagesUpToIsPrefix(all, perPage, k - 1);
      OffsetStep(k, perPage);
      var start := Offset(k, perPage);
      var p := Paginate(all, k, perPage);
      if start >= |all| {
        assert p.items == [];
      } else {
        assert p.items == all[start..Min(start + perPage, |all|)];
      }
    }
  }

  /** Pages 1 to last_page together are exactly the whole list: every row is
      on exactly one page and the metadata's last_page reaches it. */
  lemma PagesCoverAll<T>(all: seq<T>, page: int, perPage: nat)
    ensures var p := Paginate(all, page, perPage);
            PagesUpTo(all, p.perPage, p.lastPage) == all
  {
    var p := Paginate(all, page, perPage);
    LastPageCoversAll(all, p.perPage);
  }

  /** An endpoint whose every page is the matching window of one list
      returns, over pages 1 to last_page, the whole list. */
  lemma WindowPagesCoverAll<T>(pageAt: nat -> seq<T>, all: seq<T>, perPage: nat, last: nat)
    requires perPage >= 1 && last == LastPage(|all|, perPage)
    requires forall i: nat | 1 <= i :: pageAt(i) == Paginate(all, i, perPage).items
    ensures JoinPages(pageAt, last) == all
  {
    JoinPagesOfWindows(pageAt, all, perPage, last);
    LastPageCoversAll(all, perPage);
  }

  /** Pages 1 to last_page at one page size, joined, are the whole list. */
  lemma LastPageCoversAll<T>(all: seq<T>, perPage: nat)
    requires perPage >= 1
    ensures PagesUpTo(all, perPage, LastPage(|all|, perPage)) == all
  {
    var last := LastPage(|all|, perPage);
    PagesUpToIsPrefix(all, perPage, last);
    assert Offset(last + 1, perPage) == last * perPage;
  }
}
