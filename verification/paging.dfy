/** Page arithmetic: the page-size setting, the number of pages, and the
    slice of the (filtered) list that one page shows. */
module Paging {
  import opened Optional
  import opened Text

  /** `state.pageSize`: the sentinel 'all', or a number. */
  datatype PageSize = All | Size(k: int)

  /** `Number(state.pageSize) || 100`: zero falls back to 100. */
  function EffectiveSize(k: int): (size: int)
    ensures size != 0
    ensures k != 0 ==> size == k
    ensures k == 0 ==> size == 100
  {
    if k == 0 then 100 else k
  }

  /** The page size a form value selects (onPageSizeChange): "all" is the
      sentinel; any other value is `Number(value) || 100`, so NaN and zero
      become 100. A stored numeric size is never zero. */
  function PageSizeFromValue(value: string): (ps: PageSize)
    ensures ps.All? <==> value == "all"
    ensures ps.Size? ==> ps.k != 0
    ensures ps.Size? && NumberValue(value) == None ==> ps.k == 100
    ensures value != "all" && NumberValue(value).Some? ==> ps == Size(EffectiveSize(NumberValue(value).value))
  {
    if value == "all" then All
    else
      match NumberValue(value)
      case Some(v) => Size(EffectiveSize(v))
      case None => Size(100)
  }

  /** "0" and blank text both select the default size of 100, as NaN
      does. */
  lemma PageSizeZeroIsDefault(value: string)
    requires value == Decimal(0) || forall i :: 0 <= i < |value| ==> IsSpace(value[i])
    ensures PageSizeFromValue(value) == Size(100)
  {
    NumberValueOfDecimal(0);
    assert value != "all" by {
      assert "all"[0] == 'a' && !IsSpace('a');
    }
  }

  /** The option values a page-size menu offers, the numerals of positive
      sizes, select exactly that size. */
  lemma PageSizeFromNumeral(k: nat)
    requires k > 0
    ensures PageSizeFromValue(Decimal(k)) == Size(k)
  {
    NumberValueOfDecimal(k);
    assert Decimal(k) != "all" by {
      assert IsDigit(Decimal(k)[0]);
    }
  }

  /** Math.ceil(n / s), counted out by repeated subtraction of the divisor
      (CeilDivIsCeiling shows it is the ceiling): zero for no entries,
      never negative for a positive divisor, at least one for a positive
      divisor and some entries, and never positive for a negative
      divisor. */
  function CeilDiv(n: nat, s: int): (c: int)
    requires s != 0
    ensures n == 0 ==> c == 0
    ensures s > 0 ==> c >= 0 && (n > 0 ==> c >= 1)
    ensures s < 0 ==> c <= 0
    decreases n
  {
    if s > 0 then
      if n == 0 then 0 else if n <= s then 1 else CeilDiv(n - s, s) + 1
    else
      if n < -s then 0 else CeilDiv(n + s, s) - 1
  }

  /** CeilDiv is the ceiling of n / s: the least integer c with n / s <= c.
      For a positive s that is the least number of s-sized groups holding n
      things. */
  lemma {:induction false} CeilDivIsCeiling(n: nat, s: int)
    requires s != 0
    ensures var c := CeilDiv(n, s);
      (s > 0 ==> (c - 1) * s < n <= c * s) && (s < 0 ==> c * s <= n < (c - 1) * s)
    decreases n
  {
    if s > 0 && n > s {
      CeilDivIsCeiling(n - s, s);
      MulSuccessor(CeilDiv(n - s, s), s);
    } else if s < 0 && n >= -s {
      CeilDivIsCeiling(n + s, s);
      MulSuccessor(CeilDiv(n + s, s) - 1, s);
    }
  }

  lemma MulSuccessor(c: int, s: int)
    ensures (c + 1) * s == c * s + s
  {
  }

  /** `Math.max(1, Math.ceil(n / size))`, with one page for 'all'. There is
      always at least one page, and exactly one for 'all', for an empty
      list and for a negative size. */
  function TotalPages(n: nat, ps: PageSize): (t: int)
    ensures t >= 1
    ensures ps.All? ==> t == 1
    ensures ps.Size? && (EffectiveSize(ps.k) < 0 || n == 0) ==> t == 1
  {
    match ps
    case All => 1
    case Size(k) =>
      var c := CeilDiv(n, EffectiveSize(k));
      if c > 1 then c else 1
  }

  /** For a positive size and a non-empty list, the page count is the
      fewest pages of that size that hold every entry. */
  lemma TotalPagesFewestHolding(n: nat, k: int)
    requires EffectiveSize(k) > 0 && n > 0
    ensures var t, size := TotalPages(n, Size(k)), EffectiveSize(k);
      (t - 1) * size < n <= t * size
  {
    CeilDivIsCeiling(n, EffectiveSize(k));
  }

  /** A relative index of Array.prototype.slice resolved against a length:
      a negative index counts from the end, and the result is clipped to
      [0, len]. */
  function ClampIndex(i: int, len: nat): (c: nat)
    ensures c <= len
    ensures 0 <= i ==> c == if i < len then i else len
  {
    if i < 0 then (if len + i < 0 then 0 else len + i)
    else if i < len then i
    else len
  }

  /** Array.prototype.slice(start, end). With non-negative bounds it is the
      run from `start` up to `end`, both clipped to the length of `s`. */
  function Slice<T>(s: seq<T>, start: int, end: int): (r: seq<T>)
    ensures |r| <= |s|
    ensures 0 <= start <= end ==>
      var from := if start < |s| then start else |s|;
      var to := if end < |s| then end else |s|;
      r == s[from..to]
  {
    var from := ClampIndex(start, |s|);
    var to := ClampIndex(end, |s|);
    if from < to then s[from..to] else []
  }

  /** getPageItems: the entries page `page` shows. With 'all' or a size that
      is not positive it is the whole list; with a positive size it is the
      slice from (page - 1) * size of length size. */
  function PageItems<T>(dataset: seq<T>, ps: PageSize, page: int): (r: seq<T>)
    ensures ps.All? || EffectiveSize(ps.k) < 0 ==> r == dataset
  {
    match ps
    case All => dataset
    case Size(k) =>
      var size := EffectiveSize(k);
      if size <= 0 then dataset
      else
        var start := (page - 1) * size;
        Slice(dataset, start, start + size)
  }

  /** With a positive size and page >= 1 the page is the run `size` entries
      long starting at (page - 1) * size, both ends clipped at the end of
      the list. */
  lemma PageItemsSlice<T>(dataset: seq<T>, k: int, page: int)
    requires EffectiveSize(k) > 0 && page >= 1
    ensures var size, n := EffectiveSize(k), |dataset|;
      var start := (page - 1) * size;
      PageItems(dataset, Size(k), page)
        == dataset[(if start < n then start else n)..(if start + size < n then start + size else n)]
  {
    MulNonNegative(page - 1, EffectiveSize(k));
  }

  lemma MulNonNegative(a: int, b: int)
    requires a >= 0 && b >= 0
    ensures a * b >= 0
  {
  }

  lemma MulMonotone(a: int, b: int, s: int)
    requires a <= b && s > 0
    ensures a * s <= b * s
  {
    assert b * s - a * s == (b - a) * s;
    MulNonNegative(b - a, s);
  }

  /** A page never holds more than the page size, and position j of page
      `page` is entry (page - 1) * size + j of the list. */
  lemma PageItemsAt<T>(dataset: seq<T>, k: int, page: int)
    requires EffectiveSize(k) > 0 && page >= 1
    ensures var r, start := PageItems(dataset, Size(k), page), (page - 1) * EffectiveSize(k);
      |r| <= EffectiveSize(k) && 0 <= start
      && forall j :: 0 <= j < |r| ==> start + j < |dataset| && r[j] == dataset[start + j]
  {
    var size, n := EffectiveSize(k), |dataset|;
    var start := (page - 1) * size;
    PageItemsSlice(dataset, k, page);
    MulNonNegative(page - 1, size);
    var r := PageItems(dataset, Size(k), page);
    if start < n {
      assert r == dataset[start..(if start + size < n then start + size else n)];
    } else {
      assert r == [];
    }
  }

  /** Every entry appears on page i / size + 1, at position i % size: the
      pages together cover the list. */
  lemma EntryOnItsPage<T>(dataset: seq<T>, k: int, i: nat)
    requires EffectiveSize(k) > 0 && i < |dataset|
    ensures var size := EffectiveSize(k);
      var r := PageItems(dataset, Size(k), i / size + 1);
      i % size < |r| && r[i % size] == dataset[i]
  {
    var size, n := EffectiveSize(k), |dataset|;
    var page, j := i / size + 1, i % size;
    var start := (page - 1) * size;
    assert 0 <= start && start + j == i && j < size by {
      assert i == (i / size) * size + i % size;
      MulNonNegative(i / size, size);
    }
    PageItemsSlice(dataset, k, page);
    assert PageItems(dataset, Size(k), page) == dataset[start..(if start + size < n then start + size else n)];
  }

  /** A page is empty exactly when it starts at or past the end of the
      list. */
  lemma PageEmptyIffStartPastEnd<T>(dataset: seq<T>, k: int, page: int)
    requires EffectiveSize(k) > 0 && page >= 1
    ensures PageItems(dataset, Size(k), page) == [] <==> (page - 1) * EffectiveSize(k) >= |dataset|
  {
    var size, n := EffectiveSize(k), |dataset|;
    var start := (page - 1) * size;
    PageItemsSlice(dataset, k, page);
    MulNonNegative(page - 1, size);
    var from, to := (if start < n then start else n), (if start + size < n then start + size else n);
    assert |PageItems(dataset, Size(k), page)| == |dataset[from..to]| == to - from;
  }

  /** For a non-empty list and a positive size, a page shows something
      exactly when its number is at most the page count; a page past the
      last one is empty. */
  lemma PageEmptyIffPastLast<T>(dataset: seq<T>, k: int, page: int)
    requires EffectiveSize(k) > 0 && page >= 1 && |dataset| > 0
    ensures PageItems(dataset, Size(k), page) == [] <==> page > TotalPages(|dataset|, Size(k))
  {
    var size, n, t := EffectiveSize(k), |dataset|, TotalPages(|dataset|, Size(k));
    var start := (page - 1) * size;
    PageEmptyIffStartPastEnd(dataset, k, page);
    if page <= t {
      assert start < n by {
        TotalPagesFewestHolding(n, k);
        MulMonotone(page - 1, t - 1, size);
      }
    } else {
      assert start >= n by {
        TotalPagesFewestHolding(n, k);
        MulMonotone(t, page - 1, size);
      }
    }
  }

  /** Every page before the last one is full. */
  lemma PagesBeforeLastAreFull<T>(dataset: seq<T>, k: int, page: int)
    requires EffectiveSize(k) > 0 && 1 <= page < TotalPages(|dataset|, Size(k))
    ensures |PageItems(dataset, Size(k), page)| == EffectiveSize(k)
  {
    var size, n, t := EffectiveSize(k), |dataset|, TotalPages(|dataset|, Size(k));
    var start := (page - 1) * size;
    assert n > 0;
    TotalPagesFewestHolding(n, k);
    PageItemsSlice(dataset, k, page);
    MulNonNegative(page - 1, size);
    MulMonotone(page, t - 1, size);
    assert start + size == page * size;
    assert PageItems(dataset, Size(k), page) == dataset[start..start + size];
  }
}
