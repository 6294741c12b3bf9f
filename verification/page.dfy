/** The wishlist page: the shared `state` record, the page elements the
    handlers write, and the handlers themselves (render, pagination
    controls, previous/next, search input, page-size change, data load). */
module Page {
  import opened Optional
  import opened Text
  import opened Search
  import opened Paging

  /** One table row: the author, title and location cells, and whether the
      row carries the priority class. */
  datatype Row = Row(cells: seq<string>, priority: bool)

  /** What the table container holds: the "No matching items." placeholder,
      or a table with one row per entry of the page. */
  datatype TableView = Placeholder | Table(rows: seq<Row>)

  /** The row built for one entry: the author, title and location cells in
      that order, a missing field giving an empty cell, and the priority
      mark exactly for a priority entry. */
  function RowOf(item: Item): (r: Row)
    ensures |r.cells| == 3
    ensures r.cells[0] == FieldText(item.author) && r.cells[1] == FieldText(item.title)
      && r.cells[2] == FieldText(item.location)
    ensures r.priority == item.priority
  {
    Row([FieldText(item.author), FieldText(item.title), FieldText(item.location)], item.priority)
  }

  /** One row per entry of the page, in the page's order. */
  function Rows(page: seq<Item>): (rows: seq<Row>)
    ensures |rows| == |page|
    ensures forall i :: 0 <= i < |page| ==> rows[i] == RowOf(page[i])
  {
    seq(|page|, i requires 0 <= i < |page| => RowOf(page[i]))
  }

  /** The page indicator text: "Page ", the current page, " of ", the
      page count. */
  function PageLabel(current: int, total: int): (s: string)
    ensures |s| == 9 + |IntText(current)| + |IntText(total)|
  {
    "Page " + IntText(current) + " of " + IntText(total)
  }

  /** The page indicator names its page and page count unambiguously:
      equal labels come only from equal pages and equal counts. */
  lemma PageLabelInjective(p: int, t: int, p': int, t': int)
    requires PageLabel(p, t) == PageLabel(p', t')
    ensures p == p' && t == t'
  {
    var s := PageLabel(p, t);
    var a, b, a', b' := IntText(p), IntText(t), IntText(p'), IntText(t');
    assert s == "Page " + a + " of " + b;
    assert s == "Page " + a' + " of " + b';
    assert s[5 + |a|] == ' ' && s[5 + |a'|] == ' ';
    if |a| != |a'| {
      assert false;
    }
    assert a == s[5..5 + |a|] == a';
    assert |b| == |b'|;
    assert b == s[|s| - |b|..] == b';
    IntTextReadsBack(p);
    IntTextReadsBack(p');
    IntTextReadsBack(t);
    IntTextReadsBack(t');
  }

  /** What a settled load hands over: the parsed body was an array of
      entries, or some other JSON value. */
  datatype Json = JsonArray(entries: seq<Item>) | JsonOther

  /** How the fetch of the wishlist resource ends: the request fails, the
      response status is not a success, the body is not valid JSON, or it
      parses to a value. */
  datatype FetchOutcome = NetworkError | BadStatus | MalformedBody | Parsed(body: Json)

  const LoadingText := "Loading data…"
  const NoDataText := "No data yet. Make sure wantlist.json exists."
  const LoadErrorText := "Error loading data. Please try again later."

  class WishlistPage {
    // The `state` record.
    var items: seq<Item>
    var pageSize: PageSize
    var currentPage: int
    var searchQuery: string

    // The page elements the handlers write.
    var countText: string
    var pageInfo: string
    var prevDisabled: bool
    var nextDisabled: bool
    var table: TableView
    var syncShown: bool
    var status: string
    var statusIsError: bool

    /** Page numbers are 1-based. */
    predicate Valid()
      reads this`currentPage
    {
      currentPage >= 1
    }

    /** The filtered list for the current items and search text. */
    function Dataset(): seq<Item>
      reads this`items, this`searchQuery
    {
      CurrentDataset(items, searchQuery)
    }

    /** The number of pages of the filtered list. */
    function Pages(): int
      reads this`items, this`searchQuery, this`pageSize
    {
      TotalPages(|Dataset()|, pageSize)
    }

    /** The current page lies within the pages of the filtered list. */
    predicate Settled()
      reads this`items, this`searchQuery, this`pageSize, this`currentPage
    {
      1 <= currentPage <= Pages()
    }

    /** The pagination controls as updatePaginationControls leaves them for
        `n` entries when the current page was `before`: with 'all' or no
        entries, "Page 1 of 1" and both buttons disabled, the page kept;
        otherwise the page lowered to the page count if it was past it, the
        label naming page and count, previous disabled on the first page
        and next disabled on the last. */
    predicate ControlsFor(n: nat, before: int)
      reads this`pageSize, this`currentPage, this`pageInfo, this`prevDisabled, this`nextDisabled
    {
      if pageSize.All? || n == 0 then
        currentPage == before && pageInfo == "Page 1 of 1" && prevDisabled && nextDisabled
      else
        var t := TotalPages(n, pageSize);
        currentPage == (if before > t then t else before)
        && pageInfo == PageLabel(currentPage, t)
        && prevDisabled == (currentPage <= 1)
        && nextDisabled == (currentPage >= t)
    }

    /** The page elements as renderTables leaves them when it starts from
        page `before`: the count label, the pagination controls for the
        filtered list, and either the placeholder without the
        synchronisation time or the table of page `before` with it. */
    predicate RenderedFrom(before: int)
      reads this`items, this`searchQuery, this`countText, this`pageSize, this`currentPage, this`pageInfo, this`prevDisabled, this`nextDisabled, this`table, this`syncShown
    {
      var d := Dataset();
      countText == CountLabel(|d|, Normalize(searchQuery) != [])
      && ControlsFor(|d|, before)
      && (d == [] ==> table == Placeholder && !syncShown)
      && (d != [] ==> table == Table(Rows(PageItems(d, pageSize, before))) && syncShown)
    }

    /** The page elements show the current state. */
    predicate Shows()
      reads this`items, this`searchQuery, this`countText, this`pageSize, this`currentPage, this`pageInfo, this`prevDisabled, this`nextDisabled, this`table, this`syncShown
    {
      RenderedFrom(currentPage)
    }

    /** The state record as the page starts: no entries, 100 per page, page
        1, no query. */
    constructor ()
      ensures Valid() && Settled()
      ensures items == [] && pageSize == Size(100) && currentPage == 1 && searchQuery == ""
    {
      items, pageSize, currentPage, searchQuery := [], Size(100), 1, "";
      countText, pageInfo, prevDisabled, nextDisabled := "", "", false, false;
      table, syncShown, status, statusIsError := Placeholder, false, "", false;
    }

    /** getCurrentDataset: returns the filtered list and writes the count
        label, whose number is the length of the returned list. */
    method GetCurrentDataset() returns (dataset: seq<Item>)
      modifies this`countText
      ensures dataset == Dataset()
      ensures countText == CountLabel(|dataset|, Normalize(searchQuery) != [])
    {
      var q := Normalize(searchQuery);
      if q == [] {
        countText := CountLabel(|items|, false);
        return items;
      }
      var filtered := Filter(items, q);
      countText := CountLabel(|filtered|, true);
      dataset := filtered;
    }

    /** updatePaginationControls(totalItems). It never lowers the page
        below 1. */
    method UpdatePaginationControls(totalItems: nat)
      modifies this`currentPage, this`pageInfo, this`prevDisabled, this`nextDisabled
      ensures ControlsFor(totalItems, old(currentPage))
      ensures old(Valid()) ==> Valid()
    {
      if pageSize.All? || totalItems == 0 {
        pageInfo := "Page 1 of 1";
        prevDisabled := true;
        nextDisabled := true;
        return;
      }
      var totalPages := TotalPages(totalItems, pageSize);
      if currentPage > totalPages {
        currentPage := totalPages;
      }
      pageInfo := PageLabel(currentPage, totalPages);
      prevDisabled := currentPage <= 1;
      nextDisabled := currentPage >= totalPages;
    }

    /** renderTables. The page's entries are taken with the current page as
        it was on entry, before the controls lower it; so a page past the
        last would render empty. From a settled state no lowering happens
        and a non-empty list always shows a non-empty page. */
    method RenderTables()
      modifies this`countText, this`table, this`syncShown
      modifies this`currentPage, this`pageInfo, this`prevDisabled, this`nextDisabled
      ensures RenderedFrom(old(currentPage))
      ensures old(Valid()) ==> Valid()
      ensures old(Valid()) && pageSize.Size? && Dataset() != [] ==> Settled()
      ensures old(Settled()) ==> currentPage == old(currentPage) && Settled() && Shows()
      ensures old(Settled()) && Dataset() != [] ==> table.Table? && table.rows != []
    {
      var dataset := GetCurrentDataset();
      if |dataset| == 0 {
        ShowPlaceholder();
      } else {
        ShowPage(dataset);
      }
    }

    /** The branch of renderTables for an empty list: the placeholder, no
        synchronisation time, "Page 1 of 1" and both buttons disabled; the
        page is kept. */
    method ShowPlaceholder()
      requires Dataset() == [] && countText == CountLabel(0, Normalize(searchQuery) != [])
      modifies this`table, this`syncShown, this`pageInfo, this`prevDisabled, this`nextDisabled
      ensures RenderedFrom(currentPage)
    {
      table := Placeholder;
      pageInfo := "Page 1 of 1";
      prevDisabled := true;
      nextDisabled := true;
      syncShown := false;
    }

    /** The branch of renderTables for a non-empty list: the table of the
        entries of the current page, then the pagination controls, then the
        synchronisation time. */
    method ShowPage(dataset: seq<Item>)
      requires dataset == Dataset() && dataset != []
      requires countText == CountLabel(|dataset|, Normalize(searchQuery) != [])
      modifies this`table, this`syncShown
      modifies this`currentPage, this`pageInfo, this`prevDisabled, this`nextDisabled
      ensures RenderedFrom(old(currentPage))
      ensures old(Valid()) ==> Valid()
      ensures old(Valid()) && pageSize.Size? ==> Settled()
      ensures old(Settled()) ==> currentPage == old(currentPage) && Settled()
      ensures old(Settled()) ==> table.Table? && table.rows != []
    {
      var pageItems := PageItems(dataset, pageSize, currentPage);
      table := Table(Rows(pageItems));
      ghost var before := currentPage;
      UpdatePaginationControls(|dataset|);
      syncShown := true;
      if 1 <= before <= TotalPages(|dataset|, pageSize) && pageSize.Size? && EffectiveSize(pageSize.k) > 0 {
        PageEmptyIffPastLast(dataset, pageSize.k, before);
      }
    }

    /** onPrevPage: back one page and render, unless on the first page,
        where nothing happens. From a settled state the page stays
        settled. */
    method OnPrevPage()
      modifies this
      ensures unchanged(this`items, this`pageSize, this`searchQuery, this`status, this`statusIsError)
      ensures old(currentPage) > 1 ==> RenderedFrom(old(currentPage) - 1)
      ensures old(currentPage) <= 1 ==> unchanged(this)
      ensures old(Valid()) ==> Valid()
      ensures old(Settled()) ==> Settled()
      ensures old(Settled()) && old(currentPage) > 1 ==> currentPage == old(currentPage) - 1 && Shows()
    {
      if currentPage > 1 {
        currentPage := currentPage - 1;
        RenderTables();
      }
    }

    /** onNextPage: forward one page and render unless already on the last
        page, the page count being computed afresh from the filtered list
        (one page for 'all'). Computing the list rewrites the count label
        either way. From a settled state the page stays settled. */
    method OnNextPage()
      modifies this
      ensures unchanged(this`items, this`pageSize, this`searchQuery, this`status, this`statusIsError)
      ensures countText == CountLabel(|Dataset()|, Normalize(searchQuery) != [])
      ensures old(currentPage) < old(Pages()) ==> RenderedFrom(old(currentPage) + 1)
      ensures old(currentPage) >= old(Pages()) ==>
        unchanged(this`currentPage, this`table, this`pageInfo, this`prevDisabled, this`nextDisabled, this`syncShown)
      ensures old(Valid()) ==> Valid()
      ensures old(Settled()) ==> Settled()
      ensures old(Settled()) && old(currentPage) < old(Pages()) ==> currentPage == old(currentPage) + 1 && Shows()
    {
      var dataset := GetCurrentDataset();
      var totalPages := TotalPages(|dataset|, pageSize);
      if currentPage < totalPages {
        currentPage := currentPage + 1;
        RenderTables();
      }
    }

    /** The search input handler: store the text, go back to page 1 and
        render. */
    method OnSearchInput(value: string)
      modifies this
      ensures Valid() && Settled() && Shows()
      ensures searchQuery == value && currentPage == 1
      ensures unchanged(this`items, this`pageSize, this`status, this`statusIsError)
    {
      searchQuery := value;
      currentPage := 1;
      RenderTables();
    }

    /** onPageSizeChange: store the chosen size ('all', or the number with
        100 for zero or NaN), go back to page 1 and render. */
    method OnPageSizeChange(value: string)
      modifies this
      ensures Valid() && Settled() && Shows()
      ensures pageSize == PageSizeFromValue(value) && currentPage == 1
      ensures unchanged(this`items, this`searchQuery, this`status, this`statusIsError)
    {
      pageSize := PageSizeFromValue(value);
      currentPage := 1;
      RenderTables();
    }

    /** loadData, with the fetch and its parsing given as their outcome. A
        bad status or a failure leaves the state as it was and shows an
        error status; a parsed body replaces the entries (with none when it
        is not an array), goes back to page 1, renders and clears the
        status. */
    method LoadData(outcome: FetchOutcome)
      modifies this
      ensures unchanged(this`pageSize, this`searchQuery)
      ensures outcome.Parsed? ==>
        items == (if outcome.body.JsonArray? then outcome.body.entries else [])
        && currentPage == 1 && Settled() && Shows() && status == "" && !statusIsError
      ensures !outcome.Parsed? ==>
        unchanged(this`items, this`currentPage, this`countText, this`table, this`syncShown)
        && unchanged(this`pageInfo, this`prevDisabled, this`nextDisabled) && statusIsError
        && status == (if outcome.BadStatus? then NoDataText else LoadErrorText)
    {
      status, statusIsError := LoadingText, false;
      match outcome
      case BadStatus =>
        status, statusIsError := NoDataText, true;
      case NetworkError =>
        status, statusIsError := LoadErrorText, true;
      case MalformedBody =>
        status, statusIsError := LoadErrorText, true;
      case Parsed(body) =>
        items := if body.JsonArray? then body.entries else [];
        currentPage := 1;
        assert Settled();
        RenderTables();
        status, statusIsError := "", false;
    }
  }
}
