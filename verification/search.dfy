/** The search box over the wishlist: which entries a query keeps, in which
    order, and the count label shown above the table. */
module Search {
  import opened Optional
  import opened Text

  /** One wishlist entry as the JSON resource describes it; every text field
      may be missing. */
  datatype Item = Item(author: Option<string>, title: Option<string>, location: Option<string>, priority: bool)

  /** `field || ''`: a missing field reads as the empty string. */
  function FieldText(field: Option<string>): (s: string)
    ensures field.Some? ==> s == field.value
    ensures field.None? ==> s == []
  {
    match field
    case Some(s) => s
    case None => ""
  }

  /** The query as it is matched: trimmed, then lower-cased. It is empty
      exactly when the typed text is all white space, and otherwise it
      neither starts nor ends with white space. It holds no upper-case
      ASCII letter. */
  function Normalize(query: string): (q: string)
    ensures q == [] <==> forall i :: 0 <= i < |query| ==> IsSpace(query[i])
    ensures q != [] ==> !IsSpace(q[0]) && !IsSpace(q[|q| - 1])
    ensures forall i :: 0 <= i < |q| ==> !('A' <= q[i] <= 'Z')
  {
    Lower(Trim(query))
  }

  /** The normalized query is the lower-cased form of the run of the typed
      text between its leading and trailing white space. */
  lemma NormalizeLowersTrimmedRun(query: string)
    ensures var q := Normalize(query);
      exists k :: Flanked(query, k, |q|) && forall i :: 0 <= i < |q| ==> q[i] == LowerChar(query[k + i])
  {
    var t := Trim(query);
    TrimStrips(query);
    var k :| OccursAt(query, t, k) && Flanked(query, k, |t|);
    var q := Lower(t);
    assert q == Normalize(query) && Flanked(query, k, |q|);
    forall i | 0 <= i < |q| ensures q[i] == LowerChar(query[k + i]) {
      assert t[i] == query[k..k + |t|][i];
    }
  }

  /** Text that neither starts nor ends with white space and holds no
      upper-case ASCII letter is already a normalized query. */
  lemma NormalizeFixes(q: string)
    requires q == [] || (!IsSpace(q[0]) && !IsSpace(q[|q| - 1]))
    requires forall i :: 0 <= i < |q| ==> !('A' <= q[i] <= 'Z')
    ensures Normalize(q) == q
  {
    assert TrimStart(q) == q;
    assert TrimEnd(q) == q;
    assert Lower(q) == q;
  }

  /** Normalizing a normalized query changes nothing. */
  lemma NormalizeIdempotent(query: string)
    ensures Normalize(Normalize(query)) == Normalize(query)
  {
    NormalizeFixes(Normalize(query));
  }

  /** The lower-cased text of a field, a missing field counting as empty,
      contains `q` at some position. */
  ghost predicate FieldContains(field: Option<string>, q: string) {
    exists i :: OccursAt(Lower(FieldText(field)), q, i)
  }

  /** An entry matches a (normalized) query when its lower-cased author,
      title or location contains the query. The empty query matches every
      entry. */
  function Matches(item: Item, q: string): (m: bool)
    ensures m <==> FieldContains(item.author, q) || FieldContains(item.title, q) || FieldContains(item.location, q)
    ensures q == [] ==> m
  {
    assert q == [] ==> OccursAt(Lower(FieldText(item.author)), q, 0);
    Includes(Lower(FieldText(item.author)), q)
    || Includes(Lower(FieldText(item.title)), q)
    || Includes(Lower(FieldText(item.location)), q)
  }

  /** `base.filter(matches)`: the matching entries, first to last. */
  function Filter(base: seq<Item>, q: string): (r: seq<Item>)
    ensures |r| <= |base|
    ensures forall i :: 0 <= i < |r| ==> r[i] in base && Matches(r[i], q)
  {
    if base == [] then []
    else if Matches(base[0], q) then [base[0]] + Filter(base[1..], q)
    else Filter(base[1..], q)
  }

  /** `xs` can be obtained from `ys` by deleting elements, keeping the
      order of the rest. */
  predicate IsSubsequence<T(==)>(xs: seq<T>, ys: seq<T>)
    decreases |ys|
  {
    xs == []
    || (ys != []
        && ((xs[0] == ys[0] && IsSubsequence(xs[1..], ys[1..])) || IsSubsequence(xs, ys[1..])))
  }

  /** Filtering keeps the relative order of the entries it keeps. */
  lemma {:induction false} FilterIsSubsequence(base: seq<Item>, q: string)
    ensures IsSubsequence(Filter(base, q), base)
  {
    if base != [] {
      FilterIsSubsequence(base[1..], q);
      if Matches(base[0], q) {
        assert Filter(base, q)[1..] == Filter(base[1..], q);
      }
    }
  }

  /** Filtering keeps every occurrence of a matching entry and no occurrence
      of any other entry. */
  lemma {:induction false} FilterCounts(base: seq<Item>, q: string)
    ensures forall x :: multiset(Filter(base, q))[x] == if Matches(x, q) then multiset(base)[x] else 0
  {
    if base != [] {
      FilterCounts(base[1..], q);
      assert base == [base[0]] + base[1..];
      assert multiset(base) == multiset([base[0]]) + multiset(base[1..]);
    }
  }

  /** An entry is in the filtered list exactly when it is in the list and
      matches. */
  lemma FilterMembership(base: seq<Item>, q: string)
    ensures forall x :: x in Filter(base, q) <==> x in base && Matches(x, q)
  {
    FilterCounts(base, q);
  }

  /** The empty query is contained in every text, so filtering by it keeps
      the whole list: the shortcut for an empty query agrees with the
      filter. */
  lemma {:induction false} FilterByEmptyQuery(base: seq<Item>)
    ensures Filter(base, "") == base
  {
    if base != [] {
      assert OccursAt(Lower(FieldText(base[0].author)), "", 0);
      FilterByEmptyQuery(base[1..]);
    }
  }

  /** Filtering twice by the same query is filtering once. */
  lemma {:induction false} FilterIdempotent(base: seq<Item>, q: string)
    ensures Filter(Filter(base, q), q) == Filter(base, q)
  {
    if base != [] {
      FilterIdempotent(base[1..], q);
    }
  }

  /** The list getCurrentDataset returns for the stored items and the raw
      search text: the whole list for a blank query, and otherwise the
      filter by the normalized query, which keeps, in their order and with
      every repetition, exactly the matching entries. */
  function CurrentDataset(items: seq<Item>, query: string): (r: seq<Item>)
    ensures Normalize(query) == [] ==> r == items
    ensures Normalize(query) != [] ==> r == Filter(items, Normalize(query))
  {
    var q := Normalize(query);
    if q == [] then items else Filter(items, q)
  }

  /** The list getCurrentDataset returns keeps the stored order, and a
      blank query gives what filtering by the empty query would. */
  lemma CurrentDatasetKeepsOrder(items: seq<Item>, query: string)
    ensures IsSubsequence(CurrentDataset(items, query), items)
    ensures CurrentDataset(items, query) == Filter(items, Normalize(query))
  {
    var q := Normalize(query);
    if q == [] {
      FilterByEmptyQuery(items);
    }
    FilterIsSubsequence(items, q);
  }

  /** The count label: the number, then "livre" for exactly one entry and
      "livres" otherwise, then " found" when a query is active. */
  function CountLabel(n: nat, found: bool): string {
    var word, suffix := (if n == 1 then "livre" else "livres"), (if found then " found" else "");
    Decimal(n) + " " + word + suffix
  }

  /** The label starts with the count's numeral and a space; the rest is
      "livre" for a count of one and "livres" otherwise, either followed by
      " found" or not. */
  lemma CountLabelShape(n: nat, found: bool)
    ensures var s, d := CountLabel(n, found), Decimal(n);
      |s| > |d| && s[..|d|] == d && s[|d|] == ' '
      && (s[|d| + 1..] in {"livre", "livre found"} <==> n == 1)
      && (n != 1 ==> s[|d| + 1..] in {"livres", "livres found"})
  {
    var d, word, suffix := Decimal(n), (if n == 1 then "livre" else "livres"), (if found then " found" else "");
    var s := d + " " + word + suffix;
    assert s == CountLabel(n, found);
    assert s == (d + " ") + (word + suffix);
    assert s[|d| + 1..] == word + suffix;
    assert n != 1 ==> word + suffix != "livre" && word + suffix != "livre found" by {
      if n != 1 {
        assert (word + suffix)[5] == 's';
      }
    }
    assert n == 1 ==> word + suffix in {"livre", "livre found"} by {
      assert "livre" + " found" == "livre found";
      assert "livre" + "" == "livre";
    }
    assert n != 1 ==> word + suffix in {"livres", "livres found"} by {
      assert "livres" + " found" == "livres found";
      assert "livres" + "" == "livres";
    }
  }

  /** The label ends in " found" exactly when a query is active. */
  lemma CountLabelFound(n: nat, found: bool)
    ensures var s := CountLabel(n, found);
      |s| >= 6 && (s[|s| - 6..] == " found" <==> found)
  {
    var s := CountLabel(n, found);
    if !found {
      assert s[|s| - 5..] == "livre" || s[|s| - 6..] == "livres";
      assert s[|s| - 1] != 'd';
    }
  }

  /** Two labels are equal only for equal counts and equal filtering: the
      label tells the reader both. */
  lemma CountLabelInjective(m: nat, f: bool, n: nat, g: bool)
    requires CountLabel(m, f) == CountLabel(n, g)
    ensures m == n && f == g
  {
    var s := CountLabel(m, f);
    var dm, dn := Decimal(m), Decimal(n);
    CountLabelShape(m, f);
    CountLabelShape(n, g);
    assert s[..|dm|] == dm && s[|dm|] == ' ';
    assert s[..|dn|] == dn && s[|dn|] == ' ';
    if |dm| != |dn| {
      assert false;
    }
    DecimalInjective(m, n);
    CountLabelFound(m, f);
    CountLabelFound(n, g);
  }
}
