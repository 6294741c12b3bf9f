/** Worked scenarios on a two-entry wishlist: paging one entry at a time,
    and searching for one author. */
module Scenarios {
  import opened Optional
  import opened Text
  import opened Search
  import opened Paging
  import opened Page

  function Camus(): Item {
    Item(Some("Camus"), Some("La Peste"), Some("Shelf A"), false)
  }

  function Orwell(): Item {
    Item(Some("Orwell"), Some("1984"), Some("Shelf B"), true)
  }

  /** With one entry per page there are two pages: page 1 shows Camus and
      is labelled "Page 1 of 2"; page 2 shows Orwell's row, with the
      priority mark, and is labelled "Page 2 of 2". */
  lemma OnePerPage()
    ensures var d := [Camus(), Orwell()];
      TotalPages(|d|, Size(1)) == 2
      && PageItems(d, Size(1), 1) == [Camus()]
      && PageItems(d, Size(1), 2) == [Orwell()]
      && Rows(PageItems(d, Size(1), 2)) == [Row(["Orwell", "1984", "Shelf B"], true)]
      && PageLabel(1, 2) == "Page 1 of 2" && PageLabel(2, 2) == "Page 2 of 2"
  {
    assert Decimal(1) == "1" && Decimal(2) == "2";
  }

  /** "orwell" is already trimmed and lower-case. */
  lemma NormalizeOrwell()
    ensures Normalize("orwell") == "orwell"
  {
    var s := "orwell";
    assert !IsSpace(s[0]) && !IsSpace(s[5]);
    assert forall i :: 0 <= i < |s| ==> 'a' <= s[i] <= 'z';
    NormalizeFixes(s);
  }

  /** Orwell's author field contains "orwell" once lower-cased. */
  lemma OrwellMatches()
    ensures Matches(Orwell(), "orwell")
  {
    assert Lower("Orwell") == "orwell";
    assert OccursAt("orwell", "orwell", 0);
  }

  /** A needle does not occur in a text lacking its first character. */
  lemma AbsentFirstChar(hay: string, needle: string)
    requires needle != []
    requires forall i :: 0 <= i < |hay| ==> hay[i] != needle[0]
    ensures forall k :: !OccursAt(hay, needle, k)
  {
    forall k ensures !OccursAt(hay, needle, k) {
      if 0 <= k && k + |needle| <= |hay| {
        assert hay[k..k + |needle|][0] == hay[k];
      }
    }
  }

  /** A field with no letter o, in either case, does not contain "orwell"
      once lower-cased. */
  lemma LacksOrwell(s: string)
    requires 'o' !in s && 'O' !in s
    ensures !FieldContains(Some(s), "orwell")
  {
    assert Lower(FieldText(Some(s))) == Lower(s);
    forall i | 0 <= i < |s| ensures Lower(s)[i] != 'o' {
      assert s[i] in s;
    }
    AbsentFirstChar(Lower(s), "orwell");
  }

  /** None of Camus's fields contains "orwell". */
  lemma CamusDoesNotMatch()
    ensures !Matches(Camus(), "orwell")
  {
    LacksOrwell("Camus");
    LacksOrwell("La Peste");
    LacksOrwell("Shelf A");
  }

  /** Of two entries where only the second matches, the filter keeps the
      second. */
  lemma FilterKeepsSecond(a: Item, b: Item, q: string)
    requires !Matches(a, q) && Matches(b, q)
    ensures Filter([a, b], q) == [b]
  {
    assert [a, b][1..] == [b];
    assert [b][1..] == [];
  }

  /** Searching for "orwell" keeps only the Orwell entry. */
  lemma SearchForOrwell()
    ensures CurrentDataset([Camus(), Orwell()], "orwell") == [Orwell()]
  {
    NormalizeOrwell();
    OrwellMatches();
    CamusDoesNotMatch();
    FilterKeepsSecond(Camus(), Orwell(), "orwell");
  }

  /** The label for one entry under an active query. */
  lemma OneFoundLabel()
    ensures CountLabel(1, true) == "1 livre found"
  {
    assert Decimal(1) == "1";
  }
}
