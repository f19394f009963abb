/** Worked examples of the filter and the sort on concrete users. */
module Scenarios {
  import opened Text
  import opened Users
  import opened ListStore
  import opened View

  /** With a "Leanne Graham" of "Romaguera-Crona" and a "Zed Smith" of
      "Acme", sorting by name puts Leanne first and sorting by company
      puts Zed first. */
  lemma SortScenario(leanne: User, zed: User, byName: seq<User>, byCompany: seq<User>)
    requires leanne.name == "Leanne Graham" && leanne.company.name == "Romaguera-Crona"
    requires zed.name == "Zed Smith" && zed.company.name == "Acme"
    requires multiset(byName) == multiset([leanne, zed]) && SortedBy(ByName, byName)
    requires multiset(byCompany) == multiset([leanne, zed]) && SortedBy(ByCompany, byCompany)
    ensures byName == [leanne, zed]
    ensures byCompany == [zed, leanne]
  {
    assert Comparator(ByName, leanne, zed) < 0;
    TwoSorted(ByName, leanne, zed, byName);
    assert Comparator(ByCompany, zed, leanne) < 0;
    assert multiset([leanne, zed]) == multiset([zed, leanne]);
    TwoSorted(ByCompany, zed, leanne, byCompany);
  }

  /** A query with an 'x' is not found in a text without one. */
  lemma MissesQueryWithX(s: string, query: string)
    requires 'x' in query && 'x' !in s && 'X' !in s
    ensures !Includes(Lower(s), Lower(query))
  {
    var k :| 0 <= k < |query| && query[k] == 'x';
    assert Lower(query)[k] == 'x';
    LowerKeepsLetterOut(s, 'x');
    IncludesOnlyItsCharacters(Lower(s), Lower(query), 'x');
  }

  /** Neither of Leanne's names contains an x, in either case. */
  lemma NoLetterX(s: string)
    requires s == "Leanne Graham" || s == "Romaguera-Crona"
    ensures 'x' !in s && 'X' !in s
  {
  }

  /** The query "nonexistent" occurs in neither the name nor the company
      name of "Leanne Graham" of "Romaguera-Crona", so nothing is left to
      show and the page shows the notice. */
  lemma NoMatchScenario(leanne: User, query: string)
    requires leanne.name == "Leanne Graham" && leanne.company.name == "Romaguera-Crona"
    requires query == "nonexistent"
    ensures Filter([leanne], query) == []
    ensures Render(Filter([leanne], query)) == NoUsersFound
  {
    assert 'x' in query by {
      assert query[4] == 'x';
    }
    NoLetterX(leanne.name);
    MissesQueryWithX(leanne.name, query);
    NoLetterX(leanne.company.name);
    MissesQueryWithX(leanne.company.name, query);
    assert !Matches(leanne, query);
  }
}
