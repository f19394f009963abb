/** The derived view: the users that match the search query, sorted by the
    chosen key, and the page that shows them or the empty-result notice. */
module View {
  import opened Text
  import opened Users
  import opened ListStore

  /** A user matches when its name or its company's name contains the query,
      all three lower-cased. */
  predicate Matches(u: User, query: string)
  {
    Includes(Lower(u.name), Lower(query)) || Includes(Lower(u.company.name), Lower(query))
  }

  /** `users.filter(...)`: the matching users, in their original order. */
  function Filter(users: seq<User>, query: string): (r: seq<User>)
    ensures |r| <= |users|
  {
    if users == [] then []
    else (if Matches(users[0], query) then [users[0]] else []) + Filter(users[1..], query)
  }

  /** xs is obtained from ys by deleting entries (order kept). */
  ghost predicate IsSubsequence(xs: seq<User>, ys: seq<User>)
    decreases |ys|
  {
    if xs == [] then true
    else if ys == [] then false
    else if xs[0] == ys[0] then IsSubsequence(xs[1..], ys[1..])
    else IsSubsequence(xs, ys[1..])
  }

  /** The filtered list is a subsequence of the users. */
  lemma {:induction false} FilterIsSubsequence(users: seq<User>, query: string)
    ensures IsSubsequence(Filter(users, query), users)
    decreases |users|
  {
    if users != [] {
      var rest := Filter(users[1..], query);
      FilterIsSubsequence(users[1..], query);
      if Matches(users[0], query) {
        assert Filter(users, query) == [users[0]] + rest;
        assert ([users[0]] + rest)[1..] == rest;
      } else {
        assert Filter(users, query) == rest;
        SkipKeepsSubsequence(rest, users);
      }
    }
  }

  /** Dropping the head of ys keeps xs a subsequence of ys when it was one
      of the tail. */
  lemma {:induction false} SkipKeepsSubsequence(xs: seq<User>, ys: seq<User>)
    requires ys != [] && IsSubsequence(xs, ys[1..])
    ensures IsSubsequence(xs, ys)
    decreases |ys|, 1
  {
    if xs != [] && xs[0] == ys[0] {
      SubsequenceOfTail(xs, ys[1..]);
    }
  }

  /** A subsequence's tail is a subsequence too. */
  lemma {:induction false} SubsequenceOfTail(xs: seq<User>, ys: seq<User>)
    requires xs != [] && IsSubsequence(xs, ys)
    ensures IsSubsequence(xs[1..], ys)
    decreases |ys| + 1, 0
  {
    if xs[0] == ys[0] {
      SkipKeepsSubsequence(xs[1..], ys);
    } else {
      SubsequenceOfTail(xs, ys[1..]);
      SkipKeepsSubsequence(xs[1..], ys);
    }
  }

  /** A user is in the filtered list exactly when it is one of the users and
      matches the query. */
  lemma {:induction false} FilterMembership(users: seq<User>, query: string, u: User)
    ensures u in Filter(users, query) <==> u in users && Matches(u, query)
    decreases |users|
  {
    if users != [] {
      FilterMembership(users[1..], query, u);
      assert users == [users[0]] + users[1..];
    }
  }

  /** Each matching user appears as often as in the users, and no other. */
  lemma {:induction false} FilterMultiplicity(users: seq<User>, query: string, u: User)
    ensures multiset(Filter(users, query))[u] == if Matches(u, query) then multiset(users)[u] else 0
    decreases |users|
  {
    if users != [] {
      FilterMultiplicity(users[1..], query, u);
      assert users == [users[0]] + users[1..];
      assert multiset(users) == multiset{users[0]} + multiset(users[1..]);
      var head := if Matches(users[0], query) then [users[0]] else [];
      assert multiset(Filter(users, query)) == multiset(head) + multiset(Filter(users[1..], query));
    }
  }

  /** The empty query keeps every user. */
  lemma {:induction false} FilterEmptyQuery(users: seq<User>)
    ensures Filter(users, "") == users
    decreases |users|
  {
    if users != [] {
      IncludesEmpty(Lower(users[0].name));
      FilterEmptyQuery(users[1..]);
    }
  }

  /** The filtered list is empty exactly when no user matches. */
  lemma FilterEmptyIff(users: seq<User>, query: string)
    ensures Filter(users, query) == [] <==> forall u :: u in users ==> !Matches(u, query)
  {
    if Filter(users, query) != [] {
      FilterMembership(users, query, Filter(users, query)[0]);
    }
    forall u | u in users && Matches(u, query) ensures u in Filter(users, query) {
      FilterMembership(users, query, u);
    }
  }

  /** The field the current sort type orders by. */
  function SortKey(t: SortType, u: User): string
  {
    match t
    case ByName => u.name
    case ByCompany => u.company.name
  }

  /** The comparator handed to `sort`: localeCompare of the sort keys. */
  function Comparator(t: SortType, a: User, b: User): (r: int)
    ensures r == 0 <==> SortKey(t, a) == SortKey(t, b)
    ensures r == -Compare(SortKey(t, b), SortKey(t, a))
  {
    CompareZeroIff(SortKey(t, a), SortKey(t, b));
    CompareAntisymmetric(SortKey(t, a), SortKey(t, b));
    Compare(SortKey(t, a), SortKey(t, b))
  }

  /** s is in ascending order of the sort key. */
  ghost predicate SortedBy(t: SortType, s: seq<User>)
  {
    SortedUpTo(t, s, |s|)
  }

  /** Exchanges two entries of the array. */
  method Swap(a: array<User>, i: int, j: int)
    requires 0 <= i < a.Length && 0 <= j < a.Length
    modifies a
    ensures a[..] == old(a[..])[i := old(a[j])][j := old(a[i])]
    ensures multiset(a[..]) == multiset(old(a[..]))
  {
    a[i], a[j] := a[j], a[i];
  }

  /** `Array.prototype.sort` with the comparator: an insertion sort that
      rearranges the array into ascending key order. */
  method SortInPlace(a: array<User>, t: SortType)
    modifies a
    ensures SortedBy(t, a[..])
    ensures multiset(a[..]) == multiset(old(a[..]))
  {
    var i := 0;
    while i < a.Length
      invariant 0 <= i <= a.Length
      invariant SortedUpTo(t, a[..], i)
      invariant multiset(a[..]) == multiset(old(a[..]))
    {
      Insert(a, i, t);
      i := i + 1;
    }
  }

  /** The first n entries of s are in ascending key order. */
  ghost predicate SortedUpTo(t: SortType, s: seq<User>, n: int)
    requires n <= |s|
  {
    forall p, q :: 0 <= p < q < n ==> Comparator(t, s[p], s[q]) <= 0
  }

  /** While the entry at j moves left through s[..i+1]: the other entries of
      s[..i+1] are in order, and the moving entry is no larger than any entry
      to its right. */
  ghost predicate InsertInvariant(t: SortType, s: seq<User>, i: int, j: int)
  {
    && 0 <= j <= i < |s|
    && (forall p, q :: 0 <= p < q <= i && p != j && q != j ==> Comparator(t, s[p], s[q]) <= 0)
    && (forall q :: j < q <= i ==> Comparator(t, s[j], s[q]) <= 0)
  }

  /** Moving the entry one place left keeps the invariant when its left
      neighbour is larger. */
  lemma InsertStep(t: SortType, s: seq<User>, i: int, j: int)
    requires InsertInvariant(t, s, i, j) && 0 < j
    requires Comparator(t, s[j - 1], s[j]) > 0
    ensures InsertInvariant(t, s[j - 1 := s[j]][j := s[j - 1]], i, j - 1)
  {
  }

  /** The entry stops when its left neighbour is no larger (or it is first);
      then s[..i+1] is in order. */
  lemma InsertDone(t: SortType, s: seq<User>, i: int, j: int)
    requires InsertInvariant(t, s, i, j)
    requires j == 0 || Comparator(t, s[j - 1], s[j]) <= 0
    ensures SortedUpTo(t, s, i + 1)
  {
    forall p | 0 <= p < j ensures Comparator(t, s[p], s[j]) <= 0 {
      if p < j - 1 {
        CompareTransitive(SortKey(t, s[p]), SortKey(t, s[j - 1]), SortKey(t, s[j]));
      }
    }
  }

  /** One step of the insertion sort: a[i] is moved left past every larger
      entry of the sorted a[..i], so that a[..i+1] is sorted and holds the
      same entries as before; the entries after i are not touched. */
  method Insert(a: array<User>, i: int, t: SortType)
    requires 0 <= i < a.Length
    requires SortedUpTo(t, a[..], i)
    modifies a
    ensures SortedUpTo(t, a[..], i + 1)
    ensures multiset(a[..]) == multiset(old(a[..]))
    ensures multiset(a[..i + 1]) == multiset(old(a[..i + 1]))
    ensures a[i + 1..] == old(a[i + 1..])
  {
    var j := i;
    while 0 < j && Comparator(t, a[j - 1], a[j]) > 0
      invariant InsertInvariant(t, a[..], i, j)
      invariant multiset(a[..]) == multiset(old(a[..]))
      invariant a[i + 1..] == old(a[i + 1..])
    {
      InsertStep(t, a[..], i, j);
      SwapKeepsSuffix(a[..], j, i + 1);
      Swap(a, j - 1, j);
      j := j - 1;
    }
    InsertDone(t, a[..], i, j);
    SameSuffixSamePrefix(a[..], old(a[..]), i + 1);
  }

  /** Exchanging two neighbours before n leaves the entries from n on alone. */
  lemma SwapKeepsSuffix(s: seq<User>, j: int, n: int)
    requires 0 < j < n <= |s|
    ensures s[j - 1 := s[j]][j := s[j - 1]][n..] == s[n..]
  {
  }

  /** Two rearrangements of each other that agree after n entries hold the
      same entries before n. */
  lemma SameSuffixSamePrefix(s: seq<User>, o: seq<User>, n: nat)
    requires n <= |s| == |o|
    requires multiset(s) == multiset(o) && s[n..] == o[n..]
    ensures multiset(s[..n]) == multiset(o[..n])
  {
    assert s == s[..n] + s[n..];
    assert o == o[..n] + o[n..];
    assert multiset(s) == multiset(s[..n]) + multiset(s[n..]);
    assert multiset(o) == multiset(o[..n]) + multiset(o[n..]);
    forall x ensures multiset(s[..n])[x] == multiset(o[..n])[x] {
      assert multiset(s)[x] == multiset(s[..n])[x] + multiset(s[n..])[x];
      assert multiset(o)[x] == multiset(o[..n])[x] + multiset(o[n..])[x];
    }
  }

  /** The sorted view of state: the users that match the query, ascending by
      the sort key, each as often as among the users. */
  method SortedUsers(s: State) returns (view: seq<User>)
    ensures multiset(view) == multiset(Filter(s.users, s.searchQuery))
    ensures SortedBy(s.sortType, view)
  {
    var filtered := Filter(s.users, s.searchQuery);
    var a := new User[|filtered|](i requires 0 <= i < |filtered| => filtered[i]);
    assert a[..] == filtered;
    SortInPlace(a, s.sortType);
    view := a[..];
  }

  /** What the list area of the page shows. */
  datatype Page = NoUsersFound | Cards(users: seq<User>)

  /** The empty-result branch: the notice when nothing is left to show,
      the cards otherwise. */
  function Render(view: seq<User>): (p: Page)
    ensures p == NoUsersFound <==> view == []
    ensures p.Cards? ==> p.users == view
  {
    if |view| == 0 then NoUsersFound else Cards(view)
  }

  /** A view that is a rearrangement of the filtered users shows the
      notice exactly when no user matches the query. */
  lemma NoticeIffNoMatch(users: seq<User>, query: string, view: seq<User>)
    requires multiset(view) == multiset(Filter(users, query))
    ensures Render(view) == NoUsersFound <==> forall u :: u in users ==> !Matches(u, query)
  {
    FilterEmptyIff(users, query);
    assert |view| == |multiset(view)| == |Filter(users, query)|;
  }

  /** A view of the users that is a rearrangement of the filtered
      users contains exactly the matching users. */
  lemma ViewMembership(users: seq<User>, query: string, view: seq<User>, u: User)
    requires multiset(view) == multiset(Filter(users, query))
    ensures u in view <==> u in users && Matches(u, query)
  {
    assert u in view <==> u in multiset(view);
    assert u in Filter(users, query) <==> u in multiset(Filter(users, query));
    FilterMembership(users, query, u);
  }

  /** With two users of different keys, the sorted arrangement is unique:
      the smaller key comes first. */
  lemma TwoSorted(t: SortType, a: User, b: User, view: seq<User>)
    requires Comparator(t, a, b) < 0
    requires multiset(view) == multiset([a, b])
    requires SortedBy(t, view)
    ensures view == [a, b]
  {
    assert |view| == 2 by {
      assert |multiset(view)| == 2;
    }
    assert view == [view[0], view[1]];
    assert multiset{view[0], view[1]} == multiset{a, b};
    var x, y := view[0], view[1];
    assert x in multiset{a, b} && y in multiset{a, b};
    assert (x == a && y == b) || (x == b && y == a);
  }
}
