/** The list store: the reducer state machine over (users, searchQuery,
    sortType) and the three actions it accepts. */
module ListStore {
  import opened Users

  /** The two sort keys the selector offers. */
  datatype SortType = ByName | ByCompany

  datatype State = State(users: seq<User>, searchQuery: string, sortType: SortType)

  datatype Action =
    | AddUsers(user: User)
    | SetSearchQuery(query: string)
    | SetSortType(sortType: SortType)

  /** The store as the page creates it: the fetched users, an empty query
      and sorting by name. */
  function InitialState(initialUsers: seq<User>): State
  {
    State(initialUsers, "", ByName)
  }

  /** The reducer: every action succeeds and produces the next state. */
  function Reduce(s: State, a: Action): State
  {
    match a
    case SetSearchQuery(q) => s.(searchQuery := q)
    case SetSortType(k) => s.(sortType := k)
    case AddUsers(u) => s.(users := s.users + [u])
  }

  /** Each action changes exactly the field it names and keeps the other two. */
  lemma ReduceFrame(s: State, a: Action)
    ensures Reduce(s, a).users == if a.AddUsers? then s.users + [a.user] else s.users
    ensures Reduce(s, a).searchQuery == if a.SetSearchQuery? then a.query else s.searchQuery
    ensures Reduce(s, a).sortType == if a.SetSortType? then a.sortType else s.sortType
  {
  }

  /** Adding a user appends it: one more entry, the new one last, every
      earlier entry where it was. */
  lemma AddUsersAppends(s: State, u: User)
    ensures |Reduce(s, AddUsers(u)).users| == |s.users| + 1
    ensures Reduce(s, AddUsers(u)).users[|s.users|] == u
    ensures forall i :: 0 <= i < |s.users| ==> Reduce(s, AddUsers(u)).users[i] == s.users[i]
  {
  }

  /** Dispatching an action twice equals dispatching it once exactly when it
      is not an addition. */
  lemma ReduceIdempotentIff(s: State, a: Action)
    ensures Reduce(Reduce(s, a), a) == Reduce(s, a) <==> !a.AddUsers?
  {
    if a.AddUsers? {
      assert |Reduce(Reduce(s, a), a).users| == |s.users| + 2;
    }
  }

  /** The state after dispatching the actions in order, one at a time. */
  function ApplyAll(s: State, actions: seq<Action>): State
    decreases |actions|
  {
    if actions == [] then s else ApplyAll(Reduce(s, actions[0]), actions[1..])
  }

  /** How many of the actions are additions. */
  function CountAdds(actions: seq<Action>): nat
  {
    if actions == [] then 0 else (if actions[0].AddUsers? then 1 else 0) + CountAdds(actions[1..])
  }

  /** Users only ever grow: the old list is a prefix of the new one, which
      is longer by the number of additions. */
  lemma {:induction false} ApplyAllGrowsUsers(s: State, actions: seq<Action>)
    ensures |ApplyAll(s, actions).users| == |s.users| + CountAdds(actions)
    ensures ApplyAll(s, actions).users[..|s.users|] == s.users
    decreases |actions|
  {
    if actions != [] {
      var s' := Reduce(s, actions[0]);
      ApplyAllGrowsUsers(s', actions[1..]);
      assert s'.users[..|s.users|] == s.users;
    }
  }

  /** A run of additions only appends exactly the added users, in order,
      and leaves the query and the sort key alone. */
  lemma {:induction false} ApplyAllAdds(s: State, us: seq<User>)
    ensures ApplyAll(s, seq(|us|, i requires 0 <= i < |us| => AddUsers(us[i])))
         == s.(users := s.users + us)
    decreases |us|
  {
    var actions := seq(|us|, i requires 0 <= i < |us| => AddUsers(us[i]));
    if us == [] {
      assert s.users + us == s.users;
    } else {
      var s' := Reduce(s, actions[0]);
      ApplyAllAdds(s', us[1..]);
      assert actions[1..] == seq(|us[1..]|, i requires 0 <= i < |us[1..]| => AddUsers(us[1..][i]));
      assert s'.users + us[1..] == s.users + us;
    }
  }

  /** The ids are 1, 2, ..., |users| in order. */
  ghost predicate IdsSequential(users: seq<User>)
  {
    forall i :: 0 <= i < |users| ==> users[i].id == i + 1
  }

  /** The action the form dispatches on submit: the draft with the next id. */
  function SubmitAction(s: State, d: Draft): (a: Action)
    ensures a.AddUsers? && a.user.id == |s.users| + 1
    ensures forall f :: UserField(a.user, f) == DraftField(d, f)
  {
    AddUsers(FromDraft(d, |s.users| + 1))
  }

  /** Submitting keeps the ids sequential. */
  lemma SubmitKeepsIdsSequential(s: State, d: Draft)
    requires IdsSequential(s.users)
    ensures IdsSequential(Reduce(s, SubmitAction(s, d)).users)
  {
  }

  /** Sequential ids are pairwise distinct. */
  lemma SequentialIdsDistinct(users: seq<User>)
    requires IdsSequential(users)
    ensures forall i, j :: 0 <= i < j < |users| ==> users[i].id != users[j].id
  {
  }

  /** Without sequential seed ids the submitted id can collide: one seeded
      user with id 2, then a submit, gives two users with id 2. */
  lemma SubmitCanDuplicateId(d: Draft, seed: User)
    requires seed.id == 2
    ensures var s := InitialState([seed]);
            var users := Reduce(s, SubmitAction(s, d)).users;
            |users| == 2 && users[0].id == users[1].id
  {
  }
}
