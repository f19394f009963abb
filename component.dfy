/** The user-list component: the reducer's state and the form's draft, the
    handlers that change them, and the page they render. */
module Component {
  import opened Users
  import opened ListStore
  import opened DraftEditor
  import opened View

  class UserList {
    /** The store kept by the reducer hook. */
    var state: State
    /** The new-user draft kept by the state hook. */
    var newUser: Draft

    /** The component as first rendered with the fetched users. */
    constructor (initialUsers: seq<User>)
      ensures state == InitialState(initialUsers)
      ensures state.users == initialUsers && state.searchQuery == "" && state.sortType == ByName
      ensures forall s :: DraftField(newUser, s) == ""
    {
      state := InitialState(initialUsers);
      newUser := EmptyDraft;
      new;
      forall s ensures DraftField(newUser, s) == "" {
        EmptyDraftIsEmpty(s);
      }
    }

    /** `dispatch`: the reducer's next state replaces the state. */
    method Dispatch(action: Action)
      modifies this
      ensures state == Reduce(old(state), action)
      ensures newUser == old(newUser)
    {
      state := Reduce(state, action);
    }

    /** `handleInputChange`: the field the input's name routes to takes the
        value; every other draft field and the store are unchanged. */
    method HandleInputChange(name: string, value: string)
      modifies this
      ensures newUser == InputChange(old(newUser), name, value)
      ensures forall s :: DraftField(newUser, s) == if SlotOf(name) == Some(s) then value else DraftField(old(newUser), s)
      ensures state == old(state)
    {
      newUser := InputChange(newUser, name, value);
    }

    /** `handleAddUser`: the draft, with id one more than the number of users,
        is added as the last user; the draft is then reset to all-empty. */
    method HandleAddUser()
      modifies this
      ensures state == Reduce(old(state), SubmitAction(old(state), old(newUser)))
      ensures |state.users| == |old(state.users)| + 1
      ensures state.users[..|old(state.users)|] == old(state.users)
      ensures state.users[|old(state.users)|].id == |old(state.users)| + 1
      ensures forall s :: UserField(state.users[|old(state.users)|], s) == DraftField(old(newUser), s)
      ensures state.searchQuery == old(state.searchQuery) && state.sortType == old(state.sortType)
      ensures forall s :: DraftField(newUser, s) == ""
      ensures IdsSequential(old(state.users)) ==> IdsSequential(state.users)
    {
      var action := SubmitAction(state, newUser);
      Dispatch(action);
      newUser := EmptyDraft;
      forall s ensures DraftField(newUser, s) == "" {
        EmptyDraftIsEmpty(s);
      }
    }

    /** The list area of the page: the "No users found..." notice exactly
        when no user matches the query, otherwise the cards of the matching
        users in ascending order of the sort key. */
    method Render() returns (page: Page)
      ensures page == NoUsersFound <==> forall u :: u in state.users ==> !Matches(u, state.searchQuery)
      ensures page.Cards? ==> SortedBy(state.sortType, page.users)
      ensures page.Cards? ==> multiset(page.users) == multiset(Filter(state.users, state.searchQuery))
    {
      var view := SortedUsers(state);
      NoticeIffNoMatch(state.users, state.searchQuery, view);
      page := View.Render(view);
    }
  }
}
