# User list store — a Dafny model

This project models the client-side list store of a small user directory page
(`nextjstask/src/components/UserList.tsx`). The page is seeded with a list of
users. It keeps that list with a search query and a sort key in a reducer,
lets the visitor fill in a new-user draft and add it, and shows the users
that match the query, sorted by name or by company name. When nothing
matches, it shows a "No users found..." notice instead.

The model has one module per part of that component:

- `Text`: lower-casing, `includes` and `localeCompare` as total functions on `string`, and `split(".")[1]` as a partial one, defined only when the string contains a dot (on a dot-free string the source's expression is `undefined`; the handler only applies it to names that start with `company.` or `address.`).
- `Users`: the user record with its address and company sub-records, and the draft (a user without `id`). Every text field is addressed by a typed `Slot`.
- `ListStore`: the state, the three actions, the reducer, runs of actions, the submit action and the id invariant.
- `DraftEditor`: how an input's `name` is routed (prefix `company.` / `address.` / top level) and the update of the draft's field.
- `View`: the filter, the comparator, an in-place insertion sort on an `array` standing for `Array.prototype.sort`, the sorted view, and the empty-result branch.
- `Component`: the component itself, as a class. Its fields `state` and `newUser` are what the reducer hook and the state hook hold. Its methods are the handlers, changing those fields in place.
- `Scenarios`: two worked examples on concrete users.

Hook updates are modelled as applied one at a time, in event order.

## Model

| member | source | states |
|---|---|---|
| `ListStore.InitialState` | nextjstask/src/components/UserList.tsx:38-41 | the store the reducer hook starts from: the seed users, an empty query and sorting by name; `Component.UserList.constructor` states it field by field |
| `ListStore.Reduce` | nextjstask/src/components/UserList.tsx:24-35 | the reducer, one case per action; specified by `ReduceFrame`, `AddUsersAppends` and `ReduceIdempotentIff` below |
| `ListStore.ReduceFrame` | nextjstask/src/components/UserList.tsx:24-31 | `SET_SEARCH_QUERY` replaces only the query, `SET_SORT_TYPE` only the sort key, `ADD_USERS` only the users (by appending); the other two fields are kept |
| `ListStore.AddUsersAppends` | nextjstask/src/components/UserList.tsx:30-31 | adding a user makes the list one longer, the user is last, and every earlier entry keeps its value and position |
| `ListStore.ReduceIdempotentIff` | nextjstask/src/components/UserList.tsx:26-31 | dispatching an action twice gives the same state as once exactly when it is not `ADD_USERS` (setting the query or sort key is idempotent, adding is not) |
| `ListStore.ApplyAllGrowsUsers` | nextjstask/src/components/UserList.tsx:24-35 | after any run of actions the old users are a prefix of the new ones and the length grew by exactly the number of additions |
| `ListStore.ApplyAllAdds` | nextjstask/src/components/UserList.tsx:30-31 | a run of n additions appends exactly those users in order and leaves query and sort key unchanged |
| `ListStore.SubmitAction` | nextjstask/src/components/UserList.tsx:72-76 | the submitted action is an addition whose user has id `users.length + 1` and every text field equal to the draft's |
| `ListStore.SubmitKeepsIdsSequential` | nextjstask/src/components/UserList.tsx:74-76 | if the ids are 1..n in order before a submit, they are 1..n+1 after it |
| `ListStore.SequentialIdsDistinct` | nextjstask/src/components/UserList.tsx:74 | sequential ids are pairwise distinct, so with no removal the assigned ids never collide |
| `ListStore.SubmitCanDuplicateId` | nextjstask/src/components/UserList.tsx:74 | without sequential seed ids a collision is possible: one seeded user with id 2, then a submit, gives two users with id 2 |
| `Users.FromDraft` | nextjstask/src/components/UserList.tsx:72-75 | the user built from the draft has the given id and every text field (sub-records included) equal to the draft's |
| `Users.EmptyDraftIsEmpty` | nextjstask/src/components/UserList.tsx:77-85 | every field of the reset draft, including the address and company fields, is the empty string |
| `DraftEditor.Route` | nextjstask/src/components/UserList.tsx:55-66 | the handler's three-way branch on the input's name (`company.` prefix, `address.` prefix, otherwise top level); specified by `RouteCompany`, `RouteAddress` and, for every name the form uses, `InputNameRoundTrip` |
| `DraftEditor.RouteCompany` | nextjstask/src/components/UserList.tsx:55-58 | a name `company.k` routes to the company sub-record with key `k` up to its next dot (all of `k` when it has none) |
| `DraftEditor.RouteAddress` | nextjstask/src/components/UserList.tsx:60-63 | a name `address.k` routes to the address sub-record with key `k` up to its next dot (all of `k` when it has none) |
| `DraftEditor.SetCompanyKey` | nextjstask/src/components/UserList.tsx:58 | the company field the key names takes the value; every other company field is unchanged |
| `DraftEditor.SetAddressKey` | nextjstask/src/components/UserList.tsx:63 | the address field the key names takes the value; every other address field is unchanged |
| `DraftEditor.SetTopKey` | nextjstask/src/components/UserList.tsx:66 | the top-level field the key names takes the value; the other top-level fields and both sub-records are unchanged |
| `DraftEditor.WritePath` | nextjstask/src/components/UserList.tsx:55-67 | each branch of the handler writes the value into the field its path names and into no other |
| `DraftEditor.InputChange` | nextjstask/src/components/UserList.tsx:53-68 | after a change event the field the input's name routes to holds the value and every other draft field is unchanged |
| `DraftEditor.InputChangeUnknownName` | nextjstask/src/components/UserList.tsx:53-68 | a name that routes to no field of the draft leaves the draft as it was |
| `DraftEditor.InputChangeOverwrites` | nextjstask/src/components/UserList.tsx:53-68 | two changes on the same input leave only the second value |
| `DraftEditor.InputName` | nextjstask/src/components/UserList.tsx:113-211 | the `name` attribute of the input that shows a draft field; specified by `InputNameRoundTrip` and `InputNameInjective` |
| `DraftEditor.InputNameRoundTrip` | nextjstask/src/components/UserList.tsx:111-216 | the name attribute of each of the form's twelve inputs routes back to exactly the field that input displays |
| `DraftEditor.InputNameInjective` | nextjstask/src/components/UserList.tsx:111-216 | distinct draft fields have distinct input names |
| `View.Matches` | nextjstask/src/components/UserList.tsx:89-93 | the filter's test: the lower-cased name or company name includes the lower-cased query; `FilterMembership` states that it decides which users are kept |
| `View.Filter` | nextjstask/src/components/UserList.tsx:88-94 | `users.filter(...)` with that test; specified by `FilterIsSubsequence`, `FilterMembership`, `FilterMultiplicity`, `FilterEmptyQuery` and `FilterEmptyIff` below |
| `View.FilterIsSubsequence` | nextjstask/src/components/UserList.tsx:88-94 | the filtered list is a subsequence of the users, in their original order |
| `View.FilterMembership` | nextjstask/src/components/UserList.tsx:88-94 | a user is in the filtered list exactly when it is one of the users and its lower-cased name or company name contains the lower-cased query |
| `View.FilterMultiplicity` | nextjstask/src/components/UserList.tsx:88-94 | each matching user occurs in the filtered list as often as in the users, and no non-matching user occurs at all |
| `View.FilterEmptyQuery` | nextjstask/src/components/UserList.tsx:88-94 | the empty query keeps every user |
| `View.FilterEmptyIff` | nextjstask/src/components/UserList.tsx:88-94 | the filtered list is empty exactly when no user matches the query |
| `View.SortKey` | nextjstask/src/components/UserList.tsx:97-102 | the field the sort compares: `name` when sorting by name, `company.name` when sorting by company; `Scenarios.SortScenario` shows both keys at work |
| `View.Comparator` | nextjstask/src/components/UserList.tsx:96-104 | the comparator is zero exactly for equal sort keys and swapping its arguments negates it |
| `View.SortInPlace` | nextjstask/src/components/UserList.tsx:96 | the array is rearranged in place into a permutation of its old contents that is non-decreasing by the comparator |
| `View.Insert` | nextjstask/src/components/UserList.tsx:96 | one insertion step sorts `a[..i+1]`, which holds the same entries as before, and leaves every entry after `i` untouched; the whole array stays a permutation |
| `View.SortedUsers` | nextjstask/src/components/UserList.tsx:88-104 | the view is a permutation of the filtered users (not of all users) and is non-decreasing by name or by company name as the sort key says |
| `View.Render` | nextjstask/src/components/UserList.tsx:257-261 | the notice is shown exactly when the view is empty; otherwise the cards show the view as it is |
| `View.NoticeIffNoMatch` | nextjstask/src/components/UserList.tsx:257-261 | for any rearrangement of the filtered users, the notice is shown exactly when no user matches the query |
| `View.ViewMembership` | nextjstask/src/components/UserList.tsx:88-104 | a user appears in such a view exactly when it is one of the users and matches the query |
| `View.TwoSorted` | nextjstask/src/components/UserList.tsx:96-104 | two users with different keys have only one sorted arrangement, the smaller key first |
| `Text.Lower` | nextjstask/src/components/UserList.tsx:89-92 | `toLowerCase`: the result has the input's length and each character is the case-folded character at the same position |
| `Text.Includes` | nextjstask/src/components/UserList.tsx:91-92 | `includes`; specified by `IncludesIff` below |
| `Text.Compare` | nextjstask/src/components/UserList.tsx:98-101 | `localeCompare`, fixed to code-point order; it returns -1, 0 or 1, and `CompareZeroIff`, `CompareAntisymmetric`, `CompareTransitive` and `CompareTotal` below state that it is a total preorder |
| `Text.IsPrefix` | nextjstask/src/components/UserList.tsx:55-60 | `startsWith`: p is the first `\|p\|` characters of s; `DraftEditor.RouteCompany` and `DraftEditor.RouteAddress` rest on it |
| `Text.IncludesIff` | nextjstask/src/components/UserList.tsx:91-92 | `includes` succeeds exactly when the query occurs at some offset of the text |
| `Text.CompareZeroIff` | nextjstask/src/components/UserList.tsx:98 | the string comparison reports equality exactly for equal strings (so it is reflexive) |
| `Text.CompareAntisymmetric` | nextjstask/src/components/UserList.tsx:98 | swapping the compared strings negates the result |
| `Text.CompareTransitive` | nextjstask/src/components/UserList.tsx:101 | "sorts no later than" is transitive |
| `Text.CompareTotal` | nextjstask/src/components/UserList.tsx:101 | any two strings are related one way or the other, so the order is a total preorder |
| `Text.SecondSegment` | nextjstask/src/components/UserList.tsx:58 | `split(".")[1]`, defined when the string has a dot: the result has no dot, starts right after the first dot and ends at the next dot or at the end |
| `Text.SecondSegmentOf` | nextjstask/src/components/UserList.tsx:58 | for a dot-free head, `(head + "." + rest).split(".")[1]` is `rest` up to its first dot, all of `rest` when it has none |
| `Component.UserList.constructor` | nextjstask/src/components/UserList.tsx:38-51 | the component starts with the seed users, an empty query, sorting by name and an all-empty draft |
| `Component.UserList.Dispatch` | nextjstask/src/components/UserList.tsx:38-41 | a dispatch replaces the state by the reducer's result and leaves the draft alone |
| `Component.UserList.HandleInputChange` | nextjstask/src/components/UserList.tsx:53-68 | the routed field of the draft takes the value, every other draft field is unchanged, and the store is unchanged |
| `Component.UserList.HandleAddUser` | nextjstask/src/components/UserList.tsx:70-86 | the draft with id `old length + 1` becomes the last user, earlier users, query and sort key are kept, the draft is reset to all-empty, and sequential ids stay sequential |
| `Component.UserList.Render` | nextjstask/src/components/UserList.tsx:257-261 | the notice is shown exactly when no user matches; otherwise the cards are a permutation of the filtered users sorted by the current key |
| `Scenarios.SortScenario` | nextjstask/src/components/UserList.tsx:96-104 | with "Leanne Graham" of "Romaguera-Crona" and "Zed Smith" of "Acme", sorting by name puts Leanne first and sorting by company puts Zed first |
| `Scenarios.NoMatchScenario` | nextjstask/src/components/UserList.tsx:88-94 | the query "nonexistent" matches neither of Leanne's names, so the filtered list is empty and the notice is shown |

## Left out

- Fetching the users (`nextjstask/src/app/page.tsx`) is network I/O; the constructor takes the seed users as an arbitrary sequence, and the fetch failure path is not modelled.
- `nextjstask/src/app/layout.tsx` and `nextjstask/src/components/UserCard.tsx` are markup and text concatenation for display; they are not part of this model.
- The JSX of `UserList.tsx` is not modelled, apart from the empty-result branch and the names of the form's inputs.
- React scheduling of `useReducer` and `useState` is not modelled. That includes the top-level branch of the change handler reading the `newUser` of the last render rather than the latest one. Updates are applied one at a time.
- The submit handler's `e.preventDefault()` (UserList.tsx:71) only stops the browser's own form submission; there is no page navigation in the model, so it is left out.
- The browser's `required` check on the form's inputs is not modelled; neither the handlers nor the reducer check for empty fields.
- Text.Lower: folds only `A`-`Z` to `a`-`z`; the platform's full Unicode `toLowerCase` is not modelled.
- Text.Compare: uses code-point lexicographic order; the platform's locale collation of `localeCompare` is not modelled. The properties the sort needs (a total preorder) are proved for this order.
- View.SortInPlace: `Array.prototype.sort` is stable (ECMAScript 2019 and later), so users with equal keys keep their filtered order. The model sorts by insertion and states only sortedness and permutation; it does not state the order of ties.
- DraftEditor.InputChange: in the source, a name whose key is not a schema field adds an extra property to the draft. The model has no such property: the draft's schema fields are unchanged. A top-level name `address` or `company` would replace a sub-record by a string, and `id` would be overwritten on submit; none of these is representable, and no input of the form uses such a name.
- The reducer's `default` branch and the comparator's final `return 0` cannot be reached with the typed actions and the two sort keys; the model's closed datatypes leave them out.
- The sub-record key is `name.split(".")[1]` (UserList.tsx:58 and :63), the text between the first and the second dot, so a name with a further dot writes only the key up to the second dot; `DraftEditor.RouteCompany` and `DraftEditor.RouteAddress` state this. The form has twelve inputs (UserList.tsx:111-216).
