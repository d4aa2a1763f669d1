# User management screen: state coordinator

A model of the user-management screen of a React Native app. The screen keeps
an ordered list of user records and a three-field form (name, email, password).
It also keeps an optional editing id that switches the form between create
mode and edit mode. Handlers change that state after a request to the remote
users API resolves:

- fetch the list,
- create a user,
- update a user,
- delete a user,
- select a record for editing,
- the submit button, which dispatches to create or update.

The list computations are pure functions in module `Users` (`users.dfy`):

- `MergeById` is the `users.map` that shallow-merges the form into the
  records with a given id.
- `RemoveById` is the `users.filter` that drops those records.

Lemmas cover order, idempotence, commutation of edit and delete, the no-op
cases, and the length change under unique ids.

The screen's state is the class `App.AppState` (`app.dfy`). Its fields are the
component's five state variables. It has one method per handler, and each
method's contract states the whole new state, including "nothing changes" when
the request fails. An HTTP request is not modelled. Instead the handler
receives its outcome:

- fetch and create take an `Outcome` that is either `Failure` or
  `Success(data)`;
- update and delete take `ok: bool`, because the code ignores their response
  bodies.

Ids are numbers or strings (`Users.Id`). Datatype equality is JavaScript's
`===` on those two kinds. `Users.Truthy` is JavaScript truthiness, which the
submit button tests.

The design describes the form as being in edit mode exactly when an editing id
is set. The code instead tests the id's truthiness (App.js:101-102). The model
follows the code, and the discrepancy is logged under "## Findings".

## Model

| member | source | states |
|---|---|---|
| `Users.MergeById` | App.js:44-49 | the result has the same length and order as the list; every record whose id equals the edited id takes the form's name, email and password; every record keeps its id and its other properties; records with other ids are unchanged |
| `Users.MergeByIdIdempotent` | App.js:44-49 | applying the same merge twice gives the same list as applying it once |
| `Users.MergeByIdAbsent` | App.js:44-49 | when no record carries the id (for example, it was deleted while it was loaded in the form), the list is unchanged |
| `Users.MergeByIdAppendSplit` | App.js:44-49 | the merge works record by record: merging a concatenation gives the concatenation of the merges |
| `Users.ResubmitUnchangedIsNoOp` | App.js:44-49 | with unique ids, merging a listed record's own three values back under its id leaves the list unchanged |
| `Users.RemoveById` | App.js:63 | no kept record carries the id; a record is kept exactly when it was in the list and carries a different id; the list never grows |
| `Users.RemoveByIdAppend` | App.js:63 | the filter distributes over concatenation, so the kept records keep their original relative order |
| `Users.RemoveByIdAbsent` | App.js:63 | deleting an id that no record carries leaves the list unchanged |
| `Users.RemoveByIdIdempotent` | App.js:63 | deleting the same id twice gives the same list as deleting it once |
| `Users.RemoveByIdUniqueLength` | App.js:63 | with unique ids, a delete shortens the list by exactly one when the id is present and leaves its length unchanged otherwise |
| `Users.MergeRemoveCommute` | App.js:44-63 | an edit followed by a delete gives the same list as the delete followed by the edit, for any two ids |
| `Users.EditAfterDeleteIsNoOp` | App.js:44-63 | after a delete of an id, an edit of that same id changes nothing |
| `App.AppState.constructor` | App.js:8-12 | the initial state is an empty list, an empty form and no editing id |
| `App.AppState.FetchData` | App.js:18-25 | on success the list becomes exactly the returned sequence; on failure nothing changes; the form and the editing id are never touched |
| `App.AppState.HandleAddUser` | App.js:27-38 | on success the returned record is appended after the unchanged earlier records and the three form values become empty; on failure nothing changes; the editing id is never touched |
| `App.AppState.HandleEditUser` | App.js:40-58 | on success the list becomes the merge of the form (as it was before the call) into the records with the id, the form is cleared and the editing id becomes null; on failure nothing changes |
| `App.AppState.HandleDeleteUser` | App.js:60-68 | on success the list becomes the old list without the records that carry the id; on failure nothing changes; the form and the editing id are never touched |
| `App.AppState.HandleEdit` | App.js:70-75 | the form takes the selected record's name, email and password, and the editing id becomes that record's id; the list is unchanged |
| `App.AppState.SetName` | App.js:85 | the name becomes the typed text and nothing else changes |
| `App.AppState.SetEmail` | App.js:91 | the email becomes the typed text and nothing else changes |
| `App.AppState.SetPassword` | App.js:98 | the password becomes the typed text and nothing else changes |
| `App.AppState.Submit` | App.js:100-103 | updates the editing id when that id is truthy and creates otherwise; the new state is the one the chosen handler promises |
| `App.SubmitActionAgreesOnTruthyIds` | App.js:101-102 | the dispatch as written agrees with the intended dispatch exactly when no falsy id is set |
| `App.SelectZeroIdThenSubmitAdds` | App.js:102 | as written, submitting while a record with id `0` is selected creates a new record; the intended dispatch would update it |
| `App.SelectThenSubmitUpdates` | App.js:102 | with the intended dispatch, submitting after selecting any record updates that record, and submitting with no selection creates |
| `App.AppState.SubmitAsIntended` | App.js:102 | the corrected submit button: updates whenever an editing id is set and creates otherwise, with the same state changes as Submit |

## Findings

| source | as written | input that shows it | evidently intended | confidence | as-written member | corrected member |
|---|---|---|---|---|---|---|
| App.js:101-102 | the submit button tests `editingUserId ?`, which is JavaScript truthiness | the server returns a record with id `0` (or `''`); the user selects it with Edit, then presses submit | submit updates the selected record whenever an editing id is set | low to medium (the inputs need a falsy server id); not executed | `App.SelectZeroIdThenSubmitAdds` (dispatch `App.SubmitAction`, method `App.AppState.Submit`) | `App.SelectThenSubmitUpdates` (dispatch `App.IntendedSubmitAction`, method `App.AppState.SubmitAsIntended`) |

`App.AppState.Submit` keeps the dispatch as written so that it models the screen
as it behaves. `App.ExampleSession` plays the finding at the state level. As
written, selecting a record with id `0` and submitting appends a second record.
With `SubmitAsIntended`, the same steps update the record in place.

## Left out

- HTTP requests and URL construction (App.js:5, 20, 30, 43, 62) are not modelled. Each request is replaced by the outcome its handler receives. The request bodies are always the form's three values, and the remote API is not part of this model.
- The mount effect (App.js:14-16) and React's state mechanics are not modelled. The five state variables are plain fields, and each handler call is a method call that completes atomically.
- Overlapping or out-of-order requests are not modelled. Examples are a double-tapped submit, or handlers that capture a stale `users` from an earlier render. These are concurrency effects.
- Rendering (App.js:77-120) is not modelled: the list rows, the button title that shows the mode, `keyExtractor`'s `toString` and `secureTextEntry`. The styles (App.js:123-157) are also left out.
- `console.error` logging in the catch blocks is not modelled. It has no effect on state.
- Records missing the `name`, `email` or `password` properties are not modelled. Every record carries all three. Its other properties are kept, opaque, in `rest`.
- Ids that are floating-point numbers (including `NaN`, which is not `===` to itself), booleans or other JSON values are not modelled. Ids are integers or strings.
