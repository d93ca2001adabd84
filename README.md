# Contract-transaction state reducer

This project models the `contract` reducer of the supply-chain tracking
front end (frontend/src/reducers/contract.reducer.js). The reducer is a pure
function. It folds the lifecycle actions of a smart-contract transaction into
the `contract` slice of the application state. The actions are started, done,
clean, error, result and logout. The slice holds `role`, `inProgress`,
`error` and any result fields.

- `JsObject` (js_object.dfy) models JavaScript values and plain objects. An
  object is a `map<string, Value>`. Reading a missing property gives
  `Undefined`, and object spread `{...a, ...b}` is the union `a + b`, where
  the right side wins.
- `ActionTypes` (action_types.dfy) models the six action-type constants as
  six distinct tags.
- `ContractReducer` (contract_reducer.dfy) models the `switch`. There is one
  function per branch, `Reduce` for the switch itself, and `Contract` for the
  defaulted `state = {}` parameter. Lemmas state what each transition promises.
- `Dispatch` (dispatch.dfy) folds the reducer over a sequence of dispatched
  actions. Its lemmas state the lifecycle invariants: how long `role`
  survives, what decides `inProgress`, and what becomes of a stale `error`.

Two behaviours of the code are easy to miss; the model follows the code:

- DONE and STARTED keep a stale `error`, because they only merge over the old
  slice. Only CLEAN and LOGOUT delete the key; a later ERROR, or a RESULT
  carrying `error`, overwrites it (`Dispatch.StaleErrorSurvivesDone`,
  `Dispatch.CleanDropsError`, `Dispatch.ResultOverwritesError`).
- RESULT keeps `role` only when the action has no `role` property of its
  own, or carries the same value. The action is spread last, so its `role`
  wins (`ContractReducer.RolePreserved`).

## Model

| member | source | states |
|---|---|---|
| `JsObject.Get` | frontend/src/reducers/contract.reducer.js:4-24 | a property read (`action.type`, `state.role`, `action.error`) yields the stored value when the key is present and `undefined` when it is missing |
| `JsObject.Spread` | frontend/src/reducers/contract.reducer.js:26-31 | object spread: the result has the keys of both objects; the right object's values win, and the left object's values stand elsewhere |
| `ContractReducer.KindOf` | frontend/src/reducers/contract.reducer.js:4 | an action has a kind exactly when its `type` is one of the constants, and then the kind is that constant |
| `ContractReducer.Started` | frontend/src/reducers/contract.reducer.js:5-9 | STARTED adds `inProgress: true` and keeps every other property with its value |
| `ContractReducer.Done` | frontend/src/reducers/contract.reducer.js:10-14 | DONE adds `inProgress: false` and keeps every other property with its value |
| `ContractReducer.Clean` | frontend/src/reducers/contract.reducer.js:15-19 | CLEAN leaves exactly the keys `role` and `inProgress`; `role` holds the old `state.role` (possibly `undefined`) and `inProgress` is false |
| `ContractReducer.Error` | frontend/src/reducers/contract.reducer.js:20-25 | ERROR leaves exactly `role`, `inProgress` and `error`: the old role, false, and `action.error` |
| `ContractReducer.Result` | frontend/src/reducers/contract.reducer.js:26-31 | RESULT has the keys of the state, of the action and `inProgress`; every action property wins; `inProgress` is false unless the action carries one; other old properties stay |
| `ContractReducer.Reduce` | frontend/src/reducers/contract.reducer.js:4-36 | the reducer invents no keys beyond the state's, the action's, `role`, `inProgress` and `error`; after every recognised action except LOGOUT (and a RESULT carrying its own `inProgress`), `inProgress` is a boolean |
| `ContractReducer.Contract` | frontend/src/reducers/contract.reducer.js:3 | a given slice is reduced as is; a missing slice with an unrecognised action (the store's first call) yields the empty object |
| `ContractReducer.StartedMarksInProgress` | frontend/src/reducers/contract.reducer.js:5-9 | STARTED: `inProgress` reads true; every other property reads as before, a stale `error` and earlier result fields included |
| `ContractReducer.DoneClearsInProgress` | frontend/src/reducers/contract.reducer.js:10-14 | DONE: `inProgress` reads false; every other property reads as before |
| `ContractReducer.CleanKeepsOnlyRole` | frontend/src/reducers/contract.reducer.js:15-19 | CLEAN yields exactly `{role: state.role, inProgress: false}`, with no `error` |
| `ContractReducer.CleanIdempotent` | frontend/src/reducers/contract.reducer.js:15-19 | CLEAN applied twice equals CLEAN applied once |
| `ContractReducer.ErrorRecordsOnlyError` | frontend/src/reducers/contract.reducer.js:20-25 | ERROR yields exactly `{role: state.role, inProgress: false, error: action.error}`; no other key survives |
| `ContractReducer.ResultMergesAction` | frontend/src/reducers/contract.reducer.js:26-31 | RESULT is `state`, then `inProgress: false`, then the action; the action's `type` lands in the slice, and the action's `inProgress` and `role` override |
| `ContractReducer.RolePreserved` | frontend/src/reducers/contract.reducer.js:5-31 | for every recognised action but LOGOUT, `role` reads as before exactly when the action is not a RESULT carrying a different `role` |
| `ContractReducer.LogoutResets` | frontend/src/reducers/contract.reducer.js:32-33 | LOGOUT yields the empty object whatever the state, so `role` reads `undefined` |
| `ContractReducer.UnknownIsIdentity` | frontend/src/reducers/contract.reducer.js:34-35 | an unrecognised action type returns the state unchanged |
| `ContractReducer.MissingStateIsEmpty` | frontend/src/reducers/contract.reducer.js:3 | a missing state is reduced as the empty object |
| `Dispatch.RunAppend` | frontend/src/reducers/contract.reducer.js:3 | serialized dispatch composes: dispatching two batches one after the other gives the same slice as dispatching their concatenation (a property of any fold, used by the run lemmas below) |
| `Dispatch.UnknownActionsAreIdentity` | frontend/src/reducers/contract.reducer.js:34-35 | any sequence of unrecognised actions leaves the slice unchanged |
| `Dispatch.RoleSurvivesRun` | frontend/src/reducers/contract.reducer.js:5-35 | across any run without LOGOUT and without a RESULT carrying `role`, `role` reads as it did at the start |
| `Dispatch.RoleWipedByLogout` | frontend/src/reducers/contract.reducer.js:32-33 | after a LOGOUT, `role` reads `undefined` until a RESULT carrying a `role` arrives |
| `Dispatch.InProgressFollowsLatestAction` | frontend/src/reducers/contract.reducer.js:5-35 | after any run, `inProgress` is the value the latest recognised action set: true for STARTED, false for DONE, CLEAN and ERROR, the action's own or false for RESULT, `undefined` for LOGOUT, and the initial value if no action was recognised |
| `Dispatch.TerminalEndsProgress` | frontend/src/reducers/contract.reducer.js:10-25 | after DONE, CLEAN or ERROR followed only by unrecognised actions, `inProgress` is false |
| `Dispatch.StaleErrorSurvivesDone` | frontend/src/reducers/contract.reducer.js:10-25 | ERROR followed by DONE still shows the recorded `error` |
| `Dispatch.ResultOverwritesError` | frontend/src/reducers/contract.reducer.js:26-31 | ERROR then a RESULT carrying `error` shows the RESULT's `error`, since the action is spread last |
| `Dispatch.CleanDropsError` | frontend/src/reducers/contract.reducer.js:15-19 | whatever came before, CLEAN leaves no `error` |
| `Dispatch.AdminScenario` | frontend/src/reducers/contract.reducer.js:5-31 | from `{role: "admin"}`: STARTED gives `{role, inProgress: true}`, a RESULT with `batchId: 7` gives `{role, inProgress: false, batchId: 7, type}`, and CLEAN gives `{role, inProgress: false}` |

## Left out

- The values of `contractConstants` and `authConstants` (frontend/src/constants is not part of this model). They are modelled as six distinct tags that no other value equals. If a constant were a string, a `type` equal to it would match in JavaScript; the model does not capture that.
- Reference identity: the default branch returns the very same object. The model states value equality only.
- Property order of the built objects, prototype properties, and a `state` or `action` that is not a plain object (where `action.type` would throw). The store always passes objects.
- JavaScript numbers are modelled as unbounded integers. The reducer does no arithmetic, so nothing depends on this.
- The store that dispatches actions and the web3 contract calls are external. `Dispatch.Run` stands in for the store: it applies the reducer to a given sequence of actions, oldest first, and has no contract of its own; the `Dispatch` lemmas are its properties.
- frontend/src/components/ProfilePage.jsx and frontend/src/components/forms/GetBatchDetails.jsx are rendering and form handling over React, Redux and the router. They hold no reducer logic and are not modelled.
