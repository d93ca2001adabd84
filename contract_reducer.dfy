/**
 The `contract` state slice and the reducer that folds transaction-lifecycle
 actions into it (frontend/src/reducers/contract.reducer.js). The slice and
 the action are plain objects; the action's `type` property selects one of six
 transitions, and every other action leaves the slice as it is.
 */
module ContractReducer {

  import opened ActionTypes
  import opened JsObject

  /** A value or its absence: the optional `state` argument, and an action
      type that matches no case of the `switch`. */
  datatype Option<T> = None | Some(value: T)

  /** The action kind the `switch (action.type)` selects, if any. */
  function KindOf(action: Object): (k: Option<Kind>)
    ensures k.Some? <==> Get(action, TypeKey).Tag?
    ensures k.Some? ==> Get(action, TypeKey) == Tag(k.value)
  {
    match Get(action, TypeKey)
    case Tag(kind) => Some(kind)
    case _ => None
  }

  /** `{...state, inProgress: true}` */
  function Started(state: Object): (r: Object)
    ensures r.Keys == state.Keys + {InProgressKey}
    ensures r[InProgressKey] == Bool(true)
    ensures forall k :: k in state && k != InProgressKey ==> r[k] == state[k]
  {
    Spread(state, map[InProgressKey := Bool(true)])
  }

  /** `{...state, inProgress: false}` */
  function Done(state: Object): (r: Object)
    ensures r.Keys == state.Keys + {InProgressKey}
    ensures r[InProgressKey] == Bool(false)
    ensures forall k :: k in state && k != InProgressKey ==> r[k] == state[k]
  {
    Spread(state, map[InProgressKey := Bool(false)])
  }

  /** `{role: state.role, inProgress: false}`: the key `role` is present even
      when the old slice had none, holding `undefined`. */
  function Clean(state: Object): (r: Object)
    ensures r.Keys == {RoleKey, InProgressKey}
    ensures r[RoleKey] == Get(state, RoleKey)
    ensures r[InProgressKey] == Bool(false)
  {
    map[RoleKey := Get(state, RoleKey), InProgressKey := Bool(false)]
  }

  /** `{role: state.role, inProgress: false, error: action.error}` */
  function Error(state: Object, action: Object): (r: Object)
    ensures r.Keys == {RoleKey, InProgressKey, ErrorKey}
    ensures r[RoleKey] == Get(state, RoleKey)
    ensures r[InProgressKey] == Bool(false)
    ensures r[ErrorKey] == Get(action, ErrorKey)
  {
    map[RoleKey := Get(state, RoleKey), InProgressKey := Bool(false), ErrorKey := Get(action, ErrorKey)]
  }

  /** `{...state, inProgress: false, ...action}`: the whole action, its `type`
      included, is merged over the slice and wins over both earlier parts. */
  function Result(state: Object, action: Object): (r: Object)
    ensures r.Keys == state.Keys + action.Keys + {InProgressKey}
    ensures forall k :: k in action ==> r[k] == action[k]
    ensures InProgressKey !in action ==> r[InProgressKey] == Bool(false)
    ensures forall k :: k in state && k !in action && k != InProgressKey ==> r[k] == state[k]
  {
    Spread(Spread(state, map[InProgressKey := Bool(false)]), action)
  }

  /** The body of the `switch`: one transition per recognised action type;
      LOGOUT empties the slice and any other action returns it unchanged. */
  function Reduce(state: Object, action: Object): (r: Object)
    ensures r.Keys <= state.Keys + action.Keys + {RoleKey, InProgressKey, ErrorKey}
    ensures KindOf(action).Some? && KindOf(action) != Some(Logout)
            && !(KindOf(action) == Some(TransactionResult) && InProgressKey in action)
            ==> InProgressKey in r && r[InProgressKey].Bool?
  {
    match KindOf(action)
    case Some(TransactionStarted) => Started(state)
    case Some(TransactionDone) => Done(state)
    case Some(TransactionClean) => Clean(state)
    case Some(TransactionError) => Error(state, action)
    case Some(TransactionResult) => Result(state, action)
    case Some(Logout) => map[]
    case None => state
  }

  /** `contract(state = {}, action)`: a missing slice (`undefined`, as on the
      store's first call) is taken to be the empty object. */
  function Contract(state: Option<Object>, action: Object): (r: Object)
    ensures state.Some? ==> r == Reduce(state.value, action)
    ensures state.None? && KindOf(action).None? ==> r == map[]
  {
    Reduce(match state case Some(s) => s case None => map[], action)
  }

  // ---------------------------------------------------------------------
  // The promise each transition makes, stated on the reducer itself.

  /** STARTED sets `inProgress` to true and keeps every other property,
      a stale `error` and earlier result fields included. */
  lemma StartedMarksInProgress(state: Object, action: Object)
    requires KindOf(action) == Some(TransactionStarted)
    ensures Reduce(state, action).Keys == state.Keys + {InProgressKey}
    ensures Get(Reduce(state, action), InProgressKey) == Bool(true)
    ensures forall k :: k != InProgressKey ==> Get(Reduce(state, action), k) == Get(state, k)
  {
  }

  /** DONE sets `inProgress` to false and keeps every other property. */
  lemma DoneClearsInProgress(state: Object, action: Object)
    requires KindOf(action) == Some(TransactionDone)
    ensures Reduce(state, action).Keys == state.Keys + {InProgressKey}
    ensures Get(Reduce(state, action), InProgressKey) == Bool(false)
    ensures forall k :: k != InProgressKey ==> Get(Reduce(state, action), k) == Get(state, k)
  {
  }

  /** CLEAN leaves exactly `{role: state.role, inProgress: false}`. */
  lemma CleanKeepsOnlyRole(state: Object, action: Object)
    requires KindOf(action) == Some(TransactionClean)
    ensures Reduce(state, action) == map[RoleKey := Get(state, RoleKey), InProgressKey := Bool(false)]
    ensures ErrorKey !in Reduce(state, action)
  {
  }

  /** CLEAN twice is CLEAN once. */
  lemma CleanIdempotent(state: Object, clean: Object)
    requires KindOf(clean) == Some(TransactionClean)
    ensures Reduce(Reduce(state, clean), clean) == Reduce(state, clean)
  {
  }

  /** ERROR leaves exactly `{role: state.role, inProgress: false, error: action.error}`:
      earlier result fields are gone and an earlier error is replaced. */
  lemma ErrorRecordsOnlyError(state: Object, action: Object)
    requires KindOf(action) == Some(TransactionError)
    ensures Reduce(state, action)
            == map[RoleKey := Get(state, RoleKey), InProgressKey := Bool(false), ErrorKey := Get(action, ErrorKey)]
    ensures forall k :: k !in {RoleKey, InProgressKey, ErrorKey} ==> k !in Reduce(state, action)
  {
  }

  /** RESULT is `{...state, inProgress: false, ...action}`: the action's own
      `type` lands in the slice, and an `inProgress` or `role` carried by the
      action overrides the reducer's. */
  lemma ResultMergesAction(state: Object, action: Object)
    requires KindOf(action) == Some(TransactionResult)
    ensures Reduce(state, action) == state + map[InProgressKey := Bool(false)] + action
    ensures Get(Reduce(state, action), TypeKey) == Tag(TransactionResult)
    ensures Get(Reduce(state, action), InProgressKey)
            == if InProgressKey in action then action[InProgressKey] else Bool(false)
    ensures Get(Reduce(state, action), RoleKey)
            == if RoleKey in action then action[RoleKey] else Get(state, RoleKey)
  {
  }

  /** `role` survives STARTED, DONE, CLEAN and ERROR, and RESULT exactly when
      the action does not carry a `role` of its own (or carries the same one). */
  lemma RolePreserved(state: Object, action: Object)
    requires KindOf(action).Some? && KindOf(action) != Some(Logout)
    ensures Get(Reduce(state, action), RoleKey) == Get(state, RoleKey)
            <==> (KindOf(action) != Some(TransactionResult) || Get(action, RoleKey) == Get(state, RoleKey)
                  || RoleKey !in action)
  {
  }

  /** LOGOUT empties the slice, `role` included, whatever it held. */
  lemma LogoutResets(state: Object, action: Object)
    requires KindOf(action) == Some(Logout)
    ensures Reduce(state, action) == map[]
    ensures Get(Reduce(state, action), RoleKey) == Undefined
  {
  }

  /** An action whose `type` is none of the six constants changes nothing. */
  lemma UnknownIsIdentity(state: Object, action: Object)
    requires KindOf(action).None?
    ensures Reduce(state, action) == state
  {
  }

  /** A missing slice behaves as the empty object. */
  lemma MissingStateIsEmpty(action: Object)
    ensures Contract(None, action) == Reduce(map[], action)
  {
  }

}
