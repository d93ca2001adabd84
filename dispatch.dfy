/**
 A run of the reducer over the actions the store dispatches, one after the
 other. The lifecycle invariants of the `contract` slice (how long `role`
 survives, when `inProgress` is true, what becomes of `error`) are properties
 of such runs, not of a single transition.
 */
module Dispatch {

  import opened ActionTypes
  import opened JsObject
  import opened ContractReducer

  /** The slice after folding `actions` into `state`, oldest action first. */
  function Run(state: Object, actions: seq<Object>): Object
    decreases |actions|
  {
    if actions == [] then state
    else Reduce(Run(state, actions[..|actions| - 1]), actions[|actions| - 1])
  }

  /** Dispatching two batches in turn is dispatching them as one. */
  lemma {:induction false} RunAppend(state: Object, xs: seq<Object>, ys: seq<Object>)
    ensures Run(state, xs + ys) == Run(Run(state, xs), ys)
    decreases |ys|
  {
    if ys == [] {
      assert xs + ys == xs;
    } else {
      assert (xs + ys)[..|xs + ys| - 1] == xs + ys[..|ys| - 1];
      RunAppend(state, xs, ys[..|ys| - 1]);
    }
  }

  /** Actions with an unrecognised `type` (such as the store's own
      initialisation action) leave the slice as it is, however many. */
  lemma {:induction false} UnknownActionsAreIdentity(state: Object, actions: seq<Object>)
    requires forall i :: 0 <= i < |actions| ==> KindOf(actions[i]).None?
    ensures Run(state, actions) == state
    decreases |actions|
  {
    if actions != [] {
      UnknownActionsAreIdentity(state, actions[..|actions| - 1]);
    }
  }

  /** An action after which the old `role` stays: anything but LOGOUT and a
      RESULT carrying a `role` of its own. */
  predicate KeepsRole(action: Object)
  {
    KindOf(action) != Some(Logout)
    && !(KindOf(action) == Some(TransactionResult) && RoleKey in action)
  }

  /** `role` is cleared only by LOGOUT and overwritten only by a RESULT that
      carries one: across any other run it reads the same as before. */
  lemma {:induction false} RoleSurvivesRun(state: Object, actions: seq<Object>)
    requires forall i :: 0 <= i < |actions| ==> KeepsRole(actions[i])
    ensures Get(Run(state, actions), RoleKey) == Get(state, RoleKey)
    decreases |actions|
  {
    if actions != [] {
      var prefix := actions[..|actions| - 1];
      RoleSurvivesRun(state, prefix);
      var last := actions[|actions| - 1];
      if KindOf(last).Some? {
        RolePreserved(Run(state, prefix), last);
      } else {
        UnknownIsIdentity(Run(state, prefix), last);
      }
    }
  }

  /** After a LOGOUT, `role` reads `undefined` until a RESULT brings one. */
  lemma RoleWipedByLogout(state: Object, before: seq<Object>, logout: Object, after: seq<Object>)
    requires KindOf(logout) == Some(Logout)
    requires forall i :: 0 <= i < |after| ==> KeepsRole(after[i])
    ensures Get(Run(state, before + [logout] + after), RoleKey) == Undefined
  {
    RunAppend(state, before + [logout], after);
    RunAppend(state, before, [logout]);
    assert Run(Run(state, before), [logout]) == map[] by {
      assert [logout][..0] == [];
    }
    RoleSurvivesRun(map[], after);
  }

  /** What `inProgress` reads after a run, tracked on its own: the latest
      recognised action decides it, and unrecognised actions are skipped. */
  function InProgressAfter(state: Object, actions: seq<Object>): Value
    decreases |actions|
  {
    if actions == [] then Get(state, InProgressKey)
    else
      var last := actions[|actions| - 1];
      match KindOf(last)
      case None => InProgressAfter(state, actions[..|actions| - 1])
      case Some(TransactionStarted) => Bool(true)
      case Some(TransactionResult) => if InProgressKey in last then last[InProgressKey] else Bool(false)
      case Some(Logout) => Undefined
      case Some(_) => Bool(false)
  }

  /** The slice's `inProgress` is exactly the one the latest recognised
      action set. */
  lemma {:induction false} InProgressFollowsLatestAction(state: Object, actions: seq<Object>)
    ensures Get(Run(state, actions), InProgressKey) == InProgressAfter(state, actions)
    decreases |actions|
  {
    if actions != [] {
      var prefix := actions[..|actions| - 1];
      var last := actions[|actions| - 1];
      InProgressFollowsLatestAction(state, prefix);
      match KindOf(last)
      case None => UnknownIsIdentity(Run(state, prefix), last);
      case Some(TransactionStarted) => StartedMarksInProgress(Run(state, prefix), last);
      case Some(TransactionDone) => DoneClearsInProgress(Run(state, prefix), last);
      case Some(TransactionClean) => CleanKeepsOnlyRole(Run(state, prefix), last);
      case Some(TransactionError) => ErrorRecordsOnlyError(Run(state, prefix), last);
      case Some(TransactionResult) => ResultMergesAction(Run(state, prefix), last);
      case Some(Logout) => LogoutResets(Run(state, prefix), last);
    }
  }

  /** `inProgress` is false after DONE, CLEAN or ERROR for as long as only
      unrecognised actions follow. */
  lemma TerminalEndsProgress(state: Object, before: seq<Object>, terminal: Object, after: seq<Object>)
    requires KindOf(terminal) in {Some(TransactionDone), Some(TransactionClean), Some(TransactionError)}
    requires forall i :: 0 <= i < |after| ==> KindOf(after[i]).None?
    ensures Get(Run(state, before + [terminal] + after), InProgressKey) == Bool(false)
  {
    RunAppend(state, before + [terminal], after);
    UnknownActionsAreIdentity(Run(state, before + [terminal]), after);
    assert (before + [terminal])[..|before|] == before;
  }

  /** DONE keeps a stale `error`: only CLEAN, a later ERROR or LOGOUT
      replaces the slice and so removes it. */
  lemma StaleErrorSurvivesDone(state: Object, error: Object, done: Object)
    requires KindOf(error) == Some(TransactionError)
    requires KindOf(done) == Some(TransactionDone)
    ensures Get(Run(state, [error, done]), ErrorKey) == Get(error, ErrorKey)
  {
  }

  /** A RESULT carrying its own `error` overwrites a stale one, as a later
      ERROR does, because the action is spread last. */
  lemma ResultOverwritesError(state: Object, error: Object, result: Object)
    requires KindOf(error) == Some(TransactionError)
    requires KindOf(result) == Some(TransactionResult)
    requires ErrorKey in result
    ensures Get(Run(state, [error, result]), ErrorKey) == result[ErrorKey]
  {
  }

  /** CLEAN removes any `error`, whatever came before it. */
  lemma CleanDropsError(state: Object, before: seq<Object>, clean: Object)
    requires KindOf(clean) == Some(TransactionClean)
    ensures ErrorKey !in Run(state, before + [clean])
  {
  }

  /** A lifecycle from a slice that holds only a role: STARTED, then a RESULT
      carrying `batchId: 7`, then CLEAN. */
  lemma AdminScenario()
    ensures
      var s0: Object := map[RoleKey := Str("admin")];
      var result: Object := map[TypeKey := Tag(TransactionResult), "batchId" := Num(7)];
      var s1 := Reduce(s0, map[TypeKey := Tag(TransactionStarted)]);
      var s2 := Reduce(s1, result);
      var s3 := Reduce(s2, map[TypeKey := Tag(TransactionClean)]);
      && s1 == map[RoleKey := Str("admin"), InProgressKey := Bool(true)]
      && s2 == map[RoleKey := Str("admin"), InProgressKey := Bool(false),
                   "batchId" := Num(7), TypeKey := Tag(TransactionResult)]
      && s3 == map[RoleKey := Str("admin"), InProgressKey := Bool(false)]
  {
  }

}
