/**
 The action-type constants the contract reducer switches on:
 `contractConstants.TRANSACTION_*` and `authConstants.LOGOUT`. The modules
 defining them are not part of this model; all that the reducer relies on is
 that they are six pairwise distinct values, which is what a datatype gives.
 */
module ActionTypes {

  datatype Kind =
    | TransactionStarted
    | TransactionDone
    | TransactionClean
    | TransactionError
    | TransactionResult
    | Logout

}
