/**
 * What the tools get from outside: the model's replies, the user's answers
 * to the execute confirmation, and what SQLite does with a query. These are
 * parameters of the model rather than computations in it.
 */
module Oracles {
  import opened Text

  /** What executing a query ends in: a result table, one of the two SQLite
      exceptions ai4sqlite3 feeds back for revision, or any other exception. */
  datatype Outcome = Rows | OperationalError(message: String) | Warning(message: String) | OtherError

  /** `except (sqlite3.OperationalError, sqlite3.Warning)`. */
  predicate Recoverable(o: Outcome) {
    o.OperationalError? || o.Warning?
  }

  /** The outside world for a run: the model's reply to the `k`-th request
      (counted from 1), the user's answer to the execute prompt shown after
      that request (when one is shown), and the outcome of executing a query
      at that attempt. The outcome is indexed by the attempt as well as by
      the query, because the connection is live: the same query can fail once
      (a locked database, say) and succeed later. */
  datatype World = World(reply: nat -> String, confirm: nat -> bool, execute: (nat, String) -> Outcome)
}
