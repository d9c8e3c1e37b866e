/**
  Small value types shared by the access guards, the ledger and the
  transaction engine.
 */
module Types {

  /** A value that may be absent: a session key that is not set, or a form
      field that did not parse. */
  datatype Option<+T> = None | Some(value: T)

  /** The store's CURDATE() and CURTIME(), kept opaque: the engine only
      copies them into the account row and the ledger row. */
  type Date = string
  type Time = string
}
