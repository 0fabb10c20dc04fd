/** Types shared by every part of the adapter lifecycle model. */
module Common {

  datatype Option<+T> = None | Some(value: T)

  /** A row identifier.  The service issues serial identifiers of its own; `Foreign` stands for a
      canonical UUID that the service never issued (an operator's directory, for example). */
  datatype Uuid = Issued(serial: nat) | Foreign(serial: nat)

  /** Everything a snapshot copies that no lifecycle transaction ever rewrites: identifiers of
      related rows, hashes and byte sizes. */
  datatype Facts = Facts(digest: nat)
}
