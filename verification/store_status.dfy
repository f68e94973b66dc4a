/** The process-wide "store open" flag of backend/server.js, with its read handler
    and its admin setter that accepts only a boolean. */
module StoreStatus {
  import opened Common

  datatype Flag = Flag(isOpen: bool)

  /** `{ success: true, newStatus }`, or the 400 reply for a non-boolean status. */
  datatype SetReply = Changed(newStatus: bool) | InvalidStatus

  /** The flag at startup: open. */
  function Initial(): (f: Flag)
    ensures f.isOpen
  {
    Flag(true)
  }

  /** `GET /api/store-status`: the flag's value, and the flag left as it was. */
  function GetStatus(f: Flag): (r: (Flag, bool))
    ensures r.0 == f
    ensures r.1 <==> f.isOpen
  {
    (f, f.isOpen)
  }

  /** `POST /api/set-store-status`: a boolean becomes the flag and is echoed back;
      anything else is refused and the flag stays. */
  function SetStatus(f: Flag, status: Field): (r: (Flag, SetReply))
    ensures status.Bool? ==> r.0.isOpen == status.b && r.1 == Changed(status.b)
    ensures status.NotBool? ==> r == (f, InvalidStatus)
  {
    match status
    case Bool(b) => (Flag(b), Changed(b))
    case NotBool => (f, InvalidStatus)
  }

  /** Setting the same value twice is setting it once. */
  lemma SetIdempotent(f: Flag, status: Field)
    ensures SetStatus(SetStatus(f, status).0, status) == SetStatus(f, status)
  {
  }

  /** A successful set is what the next read sees. */
  lemma SetThenGet(f: Flag, b: bool)
    ensures GetStatus(SetStatus(f, Bool(b)).0).1 == b
  {
  }
}
