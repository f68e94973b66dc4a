/** Shared request-level vocabulary: optional JSON fields, JavaScript truthiness
    and the `a || b` fallback the handlers use to pick a user id. */
module Common {

  /** A request field that may be absent (`undefined`). */
  datatype Option<+T> = None | Some(value: T) {

    /** The value, or `default` when absent (JavaScript `x || default` / parameter defaults). */
    function GetOr(default: T): T {
      match this
      case Some(v) => v
      case None => default
    }
  }

  /** A request field that is a JSON boolean, or any other value (absent, string, number, ...). */
  datatype Field = Bool(b: bool) | NotBool

  /** A request field holding a JSON-encoded array: absent (or the empty string, which
      `x || "[]"` also replaces), parsed, or text that `JSON.parse` rejects. */
  datatype JsonList<T> = Absent | Parsed(items: seq<T>) | Malformed

  /** JavaScript truthiness of an optional string: present and non-empty. */
  predicate Truthy(s: Option<string>) {
    s.Some? && s.value != ""
  }

  /** `a || b` on optional strings: the first truthy one, else `b`. */
  function Or(a: Option<string>, b: Option<string>): (r: Option<string>)
    ensures Truthy(r) <==> Truthy(a) || Truthy(b)
    ensures Truthy(a) ==> r == a
    ensures !Truthy(a) ==> r == b
  {
    if Truthy(a) then a else b
  }

  /** A Mongo document id: the stores below are maps keyed by it. */
  type Id = string

  /** Whether Mongoose can cast a string to an ObjectId. Casting is library behaviour,
      so every handler that looks a document up by id receives this test as a parameter. */
  type IdCheck = string -> bool
}
