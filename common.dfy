/** Vocabulary shared by every module of the model: optional values, identifiers,
    the store's structured errors, the ways a server action can end, and the
    JavaScript values of nullable string fields. */
module Common {

  datatype Option<+T> = None | Some(value: T) {
    function GetOr(default: T): T {
      if Some? then value else default
    }
  }

  /** Users are identified by the identity provider's string id. */
  type UserId = string

  /** Gatherings are identified by a serial number assigned by the store. */
  type GatheringId = nat

  /** An error reported by the relational store; `code` is the PostgreSQL SQLSTATE. */
  datatype StoreError = StoreError(code: string, message: string)

  /** The SQLSTATE of a unique_violation. */
  const UniqueViolationCode: string := "23505"

  /** What the store reports when an insert would duplicate a unique key. */
  const UniqueViolation: StoreError :=
    StoreError(UniqueViolationCode, "duplicate key value violates unique constraint")

  /** How a server action ends: it returns a value, throws an Error with a
      message, or asks the framework to redirect (which also ends the action). */
  datatype Outcome<+T> = Returned(value: T) | Thrown(message: string) | Redirected(location: string)

  /** The `{ success: true }` and `{ error: ... }` objects some actions return. */
  datatype Reply = Success | ErrorReply(error: string)

  /** A JavaScript value that is a string, `null` or `undefined`. */
  datatype Field = Undefined | Null | Text(text: string)

  /** JavaScript truthiness of such a value: only a non-empty string is truthy. */
  predicate Truthy(f: Field) {
    f.Text? && f.text != ""
  }

  /** JavaScript `a || b`. */
  function Or(a: Field, b: Field): (r: Field)
    ensures Truthy(r) <==> Truthy(a) || Truthy(b)
    ensures r == a || r == b
  {
    if Truthy(a) then a else b
  }

  /** JavaScript truthiness of an optional number: `null`, `undefined` and 0 are falsy. */
  predicate TruthyNumber(x: Option<real>) {
    x.Some? && x.value != 0.0
  }

  /** The value a present-or-null column takes from a field: a string stays, anything else is null. */
  function FieldToColumn(f: Field): (c: Option<string>)
    ensures c.Some? <==> f.Text?
  {
    if f.Text? then Some(f.text) else None
  }
}
