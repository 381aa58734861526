/** Values shared by every part of the model: optional fields and handler responses. */
module Base {

  /** A request field or database column that may be absent (undefined / NULL). */
  datatype Option<T> = None | Some(value: T)

  /** What an API route handler sends back.
      - Ended: `res.status(code).end()`, a status line without a body;
      - Rejected: `res.status(code).json({ error })`;
      - Ok: `res.json(body)`, status 200. */
  datatype Response<T> = Ended(status: nat) | Rejected(status: nat, error: string) | Ok(body: T)

  /** A string field that JavaScript treats as truthy: present and not the empty string.
      This is the test `if (!field)` applies to a request field. */
  predicate Given(field: Option<string>)
  {
    field.Some? && field.value != ""
  }

  /** `field || fallback` for a string field. */
  function OrElse(field: Option<string>, fallback: string): (r: string)
    ensures Given(field) ==> r == field.value
    ensures !Given(field) ==> r == fallback
  {
    if Given(field) then field.value else fallback
  }
}
