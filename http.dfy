/** What a route handler sends back, and how handlers read request fields. */
module Http {
  import opened Wrappers

  /** A status code with a JSON document, or a status code with a message. */
  datatype Reply<+T> =
    | Json(status: nat, body: T)
    | Message(status: nat, text: string)

  /** The 500 message of the DOCTOR_MS handlers and the consult queries. */
  const InternalError := "Internal server error"

  /** The 400 message of the Backend handlers for a missing field. */
  const FieldsRequired := "All fields are required"

  /** JavaScript truthiness of an optional text field: present and non-empty
      (undefined, null and "" are falsy). */
  predicate Truthy(field: Option<string>) {
    field.Some? && field.value != ""
  }
}
