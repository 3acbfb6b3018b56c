/** Query-string arguments and the refusal a handler sends before any query runs. */
module Api {
  import opened Wrappers

  /** A single-valued query-string parameter: missing, or the text given. */
  type Arg = Option<string>

  /** JavaScript truthiness of such a parameter: given, and not the empty string. */
  predicate Truthy(a: Arg) {
    a.Some? && a.value != ""
  }

  /** A 400 response carrying its error message. */
  datatype Rejection = BadRequest(error: string)

  /** The message of the searches that need at least one filter. */
  const MissingParameter: string := "At least one search parameter is required"
}
