/**
 * What a route handler sends back, and the store it leaves behind.
 */
module Http {
  import opened Storage

  /** The body of a response: a JSON record, `{error: ...}`, plain text, or nothing. */
  datatype Payload = Record(t: Transaction) | ErrorJson(error: string) | Text(text: string) | NoContent

  /**
   * A response with its status code, or a handler that threw outside any
   * `try` block, so that it wrote no response of its own.
   */
  datatype Response = Reply(status: int, payload: Payload) | Rejected(reason: string)

  datatype Handled = Handled(response: Response, store: Store)

  predicate HasStatus(h: Handled, status: int) {
    h.response.Reply? && h.response.status == status
  }
}
