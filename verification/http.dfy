/** What a handler answers and which store writes it performed. */
module Http {
  import opened Values
  import opened Documents

  /** The JSON (or text) body of a response. */
  datatype Payload =
    | Empty                                           // `res.end()`
    | Text(text: string)                              // `res.end(text)`
    | Failure(error: string)                          // `{ error }`
    | Ack                                             // `{ success: true }`
    | AckWith(message: string)                        // `{ success: true, message }`
    | TokenStatus(hasValidToken: bool, token: Option<string>)
    | Notice(message: string)                         // `{ message }`
    | Counts(sent: nat, failed: nat)                  // `{ success: true, sent, failed, timestamp }`

  /** Status, the `Allow` header when one is set, and the body. */
  datatype Response = Response(status: int, allow: seq<string>, payload: Payload)

  /** A response together with the store writes that took effect, in order. */
  datatype Outcome = Outcome(response: Response, writes: seq<Write>)

  function Reply(status: int, payload: Payload): Response {
    Response(status, [], payload)
  }

  /** An exception the handler does not catch: the framework answers 500 on its own. */
  const Unhandled: Response := Reply(500, Empty)
}
