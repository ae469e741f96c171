/** What an adapter's frame classifier tells the connection engine about one inbound frame. */
module Classify {
  /** The classifications the adapters produce. */
  datatype MiscMessage =
    | WebSocketText(payload: string)  // send this text frame back to the server
    | Pong                        // a reply to the client's own ping
    | Misc                        // informational; dropped
    | Normal                      // market data; forwarded unchanged

  /** Why classification aborted (a panic in the source). */
  datatype Cause =
    | NotJsonObject               // the frame was expected to parse as a JSON object and did not
    | Unwrapped(key: string)      // a field read with `unwrap` was missing or of the wrong type
    | ErrorReply                  // the server reported an error the adapter treats as fatal

  datatype Outcome = Classified(message: MiscMessage) | Panicked(cause: Cause)
}
