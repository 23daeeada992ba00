/**
 * The values a screen receives from the outside world. A request is never
 * performed here: its settled result is handed to the screen as an
 * `Outcome`, which is either the parsed payload or a failure (a transport
 * error, a response whose status is not ok, or a body that does not parse).
 */
module Network {

  /** A nullable value, as `T | null` in the screens' state. */
  datatype Option<+T> = None | Some(value: T)

  /** How an awaited `fetch` followed by `response.json()` settled. */
  datatype Outcome<+T> = Ok(payload: T) | Fail
}
