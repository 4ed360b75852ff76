/** Result values the service hands back to its transport layer. */
module Outcomes {

  datatype Option<+T> = None | Some(value: T)

  /** The three outcomes a request can have: success with a payload, a
      generic validation failure (HTTP 400), or an unknown key (HTTP 404). */
  datatype Response<+T> = Ok(value: T) | Invalid | NotFound
}
