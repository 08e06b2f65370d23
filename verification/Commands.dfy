/** Command envelopes and their results. */
module Commands {

  /** A command argument or a result field. `Other` is any JSON value that is neither text nor an
      integer literal: a fraction, a list, null, ... */
  datatype Value = Text(text: string) | Number(number: int) | Flag(flag: bool) | Other

  datatype Envelope = Envelope(requestId: string, correlationId: string, gameId: string, environment: string,
                               revision: int, actorType: string, actorId: string,
                               operation: string, args: map<string, Value>)

  /** `error` is the error code, empty when there is none. */
  datatype Result = Result(requestId: string, correlationId: string, status: string, operation: string,
                           body: map<string, Value>, events: seq<string>, error: string)

  /** What a handler makes of a command within its transaction. */
  datatype Outcome<S> = Done(state: S, result: Result) | Failed

  type Handler<!S> = (S, Envelope) -> Outcome<S>
}
