/**
 * The value types exchanged between the proof-of-work engine, the solver and
 * the worker, and the wire messages that carry them.
 */
module Domain {

  /** A puzzle: a decimal value to prefix to the nonce, and the number of
      leading '0' hex characters the digest must have. */
  datatype Challenge = Challenge(value: string, difficulty: int)

  /** An opaque string sent by the client: the nonce it found. */
  type Solution = string

  /** One entry of the quote corpus. */
  type Quote = string
}

/**
 * The JSON messages of the wire protocol. The challenge difficulty travels
 * under the JSON key "complexity"; encoding and decoding are not modelled.
 */
module Dto {

  datatype ChallengeMessage = ChallengeMessage(value: string, complexity: int)

  datatype SolutionMessage = SolutionMessage(body: string)

  datatype QuoteMessage = QuoteMessage(body: string)
}
