/** The decision inside `checkDockerApiConnection`: the outcome of one
    `GET http://localhost:2375/_ping` becomes the colour of the status dot. */
module Health {

  /** What the request yields: a response code, or an `IOException` thrown while
      connecting, sending or reading (timeouts and refused connections included). */
  datatype ProbeOutcome = Code(responseCode: int) | IOError

  /** The colour filter applied to the status dot (`Color.GREEN`, `Color.RED`). */
  datatype DotColor = Green | Red

  /** Green exactly for response code 200; red for every other code and for an
      I/O failure, so every failure mode is folded into red. */
  function Classify(outcome: ProbeOutcome): (c: DotColor)
    ensures c == Green <==> outcome.Code? && outcome.responseCode == 200
    ensures c == Red <==> outcome == IOError || (outcome.Code? && outcome.responseCode != 200)
  {
    match outcome
    case Code(n) => if n == 200 then Green else Red
    case IOError => Red
  }
}
