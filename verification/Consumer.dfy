/** What the consumer of the simulator supplies, left entirely open. */
module Consumer {
  import opened Base

  /** Consumer-owned world state. */
  type Model(!new)
  /** Modelled delivery payload. */
  type Event(!new)
  /** Structured observation payload. */
  type Observation(!new)
  /** Failure reason of one model action. */
  type ModelError(!new)
  /** Failure reason of one monitor. */
  type Rejection(!new)

  type DutyId = U64
  type Moment = U64
  type ActionId = U64
}
