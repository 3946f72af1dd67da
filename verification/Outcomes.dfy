/** How one request to the bot's endpoint can end (the error classes of adapter/wsclient.go), and the
    status a send reports for it (adapter/messenger.go). */
module Outcomes {
  datatype Outcome = Sent | NotSent | ResultUnknown | Rejected | OtherError

  /** What the error classes promise about the number of request frames written to the socket.
      WsRuns proves it of every call; DeliveryRuns builds on it. */
  predicate FramesFit(outcome: Outcome, frames: nat) {
    && frames <= 1
    && (outcome.NotSent? ==> frames == 0)
    && (outcome.Sent? ==> frames == 1)
  }

  datatype SendStatus = StatusSent | StatusQueued | StatusNotSent | StatusUnknown | StatusRejected

  /** Status of a send response: the Queued flag first, then the error class. */
  function StatusOf(outcome: Outcome, queued: bool): SendStatus {
    if queued then StatusQueued
    else match outcome
      case Sent => StatusSent
      case NotSent => StatusNotSent
      case Rejected => StatusRejected
      case _ => StatusUnknown
  }
}
