// How long a quarantined object is kept (internal/core/retention.go).
// Times are whole nanoseconds on an abstract clock.
module Retentions {
  import opened Wrappers

  type Time = nat

  const HOUR: nat := 3_600_000_000_000

  datatype Retention = NoWait | ThreeDays | SevenDays | ThirtyDays | NinetyDays | Permanent

  /** None is a receipt that never expires. */
  function Window(r: Retention): Option<nat> {
    match r
    case NoWait => Some(0)
    case ThreeDays => Some(3 * 24 * HOUR)
    case SevenDays => Some(7 * 24 * HOUR)
    case ThirtyDays => Some(30 * 24 * HOUR)
    case NinetyDays => Some(90 * 24 * HOUR)
    case Permanent => None
  }

  function ExpiresAt(r: Retention, from: Time): Option<Time> {
    match Window(r)
    case None => None
    case Some(window) => Some(from + window)
  }

  predicate Expired(r: Retention, from: Time, now: Time) {
    match ExpiresAt(r, from)
    case None => false
    case Some(expiry) => expiry <= now
  }
}
