// Timestamped observations kept by the forecaster. Request-rate samples and
// capacity samples differ only in which values they accept.
module Samples {
  import opened Values

  datatype Sample = Sample(timestamp: int, value: Float)

  // What a rejected or missing observation looks like: the zero struct.
  const NO_SAMPLE := Sample(ZERO_TIME, Finite(0.0))

  datatype Kind = Demand | Capacity

  predicate Acceptable(kind: Kind, value: Float) {
    match kind
    case Demand => FiniteNonnegative(value)
    case Capacity => value.Finite? && value.v > 0.0
  }

  const MAX_SAMPLES: nat := 20
  const HISTORY_WINDOW: int := 5 * MINUTE
  const FUTURE_TOLERANCE: int := 30 * SECOND

  predicate Increasing(h: seq<Sample>) {
    forall i, j :: 0 <= i < j < |h| ==> h[i].timestamp < h[j].timestamp
  }
}
