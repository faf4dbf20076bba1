/** The limits of a RAVEL model. */
module Ravel {
  /** Coordinates of an observation, and of a key. */
  const D := 8
  const STATES := 64
  const ACTIONS := 4
  const CLASSES := 8
  const MAXE := 80

  /** The index that names no expert. */
  const INVALID := 65535
}
