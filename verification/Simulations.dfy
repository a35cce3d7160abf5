/** What the explainer simulations share: the cap on a frame's length, drawn durations and
    the removal of one element of a list. */
module Simulations {

  const MAX_DT := 0.1

  function Capped(dt: real): real {
    if dt < MAX_DT then dt else MAX_DT
  }

  /** A duration drawn between two bounds. */
  function Between(lo: real, hi: real, draw: real): real {
    lo + draw * (hi - lo)
  }

  function RemoveAt<T>(xs: seq<T>, j: nat): seq<T>
    requires j < |xs|
  {
    xs[..j] + xs[j + 1..]
  }
}
