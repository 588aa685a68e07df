/**
 * The pure part of the pinch interpreter: the zoom scale a move publishes and
 * the pin decision it takes. The mutable pinch reference lives in the session.
 */
module Gesture {
  import opened Optional
  import opened Roster

  const MinZoom: real := 1.0
  const MaxZoom: real := 3.0
  /** A pinch spreading beyond this ratio pins the active speaker. */
  const PinRatio: real := 1.2
  /** A pinch closing below this ratio unpins. */
  const UnpinRatio: real := 0.8

  function Max(a: real, b: real): real { if a >= b then a else b }
  function Min(a: real, b: real): real { if a <= b then a else b }

  /** `Math.min(Math.max(scale, 1), 3)`. */
  function Clamp(scale: real): (r: real)
    ensures MinZoom <= r <= MaxZoom
    ensures MinZoom <= scale <= MaxZoom ==> r == scale
    ensures scale < MinZoom ==> r == MinZoom
    ensures scale > MaxZoom ==> r == MaxZoom
  {
    Min(Max(scale, MinZoom), MaxZoom)
  }

  /** The pin after a handled move with ratio `scale`, given the roster's first active participant. */
  function PinAfterMove(pin: Option<string>, active: Option<Participant>, scale: real): (r: Option<string>)
    ensures active.Some? && scale > PinRatio ==> r == Some(active.value.id)
    ensures !(active.Some? && scale > PinRatio) && scale < UnpinRatio ==> r == None
    ensures !(active.Some? && scale > PinRatio) && scale >= UnpinRatio ==> r == pin
  {
    if active.Some? && scale > PinRatio then Some(active.value.id)
    else if scale < UnpinRatio then None
    else pin
  }

  /** A move that changes the pin to a participant also zooms in beyond the pin ratio. */
  lemma PinningMoveZooms(pin: Option<string>, active: Option<Participant>, scale: real)
    requires PinAfterMove(pin, active, scale) != pin && PinAfterMove(pin, active, scale).Some?
    ensures Clamp(scale) > PinRatio
    ensures PinAfterMove(pin, active, scale) == Some(active.value.id)
  {
  }

  /** A move that clears the pin leaves the zoom at its minimum. */
  lemma UnpinningMoveResetsZoom(pin: Option<string>, active: Option<Participant>, scale: real)
    requires pin.Some? && PinAfterMove(pin, active, scale) == None
    ensures Clamp(scale) == MinZoom
  {
  }
}
