/** The nullable values of the meeting state (`string | null`, `MediaStream | null`, `PinchState | null`). */
module Optional {
  datatype Option<+T> = None | Some(value: T)
}
