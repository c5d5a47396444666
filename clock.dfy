// The game clock handed to every update, and an optional value for fields
// that may still be null.

module Clock {

  datatype Option<T> = None | Some(value: T)

  /**
   * XNA's GameTime: the total game time in seconds and the milliseconds
   * elapsed since the previous frame.
   */
  datatype GameTime = GameTime(totalSeconds: real, elapsedMilliseconds: real)
}
