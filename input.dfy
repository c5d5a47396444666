// InputManager: the current and previous keyboard and gamepad snapshots, and
// edge detection over them.

module Input {

  /** The keyboard keys the game reads. */
  datatype Key = Left | Right | Up | Space | H | Escape

  /** The gamepad buttons the game reads (the d-pad directions count as buttons). */
  datatype Button = DPadLeft | DPadRight | DPadUp | A | B | Back

  /** A snapshot pair: the set of keys and buttons held down now and one frame earlier. */
  datatype InputManager = InputManager(
    currentKeyboard: set<Key>,
    previousKeyboard: set<Key>,
    currentGamePad: set<Button>,
    previousGamePad: set<Button>)

  function IsKeyDown(im: InputManager, k: Key): bool {
    k in im.currentKeyboard
  }

  function IsButtonDown(im: InputManager, b: Button): bool {
    b in im.currentGamePad
  }

  /** A key is reported pressed when it is down now and was up in the previous snapshot. */
  function WasKeyPressed(im: InputManager, k: Key): (pressed: bool)
    ensures pressed ==> IsKeyDown(im, k)
  {
    k in im.currentKeyboard && k !in im.previousKeyboard
  }

  function WasButtonPressed(im: InputManager, b: Button): (pressed: bool)
    ensures pressed ==> IsButtonDown(im, b)
  {
    b in im.currentGamePad && b !in im.previousGamePad
  }

  /** The host's per-frame shift: current moves to previous and new snapshots become current. */
  function Shift(im: InputManager, keys: set<Key>, buttons: set<Button>): InputManager {
    InputManager(keys, im.currentKeyboard, buttons, im.currentGamePad)
  }

  /** A key held in both snapshots, or up now, is never reported as pressed. */
  lemma NoPressWithoutEdge(im: InputManager, k: Key)
    requires k in im.previousKeyboard || k !in im.currentKeyboard
    ensures !WasKeyPressed(im, k)
  {
  }

  /** The same for gamepad buttons. */
  lemma NoButtonPressWithoutEdge(im: InputManager, b: Button)
    requires b in im.previousGamePad || b !in im.currentGamePad
    ensures !WasButtonPressed(im, b)
  {
  }

  /**
   * The number of frames, over a run of keyboard snapshots fed through the host's
   * shift, in which key k is reported as pressed.
   */
  function KeyPresses(im: InputManager, frames: seq<set<Key>>, k: Key): (n: nat)
    ensures n <= |frames|
    decreases |frames|
  {
    if frames == [] then 0
    else
      var next := Shift(im, frames[0], im.currentGamePad);
      (if WasKeyPressed(next, k) then 1 else 0) + KeyPresses(next, frames[1..], k)
  }

  /** While a key that is already down stays down, no further press is reported. */
  lemma {:induction false} HeldKeyNoPress(im: InputManager, frames: seq<set<Key>>, k: Key)
    requires k in im.currentKeyboard
    requires forall i :: 0 <= i < |frames| ==> k in frames[i]
    ensures KeyPresses(im, frames, k) == 0
    decreases |frames|
  {
    if frames != [] {
      var next := Shift(im, frames[0], im.currentGamePad);
      assert !WasKeyPressed(next, k);
      HeldKeyNoPress(next, frames[1..], k);
    }
  }

  /**
   * One continuous hold reports exactly one press: a key that was up and then is
   * held for one or more frames is reported pressed in exactly one of them, the first.
   */
  lemma {:induction false} ContinuousHoldPressesOnce(im: InputManager, frames: seq<set<Key>>, k: Key)
    requires k !in im.currentKeyboard
    requires |frames| >= 1
    requires forall i :: 0 <= i < |frames| ==> k in frames[i]
    ensures KeyPresses(im, frames, k) == 1
    ensures WasKeyPressed(Shift(im, frames[0], im.currentGamePad), k)
  {
    var next := Shift(im, frames[0], im.currentGamePad);
    HeldKeyNoPress(next, frames[1..], k);
  }
}
