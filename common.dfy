/**
 * Shared vocabulary of the bot model: optional values and error results,
 * the emulator's buttons and input log, the coarse game phase, and the
 * little-endian integer fields that the game keeps in its save blocks.
 */
module Common {

  datatype Option<T> = None | Some(value: T)

  datatype Result<T, E> = Ok(value: T) | Err(error: E)

  type byte = bv8

  /** The buttons of the emulated handheld. */
  datatype Button = A | B | Select | Start | Up | Down | Left | Right | L | R

  /**
   * One entry of the emulator's input log: a single-frame press, a button
   * held until released, releasing every held button, or the end of a
   * frame (a `yield` of the scripted routine).
   */
  datatype Input = Press(button: Button) | Hold(button: Button) | ReleaseAll | Frame

  /** The coarse phase of the game loop, as far as the bot distinguishes it. */
  datatype GameState = Overworld | BattleStarting | Battle | BattleEnding | OtherState

  /** Little-endian unsigned 16-bit field. */
  function Unpack16(b: seq<byte>): bv16
    requires |b| == 2
  {
    (b[0] as bv16) | ((b[1] as bv16) << 8)
  }

  /** Little-endian unsigned 32-bit field. */
  function Unpack32(b: seq<byte>): bv32
    requires |b| == 4
  {
    (b[0] as bv32) | ((b[1] as bv32) << 8) | ((b[2] as bv32) << 16) | ((b[3] as bv32) << 24)
  }

  function Pack16(x: bv16): (r: seq<byte>)
    ensures |r| == 2 && Unpack16(r) == x
  {
    [(x & 0xFF) as bv8, ((x >> 8) & 0xFF) as bv8]
  }

  function Pack32(x: bv32): (r: seq<byte>)
    ensures |r| == 4 && Unpack32(r) == x
  {
    [(x & 0xFF) as bv8, ((x >> 8) & 0xFF) as bv8, ((x >> 16) & 0xFF) as bv8, ((x >> 24) & 0xFF) as bv8]
  }

  /** Python's `s[i:j]` for non-negative bounds: both ends are clamped to the length. */
  function Slice<T>(s: seq<T>, i: nat, j: nat): (r: seq<T>)
    ensures i <= j <= |s| ==> r == s[i..j]
    ensures |r| == (if j <= i || i >= |s| then 0 else (if j < |s| then j else |s|) - i)
  {
    var hi := if j < |s| then j else |s|;
    if i >= hi then [] else s[i..hi]
  }

  /** Python's `s[:k]`: a negative `k` counts from the end, and the result is clamped to the sequence. */
  function SliceTo<T>(s: seq<T>, k: int): (r: seq<T>)
    ensures 0 <= k <= |s| ==> r == s[..k]
    ensures k >= |s| ==> r == s
    ensures r <= s
  {
    if k >= |s| then s
    else if k >= 0 then s[..k]
    else if |s| + k >= 0 then s[..|s| + k]
    else []
  }
}
