/**
 * Values and constants of the Android platform that the device facade consults:
 * the build description (SDK level, brand, which hidden methods exist), the
 * framework constants it passes along, Java's 32-bit `int`, and Java's
 * `String.equalsIgnoreCase`.
 */
module Platform {

  /** Build.VERSION_CODES.Q: Android 10. */
  const Q: int := 29
  /** Build.VERSION_CODES.UPSIDE_DOWN_CAKE: Android 14. */
  const UPSIDE_DOWN_CAKE: int := 34

  /** SurfaceControl.POWER_MODE_OFF and POWER_MODE_NORMAL. */
  const POWER_MODE_OFF: int := 0
  const POWER_MODE_NORMAL: int := 2

  /** InputManager.INJECT_INPUT_EVENT_MODE_*. */
  const INJECT_MODE_ASYNC: int := 0
  const INJECT_MODE_WAIT_FOR_RESULT: int := 1
  const INJECT_MODE_WAIT_FOR_FINISH: int := 2

  /** KeyEvent and InputDevice constants used to build synthetic key events. */
  const ACTION_DOWN: int := 0
  const ACTION_UP: int := 1
  const KEYCODE_POWER: int := 26
  const VIRTUAL_KEYBOARD: int := -1
  const SOURCE_KEYBOARD: int := 0x101

  /** Java's `int`. */
  newtype int32 = x: int | -0x8000_0000 <= x < 0x8000_0000

  /** The two's-complement bit pattern of a Java `int`. */
  function Bits(x: int32): (b: bv32) {
    ((x as int) % 0x1_0000_0000) as bv32
  }

  /** The Java `int` whose bit pattern is `b`. */
  function FromBits(b: bv32): (x: int32) {
    if b < 0x8000_0000 then (b as int) as int32 else ((b as int) - 0x1_0000_0000) as int32
  }

  /**
   * What the facade reads from `Build` and from the reflective probes of
   * SurfaceControl: the SDK level, the brand, and whether the hidden methods
   * `getBuiltInDisplay` and `getPhysicalDisplayIds` exist on this build.
   */
  datatype Build = Build(
    sdk: int,
    brand: string,
    hasGetBuiltInDisplayMethod: bool,
    hasGetPhysicalDisplayIdsMethod: bool)

  /** ASCII lower-casing of one character. */
  function LowerAscii(c: char): (lc: char) {
    if 'A' <= c <= 'Z' then (c as int + 32) as char else c
  }

  /** `a.equalsIgnoreCase(b)`, compared character by character. */
  function EqualsIgnoreCase(a: string, b: string): (eq: bool)
    decreases |a|
  {
    |a| == |b| && (|a| == 0 || (LowerAscii(a[0]) == LowerAscii(b[0]) && EqualsIgnoreCase(a[1..], b[1..])))
  }

  /** Two strings are equal ignoring case iff they have the same length and agree position by position once lower-cased. */
  lemma {:induction false} EqualsIgnoreCaseIff(a: string, b: string)
    ensures EqualsIgnoreCase(a, b) <==>
      |a| == |b| && forall i :: 0 <= i < |a| ==> LowerAscii(a[i]) == LowerAscii(b[i])
    decreases |a|
  {
    if |a| == |b| && |a| > 0 {
      EqualsIgnoreCaseIff(a[1..], b[1..]);
      assert forall i :: 1 <= i < |a| ==> a[1..][i - 1] == a[i] && b[1..][i - 1] == b[i];
    }
  }

  /** Equality ignoring case is symmetric. */
  lemma {:induction false} EqualsIgnoreCaseSymmetric(a: string, b: string)
    ensures EqualsIgnoreCase(a, b) == EqualsIgnoreCase(b, a)
    decreases |a|
  {
    if |a| == |b| && |a| > 0 {
      EqualsIgnoreCaseSymmetric(a[1..], b[1..]);
    }
  }

  /** Every string equals itself ignoring case. */
  lemma {:induction false} EqualsIgnoreCaseReflexive(a: string)
    ensures EqualsIgnoreCase(a, a)
    decreases |a|
  {
    if |a| > 0 {
      EqualsIgnoreCaseReflexive(a[1..]);
    }
  }
}
