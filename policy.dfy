/**
 * The decisions of the device facade that are plain expressions over the
 * build: which displays accept injected input, whether a power-mode change
 * addresses every physical display, which service enumerates them, the
 * rotation toggle, and the non-short-circuit conjunction of per-display
 * results.
 */
module Policy {
  import opened Platform

  /** `supportsInputEvents`: the default display always; any other display from Android 10 on. */
  function SupportsInputEvents(sdk: int, displayId: int): (r: bool)
    ensures displayId == 0 ==> r
    ensures displayId != 0 ==> (r <==> sdk >= Q)
  {
    displayId == 0 || sdk >= Q
  }

  /** The Honor workaround: an Android 14 Honor build that still has `getBuiltInDisplay`. */
  predicate IsHonorAndroid14(b: Build) {
    b.sdk >= UPSIDE_DOWN_CAKE && EqualsIgnoreCase(b.brand, "honor") && b.hasGetBuiltInDisplayMethod
  }

  /**
   * Whether `setScreenPowerMode` changes every physical display: first decided
   * by the SDK level, then switched off for the Honor workaround.
   */
  function ApplyToMultiPhysicalDisplays(b: Build): (multi: bool)
    ensures multi <==> b.sdk >= Q && !IsHonorAndroid14(b)
    ensures b.sdk < Q ==> !multi
  {
    var byVersion := b.sdk >= Q;
    if byVersion && b.sdk >= UPSIDE_DOWN_CAKE && EqualsIgnoreCase(b.brand, "honor") && b.hasGetBuiltInDisplayMethod
    then false
    else byVersion
  }

  /** Whether the physical displays are enumerated through DisplayControl rather than SurfaceControl. */
  function UseDisplayControl(b: Build): (r: bool)
    ensures r ==> b.sdk >= UPSIDE_DOWN_CAKE
    ensures b.sdk >= UPSIDE_DOWN_CAKE ==> (r <==> !b.hasGetPhysicalDisplayIdsMethod)
  {
    b.sdk >= UPSIDE_DOWN_CAKE && !b.hasGetPhysicalDisplayIdsMethod
  }

  /**
   * On an Android 14+ build that has `getBuiltInDisplay`, the Honor workaround
   * applies exactly to the brands that spell "honor" in any capitalisation.
   */
  lemma HonorDowngradeIff(b: Build)
    requires b.sdk >= UPSIDE_DOWN_CAKE && b.hasGetBuiltInDisplayMethod
    ensures !ApplyToMultiPhysicalDisplays(b) <==>
      |b.brand| == 5 && forall i :: 0 <= i < 5 ==> LowerAscii(b.brand[i]) == "honor"[i]
  {
    EqualsIgnoreCaseIff(b.brand, "honor");
  }

  /** The rotation requested by `rotateDevice`: `(currentRotation & 1) ^ 1` on Java `int`s. */
  function NewRotation(r: int32): (n: int32)
    ensures n == 0 || n == 1
    ensures n == 1 <==> Bits(r) & 1 == 0
  {
    FromBits((Bits(r) & 1) ^ 1)
  }

  /** On the four quarter-turn rotations the toggle maps 0 to 1, 1 to 0, 2 to 1 and 3 to 0. */
  lemma NewRotationTable()
    ensures NewRotation(0) == 1 && NewRotation(1) == 0
    ensures NewRotation(2) == 1 && NewRotation(3) == 0
  {
  }

  /** Toggling twice lands on `r & 1`: the canonical rotation with the parity of `r`. */
  lemma RotateTwiceKeepsParity(r: int32)
    ensures NewRotation(NewRotation(r)) == FromBits(Bits(r) & 1)
    ensures Bits(NewRotation(NewRotation(r))) & 1 == Bits(r) & 1
  {
  }

  /** `allOk &= result` over a sequence of results, from the first to the last. */
  function AllOk(results: seq<bool>): (ok: bool)
    decreases |results|
  {
    if results == [] then true else AllOk(results[..|results| - 1]) && results[|results| - 1]
  }

  /** One more result is ANDed onto the accumulated ones. */
  lemma AllOkSnoc(results: seq<bool>, r: bool)
    ensures AllOk(results + [r]) == (AllOk(results) && r)
  {
    assert (results + [r])[..|results|] == results;
  }

  /** The accumulated result is true iff every single result is. */
  lemma {:induction false} AllOkIff(results: seq<bool>)
    ensures AllOk(results) <==> forall i :: 0 <= i < |results| ==> results[i]
    decreases |results|
  {
    if results != [] {
      var init := results[..|results| - 1];
      AllOkIff(init);
      assert forall i :: 0 <= i < |init| ==> init[i] == results[i];
    }
  }
}
