/**
 * The two extension functions on `ImageButton` that show a step button as
 * available or not: the enabled flag plus a full or faded image alpha.
 */
module ImageButtonExt {

  const ENABLED_ALPHA: int := 0xFF
  const DISABLED_ALPHA: int := 0x3F

  /** The part of an Android `ImageButton` the stepper touches. */
  class ImageButton {
    var isEnabled: bool
    var imageAlpha: int

    /** The faded look goes with the disabled flag, the full look with the enabled one. */
    predicate LooksAsEnabled()
      reads this
    {
      (imageAlpha == ENABLED_ALPHA) == isEnabled
    }

    /** The button is in exactly the state `enable()` (when `e`) or `disable()` leaves it in. */
    predicate Shows(e: bool)
      reads this
    {
      isEnabled == e && imageAlpha == (if e then ENABLED_ALPHA else DISABLED_ALPHA)
    }

    /** A freshly inflated button: enabled and fully opaque (Android's defaults). */
    constructor ()
      ensures isEnabled && imageAlpha == ENABLED_ALPHA
    {
      isEnabled := true;
      imageAlpha := ENABLED_ALPHA;
    }

    /** `enable()`; the new state does not depend on the old one, so a second call changes nothing. */
    method Enable()
      modifies this
      ensures LooksAsEnabled() && Shows(true)
    {
      isEnabled := true;
      imageAlpha := ENABLED_ALPHA;
    }

    /** `disable()`; likewise idempotent. */
    method Disable()
      modifies this
      ensures LooksAsEnabled() && Shows(false)
    {
      isEnabled := false;
      imageAlpha := DISABLED_ALPHA;
    }
  }
}
