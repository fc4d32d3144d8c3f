# IntStepperView state engine in Dafny

This project models the state engine of `IntStepperView`, an Android control
from the stepper-views library. The control shows a Kotlin `Int` and constrains
it to `minValue..maxValue`. Two buttons move it by `step`, and the user can also
type a number into the control's edit field. The model covers:

- the four guarded property setters;
- the decrease, increase and text-commit handlers;
- `applyAttrs`;
- how the two buttons' enabled state and alpha are derived (`updateButtonsState`
  with `ImageButton.enable()` / `disable()`);
- saving and restoring the state, including the parcel encoding of the four
  integers.

Modules, one per source concern:

- `KotlinInt` (kotlin_int.dfy): the 32-bit `Int` type. `Wrap32` gives the
  two's-complement wrap-around of Kotlin's `+` and `-`.
- `Decimal` (decimal.dfy): `ToDecimal` is `Int.toString()` and
  `ParseIntOrNone` is `String.toIntOrNull()`, restricted to ASCII digits. It is
  proved that the parser reads back what the printer prints.
- `ImageButtonExt` (image_button.dfy): the `ImageButton` class, with `Enable`
  and `Disable`.
- `Parcels` (parcel.dfy): the part of Android's `Parcel` that the saved state
  uses, namely `writeInt` and `readInt`.
- `StepperState` (stepper_state.dfy): the engine as pure functions. It works on
  a `State` value, which holds the four integers and the edit field's text.
  There is one function per setter and per handler, plus `AfterAttrs` for
  attribute application and `Restored` for restoration. The properties are
  proved as lemmas about these functions.
- `IntStepperView` (int_stepper_view.dfy): the `IntStepperView` class and its
  saved state `IntStepperViewState`. The four setters, the two click handlers,
  the text-commit handler and `ApplyAttrs` each promise
  `Model() == F(old(Model()))`, where `F` is the function from `StepperState`.
  `OnValueChanged` changes the displayed text and refreshes the buttons, and
  nothing else. `UpdateButtonsState` and `OnStepChanged` change only the
  buttons. `Valid()` is the class invariant.
  It requires each button to show, through `ImageButton.Shows`, the
  availability derived from the current state: enabled with alpha 0xFF, or
  disabled with alpha 0x3F. The ghost field `notified` logs every listener
  invocation.

Behaviour of the code worth knowing. In each case the model follows the code:

- **Value setter guard.** The guard compares the raw argument with the current
  value, not the clamped one. Take `value == maxValue == 10` and set the value
  to 15. The value stays 10, but the display and buttons are refreshed anyway.
- **Click handlers.** They notify the listener on every click, even when the
  clamp left the value unchanged.
- **Availability at the extremes.** `minValue + step` and `maxValue - step`
  wrap around instead of saturating. `WrappedAvailabilityMisreads` shows the
  decrease button enabled when it can do nothing. The KDoc at
  IntStepperView.kt:54-58 and 71-75 says that a button is disabled when
  `value - step < minValue` or `value + step > maxValue`. That holds only while
  those sums do not wrap.
- **Restore order.** Restoration sets the value through its setter before the
  bounds. A saved value is therefore clamped against the bounds the view has
  at that moment (`RestoreLosesValue`). `RestoreValueExactIff` gives the exact
  condition under which the value survives.
- **`maxValue` setter.** It is not the mirror image of the `minValue` setter.
  When the range is inverted, lowering the value through the clamp puts it at
  `minValue`, not at the new maximum (`MaxSetterInvertedRange`). The KDoc at
  IntStepperView.kt:71-75 says that the value is replaced with `maxValue`.
- **Range after an inverted range.** The setters keep `minValue <= value`
  (`SettersKeepMinimum`), but not `value <= maxValue`. Raising `minValue` past
  `maxValue` and lowering it again leaves the value above the ordered bounds
  (`RangeLostAfterInvertedRange`). The KDoc at IntStepperView.kt:72 says that the
  value cannot be greater than `maxValue`. From such a state an offered increase
  can wrap round onto `minValue` (`IncreaseAboveRangeWraps`), whereas the KDoc
  at IntStepperView.kt:74 has the button disabled once `value + step` passes
  `maxValue`. Restoration into such a state also escapes the exact condition of
  `RestoreValueExactIff` (`RestoreIntoInvertedRange`).
- **Text commit payload.** The listener receives the parsed number, not the
  clamped value (`CommitNotifiesParsedNumber`).

## Model

| member | source | states |
|---|---|---|
| `KotlinInt.Wrap32` | library/src/main/kotlin/dev/tonycode/stepperviews/IntStepperView.kt:164-171 | the Int result of an operation is congruent to the exact result modulo 2^32 and lies in the Int range; it is the exact result when that fits, and one modulus off when the result overflows by less than one modulus |
| `KotlinInt.Min` | library/src/main/kotlin/dev/tonycode/stepperviews/IntStepperView.kt:48 | `min` is one of its arguments and no greater than either |
| `KotlinInt.Max` | library/src/main/kotlin/dev/tonycode/stepperviews/IntStepperView.kt:48 | `max` is one of its arguments and no smaller than either |
| `Decimal.NatDigits` | library/src/main/kotlin/dev/tonycode/stepperviews/IntStepperView.kt:153 | the digits of a natural number are non-empty ASCII digits, with a leading zero only for 0, which prints as "0" |
| `Decimal.ToDecimal` | library/src/main/kotlin/dev/tonycode/stepperviews/IntStepperView.kt:153 | `Int.toString()` starts with '-' exactly for negatives, followed by digits without a leading zero |
| `Decimal.ParseIntOrNone` | library/src/main/kotlin/dev/tonycode/stepperviews/IntStepperView.kt:130 | `toIntOrNull` accepts only an optional sign followed by digits; empty text and a lone sign are rejected |
| `Decimal.ParseToDecimal` | library/src/main/kotlin/dev/tonycode/stepperviews/IntStepperView.kt:130 | parsing the displayed decimal text of any Int yields that Int |
| `Decimal.ToDecimalInjective` | library/src/main/kotlin/dev/tonycode/stepperviews/IntStepperView.kt:153 | two Ints that display the same text are equal |
| `Decimal.ParseExamples` | library/src/main/kotlin/dev/tonycode/stepperviews/IntStepperView.kt:130 | letters and spaces are rejected; a plus sign, leading zeros and "-0" are accepted |
| `Decimal.LeadingZerosValue` | library/src/main/kotlin/dev/tonycode/stepperviews/IntStepperView.kt:130 | leading zeros do not change the number a digit string denotes, as `toIntOrNull` reads them |
| `Decimal.ParseTooLarge` | library/src/main/kotlin/dev/tonycode/stepperviews/IntStepperView.kt:130 | the digits of any number beyond `Int.MAX_VALUE`, after any number of leading zeros, unsigned or after '+', parse to null |
| `Decimal.ParseTooSmall` | library/src/main/kotlin/dev/tonycode/stepperviews/IntStepperView.kt:130 | '-' followed by any number of leading zeros and the digits of a number whose negation is below `Int.MIN_VALUE` parses to null |
| `ImageButtonExt.ImageButton.Enable` | library/src/main/kotlin/dev/tonycode/stepperviews/util/ImageButtonExt.kt:6-9 | sets `isEnabled` and `imageAlpha = 0xFF`, touches nothing else, and the result does not depend on the prior state (idempotent) |
| `ImageButtonExt.ImageButton.Disable` | library/src/main/kotlin/dev/tonycode/stepperviews/util/ImageButtonExt.kt:11-14 | clears `isEnabled` and sets `imageAlpha = 0x3F`, touches nothing else, and is idempotent; after either call the alpha is 0xFF exactly when enabled |
| `Parcels.Parcel.WriteInt` | library/src/main/kotlin/dev/tonycode/stepperviews/IntStepperView.kt:250-253 | `writeInt` appends one integer to the parcel |
| `Parcels.Parcel.ReadInt` | library/src/main/kotlin/dev/tonycode/stepperviews/IntStepperView.kt:242-245 | `readInt` yields the integer at the read position and advances past it, or yields 0 at the end |
| `StepperState.Clamp` | library/src/main/kotlin/dev/tonycode/stepperviews/IntStepperView.kt:47-48 | the clamp lies within ordered bounds and is the identity inside them; below the minimum, or with an inverted range, it yields the minimum, and above an ordered range the maximum |
| `StepperState.AssignValue` | library/src/main/kotlin/dev/tonycode/stepperviews/IntStepperView.kt:43-52 | a raw argument equal to the value changes nothing; otherwise the value is clamped into ordered bounds (exactly the argument when it fits), collapses to `minValue` for an inverted range, and is displayed; bounds and step never change |
| `StepperState.AssignMinValue` | library/src/main/kotlin/dev/tonycode/stepperviews/IntStepperView.kt:60-69 | stores the bound; the value becomes `m` exactly when the bound changed and the value was below `m`, otherwise it and the text stay |
| `StepperState.AssignMaxValue` | library/src/main/kotlin/dev/tonycode/stepperviews/IntStepperView.kt:77-86 | stores the bound; when it changed and the value was above `m`, the value becomes `max(minValue, m)` and is displayed, otherwise it stays |
| `StepperState.AssignStep` | library/src/main/kotlin/dev/tonycode/stepperviews/IntStepperView.kt:91-96 | stores the step and never changes value, bounds or text |
| `StepperState.CanDecrease` | library/src/main/kotlin/dev/tonycode/stepperviews/IntStepperView.kt:166 | no contract of its own; the decrease availability formula `value >= minValue + step` with the sum wrapped as an Int |
| `StepperState.CanIncrease` | library/src/main/kotlin/dev/tonycode/stepperviews/IntStepperView.kt:169 | no contract of its own; the increase availability formula `value <= maxValue - step` with the difference wrapped as an Int |
| `StepperState.Decreased` | library/src/main/kotlin/dev/tonycode/stepperviews/IntStepperView.kt:121 | no contract of its own; the value setter applied to the wrapped `value - step` |
| `StepperState.Increased` | library/src/main/kotlin/dev/tonycode/stepperviews/IntStepperView.kt:125 | no contract of its own; the value setter applied to the wrapped `value + step` |
| `StepperState.Committed` | library/src/main/kotlin/dev/tonycode/stepperviews/IntStepperView.kt:129-134 | no contract of its own; the field takes the typed text, and a parsed number goes through the value setter |
| `StepperState.CommitNotice` | library/src/main/kotlin/dev/tonycode/stepperviews/IntStepperView.kt:129-134 | no contract of its own; the listener payload of a commit, the parsed number or nothing |
| `StepperState.AfterAttrs` | library/src/main/kotlin/dev/tonycode/stepperviews/IntStepperView.kt:137-150 | no contract of its own; each attribute through its setter, in order, unknown ones skipped |
| `StepperState.Restored` | library/src/main/kotlin/dev/tonycode/stepperviews/IntStepperView.kt:195-198 | no contract of its own; the four setters in the order value, min, max, step |
| `StepperState.SettersKeepMinimum` | library/src/main/kotlin/dev/tonycode/stepperviews/IntStepperView.kt:43-96 | from any state with `minValue <= value`, each of the four setters keeps it, inverted ranges included |
| `StepperState.HandlersKeepMinimum` | library/src/main/kotlin/dev/tonycode/stepperviews/IntStepperView.kt:120-134 | decrease, increase and text commit keep `minValue <= value` too |
| `StepperState.RangeLostAfterInvertedRange` | library/src/main/kotlin/dev/tonycode/stepperviews/IntStepperView.kt:60-86 | from the defaults, `minValue` 10, `maxValue` 5, then `minValue` 0 leave the value 10 above the ordered bounds 0..5 |
| `StepperState.SettersKeepRange` | library/src/main/kotlin/dev/tonycode/stepperviews/IntStepperView.kt:43-96 | from `minValue <= value <= maxValue`, each of the four setters keeps it whenever the bounds are still ordered afterwards |
| `StepperState.HandlersKeepRange` | library/src/main/kotlin/dev/tonycode/stepperviews/IntStepperView.kt:120-134 | decrease, increase and text commit keep the value within ordered bounds |
| `StepperState.InitialState` | library/src/main/kotlin/dev/tonycode/stepperviews/IntStepperView.kt:274-277 | the defaults 0, `Int.MIN_VALUE`, `Int.MAX_VALUE`, 1 are in range, displayed, and leave both buttons enabled |
| `StepperState.SettersKeepShown` | library/src/main/kotlin/dev/tonycode/stepperviews/IntStepperView.kt:152-155 | when the edit field showed the value, it still does after any setter |
| `StepperState.MaxSetterInvertedRange` | library/src/main/kotlin/dev/tonycode/stepperviews/IntStepperView.kt:82-84 | with `minValue` 10 and value 20, setting `maxValue` to 5 leaves the value at 10, not 5 |
| `StepperState.EnabledDecreaseDoesNotWrap` | library/src/main/kotlin/dev/tonycode/stepperviews/IntStepperView.kt:120-123 | from any state with `minValue <= value` (which every setter and handler keeps), with a positive step, a decrease the button allows never wraps: the value becomes `value - step` clamped, and exactly `value - step` when that lies within the bounds |
| `StepperState.EnabledIncreaseDoesNotWrap` | library/src/main/kotlin/dev/tonycode/stepperviews/IntStepperView.kt:124-127 | from any state with `value <= maxValue`, with a positive step, an increase the button allows never wraps: the value becomes `value + step` clamped, and exactly `value + step` when that lies within the bounds; the setters do not keep this hypothesis |
| `StepperState.IncreaseAboveRangeWraps` | library/src/main/kotlin/dev/tonycode/stepperviews/IntStepperView.kt:124-127 | a reachable state with the value above its bounds offers increase, and pressing it wraps round onto `minValue` |
| `StepperState.DecreaseAtMinimumWraps` | library/src/main/kotlin/dev/tonycode/stepperviews/IntStepperView.kt:121 | at `Int.MIN_VALUE` decrease is disabled, and a forced decrease wraps and lands on `Int.MAX_VALUE` |
| `StepperState.IncreaseAtMaximumWraps` | library/src/main/kotlin/dev/tonycode/stepperviews/IntStepperView.kt:125 | at `Int.MAX_VALUE` increase is disabled, and a forced increase wraps and lands on `Int.MIN_VALUE` |
| `StepperState.WrappedAvailabilityMisreads` | library/src/main/kotlin/dev/tonycode/stepperviews/IntStepperView.kt:164-171 | the wrapping `minValue + step` / `maxValue - step` enable a button at a one-point range at either end of Int, where pressing it changes nothing |
| `StepperState.CommitUnparsable` | library/src/main/kotlin/dev/tonycode/stepperviews/IntStepperView.kt:129-134 | text that is not an Int leaves every property unchanged and notifies nobody |
| `StepperState.CommitShownText` | library/src/main/kotlin/dev/tonycode/stepperviews/IntStepperView.kt:129-134 | committing the displayed text leaves the state unchanged but still notifies the value |
| `StepperState.CommitNotifiesParsedNumber` | library/src/main/kotlin/dev/tonycode/stepperviews/IntStepperView.kt:130-133 | with bounds 0..10, committing "15" sets the value to 10 but notifies 15 |
| `StepperState.AfterAttrsLastWins` | library/src/main/kotlin/dev/tonycode/stepperviews/IntStepperView.kt:137-150 | after attribute application, each bound and the step hold the last value given for them, or their prior value when none is given |
| `StepperState.AfterAttrsKeepShown` | library/src/main/kotlin/dev/tonycode/stepperviews/IntStepperView.kt:137-150 | attribute application keeps the edit field showing the value |
| `StepperState.RestoreBoundsExact` | library/src/main/kotlin/dev/tonycode/stepperviews/IntStepperView.kt:195-198 | restoration always reinstates the saved bounds and step, and keeps the field showing the value |
| `StepperState.RestoreValueExactIff` | library/src/main/kotlin/dev/tonycode/stepperviews/IntStepperView.kt:195-198 | from a view whose value lies within ordered bounds, a valid saved value is restored exactly iff it fits the bounds current at restore time, or it is below the current minimum and equals the saved maximum, or above the current maximum and equals the saved minimum |
| `StepperState.RestoreIntoInvertedRange` | library/src/main/kotlin/dev/tonycode/stepperviews/IntStepperView.kt:195-198 | outside that hypothesis the condition fails both ways: over bounds 10..5 left by the attributes, a saved 10 comes back although it does not fit, and a saved 6 equal to its saved minimum comes back as 7 |
| `StepperState.RestoreOwnState` | library/src/main/kotlin/dev/tonycode/stepperviews/IntStepperView.kt:189-198 | restoring a view's own state into it changes nothing, whatever that state |
| `StepperState.RestoreLosesValue` | library/src/main/kotlin/dev/tonycode/stepperviews/IntStepperView.kt:195-198 | a value of 50 saved with bounds 0..100, restored into a view with bounds 0..10, comes back as 10 |
| `IntStepperView.IntStepperView.constructor` | library/src/main/kotlin/dev/tonycode/stepperviews/IntStepperView.kt:107-118 | the initial state is the defaults with "0" displayed, then the attributes applied; the buttons are consistent; nothing is notified |
| `IntStepperView.IntStepperView.SetValue` | library/src/main/kotlin/dev/tonycode/stepperviews/IntStepperView.kt:43-52 | the new state is `AssignValue` of the old; on the guarded path the buttons are untouched, otherwise they are refreshed; no notification |
| `IntStepperView.IntStepperView.SetMinValue` | library/src/main/kotlin/dev/tonycode/stepperviews/IntStepperView.kt:60-69 | the new state is `AssignMinValue` of the old; the buttons show the new availability with matching alpha, and are untouched when the bound is unchanged; no notification |
| `IntStepperView.IntStepperView.SetMaxValue` | library/src/main/kotlin/dev/tonycode/stepperviews/IntStepperView.kt:77-86 | the new state is `AssignMaxValue` of the old; the buttons show the new availability with matching alpha, and are untouched when the bound is unchanged; no notification |
| `IntStepperView.IntStepperView.SetStep` | library/src/main/kotlin/dev/tonycode/stepperviews/IntStepperView.kt:91-96 | the new state is `AssignStep` of the old; the buttons show the availability under the new step with matching alpha, and are untouched when the step is unchanged; no notification |
| `IntStepperView.IntStepperView.OnDecreaseClick` | library/src/main/kotlin/dev/tonycode/stepperviews/IntStepperView.kt:120-123 | the value setter receives the wrapping `value - step`, then the resulting value is appended to the listener log exactly once |
| `IntStepperView.IntStepperView.OnIncreaseClick` | library/src/main/kotlin/dev/tonycode/stepperviews/IntStepperView.kt:124-127 | the value setter receives the wrapping `value + step`, then the resulting value is appended to the listener log exactly once |
| `IntStepperView.IntStepperView.OnTextCommitted` | library/src/main/kotlin/dev/tonycode/stepperviews/IntStepperView.kt:129-134 | unparsable text changes nothing but the field and logs nothing; a number goes through the value setter and is logged as parsed |
| `IntStepperView.IntStepperView.ApplyAttrs` | library/src/main/kotlin/dev/tonycode/stepperviews/IntStepperView.kt:137-150 | the loop feeds each attribute in order through its setter (unknown ones are skipped), reaching `AfterAttrs` of the old state; no notification |
| `IntStepperView.IntStepperView.OnValueChanged` | library/src/main/kotlin/dev/tonycode/stepperviews/IntStepperView.kt:152-155 | displays the given value's decimal text and makes the buttons consistent |
| `IntStepperView.IntStepperView.OnStepChanged` | library/src/main/kotlin/dev/tonycode/stepperviews/IntStepperView.kt:157-159 | makes the buttons consistent with the current state |
| `IntStepperView.IntStepperView.UpdateButtonsState` | library/src/main/kotlin/dev/tonycode/stepperviews/IntStepperView.kt:164-171 | decrease enabled iff `value >= minValue + step`, increase enabled iff `value <= maxValue - step`, both in wrapping Int arithmetic; an enabled button has alpha 0xFF and a disabled one 0x3F |
| `IntStepperView.IntStepperView.OnSaveInstanceState` | library/src/main/kotlin/dev/tonycode/stepperviews/IntStepperView.kt:174-187 | a new snapshot holds the container state (an empty bundle when there is none), the four integers, and the children's states |
| `IntStepperView.IntStepperView.OnRestoreInstanceState` | library/src/main/kotlin/dev/tonycode/stepperviews/IntStepperView.kt:189-204 | a foreign state changes nothing and goes to the container; an own state gives `Restored` (setters in order value, min, max, step) and hands on the container and the children states; no notification |
| `IntStepperView.IntStepperViewState.constructor` | library/src/main/kotlin/dev/tonycode/stepperviews/IntStepperView.kt:225-236 | a new snapshot holds the defaults and no children states |
| `IntStepperView.IntStepperViewState.FromParcel` | library/src/main/kotlin/dev/tonycode/stepperviews/IntStepperView.kt:241-246 | reads value, minValue, maxValue, step in that order from the parcel; children states are empty |
| `IntStepperView.IntStepperViewState.WriteToParcel` | library/src/main/kotlin/dev/tonycode/stepperviews/IntStepperView.kt:248-254 | appends value, minValue, maxValue, step in that order |
| `IntStepperView.ParcelRoundTrip` | library/src/main/kotlin/dev/tonycode/stepperviews/IntStepperView.kt:241-265 | writing a snapshot and creating one from that parcel reproduces all four integers, and the children states come back empty |

## Left out

- View inflation, orientation and gravity (IntStepperView.kt:108-111) are rendering, not state.
- `TypedArray` mechanics are left out. Attributes arrive as a sequence of (kind, value) pairs in the typed array's order. The model keeps only the order in which they reach the setters.
- The contents of the container's super state are not modelled. It is an opaque value passed through unchanged. Its own parcelling by `BaseSavedState` is not modelled either, so `FromParcel` receives it as a parameter.
- The children's persisted states are opaque values. The `SparseArray` traversal of `saveHierarchyState`/`restoreHierarchyState` and `dispatchFreezeSelfOnly`/`dispatchThawSelfOnly` (IntStepperView.kt:182-184, 201-203, 209-218) are framework behaviour. The model takes the children's saved map as a parameter and returns the map handed back to them.
- `CREATOR.newArray` and `toString` have no behaviour worth modelling.
- The change listener is an arbitrary callback, so re-entrant calls from it are not modelled. The model uses the ghost log `notified` of the values each `onChangeListener?.invoke` is called with. With no listener registered, those calls go nowhere.
- `toIntOrNull` also accepts non-ASCII Unicode digits. The model accepts only ASCII digits.
- `Parcel` is modelled as an append-only sequence of ints with a separate read cursor. Android's single data position and `setDataPosition` are not modelled.
- The edit field's own editing is not modelled. The text-commit event carries the text the field holds at that moment. The library's `dev.tonycode.stepperviews.util.onTextChangedFromUi` fires that event (imported at IntStepperView.kt:17, used at :129); its file is not part of this model. The demo's EditTextExt.kt serves only the demo's own text inputs (MainActivity.kt:33-52) and is outside the model, as is the demo activity that wires those inputs to the setters.
- `build.gradle.kts` is build configuration with no behaviour.
- IntStepperView.IntStepperView.OnRestoreInstanceState: its contract describes the state after the four setters (IntStepperView.kt:195-198). The restore of the children's states that follows (IntStepperView.kt:201-203) can overwrite the edit field's text with the text saved with the snapshot. The model does not capture that, so the contract's `text` is the text before that step. `RestoreBoundsExact`'s clause that the field shows the value likewise covers only the setter phase.
- IntStepperView.IntStepperViewState.FromParcel: its contract says where the read cursor ends only when the parcel still holds four integers. On a short parcel it pins down only the values read, which are 0 past the end.
