/**
 * The state engine of `IntStepperView` as values: its four `Int` properties
 * and the text its edit field shows, and what each property setter, each
 * input handler, attribute application and state restoration make of them.
 * The class in module IntStepperView is proved to follow these functions.
 */
module StepperState {
  import opened Wrappers
  import opened KotlinInt
  import opened Decimal

  const DEFAULT_VALUE: Int32 := 0
  const DEFAULT_MIN_VALUE: Int32 := INT_MIN
  const DEFAULT_MAX_VALUE: Int32 := INT_MAX
  const DEFAULT_STEP: Int32 := 1

  datatype State = State(value: Int32, minValue: Int32, maxValue: Int32, step: Int32, text: string)

  /** The state right after the view is inflated and the default value is displayed. */
  const INITIAL: State :=
    State(DEFAULT_VALUE, DEFAULT_MIN_VALUE, DEFAULT_MAX_VALUE, DEFAULT_STEP, ToDecimal(DEFAULT_VALUE))

  predicate InRange(s: State) {
    s.minValue <= s.value <= s.maxValue
  }

  /** The edit field shows the current value. */
  predicate ShowsValue(s: State) {
    s.text == ToDecimal(s.value)
  }

  /** `max(minValue, min(v, maxValue))`: the upper bound is applied first, then the lower one. */
  function Clamp(v: Int32, lo: Int32, hi: Int32): (r: Int32)
    ensures lo <= hi ==> lo <= r <= hi
    ensures lo <= v <= hi ==> r == v
    ensures v < lo || hi < lo ==> r == lo
    ensures lo <= hi < v ==> r == hi
  {
    Max(lo, Min(v, hi))
  }

  // ---- property setters -------------------------------------------------

  /**
   * The `value` setter.  The guard compares the raw argument with the
   * current value; past it the clamped value is stored and displayed.
   */
  function AssignValue(s: State, v: Int32): (r: State)
    ensures r.minValue == s.minValue && r.maxValue == s.maxValue && r.step == s.step
    ensures v == s.value ==> r == s
    ensures v != s.value ==> ShowsValue(r)
    ensures v != s.value && s.minValue <= s.maxValue ==>
      InRange(r) && (s.minValue <= v <= s.maxValue ==> r.value == v)
    ensures v != s.value && v < s.minValue ==> r.value == s.minValue
    ensures v != s.value && s.minValue <= s.maxValue < v ==> r.value == s.maxValue
    ensures v != s.value && s.maxValue < s.minValue ==> r.value == s.minValue
  {
    if s.value == v then s
    else
      var clamped := Clamp(v, s.minValue, s.maxValue);
      s.(value := clamped, text := ToDecimal(clamped))
  }

  /** The `minValue` setter: store the bound, then lift the value to it through the value setter. */
  function AssignMinValue(s: State, m: Int32): (r: State)
    ensures r.minValue == m && r.maxValue == s.maxValue && r.step == s.step
    ensures r.value == if s.minValue != m && s.value < m then m else s.value
    ensures r.text == if s.minValue != m && s.value < m then ToDecimal(m) else s.text
  {
    if s.minValue == m then s
    else
      var t := s.(minValue := m);
      if t.value < m then AssignValue(t, m) else t
  }

  /**
   * The `maxValue` setter.  The value is lowered through the value setter,
   * which clamps `m` against `minValue` again: with an inverted range the
   * value ends up at `minValue`, not at `m`.
   */
  function AssignMaxValue(s: State, m: Int32): (r: State)
    ensures r.maxValue == m && r.minValue == s.minValue && r.step == s.step
    ensures r.value == if s.maxValue != m && s.value > m then Max(s.minValue, m) else s.value
    ensures r.text == if s.maxValue != m && s.value > m then ToDecimal(Max(s.minValue, m)) else s.text
  {
    if s.maxValue == m then s
    else
      var t := s.(maxValue := m);
      if t.value > m then AssignValue(t, m) else t
  }

  /** The `step` setter: only the step changes (and the buttons, which derive from it). */
  function AssignStep(s: State, st: Int32): (r: State)
    ensures r.step == st
    ensures r.value == s.value && r.minValue == s.minValue && r.maxValue == s.maxValue
    ensures r.text == s.text
  {
    if s.step == st then s else s.(step := st)
  }

  // ---- button availability ---------------------------------------------

  /** Decrease is offered when `value >= minValue + step`, the sum taken as a wrapping `Int`. */
  predicate CanDecrease(s: State) {
    s.value >= Wrap32(s.minValue + s.step)
  }

  /** Increase is offered when `value <= maxValue - step`, the difference taken as a wrapping `Int`. */
  predicate CanIncrease(s: State) {
    s.value <= Wrap32(s.maxValue - s.step)
  }

  // ---- input handlers ---------------------------------------------------

  /** The decrease click handler's state change: `value -= step`, a wrapping `Int` subtraction. */
  function Decreased(s: State): State {
    AssignValue(s, Wrap32(s.value - s.step))
  }

  /** The increase click handler's state change: `value += step`, a wrapping `Int` addition. */
  function Increased(s: State): State {
    AssignValue(s, Wrap32(s.value + s.step))
  }

  /**
   * The text-commit handler's state change: the edit field holds `typed`;
   * when it parses, the number goes through the value setter.
   */
  function Committed(s: State, typed: string): State {
    var t := s.(text := typed);
    match ParseIntOrNone(typed)
    case None => t
    case Some(n) => AssignValue(t, n)
  }

  /** What the text-commit handler hands to the listener: the parsed number itself. */
  function CommitNotice(typed: string): seq<int> {
    match ParseIntOrNone(typed)
    case None => []
    case Some(n) => [n]
  }

  // ---- attribute application -------------------------------------------

  datatype AttrKind = IsvValue | IsvMinValue | IsvMaxValue | IsvStep | OtherAttr

  type Attr = (AttrKind, Int32)

  /** One iteration of `applyAttrs`: the attribute goes through its property's setter. */
  function AfterAttr(s: State, a: Attr): State {
    match a.0
    case IsvValue => AssignValue(s, a.1)
    case IsvMinValue => AssignMinValue(s, a.1)
    case IsvMaxValue => AssignMaxValue(s, a.1)
    case IsvStep => AssignStep(s, a.1)
    case OtherAttr => s
  }

  /** `applyAttrs`: the attributes in the order the typed array lists them. */
  function AfterAttrs(s: State, attrs: seq<Attr>): State
    decreases |attrs|
  {
    if attrs == [] then s else AfterAttrs(AfterAttr(s, attrs[0]), attrs[1..])
  }

  /** The last value given for attribute `k`, or `d` when there is none. */
  function LastAttr(attrs: seq<Attr>, k: AttrKind, d: Int32): Int32
    decreases |attrs|
  {
    if attrs == [] then d else LastAttr(attrs[1..], k, if attrs[0].0 == k then attrs[0].1 else d)
  }

  // ---- state restoration ------------------------------------------------

  /** `onRestoreInstanceState` for this view's own state: the setters in the order value, min, max, step. */
  function Restored(s: State, v: Int32, mn: Int32, mx: Int32, st: Int32): State {
    AssignStep(AssignMaxValue(AssignMinValue(AssignValue(s, v), mn), mx), st)
  }

  // ---- properties -------------------------------------------------------

  /** With ordered bounds after the call, every setter keeps the value within them. */
  lemma SettersKeepRange(s: State, x: Int32)
    requires InRange(s)
    ensures InRange(AssignValue(s, x))
    ensures x <= s.maxValue ==> InRange(AssignMinValue(s, x))
    ensures s.minValue <= x ==> InRange(AssignMaxValue(s, x))
    ensures InRange(AssignStep(s, x))
  {
  }

  /** The click and text-commit handlers, funnelled through the value setter, keep the range too. */
  lemma HandlersKeepRange(s: State, typed: string)
    requires InRange(s)
    ensures InRange(Decreased(s)) && InRange(Increased(s)) && InRange(Committed(s, typed))
  {
  }

  /** The defaults are within range, and both buttons start enabled. */
  lemma InitialState()
    ensures InRange(INITIAL) && ShowsValue(INITIAL)
    ensures CanDecrease(INITIAL) && CanIncrease(INITIAL)
  {
  }

  /** Whenever the edit field showed the value, every setter keeps it so. */
  lemma SettersKeepShown(s: State, x: Int32)
    requires ShowsValue(s)
    ensures ShowsValue(AssignValue(s, x)) && ShowsValue(AssignMinValue(s, x))
    ensures ShowsValue(AssignMaxValue(s, x)) && ShowsValue(AssignStep(s, x))
  {
  }

  /** The `maxValue` setter with an inverted range does not put the value at the new bound. */
  lemma MaxSetterInvertedRange()
    ensures AssignMaxValue(State(20, 10, 30, 1, "20"), 5).value == 10
  {
  }

  /**
   * The setters never take the value below `minValue`: unlike the upper
   * bound, this half of the range survives an inverted range, and so do
   * the handlers built on the value setter.
   */
  lemma SettersKeepMinimum(s: State, x: Int32)
    requires s.minValue <= s.value
    ensures AssignValue(s, x).minValue <= AssignValue(s, x).value
    ensures AssignMinValue(s, x).minValue <= AssignMinValue(s, x).value
    ensures AssignMaxValue(s, x).minValue <= AssignMaxValue(s, x).value
    ensures AssignStep(s, x).minValue <= AssignStep(s, x).value
  {
  }

  /** The handlers, funnelled through the value setter, keep `minValue <= value` as well. */
  lemma HandlersKeepMinimum(s: State, typed: string)
    requires s.minValue <= s.value
    ensures Decreased(s).minValue <= Decreased(s).value
    ensures Increased(s).minValue <= Increased(s).value
    ensures Committed(s, typed).minValue <= Committed(s, typed).value
  {
    SettersKeepMinimum(s, Wrap32(s.value - s.step));
    SettersKeepMinimum(s, Wrap32(s.value + s.step));
    var n := ParseIntOrNone(typed);
    if n.Some? {
      SettersKeepMinimum(s.(text := typed), n.value);
    }
  }

  /**
   * The upper half of the range does not survive: raising `minValue` past
   * `maxValue` and lowering it again leaves the value above the ordered
   * bounds 0..5.
   */
  lemma RangeLostAfterInvertedRange()
    ensures var t := AssignMinValue(AssignMaxValue(AssignMinValue(INITIAL, 10), 5), 0);
      t.value == 10 && t.minValue == 0 && t.maxValue == 5 && !InRange(t)
  {
  }

  /**
   * With a positive step, an enabled decrease never wraps the value: it
   * moves to `value - step` clamped to the bounds, exactly `value - step`
   * when that is still within them.  Only `minValue <= value` is needed,
   * which every setter and handler keeps
   * (`SettersKeepMinimum`, `HandlersKeepMinimum`).
   */
  lemma EnabledDecreaseDoesNotWrap(s: State)
    requires s.minValue <= s.value && 0 < s.step && CanDecrease(s)
    ensures INT_MIN <= s.value - s.step
    ensures Decreased(s).value == Clamp(s.value - s.step, s.minValue, s.maxValue)
    ensures s.minValue <= s.value - s.step <= s.maxValue ==> Decreased(s).value == s.value - s.step
  {
    assert INT_MIN <= s.value - s.step by {
      if s.minValue + s.step > INT_MAX {
        assert s.value >= s.minValue > INT_MAX - s.step;
      } else {
        assert s.value >= s.minValue + s.step;
      }
    }
  }

  /**
   * The mirror image for an enabled increase, which needs `value <= maxValue`:
   * a hypothesis the setters do not keep (`IncreaseAboveRangeWraps`).
   */
  lemma EnabledIncreaseDoesNotWrap(s: State)
    requires s.value <= s.maxValue && 0 < s.step && CanIncrease(s)
    ensures s.value + s.step <= INT_MAX
    ensures Increased(s).value == Clamp(s.value + s.step, s.minValue, s.maxValue)
    ensures s.minValue <= s.value + s.step <= s.maxValue ==> Increased(s).value == s.value + s.step
  {
    assert s.value + s.step <= INT_MAX by {
      if s.maxValue - s.step < INT_MIN {
        assert s.value <= s.maxValue < INT_MIN + s.step;
      } else {
        assert s.value <= s.maxValue - s.step;
      }
    }
  }

  /**
   * From the defaults, set `minValue` to `Int.MAX_VALUE - 16`, `maxValue` to
   * `Int.MIN_VALUE + 10`, `minValue` to `Int.MIN_VALUE + 5` and `step` to 20:
   * the value stays at `Int.MAX_VALUE - 16`, above the bounds, increase is
   * offered, and pressing it wraps round onto `minValue`.
   */
  lemma IncreaseAboveRangeWraps()
    ensures var t := AssignStep(AssignMinValue(AssignMaxValue(AssignMinValue(INITIAL,
                       INT_MAX - 16), INT_MIN + 10), INT_MIN + 5), 20);
      t.value == INT_MAX - 16 && t.minValue == INT_MIN + 5 && t.maxValue == INT_MIN + 10 &&
      CanIncrease(t) && Increased(t).value == INT_MIN + 5
  {
  }

  /** Forced while disabled, decrease at `Int.MIN_VALUE` wraps round and lands on `maxValue`. */
  lemma DecreaseAtMinimumWraps()
    ensures !CanDecrease(State(INT_MIN, INT_MIN, INT_MAX, 1, "-2147483648"))
    ensures Decreased(State(INT_MIN, INT_MIN, INT_MAX, 1, "-2147483648")).value == INT_MAX
  {
  }

  /** Forced while disabled, increase at `Int.MAX_VALUE` wraps round and lands on `minValue`. */
  lemma IncreaseAtMaximumWraps()
    ensures !CanIncrease(State(INT_MAX, INT_MIN, INT_MAX, 1, "2147483647"))
    ensures Increased(State(INT_MAX, INT_MIN, INT_MAX, 1, "2147483647")).value == INT_MIN
  {
  }

  /**
   * The wrapped sum makes availability read wrong at the extremes: with
   * `minValue == value == maxValue == Int.MAX_VALUE` decrease is offered
   * although pressing it leaves the value where it is.
   */
  lemma WrappedAvailabilityMisreads()
    ensures CanDecrease(State(INT_MAX, INT_MAX, INT_MAX, 1, "2147483647"))
    ensures Decreased(State(INT_MAX, INT_MAX, INT_MAX, 1, "2147483647")).value == INT_MAX
    ensures CanIncrease(State(INT_MIN, INT_MIN, INT_MIN, 1, "-2147483648"))
    ensures Increased(State(INT_MIN, INT_MIN, INT_MIN, 1, "-2147483648")).value == INT_MIN
  {
  }

  /** Text that is not an `Int` changes nothing but the edit field, and notifies nobody. */
  lemma CommitUnparsable(s: State, typed: string)
    requires ParseIntOrNone(typed) == None
    ensures Committed(s, typed) == s.(text := typed)
    ensures CommitNotice(typed) == []
  {
  }

  /**
   * Committing the text the field already shows changes nothing, yet the
   * listener still hears the value.
   */
  lemma CommitShownText(s: State)
    requires ShowsValue(s)
    ensures Committed(s, s.text) == s
    ensures CommitNotice(s.text) == [s.value]
  {
    ParseToDecimal(s.value);
  }

  /** The listener hears the number typed, not the value it was clamped to. */
  lemma CommitNotifiesParsedNumber()
    ensures Committed(State(0, 0, 10, 1, "0"), "15").value == 10
    ensures CommitNotice("15") == [15]
  {
    ParseToDecimal(15);
    assert DigitChar(1) == '1' && DigitChar(5) == '5';
    assert NatDigits(15) == NatDigits(1) + [DigitChar(5)] == "15";
    assert ToDecimal(15) == "15";
  }

  /**
   * Attribute application leaves each bound and the step at the last value
   * given for it (the default when none is given).
   */
  lemma {:induction false} AfterAttrsLastWins(s: State, attrs: seq<Attr>)
    ensures AfterAttrs(s, attrs).minValue == LastAttr(attrs, IsvMinValue, s.minValue)
    ensures AfterAttrs(s, attrs).maxValue == LastAttr(attrs, IsvMaxValue, s.maxValue)
    ensures AfterAttrs(s, attrs).step == LastAttr(attrs, IsvStep, s.step)
    decreases |attrs|
  {
    if attrs != [] {
      AfterAttrsLastWins(AfterAttr(s, attrs[0]), attrs[1..]);
    }
  }

  /** Attribute application keeps the edit field showing the value. */
  lemma {:induction false} AfterAttrsKeepShown(s: State, attrs: seq<Attr>)
    requires ShowsValue(s)
    ensures ShowsValue(AfterAttrs(s, attrs))
    decreases |attrs|
  {
    if attrs != [] {
      SettersKeepShown(s, attrs[0].1);
      AfterAttrsKeepShown(AfterAttr(s, attrs[0]), attrs[1..]);
    }
  }

  /** Restoring always reinstates the saved bounds and step. */
  lemma RestoreBoundsExact(s: State, v: Int32, mn: Int32, mx: Int32, st: Int32)
    ensures Restored(s, v, mn, mx, st).minValue == mn
    ensures Restored(s, v, mn, mx, st).maxValue == mx
    ensures Restored(s, v, mn, mx, st).step == st
    ensures ShowsValue(s) ==> ShowsValue(Restored(s, v, mn, mx, st))
  {
  }

  /**
   * Because the value is set before the bounds, a saved value survives
   * restoration exactly when it fits the bounds current at that moment, or
   * when a later bound setter happens to push the value back onto it: a
   * value below the current minimum equal to the saved maximum, or one above
   * the current maximum equal to the saved minimum.
   */
  lemma RestoreValueExactIff(s: State, v: Int32, mn: Int32, mx: Int32, st: Int32)
    requires InRange(s) && mn <= v <= mx
    ensures Restored(s, v, mn, mx, st).value == v <==>
      (s.minValue <= v <= s.maxValue) || (v < s.minValue && v == mx) || (s.maxValue < v && v == mn)
  {
    var a := AssignValue(s, v);
    var b := AssignMinValue(a, mn);
    var c := AssignMaxValue(b, mx);
    if v < s.minValue {
      assert a.value == s.minValue;
      assert b.value == s.minValue;
    } else if s.maxValue < v {
      assert a.value == s.maxValue;
      assert c.value == b.value;
    }
  }

  /** Saving and restoring into the very same state changes nothing, whatever the state. */
  lemma RestoreOwnState(s: State)
    ensures Restored(s, s.value, s.minValue, s.maxValue, s.step) == s
  {
  }

  /**
   * A witness of the lost value: the view comes back with bounds 0..10 and
   * the state saved from bounds 0..100 holds 50; the value ends at 10.
   */
  lemma RestoreLosesValue()
    ensures Restored(State(0, 0, 10, 1, "0"), 50, 0, 100, 1).value == 10
  {
  }

  /**
   * Outside `RestoreValueExactIff`'s hypothesis: attributes `minValue = 10`,
   * `maxValue = 5` leave the value 10 over the inverted bounds 10..5.
   * Restoring 10 saved with bounds 0..20 keeps it, although 10 does not fit
   * 10..5; restoring 6 saved with bounds 6..7 gives 7, although 6 is below
   * the current minimum and equals the saved one.
   */
  lemma RestoreIntoInvertedRange()
    ensures var t := AfterAttrs(INITIAL, [(IsvMinValue, 10), (IsvMaxValue, 5)]);
      t.value == 10 && t.minValue == 10 && t.maxValue == 5 &&
      Restored(t, 10, 0, 20, 1).value == 10 && Restored(t, 6, 6, 7, 1).value == 7
  {
  }
}
