/**
 * `IntStepperView` as an object: its four `Int` properties with their
 * guarded setters, the edit field's text, the two step buttons, the input
 * handlers, attribute application, and saving and restoring its state.
 * The change listener is represented by the log `notified` of the values
 * it is invoked with.
 */
module IntStepperView {
  import opened Wrappers
  import opened KotlinInt
  import opened Decimal
  import opened StepperState
  import opened ImageButtonExt
  import opened Parcels

  /**
   * A persisted state handed back by the framework: this view's own, an
   * empty `Bundle` (what is saved when the container has nothing), or
   * anything else, which the view only passes on.
   */
  datatype Parcelable = ViewState(state: IntStepperViewState) | EmptyBundle | Foreign(token: nat)

  class IntStepperView {
    var value: Int32
    var minValue: Int32
    var maxValue: Int32
    var step: Int32
    /** The text of the value edit field. */
    var text: string
    const buttonDecrease: ImageButton
    const buttonIncrease: ImageButton
    /** Every value the change listener has been invoked with, oldest first. */
    ghost var notified: seq<int>

    function Model(): State
      reads this`value, this`minValue, this`maxValue, this`step, this`text
    {
      State(value, minValue, maxValue, step, text)
    }

    /**
     * Both buttons show exactly the availability the current state derives:
     * enabled at full alpha, or disabled and faded.
     */
    ghost predicate Valid()
      reads this`value, this`minValue, this`maxValue, this`step, this`text
      reads buttonDecrease, buttonIncrease
    {
      buttonDecrease != buttonIncrease &&
      buttonDecrease.Shows(CanDecrease(Model())) &&
      buttonIncrease.Shows(CanIncrease(Model()))
    }

    /**
     * `init`: inflate the buttons and the edit field, display the default
     * value, then apply the attributes (no listener is registered yet).
     */
    constructor (attrs: seq<Attr>)
      ensures Valid() && fresh(buttonDecrease) && fresh(buttonIncrease)
      ensures Model() == AfterAttrs(INITIAL, attrs)
      ensures ShowsValue(Model())
      ensures notified == []
    {
      buttonDecrease := new ImageButton();
      buttonIncrease := new ImageButton();
      value, minValue, maxValue, step := DEFAULT_VALUE, DEFAULT_MIN_VALUE, DEFAULT_MAX_VALUE, DEFAULT_STEP;
      text := "";
      notified := [];
      new;
      OnValueChanged(DEFAULT_VALUE);
      ApplyAttrs(attrs);
      AfterAttrsKeepShown(INITIAL, attrs);
    }

    /**
     * The `value` setter.  The bound setters call it after storing the new
     * bound, while the buttons still show the old availability; past the
     * guard it refreshes them.
     */
    method SetValue(newValue: Int32)
      requires buttonDecrease != buttonIncrease
      modifies this, buttonDecrease, buttonIncrease
      ensures old(value) == newValue ==> unchanged(this, buttonDecrease, buttonIncrease)
      ensures old(Valid()) || old(value) != newValue ==> Valid()
      ensures Model() == AssignValue(old(Model()), newValue)
      ensures notified == old(notified)
    {
      if value == newValue {
        return;
      }
      var clampedValue := Clamp(newValue, minValue, maxValue);
      value := clampedValue;
      OnValueChanged(clampedValue);
    }

    /** The `minValue` setter. */
    method SetMinValue(newMinValue: Int32)
      requires Valid()
      modifies this, buttonDecrease, buttonIncrease
      ensures Valid()
      ensures old(minValue) == newMinValue ==> unchanged(this, buttonDecrease, buttonIncrease)
      ensures Model() == AssignMinValue(old(Model()), newMinValue)
      ensures notified == old(notified)
    {
      if minValue == newMinValue {
        return;
      }
      minValue := newMinValue;
      if value < newMinValue {
        SetValue(newMinValue);
      }
      UpdateButtonsState();
    }

    /** The `maxValue` setter. */
    method SetMaxValue(newMaxValue: Int32)
      requires Valid()
      modifies this, buttonDecrease, buttonIncrease
      ensures Valid()
      ensures old(maxValue) == newMaxValue ==> unchanged(this, buttonDecrease, buttonIncrease)
      ensures Model() == AssignMaxValue(old(Model()), newMaxValue)
      ensures notified == old(notified)
    {
      if maxValue == newMaxValue {
        return;
      }
      maxValue := newMaxValue;
      if value > newMaxValue {
        SetValue(newMaxValue);
      }
      UpdateButtonsState();
    }

    /** The `step` setter. */
    method SetStep(newStep: Int32)
      requires Valid()
      modifies this, buttonDecrease, buttonIncrease
      ensures Valid()
      ensures old(step) == newStep ==> unchanged(this, buttonDecrease, buttonIncrease)
      ensures Model() == AssignStep(old(Model()), newStep)
      ensures notified == old(notified)
    {
      if step == newStep {
        return;
      }
      step := newStep;
      OnStepChanged();
    }

    /** The decrease button's click handler; the listener hears the value whether or not it moved. */
    method OnDecreaseClick()
      requires Valid()
      modifies this, buttonDecrease, buttonIncrease
      ensures Valid()
      ensures Model() == Decreased(old(Model()))
      ensures notified == old(notified) + [value]
    {
      ghost var before := Model();
      var target := Wrap32(value - step);
      assert Decreased(before) == AssignValue(before, target);
      SetValue(target);
      notified := notified + [value];
    }

    /** The increase button's click handler. */
    method OnIncreaseClick()
      requires Valid()
      modifies this, buttonDecrease, buttonIncrease
      ensures Valid()
      ensures Model() == Increased(old(Model()))
      ensures notified == old(notified) + [value]
    {
      ghost var before := Model();
      var target := Wrap32(value + step);
      assert Increased(before) == AssignValue(before, target);
      SetValue(target);
      notified := notified + [value];
    }

    /**
     * The edit field is committed (done action or focus loss) while holding
     * `typed`: a number goes through the value setter and then, unclamped,
     * to the listener; anything else is ignored.
     */
    method OnTextCommitted(typed: string)
      requires Valid()
      modifies this, buttonDecrease, buttonIncrease
      ensures Valid()
      ensures Model() == Committed(old(Model()), typed)
      ensures notified == old(notified) + CommitNotice(typed)
    {
      text := typed;
      ghost var typedIn := Model();
      assert typedIn == old(Model()).(text := typed);
      assert CanDecrease(typedIn) == CanDecrease(old(Model())) && CanIncrease(typedIn) == CanIncrease(old(Model()));
      assert Valid();
      var parsed := ParseIntOrNone(typed);
      if parsed.Some? {
        assert Committed(old(Model()), typed) == AssignValue(typedIn, parsed.value);
        SetValue(parsed.value);
        notified := notified + [parsed.value];
      }
    }


    /** `applyAttrs`: each attribute, in the typed array's order, through its setter. */
    method ApplyAttrs(attrs: seq<Attr>)
      requires Valid()
      modifies this, buttonDecrease, buttonIncrease
      ensures Valid()
      ensures Model() == AfterAttrs(old(Model()), attrs)
      ensures notified == old(notified)
    {
      var i := 0;
      while i < |attrs|
        invariant 0 <= i <= |attrs|
        invariant Valid()
        invariant AfterAttrs(Model(), attrs[i..]) == AfterAttrs(old(Model()), attrs)
        invariant notified == old(notified)
      {
        assert attrs[i..][1..] == attrs[i + 1..];
        var (kind, x) := attrs[i];
        match kind {
          case IsvValue => SetValue(x);
          case IsvMinValue => SetMinValue(x);
          case IsvMaxValue => SetMaxValue(x);
          case IsvStep => SetStep(x);
          case OtherAttr =>
        }
        i := i + 1;
      }
    }

    /** `onValueChanged`: display the value and refresh the buttons. */
    method OnValueChanged(newValue: Int32)
      requires buttonDecrease != buttonIncrease
      modifies this, buttonDecrease, buttonIncrease
      ensures Valid()
      ensures Model() == old(Model()).(text := ToDecimal(newValue))
      ensures notified == old(notified)
    {
      text := ToDecimal(newValue);
      UpdateButtonsState();
    }

    /** `onStepChanged`: refresh the buttons. */
    method OnStepChanged()
      requires buttonDecrease != buttonIncrease
      modifies buttonDecrease, buttonIncrease
      ensures Valid()
    {
      UpdateButtonsState();
    }

    /** `updateButtonsState`: each button enabled exactly when its step is offered. */
    method UpdateButtonsState()
      requires buttonDecrease != buttonIncrease
      modifies buttonDecrease, buttonIncrease
      ensures Valid()
      ensures buttonDecrease.Shows(value >= Wrap32(minValue + step))
      ensures buttonIncrease.Shows(value <= Wrap32(maxValue - step))
    {
      if value >= Wrap32(minValue + step) {
        buttonDecrease.Enable();
      } else {
        buttonDecrease.Disable();
      }
      if value <= Wrap32(maxValue - step) {
        buttonIncrease.Enable();
      } else {
        buttonIncrease.Disable();
      }
    }

    /**
     * `onSaveInstanceState`: the container's own state (an empty bundle
     * when it has none), the four integers, and the states the children
     * save into the snapshot's own container.
     */
    method OnSaveInstanceState(superState: Option<Parcelable>, childrenStates: map<int, Parcelable>)
      returns (saved: IntStepperViewState)
      ensures fresh(saved)
      ensures saved.superState == (if superState.Some? then superState.value else EmptyBundle)
      ensures saved.value == value && saved.minValue == minValue
      ensures saved.maxValue == maxValue && saved.step == step
      ensures saved.childrenStates == childrenStates
    {
      var sup := if superState.Some? then superState.value else EmptyBundle;
      saved := new IntStepperViewState(sup);
      saved.value := value;
      saved.minValue := minValue;
      saved.maxValue := maxValue;
      saved.step := step;
      saved.childrenStates := childrenStates;
    }

    /**
     * `onRestoreInstanceState`.  A foreign state goes to the container
     * untouched.  This view's own state is applied through the setters in
     * the order value, minValue, maxValue, step; then its container state
     * and its children's states are handed on, and are returned here.
     */
    method OnRestoreInstanceState(state: Parcelable)
      returns (toContainer: Parcelable, toChildren: Option<map<int, Parcelable>>)
      requires Valid()
      modifies this, buttonDecrease, buttonIncrease
      ensures Valid()
      ensures notified == old(notified)
      ensures !state.ViewState? ==>
        Model() == old(Model()) && toContainer == state && toChildren == None
      ensures state.ViewState? ==>
        Model() == Restored(old(Model()), state.state.value, state.state.minValue,
                            state.state.maxValue, state.state.step) &&
        toContainer == state.state.superState &&
        toChildren == Some(state.state.childrenStates)
    {
      if !state.ViewState? {
        toContainer, toChildren := state, None;
        return;
      }
      var s := state.state;
      SetValue(s.value);
      SetMinValue(s.minValue);
      SetMaxValue(s.maxValue);
      SetStep(s.step);
      toContainer, toChildren := s.superState, Some(s.childrenStates);
    }
  }

  /** `IntStepperViewState`: the snapshot the view saves and is restored from. */
  class IntStepperViewState {
    const superState: Parcelable
    var value: Int32
    var minValue: Int32
    var maxValue: Int32
    var step: Int32
    var childrenStates: map<int, Parcelable>

    /** Called from `onSaveInstanceState`: defaults and no children states yet. */
    constructor (superState: Parcelable)
      ensures this.superState == superState
      ensures value == DEFAULT_VALUE && minValue == DEFAULT_MIN_VALUE
      ensures maxValue == DEFAULT_MAX_VALUE && step == DEFAULT_STEP
      ensures childrenStates == map[]
    {
      this.superState := superState;
      value, minValue, maxValue, step := DEFAULT_VALUE, DEFAULT_MIN_VALUE, DEFAULT_MAX_VALUE, DEFAULT_STEP;
      childrenStates := map[];
    }

    /**
     * The parcel constructor behind `CREATOR.createFromParcel`: after the
     * base class has read `superState`, the four integers in the order they
     * were written.  Children states are not parcelled.
     */
    constructor FromParcel(superState: Parcelable, parcel: Parcel)
      modifies parcel
      ensures this.superState == superState
      ensures value == IntAt(old(parcel.data), old(parcel.pos))
      ensures minValue == IntAt(old(parcel.data), old(parcel.pos) + 1)
      ensures maxValue == IntAt(old(parcel.data), old(parcel.pos) + 2)
      ensures step == IntAt(old(parcel.data), old(parcel.pos) + 3)
      ensures childrenStates == map[]
      ensures parcel.data == old(parcel.data)
      ensures old(parcel.pos) + 4 <= |parcel.data| ==> parcel.pos == old(parcel.pos) + 4
    {
      this.superState := superState;
      childrenStates := map[];
      var v := parcel.ReadInt();
      var mn := parcel.ReadInt();
      var mx := parcel.ReadInt();
      var st := parcel.ReadInt();
      value, minValue, maxValue, step := v, mn, mx, st;
    }

    /** `writeToParcel`: after the base class's part, value, minValue, maxValue and step. */
    method WriteToParcel(out: Parcel)
      modifies out
      ensures out.data == old(out.data) + [value, minValue, maxValue, step]
      ensures out.pos == old(out.pos)
    {
      out.WriteInt(value);
      out.WriteInt(minValue);
      out.WriteInt(maxValue);
      out.WriteInt(step);
    }
  }

  /**
   * Writing a snapshot to a new parcel and creating a snapshot from that
   * parcel gives back the four integers; the children states are lost.
   */
  method ParcelRoundTrip(s: IntStepperViewState) returns (t: IntStepperViewState)
    ensures t.superState == s.superState
    ensures t.value == s.value && t.minValue == s.minValue
    ensures t.maxValue == s.maxValue && t.step == s.step
    ensures t.childrenStates == map[]
  {
    var parcel := new Parcel();
    s.WriteToParcel(parcel);
    t := new IntStepperViewState.FromParcel(s.superState, parcel);
  }
}
