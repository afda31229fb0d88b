/**
 * The control rules of one breaker panel (components/BreakerPanel.tsx): the
 * master/load interlock on the ON and OFF buttons, the status label and its
 * colour, and the commit-or-reset decision taken when a threshold field
 * loses focus.
 */
module BreakerPanel {
  import opened Wrappers
  import opened Types

  // ---------------------------------------------------------------------
  // Interlock and buttons
  // ---------------------------------------------------------------------

  /** A breaker may be switched on when it is the overall breaker or the master is on. */
  predicate CanTurnOn(b: Breaker, isMasterOn: bool) {
    b.isOverall || isMasterOn
  }

  /** The ON button is enabled. */
  predicate OnEnabled(b: Breaker, isMasterOn: bool) {
    CanTurnOn(b, isMasterOn) && !b.isOn
  }

  /** The OFF button is enabled. */
  predicate OffEnabled(b: Breaker) {
    b.isOn
  }

  /** While the master is off, no load breaker can be switched on. */
  lemma LoadLockedWhileMasterOff(b: Breaker, isMasterOn: bool)
    requires !b.isOverall
    ensures OnEnabled(b, isMasterOn) ==> isMasterOn
    ensures !isMasterOn ==> !OnEnabled(b, isMasterOn)
  {
  }

  /** The overall breaker's ON button ignores the master flag. */
  lemma OverallNeverLocked(b: Breaker, isMasterOn: bool)
    requires b.isOverall
    ensures OnEnabled(b, isMasterOn) <==> !b.isOn
  {
  }

  /** At most one button is enabled, and exactly one when the breaker may be switched on. */
  lemma ButtonsExclusive(b: Breaker, isMasterOn: bool)
    ensures !(OnEnabled(b, isMasterOn) && OffEnabled(b))
    ensures CanTurnOn(b, isMasterOn) ==> (OnEnabled(b, isMasterOn) != OffEnabled(b))
  {
  }

  // ---------------------------------------------------------------------
  // Status label and colour
  // ---------------------------------------------------------------------

  const TripOverload: string := "Overload"
  const TripShortCircuit: string := "Short Circuit"

  /** The status label: NORMAL when on, otherwise the last trip reason or OFF. */
  function StatusText(b: Breaker): (text: string)
    ensures b.isOn ==> text == "NORMAL"
    ensures !b.isOn && b.lastTripReason.Some? ==> text == b.lastTripReason.value
    ensures !b.isOn && b.lastTripReason.None? ==> text == "OFF"
  {
    if b.isOn then "NORMAL" else b.lastTripReason.GetOr("OFF")
  }

  datatype Colour = Green | Yellow | Red

  /** The style class each colour is rendered with. */
  function ColourClass(c: Colour): string {
    match c
    case Green => "text-green-400"
    case Yellow => "text-yellow-400"
    case Red => "text-red-500"
  }

  /** A trip reason that names a fault detected from the current. */
  predicate IsFaultTrip(reason: Option<string>) {
    reason == Some(TripOverload) || reason == Some(TripShortCircuit)
  }

  /** Green when on; when off, yellow for a fault trip and red for anything else. */
  function StatusColour(b: Breaker): (c: Colour)
    ensures c == Green <==> b.isOn
    ensures c == Yellow <==> !b.isOn && IsFaultTrip(b.lastTripReason)
    ensures c == Red <==> !b.isOn && !IsFaultTrip(b.lastTripReason)
  {
    if b.isOn then Green
    else if b.lastTripReason == Some(TripOverload) || b.lastTripReason == Some(TripShortCircuit) then Yellow
    else Red
  }

  /** Yellow appears exactly when the label shows a fault trip reason. */
  lemma YellowMeansFaultLabel(b: Breaker)
    ensures StatusColour(b) == Yellow <==>
      !b.isOn && (StatusText(b) == TripOverload || StatusText(b) == TripShortCircuit)
  {
  }

  /** A switched-off breaker never has the green label colour. */
  lemma OffNeverGreen(b: Breaker)
    ensures !b.isOn ==> ColourClass(StatusColour(b)) != "text-green-400"
  {
  }

  // ---------------------------------------------------------------------
  // Threshold fields
  // ---------------------------------------------------------------------

  const DefaultMaxText: string := "5.00"
  const DefaultMinText: string := "0.10"

  /** The callback a committed threshold edit invokes. */
  datatype Setter = SetMaxCurrent | SetMinCurrent

  /** What a threshold field does when it loses focus: report a new value, or show the stored one again. */
  datatype BlurAction =
    | Commit(setter: Setter, id: string, value: real)
    | Reset(text: string)

  /**
   * The text a threshold field shows for a stored threshold: the value with
   * two decimals, or the default text when no threshold is stored. It is the
   * text at mount, after each change of the stored value, and after a reset.
   */
  function EditableText(threshold: Option<real>, default: string, toFixed2: real -> string): (text: string)
    ensures threshold.Some? ==> text == toFixed2(threshold.value)
    ensures threshold.None? ==> text == default
  {
    match threshold
    case Some(v) => toFixed2(v)
    case None => default
  }

  /**
   * The shared decision: `parsed` is the parsed edit text (None for NaN).
   * A non-negative number that differs from the stored threshold is
   * committed through `setter`; anything else resets the text.
   */
  function ThresholdBlur(setter: Setter, id: string, parsed: Option<real>, threshold: Option<real>,
                         default: string, toFixed2: real -> string): (a: BlurAction)
    ensures a.Commit? <==> parsed.Some? && parsed.value >= 0.0 && parsed != threshold
    ensures a.Commit? ==> a.setter == setter && a.id == id && Some(a.value) == parsed
    ensures a.Reset? ==> a.text == EditableText(threshold, default, toFixed2)
  {
    if parsed.Some? && parsed.value >= 0.0 && parsed != threshold then Commit(setter, id, parsed.value)
    else Reset(EditableText(threshold, default, toFixed2))
  }

  /** Leaving the maximum-current field. */
  function MaxCurrentBlur(b: Breaker, edit: string, parseFloat: string -> Option<real>,
                          toFixed2: real -> string): (a: BlurAction)
    ensures a.Commit? <==>
      parseFloat(edit).Some? && parseFloat(edit).value >= 0.0 && parseFloat(edit) != b.maxCurrent
    ensures a.Commit? ==> a == Commit(SetMaxCurrent, b.id, parseFloat(edit).value)
    ensures a.Reset? ==> a.text == EditableText(b.maxCurrent, DefaultMaxText, toFixed2)
  {
    ThresholdBlur(SetMaxCurrent, b.id, parseFloat(edit), b.maxCurrent, DefaultMaxText, toFixed2)
  }

  /** Leaving the minimum-current field. */
  function MinCurrentBlur(b: Breaker, edit: string, parseFloat: string -> Option<real>,
                          toFixed2: real -> string): (a: BlurAction)
    ensures a.Commit? <==>
      parseFloat(edit).Some? && parseFloat(edit).value >= 0.0 && parseFloat(edit) != b.minCurrent
    ensures a.Commit? ==> a == Commit(SetMinCurrent, b.id, parseFloat(edit).value)
    ensures a.Reset? ==> a.text == EditableText(b.minCurrent, DefaultMinText, toFixed2)
  {
    ThresholdBlur(SetMinCurrent, b.id, parseFloat(edit), b.minCurrent, DefaultMinText, toFixed2)
  }

  /**
   * Once the parent stores a committed maximum, typing the same text again
   * and leaving the field commits nothing and shows the stored value's text.
   */
  lemma StoredMaxCommitIsStable(b: Breaker, edit: string, parseFloat: string -> Option<real>, toFixed2: real -> string)
    requires MaxCurrentBlur(b, edit, parseFloat, toFixed2).Commit?
    ensures var v := MaxCurrentBlur(b, edit, parseFloat, toFixed2).value;
      MaxCurrentBlur(b.(maxCurrent := Some(v)), edit, parseFloat, toFixed2) == Reset(toFixed2(v))
  {
  }

  /** The same for the minimum field, when the same text is typed again. */
  lemma StoredMinCommitIsStable(b: Breaker, edit: string, parseFloat: string -> Option<real>, toFixed2: real -> string)
    requires MinCurrentBlur(b, edit, parseFloat, toFixed2).Commit?
    ensures var v := MinCurrentBlur(b, edit, parseFloat, toFixed2).value;
      MinCurrentBlur(b.(minCurrent := Some(v)), edit, parseFloat, toFixed2) == Reset(toFixed2(v))
  {
  }

  /** Storing a maximum leaves the minimum field's decision unchanged, and the reverse. */
  lemma FieldsIndependent(b: Breaker, edit: string, v: real, parseFloat: string -> Option<real>, toFixed2: real -> string)
    ensures MinCurrentBlur(b.(maxCurrent := Some(v)), edit, parseFloat, toFixed2) ==
            MinCurrentBlur(b, edit, parseFloat, toFixed2)
    ensures MaxCurrentBlur(b.(minCurrent := Some(v)), edit, parseFloat, toFixed2) ==
            MaxCurrentBlur(b, edit, parseFloat, toFixed2)
  {
  }

  /**
   * After the parent stores a maximum `v`, the field is resynchronised to
   * `v` with two decimals. Leaving it untouched resets exactly when that text
   * parses to NaN, to a negative number or to `v`; otherwise the rounded
   * value is committed.
   */
  lemma ResyncedMaxBlur(b: Breaker, v: real, parseFloat: string -> Option<real>, toFixed2: real -> string)
    ensures var shown := EditableText(Some(v), DefaultMaxText, toFixed2);
      var a := MaxCurrentBlur(b.(maxCurrent := Some(v)), shown, parseFloat, toFixed2);
      && (a.Reset? <==> parseFloat(toFixed2(v)).None? || parseFloat(toFixed2(v)).value < 0.0
                          || parseFloat(toFixed2(v)) == Some(v))
      && (a.Reset? ==> a.text == toFixed2(v))
      && (a.Commit? ==> a.value == parseFloat(toFixed2(v)).value)
  {
  }
}
