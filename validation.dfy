/** Submit-time validation of the workout form: the `validInputs` and
    `allPositive` helpers of `_newWorkout` and the per-type rules built from them. */
module Validation {
  import opened JsValues
  import opened Workouts

  /** What the form holds when it is submitted. */
  datatype Form = Form(workoutType: WorkoutType, distance: InputText, duration: InputText,
                       cadence: InputText, elevation: InputText)

  /** The numbers of an accepted form, ready for a constructor. */
  datatype Entry =
    | RunEntry(distance: real, duration: real, cadence: real)
    | RideEntry(distance: real, duration: real, elevationGain: real)

  /** `validInputs(...inputs)`: `inputs.every(inp => Number.isFinite(inp))`. */
  function ValidInputs(inputs: seq<JsValue>): (ok: bool)
    ensures ok <==> forall i :: 0 <= i < |inputs| ==> IsFinite(inputs[i])
  {
    if inputs == [] then true else IsFinite(inputs[0]) && ValidInputs(inputs[1..])
  }

  /** `allPositive(...inputs)`: `inputs.every(inp => inp > 0)`. */
  function AllPositive(inputs: seq<JsValue>): (ok: bool)
    ensures ok <==> forall i :: 0 <= i < |inputs| ==> IsPositive(inputs[i])
  {
    if inputs == [] then true else IsPositive(inputs[0]) && AllPositive(inputs[1..])
  }

  /** `inputElevation.value === '' ? '' : +inputElevation.value`. */
  function ElevationValue(t: InputText): (r: JsValue)
    ensures t.Blank? <==> r == EmptyString
    ensures r.Number? ==> r.n == ToNumber(t)
    ensures IsFinite(r) <==> EnteredFinite(t)
  {
    if t == Blank then EmptyString else Number(ToNumber(t))
  }

  /** The checks of `_newWorkout` for the selected type; `None` where the
      source returns early with an alert. */
  function Validate(f: Form): (r: Option<Entry>)
    ensures r.Some? <==> Acceptable(f)
    ensures r.Some? ==> r.value.RunEntry? == (f.workoutType == RunningType)
    ensures r.Some? ==> r.value.distance == EnteredValue(f.distance)
    ensures r.Some? ==> r.value.duration == EnteredValue(f.duration)
    ensures r.Some? && r.value.RunEntry? ==> r.value.cadence == EnteredValue(f.cadence)
    ensures r.Some? && r.value.RideEntry? ==> r.value.elevationGain == EnteredValue(f.elevation)
  {
    var distance := Number(ToNumber(f.distance));
    var duration := Number(ToNumber(f.duration));
    match f.workoutType
    case RunningType =>
      var cadence := Number(ToNumber(f.cadence));
      var inputs := [distance, duration, cadence];
      if !ValidInputs(inputs) || !AllPositive(inputs) then
        assert !IsFinite(inputs[0]) || !IsFinite(inputs[1]) || !IsFinite(inputs[2])
            || !IsPositive(inputs[0]) || !IsPositive(inputs[1]) || !IsPositive(inputs[2]);
        None
      else
        assert IsFinite(inputs[1]) && IsFinite(inputs[2]) && IsPositive(inputs[1]) && IsPositive(inputs[2]);
        Some(RunEntry(distance.n.value, duration.n.value, cadence.n.value))
    case CyclingType =>
      var elevation := ElevationValue(f.elevation);
      var inputs := [distance, duration, elevation];
      var positives := [distance, duration];
      if !ValidInputs(inputs) || !AllPositive(positives) then
        assert !IsFinite(inputs[0]) || !IsFinite(inputs[1]) || !IsFinite(inputs[2])
            || !IsPositive(positives[0]) || !IsPositive(positives[1]);
        None
      else
        assert IsFinite(inputs[1]) && IsFinite(inputs[2]) && IsPositive(positives[1]);
        Some(RideEntry(distance.n.value, duration.n.value, elevation.n.value))
  }

  // ---------------------------------------------------------------------
  // The rules stated directly on the fields

  /** A field holding text that converts to a finite number. */
  predicate EnteredFinite(t: InputText)
  {
    t.Text? && t.converted.Finite?
  }

  /** A field holding text that converts to a finite number above zero. */
  predicate EnteredPositive(t: InputText)
  {
    EnteredFinite(t) && t.converted.value > 0.0
  }

  function EnteredValue(t: InputText): real
  {
    if EnteredFinite(t) then t.converted.value else 0.0
  }

  /** When a submission is accepted: distance and duration finite and above
      zero; for running also the cadence; for cycling an elevation that was
      filled in and is finite, of any sign. */
  predicate Acceptable(f: Form)
  {
    && EnteredPositive(f.distance)
    && EnteredPositive(f.duration)
    && match f.workoutType
       case RunningType => EnteredPositive(f.cadence)
       case CyclingType => EnteredFinite(f.elevation)
  }

  // ---------------------------------------------------------------------
  // Consequences

  /** A blank field converts to 0 and so never passes as distance, duration or
      cadence; a blank elevation stays the empty string and is not finite. */
  lemma BlankFieldsRejected(f: Form)
    requires f.distance == Blank || f.duration == Blank
          || (f.workoutType == RunningType && f.cadence == Blank)
          || (f.workoutType == CyclingType && f.elevation == Blank)
    ensures Validate(f) == None
  {
  }

  /** For cycling, a filled-in elevation only has to be finite: zero and
      negative values pass. */
  lemma AnyFiniteElevationAccepted(f: Form, e: real)
    requires f.workoutType == CyclingType
    requires EnteredPositive(f.distance) && EnteredPositive(f.duration)
    requires f.elevation == Text(Finite(e))
    ensures Validate(f) == Some(RideEntry(f.distance.converted.value, f.duration.converted.value, e))
  {
  }

  /** Text that converts to NaN or to either infinity fails in any field the
      selected type checks, even +Infinity, which compares above zero. */
  lemma NonFiniteRejected(f: Form)
    requires || (f.distance.Text? && !f.distance.converted.Finite?)
             || (f.duration.Text? && !f.duration.converted.Finite?)
             || (f.workoutType == RunningType && f.cadence.Text? && !f.cadence.converted.Finite?)
             || (f.workoutType == CyclingType && f.elevation.Text? && !f.elevation.converted.Finite?)
    ensures Validate(f) == None
  {
  }
}
