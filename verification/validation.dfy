/** `validation_stage`: the last check before the variation stage. Three
    hydrogeological parameters are mandatory; a state without any heat pump is
    suspicious but allowed: the stage logs an error message for it and carries on,
    modelled here as a flag next to the state.
 */
module Validation {
  import opened Common
  import opened Dict
  import opened DataStructures

  /** The validated state and whether the "no heat pumps" error message was logged. */
  datatype Verdict = Verdict(state: State, loggedNoHeatPumps: bool)

  predicate IsHeatPumpEntry(p: Parameter) {
    p.value.Pump? || p.value.Group?
  }

  /** The number of single heat pumps and heat pump groups in a map. */
  function HeatPumpEntries(m: ParameterMap): (n: nat)
    ensures n <= |m|
    ensures n == 0 <==> forall i :: 0 <= i < |m| ==> !IsHeatPumpEntry(m[i].1)
  {
    if |m| == 0 then 0
    else
      var rest := HeatPumpEntries(m[1..]);
      assert forall i :: 1 <= i < |m| ==> m[i] == m[1..][i - 1];
      (if IsHeatPumpEntry(m[0].1) then 1 else 0) + rest
  }

  /** `validation_stage`: `permeability`, then `pressure_gradient`, then `temperature`
      must be present; the state itself passes through untouched. */
  function ValidationStage(state: State): (r: Result<Verdict>)
    ensures r.Err? <==>
              "permeability" !in Keys(state.hydro) || "pressure_gradient" !in Keys(state.hydro)
              || "temperature" !in Keys(state.hydro)
    ensures r.Ok? ==> r.value.state == state
    ensures r.Ok? ==> (r.value.loggedNoHeatPumps <==> forall i :: 0 <= i < |state.heatpumps| ==> !IsHeatPumpEntry(state.heatpumps[i].1))
  {
    var pressureGradient := Get(state.hydro, "pressure_gradient");
    var permeability := Get(state.hydro, "permeability");
    var temperature := Get(state.hydro, "temperature");
    if permeability.None? then Err(MissingPermeability)
    else if pressureGradient.None? then Err(MissingPressureGradient)
    else if temperature.None? then Err(MissingTemperature)
    else Ok(Verdict(state, HeatPumpEntries(state.heatpumps) < 1))
  }

  /** The checks run in a fixed order: the first missing parameter is the one
      reported, and each is a `ValueError`. */
  lemma ValidationReportsFirstMissing(state: State)
    ensures "permeability" !in Keys(state.hydro) ==> ValidationStage(state) == Err(MissingPermeability)
    ensures "permeability" in Keys(state.hydro) && "pressure_gradient" !in Keys(state.hydro) ==>
              ValidationStage(state) == Err(MissingPressureGradient)
    ensures "permeability" in Keys(state.hydro) && "pressure_gradient" in Keys(state.hydro) && "temperature" !in Keys(state.hydro) ==>
              ValidationStage(state) == Err(MissingTemperature)
    ensures ValidationStage(state).Err? ==> ValidationStage(state).error.Class() == ValueErrorClass
  {
  }

  /** Heat pumps never decide the outcome, whatever is logged about them: two
      states with the same hydrogeological parameters pass or fail together. */
  lemma HeatPumpsOnlyLogged(s1: State, s2: State)
    requires s1.hydro == s2.hydro
    ensures ValidationStage(s1).Ok? <==> ValidationStage(s2).Ok?
  {
  }

  /** Validating a validated state again passes and changes nothing. */
  lemma ValidationIdempotent(state: State)
    requires ValidationStage(state).Ok?
    ensures ValidationStage(ValidationStage(state).value.state) == ValidationStage(state)
  {
  }
}
