/** Failure-carrying results shared by every stage of the variation engine.

    The Python code signals errors by raising exceptions; the model returns a
    `Result` whose `Err` case names the reason, and `Failure.Class()` says which
    Python exception class the source raises for it.
 */
module Common {

  datatype Option<+T> = None | Some(value: T)

  /** The Python exception class behind a failure. `NaNResult` marks the cases in
      which numpy does not raise but yields NaN, which a real number cannot hold. */
  datatype ExceptionClass =
    | ValueErrorClass
    | NotImplementedErrorClass
    | AssertionErrorClass
    | UnboundLocalErrorClass
    | ZeroDivisionErrorClass
    | IndexErrorClass
    | NaNResult
    | FuelExhausted

  datatype Failure =
    | NotThreeDimensional          // make_value_3d
    | MaxBelowMin                  // ValueMinMax / ValuePerlin validators
    | NotPositive                  // HeatPumps.number is a PositiveInt
    | LocationNoneNotSpace         // Parameter.check_heatpump_location
    | PathNotFixedOrList           // a Path-valued permeability
    | PathNotFixed                 // a Path-valued pressure_gradient or temperature
    | DatapointsGiven              // State.prevent_datapoints_to_be_set
    | NotAHeatPumpEntry            // generate_heatpumps: neither HeatPump nor HeatPumps
    | NamingClash(name: string)    // generate_heatpumps
    | RedrawFuelExhausted          // the unbounded redraw loop, cut off by fuel
    | NotAHeatPump                 // `assert isinstance(..., HeatPump)`
    | NotATimeSeries               // `assert isinstance(..., ValueTimeSeries)`
    | GroupInVariation             // `assert not isinstance(..., HeatPumps)`
    | ConstNotMinMax               // vary_parameter, CONST
    | SpaceOnFloat                 // vary_parameter, SPACE
    | SpaceOnMinMax                // vary_parameter, SPACE
    | SpaceNotImplemented          // vary_parameter, SPACE
    | NoVaryBranch                 // vary_parameter, LIST: `data` is never bound
    | DivisionByZero               // CONST, uniform, with a single datapoint
    | NaNRamp                      // CONST, logarithmic, with a single datapoint
    | NotPerlin                    // create_perlin_field
    | FrequencyTooShort            // indexing a frequency list of fewer than three entries
    | GradientNotMinMax            // calc_pressure_from_gradient_field's assertion
    | ConstantNoise                // rescaling a grid whose minimum equals its maximum
    | EmptyGrid                    // numpy min/max of a zero-size grid
    | ReshapeMismatch              // create_const_field reshape
    | NoDatapointToShuffle         // shuffle_datapoints reads datapoint 0
    | MissingPermeability          // validation_stage
    | MissingPressureGradient      // validation_stage
    | MissingTemperature           // validation_stage
  {
    function Class(): ExceptionClass {
      match this
      case NotAHeatPump | NotATimeSeries | GroupInVariation | GradientNotMinMax => AssertionErrorClass
      case ConstNotMinMax | SpaceNotImplemented => NotImplementedErrorClass
      case NoVaryBranch => UnboundLocalErrorClass
      case DivisionByZero => ZeroDivisionErrorClass
      case FrequencyTooShort | NoDatapointToShuffle => IndexErrorClass
      case ConstantNoise | NaNRamp => NaNResult
      case RedrawFuelExhausted => FuelExhausted
      case _ => ValueErrorClass
    }
  }

  datatype Result<+T> = Ok(value: T) | Err(error: Failure) {
    predicate IsFailure() {
      Err?
    }

    function PropagateFailure<U>(): Result<U>
      requires Err?
    {
      Err(error)
    }

    function Extract(): T
      requires Ok?
    {
      value
    }
  }
}
