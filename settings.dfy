/** The optional value used wherever the controller returns `None`. */
module Wrappers {
  datatype Option<T> = None | Some(value: T)
}

/**
 * The controller's configuration, passed as one immutable record instead of
 * the module-level `config` the controller reads everywhere.
 */
module Settings {

  /** One row of the thermocouple correction table: at raw reading `temp`, add `offset`. */
  datatype Correction = Correction(temp: real, offset: real)

  datatype Config = Config(
    kp: real,
    ki: real,
    kd: real,
    pidControlWindow: real,
    sensorTimeWait: real,             // seconds per control tick (`time_step`)
    kilnMustCatchUp: bool,
    warmupSkipThreshold: real,        // 0 when the setting is absent
    emergencyShutoffTemp: real,
    ignoreTempTooHigh: bool,
    ignoreLostConnectionTc: bool,
    ignoreUnknownTcError: bool,
    ignoreTooManyTcErrors: bool,
    ignoreTcShortErrors: bool,
    kwhRate: real,
    kwElements: real,
    temperatureAverageSamples: nat,
    thermocoupleOffset: real,         // flat offset used when there is no table
    correctionTable: seq<Correction>) // empty when there is no table

  /** The PID step computes `1/ki` whenever the error is inside the control window. */
  predicate ValidConfig(c: Config) {
    c.ki != 0.0
  }
}
