/** The parameter records of app/damper/input.py: plain values with no behaviour. */
module DamperInput {

  /** Initial state (x0, v0) and how many seeded trajectories to draw. */
  datatype InitialConditions = InitialConditions(x0: real, v0: real, nLines: int)

  /** Mass m, spring constant k, damping c, initial conditions and the solution time window. */
  datatype DamperSystem = DamperSystem(
    m: real, k: real, c: real, ics: InitialConditions, startTime: real, endTime: real)

  /** A computation that either returns a value or raises Python's ZeroDivisionError. */
  datatype Outcome<T> = Ok(value: T) | ZeroDivisionError
}
