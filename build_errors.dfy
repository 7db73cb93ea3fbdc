/** The ways the build script aborts. Every one of them is a panic in the
    script; here each is a value the caller receives. */
module BuildErrors {

  /** The native-build steps, in the order the script runs them. */
  datatype Step = Bootstrap | Configure | MakeInclude | MakeArch

  /** Why a step's command failed: it could not be spawned (the `expect` on
      `status()`), or it ran and did not exit successfully. */
  datatype StepFailure = CouldNotSpawn | NonZeroExit

  datatype BuildError =
    | CannotDetermineMcu                 // the avr_mcu lookup failed on an avr target
    | UnsupportedMcu(name: string)       // no preprocessor define is known for the chip
    | HostNotSet                         // the `HOST` environment variable is missing
    | StepFailed(step: Step, failure: StepFailure)
}
