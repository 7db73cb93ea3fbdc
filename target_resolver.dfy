/** What the script learns about the target: whether it builds for avr, which
    microcontroller, and which preprocessor define names that chip. */
module TargetResolver {
  import opened Wrappers
  import opened BuildErrors

  /** The target as the script probes it: whether `cfg!(arch = "avr")` holds,
      and what `avr_mcu::current::mcu_name()` answers (consulted on avr only). */
  datatype Target = Target(isAvr: bool, mcuLookup: Option<string>)

  /** `mcu_name`: the microcontroller on an avr target, none elsewhere; a
      failed lookup on avr aborts the build. */
  function McuName(t: Target): (r: Result<Option<string>, BuildError>)
    ensures r.Err? <==> t.isAvr && t.mcuLookup.None?
    ensures r.Err? ==> r.error == CannotDetermineMcu
    ensures r.Ok? ==> (r.value.Some? <==> t.isAvr) && (r.value.Some? ==> r.value == t.mcuLookup)
  {
    if t.isAvr then
      match t.mcuLookup
      case Some(name) => Ok(Some(name))
      case None => Err(CannotDetermineMcu)
    else Ok(None)
  }

  /** `is_building_documentation`: any target other than avr is taken to be a
      documentation build. */
  predicate IsBuildingDocumentation(t: Target)
  {
    !t.isAvr
  }

  /** The guard of `main`: the native library is built only when its static
      archive is absent and this is not a documentation build. */
  predicate ShouldBuildNative(staticLibExists: bool, t: Target)
  {
    !staticLibExists && !IsBuildingDocumentation(t)
  }

  /** A documentation build is exactly one that resolves no microcontroller
      without failing; so the native build runs only where a microcontroller
      is (or must be) known. */
  lemma DocumentationIffNoMcu(t: Target, staticLibExists: bool)
    ensures IsBuildingDocumentation(t) <==> McuName(t) == Ok(None)
    ensures ShouldBuildNative(staticLibExists, t) ==> McuName(t) != Ok(None)
    ensures ShouldBuildNative(staticLibExists, t) <==> !staticLibExists && t.isAvr
  {
  }

  /** `mcu_define_name`: the preprocessor define for the microcontroller. No
      microcontroller gives no define; a chip without a known define aborts
      the build rather than silently going without one. */
  function McuDefineName(mcu: Option<string>): (r: Result<Option<string>, BuildError>)
    ensures r == Ok(None) <==> mcu.None?
    ensures r.Err? <==> mcu.Some? && mcu.value != "atmega328" && mcu.value != "atmega328p"
    ensures r.Err? ==> r.error == UnsupportedMcu(mcu.value)
  {
    match mcu
    case None => Ok(None)
    case Some(name) =>
      if name == "atmega328" then Ok(Some("__AVR_ATmega328__"))
      else if name == "atmega328p" then Ok(Some("__AVR_ATmega328P__"))
      else Err(UnsupportedMcu(name))
  }

  /** The two supported chips and their defines. */
  lemma SupportedDefines()
    ensures McuDefineName(Some("atmega328")) == Ok(Some("__AVR_ATmega328__"))
    ensures McuDefineName(Some("atmega328p")) == Ok(Some("__AVR_ATmega328P__"))
    ensures McuDefineName(Some("atmega9999")) == Err(UnsupportedMcu("atmega9999"))
  {
  }

  /** `cfg!(arch = "avr")` as `build.rs` writes it. The compiler sets the
      `target_arch` key, never a key named `arch`, so this condition is false
      whatever the target: the script sees every target as a non-avr one. */
  function AsWrittenTarget(mcuLookup: Option<string>): (t: Target)
    ensures !t.isAvr
  {
    Target(false, mcuLookup)
  }

  /** The target as evidently intended: avr exactly when the architecture
      cargo reports for the target (`CARGO_CFG_TARGET_ARCH`) is `avr`. */
  function IntendedTarget(targetArch: string, mcuLookup: Option<string>): (t: Target)
    ensures t.isAvr <==> targetArch == "avr"
  {
    Target(targetArch == "avr", mcuLookup)
  }

  /** As written, the native library is never built, whether or not `libc.a`
      exists, and no microcontroller is ever resolved. */
  lemma AsWrittenNeverBuilds(staticLibExists: bool, mcuLookup: Option<string>)
    ensures !ShouldBuildNative(staticLibExists, AsWrittenTarget(mcuLookup))
    ensures McuName(AsWrittenTarget(mcuLookup)) == Ok(None)
  {
  }

  /** As intended, an avr target whose lookup names a chip resolves that chip,
      and builds the native library exactly when `libc.a` is absent. */
  lemma IntendedBuildsOnAvr(staticLibExists: bool, name: string)
    ensures McuName(IntendedTarget("avr", Some(name))) == Ok(Some(name))
    ensures ShouldBuildNative(staticLibExists, IntendedTarget("avr", Some(name))) <==> !staticLibExists
  {
  }
}
