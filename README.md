# avr-libc build script, modelled in Dafny

The crate's build script (`build.rs`) prepares avr-libc for a Rust crate. It
decides whether the native library must be built (bootstrap, configure, make
of `include`, make of `avr/lib/avr6`), collects the library's headers that
may be bound, maps the microcontroller to its preprocessor define, configures
the binding generator and tells cargo where to link from. This project models
that decision logic and proves what it promises.

Modules, one per concern of the script:

- `Wrappers` — `Option`, `Result`, `Outcome`.
- `Paths` — paths as sequences of components (`Path::join` is concatenation,
  `Path` equality is sequence equality), and `file_name`, `file_stem`,
  `extension` with the standard library's rules (last dot, leading dot, `..`).
- `HeaderPolicy` — `HEADER_BLACKLIST`, `DEVICE_SPECIFIC_HEADERS`,
  `is_header_in_list`, `is_header_device_specific`, `is_header_blacklisted`.
- `HeaderCollection` — `headers_inside` (a loop over one directory listing)
  and `base_headers` (four listings in a fixed order).
- `BuildErrors` — the steps, and the aborts the model keeps: a failed
  microcontroller lookup, an unsupported microcontroller, a missing `HOST`, and
  a failed step.
- `TargetResolver` — `mcu_name`, `is_building_documentation`, the guard of
  `main`, and `mcu_define_name`.
- `BuildScript` — the commands of `bootstrap`, `configure` and `make`, the
  abort-on-first-failure step pipeline, `generate_bindings` up to the
  generator run, and `main`.

The environment is passed in: the manifest directory, whether the target is
avr, what the microcontroller lookup answers, whether `libc.a` exists, the
`HOST` variable, the operating system (a function from command to how the
process ended), and the four directory listings. The panics the model keeps
are `BuildError` values: `CannotDetermineMcu`, `UnsupportedMcu(name)`,
`HostNotSet` and `StepFailed(step, failure)`; the others are listed under
"Left out".

Notes on what `build.rs` does:

- `make` runs twice, in `include` and in `avr/lib/avr6`, so a native build is
  four commands: bootstrap, configure, make(include), make(arch).
- The blacklist and the device-specific list are matched against the whole
  path `<libc>/include/<entry>`.
- `configure` reads `HOST` and aborts (`HostNotSet`) when it is missing, after
  bootstrap has already run and before configure is spawned.
- A command that cannot be spawned and one that exits non-zero abort with
  different messages; both are kept apart (`CouldNotSpawn`, `NonZeroExit`).
- On an avr target, a failed microcontroller lookup aborts first thing in
  `main`, before the guard and before any command.
- Whether the target is avr is written `cfg!(arch = "avr")` (build.rs:32 and
  :42). The compiler sets no `arch` key, only `target_arch`, so as written
  the condition is always false (see "Findings"). `Target.isAvr` stands for
  the evidently intended test, `IntendedTarget`; `AsWrittenTarget` is the
  condition as written.

## Model

| member | source | states |
|---|---|---|
| `Paths.StemDotExtension` | build.rs:132-133 | a header's extension and stem are the two halves of its file name around the last dot; the extension holds no dot and the stem is not empty |
| `Paths.HeaderFileParts` | build.rs:132-133 | a file named `<stem>.h` with a non-empty stem has extension exactly `h` and that stem |
| `Paths.IoNameIoStem` | build.rs:147-148 | a file whose name starts with `io` has a stem that starts with `io` |
| `HeaderPolicy.IsHeaderInList` | build.rs:161-166 | true exactly when the path equals `<libc>/include/<entry>` for some entry of the list |
| `HeaderPolicy.InListIffRelativeInTable` | build.rs:161-166 | for a path under `<libc>/include`, list membership is membership of its relative part in the table |
| `HeaderPolicy.TablesDisjoint` | build.rs:12-25 | no header is both blacklisted and device specific |
| `HeaderPolicy.TablesHaveNoIoHeader` | build.rs:12-25 | no entry of either table has an `io` stem, so the three exclusion rules never overlap |
| `HeaderPolicy.ExcludedIffSomeRule` | build.rs:146-159 | a header under `<libc>/include` is excluded iff its stem starts with `io`, or it is blacklisted, or it is device specific and no microcontroller is known |
| `HeaderPolicy.IoHeaderAlwaysExcluded` | build.rs:146-151 | any file whose name starts with `io` is excluded whatever the microcontroller |
| `HeaderPolicy.BlacklistedAlwaysExcluded` | build.rs:153-166 | `<libc>/include/<e>` for a blacklist entry `e` is excluded whatever the microcontroller |
| `HeaderPolicy.DeviceSpecificExcludedIffNoMcu` | build.rs:153-159 | a device-specific header is excluded exactly when no microcontroller is known |
| `HeaderPolicy.McuOnlyGatesDeviceSpecific` | build.rs:153-154 | knowing a microcontroller never excludes more headers, only re-admits device-specific ones, and which chip it is does not matter |
| `HeaderCollection.Collected` | build.rs:125-144 | the collected headers are exactly the paths of listing entries that are files with extension `h` and not excluded; never more than the listing |
| `HeaderCollection.CollectedAppend` | build.rs:128-141 | collecting keeps listing order: the result for a concatenated listing is the concatenation of the results |
| `HeaderCollection.CollectedOne` | build.rs:131-139 | one entry contributes its path exactly when it passes the filter |
| `HeaderCollection.HeadersInside` | build.rs:125-144 | the loop pushes exactly the collected headers, in listing order |
| `HeaderCollection.CollectedSound` | build.rs:131-136 | every header collected from a directory is a `.h` file directly inside it and not excluded |
| `HeaderCollection.CollectedNoDuplicates` | build.rs:128-141 | a listing without repeated names yields each header once |
| `HeaderCollection.BaseHeaders` | build.rs:168-177 | the result is the headers of `include`, `include/util`, `include/sys`, `include/avr`, concatenated in that order |
| `HeaderCollection.BaseHeadersSound` | build.rs:168-177 | every base header is a non-excluded `.h` file directly inside one of the four directories |
| `HeaderCollection.BaseHeadersComplete` | build.rs:168-177 | every entry of the four listings that passes the filter is among the base headers |
| `HeaderCollection.BaseHeadersNoDuplicates` | build.rs:168-177 | the base headers repeat no path when the listings repeat no name |
| `HeaderCollection.NeverCollected` | build.rs:146-155 | no `io*` header and no blacklisted header (such as `util/delay.h`) is ever a base header |
| `HeaderCollection.DeviceHeaderCollectedIffMcu` | build.rs:154-159 | a listed device-specific file is collected from its directory exactly when a microcontroller is known |
| `HeaderCollection.BaseHeadersByDirectory` | build.rs:172-175 | a header of `include/avr` or `include/util` is a base header exactly when its own directory yields it |
| `HeaderCollection.DeviceSpecificCollectedIffMcu` | build.rs:21-25 | listed `avr/sleep.h`, `avr/boot.h` and `util/crc16.h` are base headers exactly when a microcontroller is known |
| `HeaderCollection.McuHeaders` | build.rs:146-177 | with a microcontroller known, listed `avr/sleep.h` and `util/crc16.h` are collected, `util/delay.h` and `io*` headers are not |
| `TargetResolver.McuName` | build.rs:31-37 | a microcontroller is named exactly on avr; a failed lookup on avr aborts with `CannotDetermineMcu` |
| `TargetResolver.DocumentationIffNoMcu` | build.rs:39-47 | a documentation build is exactly one resolving no microcontroller; the native build runs exactly when `libc.a` is absent on avr |
| `TargetResolver.McuDefineName` | build.rs:179-185 | no microcontroller gives no define; only `atmega328` and `atmega328p` have one; any other chip aborts with `UnsupportedMcu(name)`, never a silent omission |
| `TargetResolver.AsWrittenTarget` | build.rs:32 | `cfg!(arch = "avr")` as written is false for every target |
| `TargetResolver.AsWrittenNeverBuilds` | build.rs:31-47 | as written, no microcontroller is ever resolved and the native build never runs, whether or not `libc.a` exists |
| `TargetResolver.IntendedTarget` | build.rs:42 | the intended test: avr exactly when cargo reports the target architecture `avr` |
| `TargetResolver.IntendedBuildsOnAvr` | build.rs:31-47 | as intended, an avr target resolves the looked-up chip and builds the native library exactly when `libc.a` is absent |
| `TargetResolver.SupportedDefines` | build.rs:180-183 | `atmega328` maps to `__AVR_ATmega328__`, `atmega328p` to `__AVR_ATmega328P__`, `atmega9999` aborts |
| `BuildScript.RunCommand` | build.rs:84-86 | a step passes exactly when its command was spawned and exited with status 0; otherwise it fails naming that step |
| `BuildScript.StepCommand` | build.rs:75-118 | bootstrap and configure run `sh` in the library directory; the two makes run `make` in `include` and in the architecture directory |
| `BuildScript.RunStep` | build.rs:75-118 | only configure can fail for a missing `HOST`, and does so exactly when it is missing; otherwise a step passes exactly when its command ran and exited 0, and fails naming the step and whether spawning or the exit failed |
| `BuildScript.RunPipeline` | build.rs:60-67 | steps run in order and stop at the first failure: the attempted steps are a prefix of the plan, all but the last passed, the last attempted is the failing one, and success means all ran and passed |
| `BuildScript.FirstFailureStops` | build.rs:62-66 | when step `k` is the first to fail, exactly the steps up to `k` are attempted and its failure is the outcome |
| `BuildScript.NonZeroExitAborts` | build.rs:62-66 | when the step commands before `k` exit 0 and that of step `k` exits non-zero, exactly the steps up to `k` are attempted and the build aborts with that step's failure |
| `BuildScript.BuildNative` | build.rs:60-67 | the four calls of `main`, each aborting on failure, attempt exactly the steps of the pipeline and end with its outcome |
| `BuildScript.AllStepsRun` | build.rs:62-66 | when every command succeeds, bootstrap, configure, make(include), make(arch) all run, in that order |
| `BuildScript.BindingRequest` | build.rs:187-201 | the configuration exists exactly when the define lookup succeeds, and registers the base headers in collection order |
| `BuildScript.OneDefineIffMcu` | build.rs:195-197 | the clang arguments hold exactly one `-D` define, the chip's, when a microcontroller is known, and none otherwise |
| `BuildScript.GenerateBindings` | build.rs:187-201 | the builder loop yields exactly the binding request, or its abort |
| `BuildScript.AtMega328Bindings` | build.rs:179-201 | an atmega328 build defines `__AVR_ATmega328__` and binds `avr/sleep.h`, `util/crc16.h` but not `util/delay.h` nor any `io*` header |
| `BuildScript.AtMega328Build` | build.rs:49-73 | an atmega328 build with `libc.a` absent and every command succeeding runs all four steps, then links from `avr-libc/avr/lib/avr6` |
| `BuildScript.RunBuildScript` | build.rs:49-73 | a failed lookup aborts before any command; no command runs when `libc.a` exists or in a documentation build; otherwise the attempted steps and abort are those of the pipeline, and a completed build yields the bindings and link directives |

## Left out

- Generating the bindings and writing them to `src/bindings.rs` (bindgen's `generate` and `write_to_file`): a foreign library whose behaviour is not visible. The model stops at the configuration handed to it.
- The printed progress lines, the printed commands and the cargo warning when no microcontroller is targeted: output only. The link directives are kept as data in `BuildOutput`.
- Errors while reading a directory (`read_dir(..).unwrap()`, `entry.unwrap()`): listings are inputs and reading them is taken to succeed.
- Non-UTF-8 file stems (`to_str().unwrap()`): names are Dafny strings, so the panic cannot arise.
- `MakeResult`: returned by `make` and never used.
- Header paths are kept as paths; their conversion to display strings for the generator is not modelled.
- The microcontroller lookup is called several times by the script; the model resolves it once, taking the lookup to answer the same each time.
- Path components are taken as `Path::components` yields them; `.` components and repeated separators are not modelled.

## Findings

| source | as written | input that shows it | evidently intended | confidence | as-written member | corrected member |
|---|---|---|---|---|---|---|
| build.rs:32 | `cfg!(arch = "avr")` tests a configuration key the compiler never sets, so `mcu_name` is always `None`, `is_building_documentation` always true, the native build never runs and device-specific headers are always excluded | any build for an avr target, e.g. atmega328 with `libc.a` absent | test the target architecture (`CARGO_CFG_TARGET_ARCH == "avr"`), so avr targets resolve their chip and build the library | not executed; high, read from the text of the cfg key | `TargetResolver.AsWrittenNeverBuilds` | `TargetResolver.IntendedBuildsOnAvr` |
