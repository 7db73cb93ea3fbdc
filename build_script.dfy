/** The build script's driver: the native build of avr-libc (bootstrap,
    configure, two makes), the configuration handed to the binding generator,
    and `main`, which sequences them. */
module BuildScript {
  import opened Wrappers
  import opened Paths
  import opened BuildErrors
  import opened TargetResolver
  import opened HeaderPolicy
  import opened HeaderCollection

  /** The avr architecture whose library is built and linked. */
  const AvrArch: Component := "avr6"

  /** Where the library's directories lie under the crate's manifest
      directory. */
  datatype Layout = Layout(libcDir: Path, includeDir: Path, archDir: Path, staticLibPath: Path)

  function LayoutOf(manifestDir: Path): (l: Layout)
    ensures l.includeDir == IncludeDir(l.libcDir)
    ensures l.staticLibPath == l.archDir + ["libc.a"]
  {
    var libcDir := manifestDir + ["avr-libc"];
    var archDir := libcDir + ["avr", "lib", AvrArch];
    Layout(libcDir, libcDir + ["include"], archDir, archDir + ["libc.a"])
  }

  /** A process the script spawns: program, arguments, environment overrides
      and working directory. */
  datatype Command = Command(program: string, args: seq<string>, env: seq<(string, string)>, dir: Path)

  /** How a spawned process ended; `Signalled` has no exit code. */
  datatype ExitStatus = Exited(code: int) | Signalled

  /** What `Command::status` reports: the process could not be spawned, or it
      ran to the given end. */
  datatype Spawn = SpawnFailed | Finished(status: ExitStatus)

  /** `ExitStatus::success`. */
  predicate Success(s: ExitStatus)
  {
    s.Exited? && s.code == 0
  }

  /** Spawns `cmd` for `step` through `run`, which stands for the operating
      system; passes exactly when the command ran and exited with status 0. */
  function RunCommand(step: Step, cmd: Command, run: Command -> Spawn): (r: Outcome<BuildError>)
    ensures r.Pass? <==> run(cmd).Finished? && Success(run(cmd).status)
    ensures r.Fail? ==> r.error.StepFailed? && r.error.step == step
  {
    match run(cmd)
    case SpawnFailed => Fail(StepFailed(step, CouldNotSpawn))
    case Finished(status) => if Success(status) then Pass else Fail(StepFailed(step, NonZeroExit))
  }

  /** `bootstrap`: `sh bootstrap` in the library directory. */
  function BootstrapCommand(libcDir: Path): Command
  {
    Command("sh", ["bootstrap"], [], libcDir)
  }

  /** `configure`: `sh configure --build=<HOST> --host=avr` with `CC=avr-gcc`,
      in the library directory. */
  function ConfigureCommand(libcDir: Path, host: string): Command
  {
    Command("sh", ["configure", "--build=" + host, "--host=avr"], [("CC", "avr-gcc")], libcDir)
  }

  /** `make`: `make` in `dir`. */
  function MakeCommand(dir: Path): Command
  {
    Command("make", [], [], dir)
  }

  /** The command a step spawns: `sh bootstrap` and `sh configure ...` in the
      library directory, `make` in `include` and in the architecture
      directory. */
  function StepCommand(step: Step, l: Layout, host: string): (c: Command)
    ensures c.program == if step == Bootstrap || step == Configure then "sh" else "make"
    ensures c.dir == match step
      case Bootstrap => l.libcDir
      case Configure => l.libcDir
      case MakeInclude => l.includeDir
      case MakeArch => l.archDir
  {
    match step
    case Bootstrap => BootstrapCommand(l.libcDir)
    case Configure => ConfigureCommand(l.libcDir, host)
    case MakeInclude => MakeCommand(l.includeDir)
    case MakeArch => MakeCommand(l.archDir)
  }

  /** `HOST`, or the empty string when it is missing (only configure reads it,
      and configure never spawns without it). */
  function HostOr(host: Option<string>): string
  {
    if host.Some? then host.value else ""
  }

  /** One native-build step. Configure reads `HOST` before spawning anything,
      and aborts without spawning when it is missing; otherwise the step
      passes exactly when its command ran and exited with status 0. */
  function RunStep(step: Step, l: Layout, host: Option<string>, run: Command -> Spawn): (r: Outcome<BuildError>)
    ensures r.Fail? ==> r.error == HostNotSet || (r.error.StepFailed? && r.error.step == step)
    ensures r.Fail? && r.error == HostNotSet <==> step == Configure && host.None?
    ensures !(step == Configure && host.None?) ==>
      var c := StepCommand(step, l, HostOr(host));
      (r.Pass? <==> run(c).Finished? && Success(run(c).status))
      && (r.Fail? ==> r.error == StepFailed(step, if run(c).SpawnFailed? then CouldNotSpawn else NonZeroExit))
  {
    match step
    case Bootstrap => RunCommand(step, BootstrapCommand(l.libcDir), run)
    case Configure =>
      if host.None? then Fail(HostNotSet) else RunCommand(step, ConfigureCommand(l.libcDir, host.value), run)
    case MakeInclude => RunCommand(step, MakeCommand(l.includeDir), run)
    case MakeArch => RunCommand(step, MakeCommand(l.archDir), run)
  }

  /** The steps of a native build, in order. */
  const NativeBuildPlan: seq<Step> := [Bootstrap, Configure, MakeInclude, MakeArch]

  /** Runs `steps` one after the other and stops at the first that fails:
      returns the steps attempted and the outcome. */
  function RunPipeline(steps: seq<Step>, l: Layout, host: Option<string>, run: Command -> Spawn): (r: (seq<Step>, Outcome<BuildError>))
    ensures |r.0| <= |steps| && r.0 == steps[..|r.0|]
    ensures forall k :: 0 <= k < |r.0| - 1 ==> RunStep(r.0[k], l, host, run).Pass?
    ensures r.1.Pass? <==> r.0 == steps && forall k :: 0 <= k < |steps| ==> RunStep(steps[k], l, host, run).Pass?
    ensures r.1.Fail? ==> r.0 != [] && RunStep(r.0[|r.0| - 1], l, host, run) == r.1
  {
    if steps == [] then ([], Pass)
    else
      match RunStep(steps[0], l, host, run)
      case Fail(e) => ([steps[0]], Fail(e))
      case Pass =>
        var (rest, outcome) := RunPipeline(steps[1..], l, host, run);
        assert forall k :: 1 <= k < |steps| ==> steps[k] == steps[1..][k - 1];
        ([steps[0]] + rest, outcome)
  }

  /** When step `k` is the first to fail, exactly the steps up to and
      including it are attempted, and its failure is the outcome: no later
      step runs. */
  lemma FirstFailureStops(steps: seq<Step>, k: nat, l: Layout, host: Option<string>, run: Command -> Spawn)
    requires k < |steps| && RunStep(steps[k], l, host, run).Fail?
    requires forall j :: 0 <= j < k ==> RunStep(steps[j], l, host, run).Pass?
    ensures RunPipeline(steps, l, host, run) == (steps[..k + 1], RunStep(steps[k], l, host, run))
  {
  }

  /** A command that exits non-zero aborts the native build at its step:
      when the commands of the steps before `k` exit 0 and that of step `k`
      exits with another code, exactly the steps up to `k` are attempted. */
  lemma NonZeroExitAborts(k: nat, l: Layout, host: string, run: Command -> Spawn, code: int)
    requires k < |NativeBuildPlan|
    requires forall j :: 0 <= j < k ==> run(StepCommand(NativeBuildPlan[j], l, host)) == Finished(Exited(0))
    requires run(StepCommand(NativeBuildPlan[k], l, host)) == Finished(Exited(code)) && code != 0
    ensures RunPipeline(NativeBuildPlan, l, Some(host), run) ==
      (NativeBuildPlan[..k + 1], Fail(StepFailed(NativeBuildPlan[k], NonZeroExit)))
  {
  }

  /** The binding generator's configuration: `use_core`, the C-types prefix,
      the clang arguments and the headers, in the order they are added. */
  datatype BindingConfig = BindingConfig(useCore: bool, ctypesPrefix: string, clangArgs: seq<string>, headers: seq<Path>)

  /** The clang arguments every configuration carries. */
  const BaseClangArgs: seq<string> := ["-Iavr-libc/include", "-ffreestanding"]

  /** The preprocessor defines among clang arguments. */
  function Defines(args: seq<string>): (r: seq<string>)
    ensures forall d :: d in r ==> d in args && StartsWith(d, "-D")
    ensures forall a :: a in args && StartsWith(a, "-D") ==> a in r
  {
    if args == [] then []
    else (if StartsWith(args[0], "-D") then [args[0]] else []) + Defines(args[1..])
  }

  /** The configuration `generate_bindings` builds, or the reason it aborts. */
  function BindingRequest(libc: Path, tree: IncludeTree, mcu: Option<string>): (r: Result<BindingConfig, BuildError>)
    ensures r.Ok? <==> McuDefineName(mcu).Ok?
    ensures r.Ok? ==> r.value.headers == BaseHeaderList(libc, tree, mcu)
  {
    match McuDefineName(mcu)
    case Err(e) => Err(e)
    case Ok(define) =>
      var args := BaseClangArgs + (if define.Some? then ["-D" + define.value] else []);
      Ok(BindingConfig(true, "::rust_ctypes", args, BaseHeaderList(libc, tree, mcu)))
  }

  /** The configuration carries exactly one define when a microcontroller is
      known, the one for that chip, and none otherwise. */
  lemma {:induction false} OneDefineIffMcu(libc: Path, tree: IncludeTree, mcu: Option<string>)
    requires BindingRequest(libc, tree, mcu).Ok?
    ensures var args := BindingRequest(libc, tree, mcu).value.clangArgs;
      Defines(args) == if mcu.Some? then ["-D" + McuDefineName(mcu).value.value] else []
  {
    var args := BindingRequest(libc, tree, mcu).value.clangArgs;
    assert args[0][..2] == "-I" && args[1][..2] == "-f";
    assert args[1..][1..] == args[2..];
    assert Defines(args) == Defines(args[2..]);
    if mcu.Some? {
      var d := "-D" + McuDefineName(mcu).value.value;
      assert args[2..] == [d];
      assert d[..2] == "-D";
      assert Defines([d]) == [d] + Defines([]);
    }
  }

  /** `generate_bindings` up to the generator's run: adds the define, if any,
      then registers every collected header in order. */
  method GenerateBindings(libc: Path, tree: IncludeTree, mcu: Option<string>) returns (r: Result<BindingConfig, BuildError>)
    ensures r == BindingRequest(libc, tree, mcu)
  {
    var builder := BindingConfig(true, "::rust_ctypes", ["-Iavr-libc/include", "-ffreestanding"], []);
    var define := McuDefineName(mcu);
    if define.Err? {
      return Err(define.error);
    }
    if define.value.Some? {
      builder := builder.(clangArgs := builder.clangArgs + ["-D" + define.value.value]);
    }
    var headers := BaseHeaders(libc, tree, mcu);
    for i := 0 to |headers|
      invariant builder.headers == headers[..i]
      invariant builder.useCore && builder.ctypesPrefix == "::rust_ctypes"
      invariant builder.clangArgs == BaseClangArgs + (if define.value.Some? then ["-D" + define.value.value] else [])
    {
      builder := builder.(headers := builder.headers + [headers[i]]);
      assert headers[..i + 1] == headers[..i] + [headers[i]];
    }
    assert headers[..|headers|] == headers;
    r := Ok(builder);
  }

  /** What a successful run leaves behind: the binding configuration and the
      link directives (search path and library) handed to cargo. */
  datatype BuildOutput = BuildOutput(bindings: BindingConfig, linkSearch: Path, linkLib: string)

  /** The last part of `main`: bindings, then the link directives. */
  function Finish(l: Layout, tree: IncludeTree, mcu: Option<string>): Result<BuildOutput, BuildError>
  {
    match BindingRequest(l.libcDir, tree, mcu)
    case Err(e) => Err(e)
    case Ok(b) => Ok(BuildOutput(b, l.archDir, "static=c"))
  }

  /** The native build of `main` (bootstrap, configure, make in `include`,
      make in the architecture directory), each step aborting the build when
      it fails. Returns the steps attempted and the outcome. */
  method BuildNative(l: Layout, host: Option<string>, run: Command -> Spawn)
    returns (attempted: seq<Step>, outcome: Outcome<BuildError>)
    ensures (attempted, outcome) == RunPipeline(NativeBuildPlan, l, host, run)
  {
    attempted := [Bootstrap];
    outcome := RunStep(Bootstrap, l, host, run);
    if outcome.Fail? {
      FirstFailureStops(NativeBuildPlan, 0, l, host, run);
      assert NativeBuildPlan[..1] == attempted;
      return;
    }
    attempted := attempted + [Configure];
    outcome := RunStep(Configure, l, host, run);
    if outcome.Fail? {
      FirstFailureStops(NativeBuildPlan, 1, l, host, run);
      assert NativeBuildPlan[..2] == attempted;
      return;
    }
    attempted := attempted + [MakeInclude];
    outcome := RunStep(MakeInclude, l, host, run);
    if outcome.Fail? {
      FirstFailureStops(NativeBuildPlan, 2, l, host, run);
      assert NativeBuildPlan[..3] == attempted;
      return;
    }
    attempted := attempted + [MakeArch];
    outcome := RunStep(MakeArch, l, host, run);
    if outcome.Fail? {
      FirstFailureStops(NativeBuildPlan, 3, l, host, run);
      assert NativeBuildPlan[..4] == attempted;
      return;
    }
    assert attempted == NativeBuildPlan;
    assert forall k :: 0 <= k < |NativeBuildPlan| ==> RunStep(NativeBuildPlan[k], l, host, run).Pass?;
  }

  /** `main`. The environment is passed in: the manifest directory, the
      target, whether the static archive exists, `HOST`, the operating system
      as `run`, and the four include listings as they are when read. Returns
      the native-build steps attempted, in order, and the run's result. */
  method RunBuildScript(manifestDir: Path, t: Target, staticLibExists: bool, host: Option<string>,
                        run: Command -> Spawn, tree: IncludeTree)
    returns (attempted: seq<Step>, r: Result<BuildOutput, BuildError>)
    ensures McuName(t).Err? ==> attempted == [] && r == Err(CannotDetermineMcu)
    ensures !ShouldBuildNative(staticLibExists, t) ==> attempted == []
    ensures McuName(t).Ok? && !ShouldBuildNative(staticLibExists, t) ==>
      r == Finish(LayoutOf(manifestDir), tree, McuName(t).value)
    ensures McuName(t).Ok? && ShouldBuildNative(staticLibExists, t) ==>
      var (steps, outcome) := RunPipeline(NativeBuildPlan, LayoutOf(manifestDir), host, run);
      && attempted == steps
      && (outcome.Fail? ==> r == Err(outcome.error))
      && (outcome.Pass? ==> r == Finish(LayoutOf(manifestDir), tree, McuName(t).value))
  {
    var l := LayoutOf(manifestDir);
    attempted := [];
    var mcuName := McuName(t);
    if mcuName.Err? {
      return [], Err(mcuName.error);
    }
    var mcu := mcuName.value;

    if !staticLibExists && !IsBuildingDocumentation(t) {
      var outcome;
      attempted, outcome := BuildNative(l, host, run);
      if outcome.Fail? {
        return attempted, Err(outcome.error);
      }
    }

    var bindings := GenerateBindings(l.libcDir, tree, mcu);
    if bindings.Err? {
      return attempted, Err(bindings.error);
    }
    r := Ok(BuildOutput(bindings.value, l.archDir, "static=c"));
  }

  /** When every command succeeds and `HOST` is set, all four steps run, in
      plan order, and the build goes on. */
  lemma AllStepsRun(l: Layout, host: string, run: Command -> Spawn)
    requires forall c :: run(c) == Finished(Exited(0))
    ensures RunPipeline(NativeBuildPlan, l, Some(host), run) == (NativeBuildPlan, Pass)
  {
  }

  /** The bindings of an atmega328 build get the define `__AVR_ATmega328__`
      and, when listed, `avr/sleep.h` and `util/crc16.h`, but never
      `util/delay.h` nor any `io*` header. */
  lemma {:induction false} AtMega328Bindings(libc: Path, tree: IncludeTree)
    requires DirEntry("sleep.h", true) in tree.avr && DirEntry("crc16.h", true) in tree.util
    ensures var r := BindingRequest(libc, tree, Some("atmega328"));
      && r.Ok?
      && r.value.clangArgs == BaseClangArgs + ["-D__AVR_ATmega328__"]
      && AvrDir(libc) + ["sleep.h"] in r.value.headers
      && UtilDir(libc) + ["crc16.h"] in r.value.headers
      && IncludeDir(libc) + ["util", "delay.h"] !in r.value.headers
      && (forall p :: p in r.value.headers ==> !HasIoStem(p))
  {
    var mcu := Some("atmega328");
    SupportedDefines();
    assert "-D" + "__AVR_ATmega328__" == "-D__AVR_ATmega328__";
    assert BindingRequest(libc, tree, mcu) ==
      Ok(BindingConfig(true, "::rust_ctypes", BaseClangArgs + ["-D__AVR_ATmega328__"], BaseHeaderList(libc, tree, mcu)));
    McuHeaders(libc, tree, "atmega328");
  }

  /** An avr build for the atmega328 whose archive is absent and whose
      commands all succeed runs all four native steps and then produces the
      atmega328 bindings, linked from the `avr6` library directory. */
  lemma {:induction false} AtMega328Build(manifestDir: Path, host: string, run: Command -> Spawn, tree: IncludeTree)
    requires forall c :: run(c) == Finished(Exited(0))
    ensures var t := Target(true, Some("atmega328"));
      && McuName(t) == Ok(Some("atmega328"))
      && ShouldBuildNative(false, t)
      && RunPipeline(NativeBuildPlan, LayoutOf(manifestDir), Some(host), run) == (NativeBuildPlan, Pass)
    ensures var l := LayoutOf(manifestDir);
      Finish(l, tree, Some("atmega328")) ==
        Ok(BuildOutput(BindingRequest(l.libcDir, tree, Some("atmega328")).value, manifestDir + ["avr-libc", "avr", "lib", "avr6"], "static=c"))
  {
    AllStepsRun(LayoutOf(manifestDir), host, run);
    SupportedDefines();
    assert LayoutOf(manifestDir).archDir == manifestDir + ["avr-libc", "avr", "lib", "avr6"];
  }
}
