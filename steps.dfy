/** The individual checks and installers the setup object runs. Each one is a function
    of the host, or a method where the source builds its answer step by step. */
module Steps {
  import opened Env

  // ---------------------------------------------------------------- check_python_version

  /** Rejects exactly the interpreters whose major version is not 3 or whose minor
      version is below 9. */
  function CheckPythonVersion(major: nat, minor: nat): (ok: bool)
    ensures ok <==> major == 3 && minor >= 9
  {
    !(major != 3 || minor < 9)
  }

  // ---------------------------------------------------------------- check_dependencies

  const Pip3Package: string := "python3-pip"
  const DevPackage: string := "python3-dev"

  /** The packages reported missing when the check returns: pip when the pip3 probe
      exited non-zero or pip3 is absent, the development headers only on Linux and only
      when python3-config is absent. */
  function MissingDependencies(h: Host): (missing: seq<string>)
    ensures forall k :: 0 <= k < |missing| ==> missing[k] == Pip3Package || missing[k] == DevPackage
    ensures Pip3Package in missing <==> h.pip3Probe == ExitedNonZero || h.pip3Probe == NotFound
    ensures DevPackage in missing <==> IsLinux(h) && h.python3ConfigProbe == NotFound
    ensures |missing| <= 2 && (|missing| == 2 ==> missing == [Pip3Package, DevPackage])
  {
    (if h.pip3Probe == ExitedNonZero || h.pip3Probe == NotFound then [Pip3Package] else [])
    + (if IsLinux(h) && h.python3ConfigProbe == NotFound then [DevPackage] else [])
  }

  /** The pip3 probe catches CalledProcessError and FileNotFoundError, the python3-config
      probe (run on Linux only) catches FileNotFoundError alone; whatever else a probe
      raises escapes the check. */
  predicate DependencyCheckRaises(h: Host) {
    h.pip3Probe == Unrunnable
    || (IsLinux(h) && (h.python3ConfigProbe == ExitedNonZero || h.python3ConfigProbe == Unrunnable))
  }

  /** The exception that escapes when the check raises: the pip3 probe's OSError first,
      then python3-config's CalledProcessError or OSError. */
  function DependencyError(h: Host): PyException {
    if h.pip3Probe == Unrunnable then OSError
    else if IsLinux(h) && h.python3ConfigProbe == ExitedNonZero then CalledProcessError
    else OSError
  }

  /** What `check_dependencies` returns or raises. */
  function DependencyOutcome(h: Host): (r: Outcome<bool>)
    ensures r.Raised? <==> DependencyCheckRaises(h)
    ensures r == Raised(OSError) <==> h.pip3Probe == Unrunnable || (IsLinux(h) && h.python3ConfigProbe == Unrunnable)
    ensures r == Raised(CalledProcessError) <==>
      h.pip3Probe != Unrunnable && IsLinux(h) && h.python3ConfigProbe == ExitedNonZero
    ensures r == Returned(false) <==> !DependencyCheckRaises(h) && MissingDependencies(h) != []
    ensures r == Returned(true) <==> (h.pip3Probe == Found && !(IsLinux(h) && h.python3ConfigProbe != Found))
  {
    if DependencyCheckRaises(h) then Raised(DependencyError(h))
    else Returned(MissingDependencies(h) == [])
  }

  /** `check_dependencies`: accumulates `missing` probe by probe. When a probe raises, the
      list built so far is abandoned; it is then a prefix of the full report. */
  method CheckDependencies(h: Host) returns (missing: seq<string>, r: Outcome<bool>)
    ensures r.Returned? ==> missing == MissingDependencies(h)
    ensures r.Raised? ==> missing <= MissingDependencies(h)
    ensures r == DependencyOutcome(h)
    ensures r == Returned(false) <==> r.Returned? && missing != []
  {
    missing := [];
    match h.pip3Probe {
      case Found =>
      case ExitedNonZero =>
        missing := missing + [Pip3Package];
      case NotFound =>
        missing := missing + [Pip3Package];
      case Unrunnable =>
        r := Raised(OSError);
        return;
    }
    if IsLinux(h) {
      match h.python3ConfigProbe
      case Found =>
      case NotFound =>
        missing := missing + [DevPackage];
      case ExitedNonZero =>
        r := Raised(CalledProcessError);
        return;
      case Unrunnable =>
        r := Raised(OSError);
        return;
    }
    if missing != [] {
      r := Returned(false);
      return;
    }
    r := Returned(true);
  }

  // ---------------------------------------------------------------- upgrade_pip

  const InstallPrefix: seq<string> := ["-m", "pip", "install"]

  /** What a step that runs pip did: the command it ran and its answer. */
  datatype PipStep = PipStep(command: seq<string>, ok: bool)

  /** `upgrade_pip`: upgrades pip, setuptools and wheel through the running interpreter,
      and succeeds exactly when that command completes. */
  function UpgradePip(h: Host): (r: PipStep)
    ensures r.ok <==> h.pipUpgrade == Completed
  {
    PipStep([h.executable, "-m", "pip", "install", "--upgrade", "pip", "setuptools", "wheel"],
            h.pipUpgrade == Completed)
  }

  /** The pip upgrade's command: the interpreter, "-m pip install --upgrade", then the
      three packages. */
  lemma UpgradePipCommand(h: Host)
    ensures |UpgradePip(h).command| == 8
    ensures UpgradePip(h).command[..4] == [h.executable] + InstallPrefix && UpgradePip(h).command[4] == "--upgrade"
    ensures UpgradePip(h).command[5..] == ["pip", "setuptools", "wheel"]
  {
  }

  // ---------------------------------------------------------------- install_mediapipe

  const MediapipeSuffix: seq<string> := ["--prefer-binary", "mediapipe"]

  /** The command `install_mediapipe(upgrade)` runs. */
  function MediapipeCommand(executable: string, upgrade: bool): seq<string> {
    [executable] + InstallPrefix + (if upgrade then ["--upgrade"] else []) + MediapipeSuffix
  }

  /** The command starts with the interpreter and "-m pip install", ends with
      "--prefer-binary mediapipe", and carries "--upgrade" exactly when asked, right after
      "install"; past the interpreter path, which the caller does not choose, the flag
      occurs nowhere else. */
  lemma MediapipeCommandShape(executable: string, upgrade: bool)
    ensures var cmd := MediapipeCommand(executable, upgrade);
      && |cmd| == (if upgrade then 7 else 6)
      && cmd[..4] == [executable] + InstallPrefix
      && cmd[|cmd| - 2..] == MediapipeSuffix
      && (upgrade ==> cmd[4] == "--upgrade")
      && ("--upgrade" in cmd[1..] <==> upgrade)
  {
    var cmd := MediapipeCommand(executable, upgrade);
    if upgrade {
      assert cmd[4] == "--upgrade";
    } else {
      assert cmd[1..] == ["-m", "pip", "install", "--prefer-binary", "mediapipe"];
    }
  }

  /** `install_mediapipe(upgrade)`: builds the pip command by appending to a list, then
      runs it; it succeeds exactly when the command completes. */
  method InstallMediapipe(h: Host, upgrade: bool) returns (cmd: seq<string>, ok: bool)
    ensures cmd == MediapipeCommand(h.executable, upgrade)
    ensures ok <==> h.mediapipeInstall == Completed
  {
    cmd := [h.executable, "-m", "pip", "install"];
    if upgrade {
      cmd := cmd + ["--upgrade"];
    }
    cmd := cmd + ["--prefer-binary", "mediapipe"];
    ok := h.mediapipeInstall == Completed;
  }

  // ---------------------------------------------------------------- install_opencv

  /** What `install_opencv` did when it returned: the pip command it ran, if any, and
      its answer. */
  datatype OpencvStep = OpencvStep(command: Option<seq<string>>, ok: bool)

  /** The `try` around `import cv2` catches only ImportError. */
  predicate OpencvRaises(h: Host) {
    h.cv2Import == ImportCrashes
  }

  /** `install_opencv`: an importable cv2 means no install is attempted and the step
      succeeds; an ImportError leads to the pip command, and the step succeeds exactly
      when it completes; any other import exception escapes. */
  function InstallOpencv(h: Host): (r: Outcome<OpencvStep>)
    ensures r.Raised? <==> OpencvRaises(h)
    ensures r.Raised? ==> r.error == ImportCrash
    ensures r.Returned? ==> (r.value.command.None? <==> h.cv2Import == Imports)
    ensures r.Returned? && r.value.command.Some? ==>
      r.value.command.value == [h.executable] + InstallPrefix + ["--prefer-binary", "opencv-python"]
    ensures r.Returned? ==> (r.value.ok <==> h.cv2Import == Imports || h.opencvInstall == Completed)
  {
    match h.cv2Import
    case Imports => Returned(OpencvStep(None, true))
    case ImportFails =>
      Returned(OpencvStep(Some([h.executable, "-m", "pip", "install", "--prefer-binary", "opencv-python"]),
                          h.opencvInstall == Completed))
    case ImportCrashes => Raised(ImportCrash)
  }

  // ---------------------------------------------------------------- verify_installation

  /** What `verify_installation` found when it returned: its answer, and whether it warned
      that the vision tasks are missing. */
  datatype Verification = Verification(ok: bool, visionWarning: bool)

  /** Both `try` blocks catch only ImportError: a mediapipe import that crashes, or a
      vision import that crashes after mediapipe imported, escapes the step. */
  predicate VerifyRaises(h: Host) {
    h.mediapipeImport == ImportCrashes
    || (h.mediapipeImport == Imports && h.visionImport == ImportCrashes)
  }

  /** `verify_installation`: the answer is the mediapipe import alone; the vision import
      is only tried after that import succeeded, and an ImportError there only produces
      a warning. */
  function VerifyInstallation(h: Host): (r: Outcome<Verification>)
    ensures r.Raised? <==> VerifyRaises(h)
    ensures r.Raised? ==> r.error == ImportCrash
    ensures r.Returned? ==> (r.value.ok <==> h.mediapipeImport == Imports)
    ensures r.Returned? ==> (r.value.visionWarning <==> h.mediapipeImport == Imports && h.visionImport == ImportFails)
  {
    match h.mediapipeImport
    case ImportCrashes => Raised(ImportCrash)
    case ImportFails => Returned(Verification(false, false))
    case Imports =>
      (match h.visionImport
       case Imports => Returned(Verification(true, false))
       case ImportFails => Returned(Verification(true, true))
       case ImportCrashes => Raised(ImportCrash))
  }

  /** Whether the vision tasks import or raise ImportError never changes the verdict. */
  lemma VerifyIgnoresVision(h: Host, v1: ImportResult, v2: ImportResult)
    requires v1 != ImportCrashes && v2 != ImportCrashes
    ensures VerifyInstallation(h.(visionImport := v1)).Returned? == VerifyInstallation(h.(visionImport := v2)).Returned?
    ensures VerifyInstallation(h.(visionImport := v1)).Returned? ==>
      VerifyInstallation(h.(visionImport := v1)).value.ok == VerifyInstallation(h.(visionImport := v2)).value.ok
  {
  }
}
