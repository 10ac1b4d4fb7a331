/** `run_full_setup`, `main` and the script's exit status. A run is described by the
    trace of setup-object calls it made and by what it returned or raised. */
module Setup {
  import opened Env
  import Steps
  import SystemInfo

  /** One call on the setup object. */
  datatype Step =
    | PrintSystemInfo
    | CheckPythonVersion
    | CheckDependencies
    | UpgradePip
    | InstallMediapipe(upgrade: bool)
    | InstallOpencv
    | VerifyInstallation
    | CreateTestScript

  /** The calls that may change the host's installed packages. */
  predicate ChangesPackages(s: Step) {
    s.UpgradePip? || s.InstallMediapipe? || s.InstallOpencv?
  }

  /** The order in which `run_full_setup` makes its calls. */
  const FullSetupOrder: seq<Step> := [
    PrintSystemInfo, CheckPythonVersion, CheckDependencies, UpgradePip,
    InstallMediapipe(true), InstallOpencv, VerifyInstallation, CreateTestScript]

  // ---------------------------------------------------------------- reference semantics

  /** How the full setup reacts to one call: go on, return False, or let an exception escape. */
  datatype Verdict = Proceed | Stop | Throw(error: PyException)

  /** Fatal calls (`if not ...: return False`) stop on failure; soft calls ("Continuing
      without ...") and the calls without an answer proceed; the dependency check raises
      what its probes do not catch, the OpenCV and verification steps raise what their
      imports do not catch, and writing the test script raises a failed write. Each verdict
      is stated through the step's own predicates in `Steps`; `RunFullSetup`, which calls
      the steps themselves, is proved to make the same run. */
  function StepVerdict(h: Host, s: Step): Verdict {
    match s
    case CheckPythonVersion =>
      if Steps.CheckPythonVersion(h.versionMajor, h.versionMinor) then Proceed else Stop
    case CheckDependencies =>
      if Steps.DependencyCheckRaises(h) then Throw(Steps.DependencyError(h)) else Proceed
    case UpgradePip =>
      if h.pipUpgrade == Completed then Proceed else Stop
    case InstallMediapipe(_) =>
      if h.mediapipeInstall == Completed then Proceed else Stop
    case VerifyInstallation =>
      if Steps.VerifyRaises(h) then Throw(ImportCrash)
      else if h.mediapipeImport == Imports then Proceed else Stop
    case PrintSystemInfo => Proceed
    case InstallOpencv =>
      if Steps.OpencvRaises(h) then Throw(ImportCrash) else Proceed
    case CreateTestScript =>
      if h.testScriptWrite == Written then Proceed else Throw(WriteError(h.testScriptWrite))
  }

  datatype Run = Run(trace: seq<Step>, result: Outcome<bool>)

  /** Runs `steps` in order and ends the run at the first call that does not proceed. */
  function RunSteps(h: Host, steps: seq<Step>): Run
    decreases |steps|
  {
    if steps == [] then Run([], Returned(true))
    else
      match StepVerdict(h, steps[0])
      case Proceed =>
        var rest := RunSteps(h, steps[1..]);
        Run([steps[0]] + rest.trace, rest.result)
      case Stop => Run([steps[0]], Returned(false))
      case Throw(e) => Run([steps[0]], Raised(e))
  }

  /** A run makes the calls in order, beginning with the first, and skips none. */
  lemma {:induction false} RunStepsTraceIsPrefix(h: Host, steps: seq<Step>)
    ensures RunSteps(h, steps).trace <= steps
    ensures steps != [] ==> RunSteps(h, steps).trace != []
    decreases |steps|
  {
    if steps != [] && StepVerdict(h, steps[0]) == Proceed {
      RunStepsTraceIsPrefix(h, steps[1..]);
    }
  }

  /** A run returns True exactly when every call proceeds, and then it made all of them. */
  lemma {:induction false} RunStepsCompletes(h: Host, steps: seq<Step>)
    ensures RunSteps(h, steps).result == Returned(true)
        <==> forall k :: 0 <= k < |steps| ==> StepVerdict(h, steps[k]) == Proceed
    ensures RunSteps(h, steps).result == Returned(true) ==> RunSteps(h, steps).trace == steps
    decreases |steps|
  {
    if steps != [] {
      RunStepsCompletes(h, steps[1..]);
      if StepVerdict(h, steps[0]) == Proceed {
        assert (forall k :: 0 <= k < |steps| ==> StepVerdict(h, steps[k]) == Proceed)
            <==> (forall k :: 0 <= k < |steps[1..]| ==> StepVerdict(h, steps[1..][k]) == Proceed) by {
          if forall k :: 0 <= k < |steps[1..]| ==> StepVerdict(h, steps[1..][k]) == Proceed {
            forall k | 0 <= k < |steps| ensures StepVerdict(h, steps[k]) == Proceed {
              if k > 0 {
                assert steps[k] == steps[1..][k - 1];
              }
            }
          }
        }
      }
    }
  }

  /** Every call before the last one proceeded, and a run that did not return True ended
      on the call that stopped it or raised. */
  lemma {:induction false} RunStepsStopsAtFirstFailure(h: Host, steps: seq<Step>)
    ensures var r := RunSteps(h, steps);
      forall k :: 0 <= k < |r.trace| - 1 ==> StepVerdict(h, r.trace[k]) == Proceed
    ensures var r := RunSteps(h, steps);
      r.result == Returned(false) ==> r.trace != [] && StepVerdict(h, r.trace[|r.trace| - 1]) == Stop
    ensures var r := RunSteps(h, steps);
      r.result.Raised? ==> r.trace != [] && StepVerdict(h, r.trace[|r.trace| - 1]) == Throw(r.result.error)
    decreases |steps|
  {
    if steps != [] && StepVerdict(h, steps[0]) == Proceed {
      RunStepsStopsAtFirstFailure(h, steps[1..]);
      var rest := RunSteps(h, steps[1..]);
      var r := RunSteps(h, steps);
      assert r.trace == [steps[0]] + rest.trace;
      forall k | 0 <= k < |r.trace| - 1 ensures StepVerdict(h, r.trace[k]) == Proceed {
        if k > 0 {
          assert r.trace[k] == rest.trace[k - 1];
        }
      }
      if rest.trace != [] {
        assert r.trace[|r.trace| - 1] == rest.trace[|rest.trace| - 1];
      }
    }
  }

  /** Two hosts on which every call reacts alike give the same run. */
  lemma {:induction false} RunStepsSameVerdicts(h1: Host, h2: Host, steps: seq<Step>)
    requires forall k :: 0 <= k < |steps| ==> StepVerdict(h1, steps[k]) == StepVerdict(h2, steps[k])
    ensures RunSteps(h1, steps) == RunSteps(h2, steps)
    decreases |steps|
  {
    if steps != [] {
      assert StepVerdict(h1, steps[0]) == StepVerdict(h2, steps[0]);
      forall k | 0 <= k < |steps[1..]|
        ensures StepVerdict(h1, steps[1..][k]) == StepVerdict(h2, steps[1..][k])
      {
        assert steps[1..][k] == steps[k + 1];
      }
      RunStepsSameVerdicts(h1, h2, steps[1..]);
    }
  }

  // ---------------------------------------------------------------- the full setup

  /** The full setup gets past the MediaPipe install: the first three fatal calls succeed
      and the dependency check does not raise. */
  predicate PassesInstall(h: Host) {
    Steps.CheckPythonVersion(h.versionMajor, h.versionMinor)
    && !Steps.DependencyCheckRaises(h)
    && h.pipUpgrade == Completed
    && h.mediapipeInstall == Completed
  }

  /** The full setup reaches the call that writes the test script: it gets past the
      install, neither import step raises, and mediapipe imports. */
  predicate ReachesTestScript(h: Host) {
    PassesInstall(h)
    && !Steps.OpencvRaises(h)
    && !Steps.VerifyRaises(h)
    && h.mediapipeImport == Imports
  }

  /** The full setup reaches the test script and writes it. */
  predicate SetupSucceeds(h: Host) {
    ReachesTestScript(h) && h.testScriptWrite == Written
  }

  /** The inputs the full setup's answer depends on. */
  predicate SameFatalInputs(h1: Host, h2: Host) {
    Steps.CheckPythonVersion(h1.versionMajor, h1.versionMinor)
      == Steps.CheckPythonVersion(h2.versionMajor, h2.versionMinor)
    && Steps.DependencyCheckRaises(h1) == Steps.DependencyCheckRaises(h2)
    && (Steps.DependencyCheckRaises(h1) ==> Steps.DependencyError(h1) == Steps.DependencyError(h2))
    && h1.pipUpgrade == h2.pipUpgrade
    && h1.mediapipeInstall == h2.mediapipeInstall
    && Steps.OpencvRaises(h1) == Steps.OpencvRaises(h2)
    && Steps.VerifyRaises(h1) == Steps.VerifyRaises(h2)
    && (h1.mediapipeImport == Imports) == (h2.mediapipeImport == Imports)
    && h1.testScriptWrite == h2.testScriptWrite
  }

  /** One call of a run. */
  lemma RunStepsUnfold(h: Host, steps: seq<Step>)
    requires steps != []
    ensures StepVerdict(h, steps[0]) == Proceed ==>
      RunSteps(h, steps) == Run([steps[0]] + RunSteps(h, steps[1..]).trace, RunSteps(h, steps[1..]).result)
    ensures StepVerdict(h, steps[0]) == Stop ==> RunSteps(h, steps) == Run([steps[0]], Returned(false))
    ensures StepVerdict(h, steps[0]).Throw? ==> RunSteps(h, steps) == Run([steps[0]], Raised(StepVerdict(h, steps[0]).error))
  {
  }

  /** How many calls the full setup makes: it stops right after the first fatal call that
      fails and right after a call that raises. */
  function FullSetupCalls(h: Host): nat {
    if !Steps.CheckPythonVersion(h.versionMajor, h.versionMinor) then 2
    else if Steps.DependencyCheckRaises(h) then 3
    else if h.pipUpgrade != Completed then 4
    else if h.mediapipeInstall != Completed then 5
    else if Steps.OpencvRaises(h) then 6
    else if Steps.VerifyRaises(h) || h.mediapipeImport != Imports then 7
    else 8
  }

  /** What the full setup answers: False from a fatal call that fails, the exception of a
      call that raises, True after the test script is written. */
  function FullSetupAnswer(h: Host): Outcome<bool> {
    if !Steps.CheckPythonVersion(h.versionMajor, h.versionMinor) then Returned(false)
    else if Steps.DependencyCheckRaises(h) then Raised(Steps.DependencyError(h))
    else if h.pipUpgrade != Completed || h.mediapipeInstall != Completed then Returned(false)
    else if Steps.OpencvRaises(h) || Steps.VerifyRaises(h) then Raised(ImportCrash)
    else if h.mediapipeImport != Imports then Returned(false)
    else if h.testScriptWrite != Written then Raised(WriteError(h.testScriptWrite))
    else Returned(true)
  }

  /** The verdict of a call that ends a run with `answer`. */
  function Ending(answer: Outcome<bool>): Verdict {
    match answer
    case Returned(true) => Proceed
    case Returned(false) => Stop
    case Raised(e) => Throw(e)
  }

  /** Every call the full setup makes before its last one proceeds, and the last one
      ends the run with the full setup's answer. */
  lemma FullSetupVerdicts(h: Host)
    ensures 2 <= FullSetupCalls(h) <= |FullSetupOrder|
    ensures forall k :: 0 <= k < FullSetupCalls(h) - 1 ==> StepVerdict(h, FullSetupOrder[k]) == Proceed
    ensures StepVerdict(h, FullSetupOrder[FullSetupCalls(h) - 1]) == Ending(FullSetupAnswer(h))
    ensures FullSetupCalls(h) < |FullSetupOrder| ==> FullSetupAnswer(h) != Returned(true)
  {
  }

  /** A run from its `k`-th call on ends with the `n`-th call when the calls before it
      proceed and that call ends the run with `answer`. */
  lemma {:induction false} RunStepsEndsAt(h: Host, steps: seq<Step>, k: nat, n: nat, answer: Outcome<bool>)
    requires k < n <= |steps|
    requires forall j :: k <= j < n - 1 ==> StepVerdict(h, steps[j]) == Proceed
    requires StepVerdict(h, steps[n - 1]) == Ending(answer)
    requires n < |steps| ==> answer != Returned(true)
    ensures RunSteps(h, steps[k..]) == Run(steps[k..n], answer)
    decreases n - k
  {
    assert steps[k..][0] == steps[k] && steps[k..][1..] == steps[k + 1..];
    RunStepsUnfold(h, steps[k..]);
    if k < n - 1 {
      RunStepsEndsAt(h, steps, k + 1, n, answer);
      assert [steps[k]] + steps[k + 1..n] == steps[k..n];
    } else {
      assert steps[k..n] == [steps[k]];
      if n == |steps| {
        assert steps[k + 1..] == [];
      }
    }
  }

  /** The full setup makes the first `FullSetupCalls(h)` calls in order and answers
      `FullSetupAnswer(h)`. */
  lemma FullSetupClosedForm(h: Host)
    ensures RunSteps(h, FullSetupOrder) == Run(FullSetupOrder[..FullSetupCalls(h)], FullSetupAnswer(h))
  {
    FullSetupVerdicts(h);
    RunStepsEndsAt(h, FullSetupOrder, 0, FullSetupCalls(h), FullSetupAnswer(h));
    assert FullSetupOrder[0..] == FullSetupOrder;
    assert FullSetupOrder[0..FullSetupCalls(h)] == FullSetupOrder[..FullSetupCalls(h)];
  }

  /** What the full setup returns, when it raises, and when it writes the test script. */
  lemma FullSetupResult(h: Host)
    ensures RunSteps(h, FullSetupOrder).result == Returned(true) <==> SetupSucceeds(h)
    ensures RunSteps(h, FullSetupOrder).result.Raised?
        <==> (Steps.CheckPythonVersion(h.versionMajor, h.versionMinor) && Steps.DependencyCheckRaises(h))
             || (PassesInstall(h) && (Steps.OpencvRaises(h) || Steps.VerifyRaises(h)))
             || (ReachesTestScript(h) && h.testScriptWrite != Written)
    ensures RunSteps(h, FullSetupOrder).result == Raised(ImportCrash)
        <==> PassesInstall(h) && (Steps.OpencvRaises(h) || Steps.VerifyRaises(h))
    ensures CreateTestScript in RunSteps(h, FullSetupOrder).trace <==> ReachesTestScript(h)
    ensures CreateTestScript in RunSteps(h, FullSetupOrder).trace && h.testScriptWrite == Written
        <==> RunSteps(h, FullSetupOrder).result == Returned(true)
    ensures |RunSteps(h, FullSetupOrder).trace| >= 2
  {
    FullSetupClosedForm(h);
    var n := FullSetupCalls(h);
    assert FullSetupOrder[7] == CreateTestScript;
    if n < 8 {
      assert forall k :: 0 <= k < n ==> FullSetupOrder[..n][k] != CreateTestScript;
    }
  }

  /** The dependency report, OpenCV and the vision tasks never change the full setup:
      two hosts that agree on the fatal inputs give the same run. */
  lemma FullSetupDependsOnlyOnFatalInputs(h1: Host, h2: Host)
    requires SameFatalInputs(h1, h2)
    ensures RunSteps(h1, FullSetupOrder) == RunSteps(h2, FullSetupOrder)
  {
    forall k | 0 <= k < |FullSetupOrder|
      ensures StepVerdict(h1, FullSetupOrder[k]) == StepVerdict(h2, FullSetupOrder[k])
    {
    }
    RunStepsSameVerdicts(h1, h2, FullSetupOrder);
  }

  /** What any run equal to the full setup's run satisfies. */
  lemma FullSetupRunFacts(h: Host, trace: seq<Step>, r: Outcome<bool>)
    requires Run(trace, r) == RunSteps(h, FullSetupOrder)
    ensures trace <= FullSetupOrder && |trace| >= 2
    ensures r == Returned(true) <==> SetupSucceeds(h)
    ensures r.Raised? <==> (Steps.CheckPythonVersion(h.versionMajor, h.versionMinor) && Steps.DependencyCheckRaises(h))
                           || (PassesInstall(h) && (Steps.OpencvRaises(h) || Steps.VerifyRaises(h)))
                           || (ReachesTestScript(h) && h.testScriptWrite != Written)
    ensures CreateTestScript in trace <==> ReachesTestScript(h)
  {
    FullSetupResult(h);
    RunStepsTraceIsPrefix(h, FullSetupOrder);
  }

  /** `run_full_setup`: the chain of calls with early returns. Each exit records the calls
      made so far, which are always the first calls of `FullSetupOrder` (system info and
      the version check come first). */
  method RunFullSetup(h: Host) returns (trace: seq<Step>, r: Outcome<bool>)
    ensures Run(trace, r) == RunSteps(h, FullSetupOrder)
    ensures trace <= FullSetupOrder && |trace| >= 2
    ensures r == Returned(true) <==> SetupSucceeds(h)
    ensures r.Raised? <==> (Steps.CheckPythonVersion(h.versionMajor, h.versionMinor) && Steps.DependencyCheckRaises(h))
                           || (PassesInstall(h) && (Steps.OpencvRaises(h) || Steps.VerifyRaises(h)))
                           || (ReachesTestScript(h) && h.testScriptWrite != Written)
    ensures CreateTestScript in trace <==> ReachesTestScript(h)
  {
    FullSetupClosedForm(h);
    if !Steps.CheckPythonVersion(h.versionMajor, h.versionMinor) {
      trace, r := FullSetupOrder[..2], Returned(false);
      FullSetupRunFacts(h, trace, r);
      return;
    }
    var missing, deps := Steps.CheckDependencies(h);
    if deps.Raised? {
      trace, r := FullSetupOrder[..3], Raised(deps.error);
      FullSetupRunFacts(h, trace, r);
      return;
    }
    // A failed dependency check only prints "Continuing without all dependencies...".
    var upgrade := Steps.UpgradePip(h);
    if !upgrade.ok {
      trace, r := FullSetupOrder[..4], Returned(false);
      FullSetupRunFacts(h, trace, r);
      return;
    }
    var cmd, installed := Steps.InstallMediapipe(h, true);
    if !installed {
      trace, r := FullSetupOrder[..5], Returned(false);
      FullSetupRunFacts(h, trace, r);
      return;
    }
    // A failed OpenCV step only prints "Continuing without OpenCV...".
    var opencv := Steps.InstallOpencv(h);
    if opencv.Raised? {
      trace, r := FullSetupOrder[..6], Raised(opencv.error);
      FullSetupRunFacts(h, trace, r);
      return;
    }
    var verification := Steps.VerifyInstallation(h);
    if verification.Raised? {
      trace, r := FullSetupOrder[..7], Raised(verification.error);
      FullSetupRunFacts(h, trace, r);
      return;
    }
    if !verification.value.ok {
      trace, r := FullSetupOrder[..7], Returned(false);
      FullSetupRunFacts(h, trace, r);
      return;
    }
    trace := FullSetupOrder[..8];
    if h.testScriptWrite != Written {
      r := Raised(WriteError(h.testScriptWrite));
      FullSetupRunFacts(h, trace, r);
      return;
    }
    r := Returned(true);
    FullSetupRunFacts(h, trace, r);
  }

  // ---------------------------------------------------------------- main

  /** The command-line flags; `verbose` is stored by the setup object and never read. */
  datatype Flags = Flags(verbose: bool, checkOnly: bool, verifyOnly: bool, createTest: bool)

  datatype Mode = CheckOnly | VerifyOnly | CreateTestOnly | FullSetup

  /** Flag precedence: check-only, then verify-only, then create-test, else the full setup. */
  function SelectedMode(f: Flags): (m: Mode)
    ensures m == CheckOnly <==> f.checkOnly
    ensures m == VerifyOnly <==> !f.checkOnly && f.verifyOnly
    ensures m == CreateTestOnly <==> !f.checkOnly && !f.verifyOnly && f.createTest
    ensures m == FullSetup <==> !f.checkOnly && !f.verifyOnly && !f.createTest
  {
    if f.checkOnly then CheckOnly
    else if f.verifyOnly then VerifyOnly
    else if f.createTest then CreateTestOnly
    else FullSetup
  }

  /** `main`: dispatches on the flags and returns the exit code, unless a step it calls
      raises. Only the full setup can return 1, and only
      it changes packages. */
  method EntryPoint(h: Host, f: Flags) returns (trace: seq<Step>, code: Outcome<int>)
    ensures SelectedMode(f) == CheckOnly ==>
      trace == [PrintSystemInfo, CheckPythonVersion, CheckDependencies]
      && code == if Steps.DependencyCheckRaises(h) then Raised(Steps.DependencyError(h)) else Returned(0)
    ensures SelectedMode(f) == VerifyOnly ==>
      trace == [PrintSystemInfo, VerifyInstallation]
      && code == if Steps.VerifyRaises(h) then Raised(ImportCrash) else Returned(0)
    ensures SelectedMode(f) == CreateTestOnly ==>
      trace == [CreateTestScript]
      && code == if h.testScriptWrite == Written then Returned(0) else Raised(WriteError(h.testScriptWrite))
    ensures SelectedMode(f) == FullSetup ==>
      trace == RunSteps(h, FullSetupOrder).trace
      && (code == Returned(0) <==> SetupSucceeds(h))
      && (code == Returned(1) <==> RunSteps(h, FullSetupOrder).result == Returned(false))
      && (code.Raised? <==> RunSteps(h, FullSetupOrder).result.Raised?)
      && (code.Raised? ==> code.error == RunSteps(h, FullSetupOrder).result.error)
    ensures code == Returned(0) || code == Returned(1) || code.Raised?
    ensures code == Returned(1) ==> SelectedMode(f) == FullSetup
    ensures SelectedMode(f) != FullSetup ==> forall k :: 0 <= k < |trace| ==> !ChangesPackages(trace[k])
    ensures CreateTestScript in trace && h.testScriptWrite == Written
      ==> SelectedMode(f) == CreateTestOnly || (SelectedMode(f) == FullSetup && code == Returned(0))
  {
    // Constructing the setup object gathers the system information in every mode;
    // it is only ever printed.
    var info := SystemInfo.GetSystemInfo(h);
    if f.checkOnly {
      trace := [PrintSystemInfo, CheckPythonVersion];
      var versionOk := Steps.CheckPythonVersion(h.versionMajor, h.versionMinor);
      trace := trace + [CheckDependencies];
      var missing, deps := Steps.CheckDependencies(h);
      if deps.Raised? {
        code := Raised(deps.error);
        return;
      }
      code := Returned(0);
      return;
    }
    if f.verifyOnly {
      trace := [PrintSystemInfo, VerifyInstallation];
      var verification := Steps.VerifyInstallation(h);
      if verification.Raised? {
        code := Raised(verification.error);
        return;
      }
      code := Returned(0);
      return;
    }
    if f.createTest {
      trace := [CreateTestScript];
      if h.testScriptWrite != Written {
        code := Raised(WriteError(h.testScriptWrite));
        return;
      }
      code := Returned(0);
      return;
    }
    var success;
    trace, success := RunFullSetup(h);
    match success
    case Returned(ok) =>
      code := Returned(if ok then 0 else 1);
    case Raised(e) =>
      code := Raised(e);
  }

  // ---------------------------------------------------------------- the script

  /** `sys.exit` of an integer exits with that status; an exception that escapes `main`
      ends the interpreter with status 1. */
  function ExitStatus(code: Outcome<int>): int {
    match code
    case Returned(c) => c
    case Raised(_) => 1
  }

  /** `sys.exit(main())`: status 0 or 1. Each short mode exits 0 unless its step raises:
      the dependency check in check-only mode, an import in verify-only mode, the write in
      create-test mode; the full setup exits 0 exactly when it succeeded. */
  method Script(h: Host, f: Flags) returns (trace: seq<Step>, status: int)
    ensures status == 0 || status == 1
    ensures SelectedMode(f) == FullSetup ==> (status == 0 <==> SetupSucceeds(h))
    ensures SelectedMode(f) == CheckOnly ==> (status == 0 <==> !Steps.DependencyCheckRaises(h))
    ensures SelectedMode(f) == CreateTestOnly ==> (status == 0 <==> h.testScriptWrite == Written)
    ensures SelectedMode(f) == VerifyOnly ==> (status == 0 <==> !Steps.VerifyRaises(h))
  {
    var code;
    trace, code := EntryPoint(h, f);
    status := ExitStatus(code);
  }
}
