# MediaPipe ARM setup script — a Dafny model

`setup_arm_mediapipe.py` prepares a machine, typically an ARM board, for MediaPipe. It
reports the platform and decides whether the machine is ARM. It checks the interpreter
version and probes for pip3 and python3-config. It then upgrades pip, installs MediaPipe
and OpenCV, verifies the MediaPipe import and writes a test script. Command-line flags
pick one of four modes: check only, verify only, create the test script only, or the full
setup.

This project models that decision logic as a deterministic function of one `Host` value
(`env.dfy`). The `Host` records every external effect the script depends on:
- whether each `subprocess.run` call succeeded, and for the two probed system tools,
  which exception it raised;
- whether writing the test script succeeded;
- for each import, whether it succeeds, raises `ImportError`, or raises some other
  exception;
- `sys.platform`, `sys.version_info` and the strings from `platform`;
- the contents of `/proc/device-tree/model`, if that file exists.

Modules:
- `Env` (`env.dfy`): the host record and the outcome types. `Outcome` separates a
  returned value from an exception that escapes.
- `SystemInfo` (`system_info.dfy`): `_get_system_info`, with the ARM-detection predicate,
  ASCII lower-casing, Python's substring test, `strip('\x00')` and the device-name
  default.
- `Steps` (`steps.dfy`): `check_python_version`, `check_dependencies`, `upgrade_pip`,
  `install_mediapipe`, `install_opencv` and `verify_installation`.
- `Setup` (`setup.dfy`): `run_full_setup`, `main` (as `EntryPoint`) and `sys.exit(main())`. A run is the
  trace of calls made on the setup object plus what the run returned or raised.
  `RunSteps` is the reference semantics: make the calls in order and stop at the first
  one that returns False or raises. `RunFullSetup`, the source's chain of early returns,
  is proved equal to `RunSteps` over the fixed order `FullSetupOrder`.

Where the code and the intended reading differ, the model follows the code:
- **`check_dependencies` can raise.** The python3-config probe catches only
  `FileNotFoundError`. On Linux, a python3-config that exits non-zero raises
  `CalledProcessError`, and nothing catches it. Either probe also lets through any other
  `OSError`, such as a `PermissionError` for a tool on PATH that cannot be executed. So
  check-only mode does not always exit 0, and the full setup can end with an exception
  instead of returning. `Script` maps an escaped exception to exit status 1, which is
  what CPython does for an uncaught exception.
- **Writing the test script can raise.** `open`, `write` and `os.chmod` in
  `create_test_script` catch nothing. A failed write (a read-only directory, say) ends
  create-test mode, and an otherwise successful full setup, with an `OSError` and exit
  status 1. The file is opened in text mode with the locale's encoding, and the template
  holds check marks such as "✓" and "✗". Where that encoding cannot represent them
  (cp1252 on Windows, a Latin-1 locale), `write` raises `UnicodeEncodeError` instead,
  with the same exit status.
- **Imports can raise more than `ImportError`.** `install_opencv` and
  `verify_installation` catch only `ImportError`. An `import cv2`, an `import mediapipe`
  or a `from mediapipe.tasks import vision` can raise something else, such as an
  `OSError` from a broken native library. So can reading `__version__`, with an
  `AttributeError`. Any of these escapes the step, ends the full setup, and in verify-only
  mode makes `main` raise instead of returning 0. The model names all of them
  `ImportCrash`. The vision import is tried only after `import mediapipe` succeeded.
- **Which exceptions escape.** Among the modelled outcomes, only the two probes, the
  OpenCV and MediaPipe imports and the test-script write can raise past their own
  handlers. The errors listed under "Left out" are not modelled.
- **Four fatal steps.** The full setup returns True exactly when the interpreter check,
  the pip upgrade, the MediaPipe install and the verification all succeed, no step
  raises and the test script is written.
- **Soft steps.** The dependency report, the OpenCV install and an `ImportError` from the
  vision tasks never change the outcome.
- **The test script.** The full setup calls `create_test_script` exactly when the steps
  before it pass. The script is written exactly when the full setup returns True.

## Model

| member | source | states |
|---|---|---|
| `SystemInfo.Lower` | setup_arm_mediapipe.py:34 | lower-casing keeps the length and maps each character on its own |
| `SystemInfo.LowerIdempotent` | setup_arm_mediapipe.py:34 | lower-casing twice is lower-casing once |
| `SystemInfo.ContainsPrefix` | setup_arm_mediapipe.py:34 | a string containing an indicator contains every prefix of it |
| `SystemInfo.AnyIndicatorInIff` | setup_arm_mediapipe.py:34 | `any(ind in s for ind in inds)` holds iff some indicator of the list occurs in `s` |
| `SystemInfo.IsArmIff` | setup_arm_mediapipe.py:33-34 | is_arm holds iff the lower-cased machine string contains "arm" or "aarch64"; "armv7l" and "armv6l" add nothing |
| `SystemInfo.IsArmIgnoresCase` | setup_arm_mediapipe.py:34 | is_arm gives the same answer for a machine string and its lower-cased form |
| `SystemInfo.IsArmExamples` | setup_arm_mediapipe.py:33-34 | "aarch64", "armv7l" and "ARM64" are detected as ARM |
| `SystemInfo.NotArmExamples` | setup_arm_mediapipe.py:33-34 | "x86_64" and "AMD64" are not detected as ARM |
| `SystemInfo.StripNulLeft` | setup_arm_mediapipe.py:39 | removes exactly the leading NUL characters, leaving a suffix that does not start with NUL |
| `SystemInfo.StripNulRight` | setup_arm_mediapipe.py:39 | removes exactly the trailing NUL characters, leaving a prefix that does not end with NUL |
| `SystemInfo.StripNul` | setup_arm_mediapipe.py:39 | `strip('\x00')` leaves a slice of the input that has only NULs around it and no NUL at either end |
| `SystemInfo.StripNulKeepsUnpadded` | setup_arm_mediapipe.py:39 | a model string with no NUL at either end is kept verbatim |
| `SystemInfo.DeviceName` | setup_arm_mediapipe.py:37-41 | the device is "Unknown ARM Device" when the model file is absent, on ARM and non-ARM hosts alike; otherwise it is the file's text with its NUL padding stripped |
| `SystemInfo.GetSystemInfo` | setup_arm_mediapipe.py:23-43 | the info record passes the platform strings through unchanged, sets is_arm iff "arm" or "aarch64" occurs in the lower-cased machine string, and sets the device by the default-when-absent rule |
| `Steps.CheckPythonVersion` | setup_arm_mediapipe.py:58-69 | the interpreter is accepted iff major == 3 and minor >= 9, so 2.x, 3.8 and every 4.x are rejected |
| `Steps.MissingDependencies` | setup_arm_mediapipe.py:80-98 | the list holds only "python3-pip" and "python3-dev", each at most once, with pip first; pip appears iff the pip3 probe exited non-zero or pip3 is absent; dev appears iff on Linux python3-config was not found |
| `Steps.DependencyOutcome` | setup_arm_mediapipe.py:83-106 | the check raises OSError iff the pip3 probe, or on Linux the python3-config probe, raises an OSError other than FileNotFoundError; it raises CalledProcessError iff the pip3 probe does not raise and on Linux python3-config exits non-zero; otherwise it returns False iff some dependency is missing, and True iff pip3 was found and, on Linux, python3-config too |
| `Steps.CheckDependencies` | setup_arm_mediapipe.py:71-106 | accumulating `missing` probe by probe yields exactly the outcome above, and the missing list above whenever the check returns (a prefix of it when a probe raises); a returned False means the list is non-empty |
| `Steps.UpgradePip` | setup_arm_mediapipe.py:108-120 | the step succeeds iff its pip command completes |
| `Steps.UpgradePipCommand` | setup_arm_mediapipe.py:112-115 | the command is the interpreter, "-m", "pip", "install", "--upgrade", then "pip", "setuptools", "wheel" |
| `Steps.MediapipeCommandShape` | setup_arm_mediapipe.py:126-131 | the command starts with the interpreter, "-m", "pip", "install" and ends with "--prefer-binary", "mediapipe"; it has 7 elements with upgrade and 6 without; "--upgrade" appears after the interpreter path iff upgrade is set, and then right after "install" |
| `Steps.InstallMediapipe` | setup_arm_mediapipe.py:122-139 | appending to the command list builds exactly the command below; the step succeeds iff that command completes |
| `Steps.InstallOpencv` | setup_arm_mediapipe.py:141-159 | the step raises iff `import cv2` raises something other than ImportError; otherwise no install is attempted iff cv2 imports, the attempted command is the opencv-python pip install, and the step succeeds iff cv2 imports or that command completes |
| `Steps.VerifyInstallation` | setup_arm_mediapipe.py:161-179 | the step raises iff `import mediapipe` raises something other than ImportError, or mediapipe imports and the vision import raises something other than ImportError; otherwise verification succeeds iff mediapipe imports, and the vision warning appears iff mediapipe imports and the vision import raises ImportError |
| `Steps.VerifyIgnoresVision` | setup_arm_mediapipe.py:169-176 | whether the vision tasks import or raise ImportError never changes whether the step returns, nor its verdict |
| `Setup.RunStepsTraceIsPrefix` | setup_arm_mediapipe.py:346-385 | a run makes its calls in the fixed order, starting with the first and skipping none |
| `Setup.RunStepsCompletes` | setup_arm_mediapipe.py:346-385 | a run returns True iff every call proceeds, and then it has made every call |
| `Setup.RunStepsStopsAtFirstFailure` | setup_arm_mediapipe.py:350-371 | every call before the last one proceeded; a run returning False ended on the fatal call that failed; a run that raised ended on the call that raised |
| `Setup.RunStepsSameVerdicts` | setup_arm_mediapipe.py:346-385 | hosts on which every call reacts alike give identical runs |
| `Setup.RunStepsEndsAt` | setup_arm_mediapipe.py:350-385 | when every call before a given one proceeds and that call returns False, raises, or is the last and proceeds, the run consists of exactly the calls up to it and ends with its answer |
| `Setup.FullSetupClosedForm` | setup_arm_mediapipe.py:346-385 | the full setup makes the first calls of the fixed order up to the first fatal call that fails or the first call that raises, and answers False, that exception, or True once the script is written |
| `Setup.FullSetupResult` | setup_arm_mediapipe.py:350-385 | the full setup returns True iff the four fatal steps succeed, nothing raises and the script is written; it raises iff the Python check passes and the dependency check raises, or the install passes and the OpenCV or verification imports raise, or every step before the script passes and the write fails; it raises the import exception iff the install passes and one of those imports raises; `create_test_script` is called iff every step before it passes, and the script is written iff the run returns True |
| `Setup.FullSetupDependsOnlyOnFatalInputs` | setup_arm_mediapipe.py:353-374 | the dependency report, an ImportError from cv2, the OpenCV install and an ImportError from the vision tasks never change the full setup's run |
| `Setup.RunFullSetup` | setup_arm_mediapipe.py:340-385 | the chain of early returns makes exactly the run of the reference semantics over the fixed order, with the result, exception and script properties above |
| `Setup.SelectedMode` | setup_arm_mediapipe.py:418-434 | flag precedence: check-only wins over everything, then verify-only, then create-test, else the full setup; verbose plays no part |
| `Setup.EntryPoint` | setup_arm_mediapipe.py:414-435 | each mode makes its own calls; verify-only returns 0 unless an import raises something other than ImportError, and then raises it; check-only returns 0 unless the dependency check raises, and then raises its exception; create-test returns 0 unless the write fails, and then raises the write's OSError or UnicodeEncodeError; the full mode returns 0 iff the setup succeeds and 1 iff it returned False, and otherwise lets the setup's own exception escape unchanged; only the full mode can return 1; no short mode calls a package-changing step; the test script is written only in create-test mode or by a successful full setup |
| `Setup.Script` | setup_arm_mediapipe.py:438-439 | the exit status is 0 or 1; it is 0 in verify-only mode iff no import raises past its handler, 0 in check-only mode iff the dependency check does not raise, 0 in create-test mode iff the script is written, and 0 in the full mode iff the setup succeeds |

## Left out

- Subprocess calls, module imports, reading `/proc/device-tree/model`, the file write and
  the `os.chmod` in `create_test_script`. These are I/O; the model takes their outcomes as
  `Host` fields. The test-script write is one outcome: written, failed with an `OSError`,
  or failed with `UnicodeEncodeError`. Whether a failed write or `os.chmod` leaves a
  partial or complete file behind is not modelled.
- `print` output: the model assumes every `print` succeeds. A console whose encoding cannot
  represent the "✓", "❌" and "⚠" marks makes `print` raise `UnicodeEncodeError`. Some of
  those prints sit inside a `try` that does not catch it, such as the "pip3 found" message
  in the pip3 probe. Such an error would escape the step and `main`; it is not modelled.
- Steps.InstallMediapipe: does not model an `OSError` (such as `FileNotFoundError`) from
  running `sys.executable`. The handler catches only `CalledProcessError`, so such an error
  would escape. The model assumes the running interpreter's path exists.
- Steps.UpgradePip: the same `OSError` from running `sys.executable` is not modelled.
- Steps.InstallOpencv: the same `OSError` from running `sys.executable` is not modelled.
- SystemInfo.Lower: lower-cases ASCII letters only, where Python's `str.lower` is
  Unicode-aware. This does not change `is_arm`, because no non-ASCII character lower-cases
  to any letter of the indicators.
- SystemInfo.GetSystemInfo: does not model an error while reading a device-tree file
  that exists but cannot be read or decoded. Such an error would escape the setup
  object's constructor in every mode; `Setup.EntryPoint` assumes the read succeeds.
- The test-script template (lines 183-331): it is text written to disk, not logic this
  program executes.
- `print_system_info`: it only prints. It is the `PrintSystemInfo` call in the trace.
- Argument parsing with `argparse`. The `verbose` flag is stored and never read; it is
  kept in `Flags` and ignored.
- The constructor `ARMMediaPipeSetup.__init__`. Its only effect is the system-info
  gathering that `Setup.EntryPoint` performs. The object's fields are never updated afterwards,
  so the model has no class.
