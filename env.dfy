/** The host as the setup script sees it. Every external effect the script depends on
    (a subprocess call, a module import, a platform query, a file read) is an input here,
    so that every decision of the script is a function of one `Host` value. */
module Env {

  datatype Option<T> = None | Some(value: T)

  /** What `subprocess.run(cmd, check=True)` did for a command run through the current
      interpreter (`sys.executable -m pip ...`): it returned, or raised CalledProcessError. */
  datatype RunResult = Completed | NonZeroExit

  /** What `subprocess.run(cmd, check=True)` did for a system tool that may be absent:
      it returned, raised CalledProcessError, raised FileNotFoundError, or raised another
      OSError (a PermissionError for a tool on PATH that cannot be executed, say). */
  datatype ProbeResult = Found | ExitedNonZero | NotFound | Unrunnable

  /** What writing the test script did: `open`, `write` and `os.chmod` all returned; one
      of them raised an OSError (a read-only directory, say); or `write` raised
      UnicodeEncodeError because the locale's encoding cannot represent the template's
      check marks (cp1252, Latin-1). */
  datatype WriteResult = Written | WriteFailed | EncodeFailed

  /** What importing a module (and reading its `__version__`) did: it worked, raised
      ImportError, or raised some other exception, such as the TypeError an old mediapipe
      raises at import time next to a newer protobuf. */
  datatype ImportResult = Imports | ImportFails | ImportCrashes

  /** The exceptions that can escape a modelled step. `ImportCrash` stands for whatever
      exception other than ImportError an import raised. */
  datatype PyException = CalledProcessError | OSError | UnicodeEncodeError | ImportCrash

  /** The exception a failed test-script write raises. */
  function WriteError(w: WriteResult): PyException {
    if w == EncodeFailed then UnicodeEncodeError else OSError
  }

  /** A Python call either returns a value or lets an exception escape. */
  datatype Outcome<T> = Returned(value: T) | Raised(error: PyException)

  datatype Host = Host(
    system: string,                   // platform.system()
    machine: string,                  // platform.machine()
    pythonVersion: string,            // platform.python_version()
    executable: string,               // sys.executable
    versionMajor: nat,                // sys.version_info.major
    versionMinor: nat,                // sys.version_info.minor
    sysPlatform: string,              // sys.platform
    deviceTreeModel: Option<string>,  // contents of /proc/device-tree/model, if that file exists
    pip3Probe: ProbeResult,           // pip3 --version
    python3ConfigProbe: ProbeResult,  // python3-config --includes
    pipUpgrade: RunResult,            // python -m pip install --upgrade pip setuptools wheel
    mediapipeInstall: RunResult,      // python -m pip install [--upgrade] --prefer-binary mediapipe
    opencvInstall: RunResult,         // python -m pip install --prefer-binary opencv-python
    cv2Import: ImportResult,          // import cv2; cv2.__version__
    mediapipeImport: ImportResult,    // import mediapipe as mp; mp.__version__
    visionImport: ImportResult,       // from mediapipe.tasks import vision
    testScriptWrite: WriteResult      // open(output_path, 'w'), f.write, os.chmod
  )

  /** `sys.platform.startswith('linux')` */
  predicate IsLinux(h: Host) {
    "linux" <= h.sysPlatform
  }
}
