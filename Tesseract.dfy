/** `setup_tesseract` (server.py:26-72): locate the OCR executable, in a
    fixed order of precedence, and record it as the command the OCR wrapper
    runs. The environment variable, the `which` lookup and the filesystem
    probe are parameters: `env` is `os.environ.get('TESSERACT_PATH')`,
    `which` is `shutil.which('tesseract')`, and `pathExists(p)` is
    `os.path.exists(p)`. */
module Tesseract {
  import opened PySemantics

  /** The command the OCR wrapper runs before any configuration. */
  const DefaultCommand := "tesseract"

  /** Fixed installation paths tried on Linux and in containers. */
  const LinuxPaths: seq<string> := [
    "/usr/bin/tesseract",
    "/usr/local/bin/tesseract",
    "/app/.apt/usr/bin/tesseract"
  ]

  /** Fixed installation paths tried for a local Windows set-up. */
  const WindowsPaths: seq<string> := [
    @"C:\Program Files\Tesseract-OCR\tesseract.exe",
    @"C:\Program Files (x86)\Tesseract-OCR\tesseract.exe"
  ]

  /** Python truthiness of an optional string: present and non-empty. */
  predicate Given(s: Option<string>) {
    s.Some? && s.value != ""
  }

  /** The first path of the list that exists. */
  function FirstExisting(paths: seq<string>, pathExists: string -> bool): Option<string> {
    if paths == [] then None
    else if pathExists(paths[0]) then Some(paths[0])
    else FirstExisting(paths[1..], pathExists)
  }

  /** The executable `setup_tesseract` settles on, or None when it reports
      failure: the environment variable if set and existing, else whatever
      `which` reports (not re-checked), else the first existing fixed path,
      Linux paths before Windows paths. */
  function Locate(env: Option<string>, which: Option<string>, pathExists: string -> bool): Option<string> {
    if Given(env) && pathExists(env.value) then env
    else if Given(which) then which
    else match FirstExisting(LinuxPaths, pathExists)
      case Some(p) => Some(p)
      case None => FirstExisting(WindowsPaths, pathExists)
  }

  /** The search part of `setup_tesseract`, with its two `for` loops and
      early returns. */
  method FindTesseract(env: Option<string>, which: Option<string>, pathExists: string -> bool)
    returns (found: Option<string>)
    ensures found == Locate(env, which, pathExists)
  {
    if Given(env) && pathExists(env.value) {
      return env;
    }
    if Given(which) {
      return which;
    }
    for i := 0 to |LinuxPaths|
      invariant forall j :: 0 <= j < i ==> !pathExists(LinuxPaths[j])
    {
      if pathExists(LinuxPaths[i]) {
        FirstExistingAt(LinuxPaths, i, pathExists);
        return Some(LinuxPaths[i]);
      }
    }
    NoneExisting(LinuxPaths, pathExists);
    for i := 0 to |WindowsPaths|
      invariant forall j :: 0 <= j < i ==> !pathExists(WindowsPaths[j])
    {
      if pathExists(WindowsPaths[i]) {
        FirstExistingAt(WindowsPaths, i, pathExists);
        return Some(WindowsPaths[i]);
      }
    }
    NoneExisting(WindowsPaths, pathExists);
    return None;
  }

  /** The OCR wrapper's configuration: the command it runs, and whether
      set-up found an executable (`tesseract_available`). */
  class TesseractConfig {
    var cmd: string
    var available: bool

    /** Module initialisation: the wrapper starts with its default command,
        then `tesseract_available = setup_tesseract()`. */
    constructor (env: Option<string>, which: Option<string>, pathExists: string -> bool)
      ensures available <==> Locate(env, which, pathExists).Some?
      ensures cmd == if available then Locate(env, which, pathExists).value else DefaultCommand
    {
      cmd := DefaultCommand;
      available := false;
      new;
      available := Setup(env, which, pathExists);
    }

    /** `setup_tesseract()`: on success the command is replaced by the path
        found and True is returned; on failure the command is left as it was
        and False is returned. */
    method Setup(env: Option<string>, which: Option<string>, pathExists: string -> bool)
      returns (ok: bool)
      modifies this`cmd
      ensures ok <==> Locate(env, which, pathExists).Some?
      ensures cmd == if ok then Locate(env, which, pathExists).value else old(cmd)
    {
      var found := FindTesseract(env, which, pathExists);
      if found.Some? {
        cmd := found.value;
        return true;
      }
      return false;
    }
  }

  /** An existing path preceded only by missing ones is the one found. */
  lemma {:induction false} FirstExistingAt(paths: seq<string>, i: nat, pathExists: string -> bool)
    requires i < |paths| && pathExists(paths[i])
    requires forall j :: 0 <= j < i ==> !pathExists(paths[j])
    ensures FirstExisting(paths, pathExists) == Some(paths[i])
  {
    if i > 0 {
      FirstExistingAt(paths[1..], i - 1, pathExists);
    }
  }

  /** The scan finds nothing exactly when no path of the list exists. */
  lemma {:induction false} NoneExisting(paths: seq<string>, pathExists: string -> bool)
    ensures FirstExisting(paths, pathExists).None? <==> forall j :: 0 <= j < |paths| ==> !pathExists(paths[j])
  {
    if paths != [] {
      NoneExisting(paths[1..], pathExists);
      assert forall j :: 1 <= j < |paths| ==> paths[j] == paths[1..][j - 1];
    }
  }

  /** What the scan finds is an existing path of the list. */
  lemma {:induction false} FirstExistingSound(paths: seq<string>, pathExists: string -> bool)
    requires FirstExisting(paths, pathExists).Some?
    ensures FirstExisting(paths, pathExists).value in paths
    ensures pathExists(FirstExisting(paths, pathExists).value)
  {
    if !pathExists(paths[0]) {
      FirstExistingSound(paths[1..], pathExists);
    }
  }

  /** A set and existing TESSERACT_PATH overrides every other source. */
  lemma EnvironmentFirst(env: Option<string>, which: Option<string>, pathExists: string -> bool)
    requires Given(env) && pathExists(env.value)
    ensures Locate(env, which, pathExists) == env
  {
  }

  /** Set-up fails exactly when TESSERACT_PATH is unset, empty or missing,
      `which` finds nothing, and none of the five fixed paths exists. */
  lemma {:induction false} FailsOnlyWhenNothingFound(env: Option<string>, which: Option<string>, pathExists: string -> bool)
    ensures Locate(env, which, pathExists).None?
        <==> && !(Given(env) && pathExists(env.value))
             && !Given(which)
             && forall j :: 0 <= j < |LinuxPaths + WindowsPaths| ==> !pathExists((LinuxPaths + WindowsPaths)[j])
  {
    NoneExisting(LinuxPaths, pathExists);
    NoneExisting(WindowsPaths, pathExists);
    var all := LinuxPaths + WindowsPaths;
    assert forall j :: 0 <= j < |LinuxPaths| ==> all[j] == LinuxPaths[j];
    assert forall j :: 0 <= j < |WindowsPaths| ==> all[|LinuxPaths| + j] == WindowsPaths[j];
  }

  /** Whatever set-up settles on came from one of its three sources: an
      existing TESSERACT_PATH, the `which` result, or an existing fixed
      path. */
  lemma {:induction false} LocateSound(env: Option<string>, which: Option<string>, pathExists: string -> bool)
    requires Locate(env, which, pathExists).Some?
    ensures var p := Locate(env, which, pathExists).value;
            || (Some(p) == env && p != "" && pathExists(p))
            || (Some(p) == which && p != "")
            || (p in LinuxPaths + WindowsPaths && pathExists(p))
  {
    if !(Given(env) && pathExists(env.value)) && !Given(which) {
      if FirstExisting(LinuxPaths, pathExists).Some? {
        FirstExistingSound(LinuxPaths, pathExists);
      } else {
        FirstExistingSound(WindowsPaths, pathExists);
      }
    }
  }

  /** A Windows path is chosen only when no Linux path exists. */
  lemma {:induction false} LinuxPathsFirst(env: Option<string>, which: Option<string>, pathExists: string -> bool)
    requires !(Given(env) && pathExists(env.value)) && !Given(which)
    requires exists j :: 0 <= j < |LinuxPaths| && pathExists(LinuxPaths[j])
    ensures Locate(env, which, pathExists).Some?
    ensures Locate(env, which, pathExists).value in LinuxPaths
  {
    NoneExisting(LinuxPaths, pathExists);
    FirstExistingSound(LinuxPaths, pathExists);
  }
}
