/**
 The four tools of the agent (`get_files_info`, `get_file_content`,
 `write_file`, `run_python_file`) as functions of the filesystem tree `t`,
 the process's current directory `cwd` and the tool's arguments. The tools
 never raise: every outcome is a string. The error strings are built from
 the same pieces as in the source; an `OSError` names its file with
 `Text.Repr`, and the text of a `TypeError` is the parameter `typeError`.

 Two guards are modelled twice. `FilesInfo` and `FileContent` state the
 guards as they are written, and the dispatcher calls them;
 `FilesInfoContained` and `FileContentContained` state the containment rule
 that `write_file` and `run_python_file` apply ("the root itself or below it
 on a '/' boundary"), which those two guards evidently intend.
 */
module Tools {
  import opened Text
  import opened Paths
  import opened FileTree

  datatype Option<T> = None | Some(value: T)

  /** How many characters `get_file_content` returns before it truncates. */
  const MaxChars: nat := 10000

  /** The absolute path `abspath(working_directory)`: the permitted root. */
  function Root(cwd: string, wd: string): (r: string)
    requires IsAbs(cwd)
    ensures IsAbs(r)
  {
    AbsPath(cwd, wd)
  }

  /** The absolute path `abspath(join(working_directory, p))` a tool acts on. */
  function Target(cwd: string, wd: string, p: string): (r: string)
    requires IsAbs(cwd)
    ensures IsAbs(r)
  {
    AbsPath(cwd, Join(wd, p))
  }

  /** The path `abspath` normalises: `p` itself when absolute, otherwise `p` under `cwd`. */
  function Anchored(cwd: string, p: string): (r: string)
    requires IsAbs(cwd)
    ensures IsAbs(r) && NormPath(r) == AbsPath(cwd, p)
  {
    if IsAbs(p) then p else Join(cwd, p)
  }

  /** The containment rule: `full` is the root itself or lies below it on a '/' boundary. */
  predicate Within(root: string, full: string) {
    full == root || root + "/" <= full
  }

  // ---------------------------------------------------------------------
  // get_files_info

  function ListOutside(directory: string): string {
    "Error: Cannot list \"" + directory + "\" as it is outside the permitted working directory"
  }

  function NotADirectory(directory: string): string {
    "Error: \"" + directory + "\" is not a directory"
  }

  function PyBool(b: bool): string {
    if b then "True" else "False"
  }

  /** One line of a listing: the entry's name, its size and whether it is a directory. */
  function EntryLine(name: string, n: Node): string {
    "- " + name + ": file_size=" + IntToString(SizeOf(n)) + ", is_dir=" + PyBool(n.Dir?)
  }

  /** The lines for the entries of directory `d`, in the order the directory lists them. */
  function EntryLines(t: Tree, d: seq<string>): (lines: seq<string>)
    requires EntriesExist(t) && d in t && t[d].Dir?
  {
    var names := t[d].entries;
    seq(|names|, i requires 0 <= i < |names| => EntryLine(names[i], t[d + [names[i]]]))
  }

  /** What `get_files_info` returns once its guard has let `full` through. */
  function ListDir(t: Tree, full: string, directory: string): (r: string)
    requires WellFormed(t)
  {
    var d := Segments(full);
    if d in t && t[d].Dir? then JoinWith('\n', EntryLines(t, d)) else NotADirectory(directory)
  }

  /** `get_files_info` as written: the guard is a bare string-prefix test against the root. */
  function FilesInfo(t: Tree, cwd: string, wd: string, directory: string): (r: string)
    requires WellFormed(t) && IsAbs(cwd)
  {
    var full := Target(cwd, wd, directory);
    if !(Root(cwd, wd) <= full) then ListOutside(directory) else ListDir(t, full, directory)
  }

  /** `get_files_info` with the containment rule of the other tools in place of the bare prefix test. */
  function FilesInfoContained(t: Tree, cwd: string, wd: string, directory: string): (r: string)
    requires WellFormed(t) && IsAbs(cwd)
  {
    var full := Target(cwd, wd, directory);
    if !Within(Root(cwd, wd), full) then ListOutside(directory) else ListDir(t, full, directory)
  }

  // ---------------------------------------------------------------------
  // get_file_content

  function ReadOutside(path: string): string {
    "Error: Cannot read \"" + path + "\" as it is outside the permitted working directory"
  }

  function FileNotFound(path: string): string {
    "Error: File not found or is not a regular file: \"" + path + "\""
  }

  function TruncationNotice(path: string): string {
    "[...File \"" + path + "\" truncated at 10000 characters]"
  }

  /**
   The first `MaxChars` characters of `text`, followed by a notice naming
   `path` when anything was cut off.
   */
  function Truncate(text: string, path: string): (r: string)
    ensures |text| <= MaxChars ==> r == text
    ensures |text| > MaxChars ==>
      |r| == MaxChars + |TruncationNotice(path)| && text[..MaxChars] <= r && EndsWith(r, TruncationNotice(path))
  {
    if |text| > MaxChars then text[..MaxChars] + TruncationNotice(path) else text
  }

  /** What `get_file_content` returns once its guard has let `full` through. */
  function ReadFile(t: Tree, full: string, path: string): (r: string) {
    var f := Segments(full);
    if f in t && t[f].File? then Truncate(UniversalNewlines(t[f].content), path) else FileNotFound(path)
  }

  /** `get_file_content` as written: the guard compares the target with its own absolute path. */
  function FileContent(t: Tree, cwd: string, wd: string, path: string): (r: string)
    requires IsAbs(cwd)
  {
    var full := Target(cwd, wd, path);
    if !(full <= AbsPath(cwd, full)) then ReadOutside(path) else ReadFile(t, full, path)
  }

  /** `get_file_content` with the containment rule in place of the vacuous guard. */
  function FileContentContained(t: Tree, cwd: string, wd: string, path: string): (r: string)
    requires IsAbs(cwd)
  {
    var full := Target(cwd, wd, path);
    if !Within(Root(cwd, wd), full) then ReadOutside(path) else ReadFile(t, full, path)
  }

  // ---------------------------------------------------------------------
  // write_file

  /** The tree after a tool call and the string the tool returned. */
  datatype Effect = Effect(tree: Tree, text: string)

  function WriteOutside(path: string): string {
    "Error: Cannot write to \"" + path + "\" as it is outside the permitted working directory"
  }

  function Wrote(path: string, n: nat): string {
    "Successfully wrote to \"" + path + "\" (" + IntToString(n) + " characters written)"
  }

  /** `str()` of the `OSError` Python raises for a failing system call on `filename`, which it writes with `repr`. */
  function OsError(errno: nat, reason: string, filename: string): string {
    "Error: [Errno " + IntToString(errno) + "] " + reason + ": " + Repr(filename)
  }

  /** The smallest `j >= k` at which a prefix of `f` is a regular file. */
  function FileAncestor(t: Tree, f: seq<string>, k: nat): (j: nat)
    requires k < |f|
    requires exists i :: k <= i < |f| && f[..i] in t && t[f[..i]].File?
    ensures k <= j < |f| && f[..j] in t && t[f[..j]].File?
    ensures forall i :: k <= i < j ==> !(f[..i] in t && t[f[..i]].File?)
    decreases |f| - k
  {
    if f[..k] in t && t[f[..k]].File? then k
    else
      var i :| k <= i < |f| && f[..i] in t && t[f[..i]].File?;
      assert i > k;
      FileAncestor(t, f, k + 1)
  }

  /**
   What the write does once the guard has let `full` through. A directory at
   the target makes `open` fail with EISDIR. A regular file above the target
   makes the call fail with ENOTDIR naming the path one level below that
   file: `open` names the target when the file is its parent, and
   `makedirs` names the directory it could not create otherwise. In every
   other case the missing directories are created and the file is written.
   */
  function Store(t: Tree, full: string, path: string, content: string, dirSize: nat): (e: Effect)
    requires WellFormed(t)
  {
    var f := Segments(full);
    if f in t && t[f].Dir? then
      Effect(t, OsError(21, "Is a directory", full))
    else if !NoFileAbove(t, f) then
      var j := FileAncestor(t, f, 0);
      Effect(t, OsError(20, "Not a directory", Render(Lead(full), f[..j + 1])))
    else
      Effect(Written(t, f, content, dirSize), Wrote(path, |content|))
  }

  /** `write_file`: the target must lie strictly below the root on a '/' boundary. */
  function WriteResult(t: Tree, cwd: string, wd: string, path: string, content: string, dirSize: nat): (e: Effect)
    requires WellFormed(t) && IsAbs(cwd)
  {
    var full := Target(cwd, wd, path);
    if !(Root(cwd, wd) + "/" <= full) then Effect(t, WriteOutside(path))
    else Store(t, full, path, content, dirSize)
  }

  // ---------------------------------------------------------------------
  // run_python_file

  /**
   What the child process did: it finished with its captured, decoded output
   and its return code, it outlived the 30-second timeout, or it could not be
   started (the text of the exception).
   */
  datatype Process = Completed(stdout: string, stderr: string, returncode: int) | TimedOut | LaunchFailed(reason: string)

  /** The command line and the directory a process is started with. */
  datatype Invocation = Invocation(argv: seq<string>, dir: string)

  /** The string the tool returned and the process it started, if any. */
  datatype Ran = Ran(text: string, started: Option<Invocation>)

  function ExecOutside(path: string): string {
    "Error: Cannot execute \"" + path + "\" as it is outside the permitted working directory"
  }

  function ScriptNotFound(path: string): string {
    "Error: File \"" + path + "\" not found."
  }

  function NotPython(path: string): string {
    "Error: \"" + path + "\" is not a Python file."
  }

  const NoOutput := "No output produced."

  const TimeoutMessage := "Error: Process timed out after 30 seconds."

  function LaunchError(reason: string): string {
    "Error: executing Python file: " + reason
  }

  function ExitLine(code: int): string {
    "Process exited with code " + IntToString(code)
  }

  /** The three checks before anything runs, in order; the first that fails gives the answer. */
  function RunRefusal(t: Tree, cwd: string, wd: string, path: string): (r: Option<string>)
    requires IsAbs(cwd)
  {
    var full := Target(cwd, wd, path);
    if !(Root(cwd, wd) + "/" <= full) then Some(ExecOutside(path))
    else if Segments(full) !in t then Some(ScriptNotFound(path))
    else if !EndsWith(full, ".py") then Some(NotPython(path))
    else None
  }

  /** The sections of a finished process's report, each present only when it has something to say. */
  function Sections(stdout: string, stderr: string, code: int): seq<string> {
    (if stdout != "" then ["STDOUT: " + Strip(stdout)] else [])
    + (if stderr != "" then ["STDERR: " + Strip(stderr)] else [])
    + (if code != 0 then [ExitLine(code)] else [])
  }

  /** The string `run_python_file` makes of what the process did. */
  function Report(p: Process): string {
    match p
    case Completed(out, err, code) =>
      var s := Sections(out, err, code);
      if s == [] then NoOutput else JoinWith('\n', s)
    case TimedOut => TimeoutMessage
    case LaunchFailed(reason) => LaunchError(reason)
  }

  /**
   `run_python_file`: when the checks pass, `python <path> <args>` is started
   in the working directory and `p` is what it did.
   */
  function RunResult(t: Tree, cwd: string, wd: string, path: string, args: seq<string>, p: Process): (r: Ran)
    requires IsAbs(cwd)
  {
    match RunRefusal(t, cwd, wd, path)
    case Some(message) => Ran(message, None)
    case None => Ran(Report(p), Some(Invocation(["python", path] + args, wd)))
  }
}
