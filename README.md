# Sandboxed tools of the calculator agent

This project models the tool layer of a small coding agent. The layer lives in
`functions/get_files_info.py`. It has four tools: `get_files_info` lists a
directory, `get_file_content` reads a file, `write_file` writes one and
`run_python_file` runs a script. Each tool is confined to a working directory.
`call_function` routes a function call requested by the language model to one
of the tools. It overwrites the working directory with `./calculator` and wraps
the answer in a message of role `tool`.

The model is organised as follows:

- `Text` holds the Python string operations the tools use: `"\n".join`,
  `split`, `strip`, `str(int)`, universal-newline decoding and the `repr`
  Python uses for file names in `OSError` messages.
- `Paths` holds `posixpath.join`, `normpath` and `abspath` on strings. The
  current directory is a parameter.
- `FileTree` holds the filesystem, a map from name sequences to files and
  directories. A directory keeps its entries in `os.listdir` order. The module
  also holds what `os.makedirs` and opening a file for writing do to the tree.
- `Tools` states each tool as a function of the tree, the current directory
  and the arguments. Each answer string is built from the same pieces as in
  the source. An `OSError` message names its file with `repr`, as Python's
  `str()` of the exception does. `ToolLaws` proves what each tool promises.
- `Dispatch` states `call_function`. It calls the tools as written, so a
  listing passes the bare prefix test and a read passes the vacuous guard.
  `DispatchLaws` proves its security properties: the model cannot pick the
  root, and, when `calculator` exists as a directory in a current directory
  with one leading slash, nothing outside it is changed or run. Without
  that directory a write creates it, as `os.makedirs` does. Reads and
  listings are not confined, as the findings below show.
- `Sandbox.Machine` is a class holding the filesystem as a field. Its methods
  follow the statements of each tool: the listing loop, the ordered checks,
  `makedirs` followed by the write, and the section-by-section report. Each
  method is proved to compute what the functions of `Tools` and `Dispatch`
  describe.
- `PathExamples` and `Examples` cover every call in `tests.py`, including the
  ones commented out there, for any current directory. `PathExamples`
  states where each path lands. `Examples` states each tool's answer, and
  what `call_function` does with `/bin/cat` and `../calculator2`.

The design description and the code disagree in a few places. The
model follows the code each time:

- The description says the dispatcher catches every exception. In the code,
  binding the model's keyword arguments with `**args` is not guarded. An
  unknown or missing argument therefore makes `call_function` raise
  `TypeError` (`Reply.Raised`).
- The description accepts the root itself as a target. `write_file` and
  `run_python_file` require `root + "/"` as a prefix, so both refuse the root
  itself.
- The description has a multi-round agent loop with an iteration budget. No
  such loop is in the modelled code: `main.py` makes a single request.
- The description's action names are `list_directory`, `read_file` and so on.
  The code registers `get_files_info`, `get_file_content`, `write_file` and
  `run_python_file`.

## Model

| member | source | states |
|---|---|---|
| ToolLaws.FilesInfoRefusesIff | functions/get_files_info.py:7-11 | `get_files_info` answers with the "outside the permitted working directory" error exactly when the target does not start with the root string |
| ToolLaws.FilesInfoAdmits | functions/get_files_info.py:10-11 | for an ordinary root, the bare prefix test passes exactly when the target repeats all of the root's names but the last, and at that position has a name beginning with the root's last name: the root, everything below it, and siblings such as `calculator2` |
| ToolLaws.FilesInfoListsSibling | functions/get_files_info.py:10-11 | a sibling such as `calculator2` is listed although it lies outside the root |
| ToolLaws.FilesInfoContainedIff | functions/get_files_info.py:7-25 | with the containment rule, a directory is listed exactly when it is the root or lies below it; otherwise the answer is the refusal |
| ToolLaws.FilesInfoAgreesInside | functions/get_files_info.py:10-25 | wherever the containment rule admits a target, the code as written gives the same answer |
| ToolLaws.ListDirIsNotRefusal | functions/get_files_info.py:13-25 | a listing or "not a directory" answer is never the containment refusal |
| ToolLaws.ListingLines | functions/get_files_info.py:16-25 | the listing has one line per entry in `os.listdir` order, each `- name: file_size=N, is_dir=B`; an empty directory lists as "" |
| ToolLaws.EntryLineOneLine | functions/get_files_info.py:23 | an entry whose name holds no newline gives a line without one |
| Text.Utf8Size | functions/get_files_info.py:21 | the size a listing shows for a file (`FileTree.SizeOf`) is its UTF-8 length: at least one and at most four bytes per character |
| ToolLaws.NoNewlineInNumber | functions/get_files_info.py:23 | a decimal size holds no newline, so each entry stays on its own line |
| Sandbox.Machine.ListDirectory | functions/get_files_info.py:13-25 | the loop over the entries builds exactly the listing `ListDir` describes |
| Sandbox.Machine.GetFilesInfo | functions/get_files_info.py:5-25 | the method returns `FilesInfo`, the guard as written followed by the listing |
| Sandbox.Machine.GetFilesInfoContained | functions/get_files_info.py:5-25 | the method returns `FilesInfoContained`, the corrected guard followed by the listing |
| ToolLaws.ReadGuardVacuous | functions/get_files_info.py:32-34 | the target always starts with its own `abspath`, so the read guard never fires |
| ToolLaws.FileContentNeverRefuses | functions/get_files_info.py:30-43 | `get_file_content` as written reads any path wherever it lies |
| ToolLaws.FileContentContainedIff | functions/get_files_info.py:30-43 | with the containment rule, a path is read exactly when it is the root or below it; otherwise the answer is the refusal |
| ToolLaws.ReadFileReturns | functions/get_files_info.py:35-43 | anything but a regular file gives "not found"; a short file without carriage returns comes back whole; an answer never exceeds 10000 characters plus the notice |
| Tools.Truncate | functions/get_files_info.py:37-43 | text of at most 10000 characters is returned unchanged; longer text is cut to its first 10000 characters followed by the truncation notice |
| Text.UniversalNewlines | functions/get_files_info.py:38-39 | text-mode reading never gives more characters than the file holds |
| Text.UniversalNewlinesPlain | functions/get_files_info.py:38-39 | no carriage return survives text-mode reading, and text without one is read unchanged |
| Text.UniversalNewlinesSteps | functions/get_files_info.py:38-39 | "\r\n" becomes "\n", a "\r" not followed by "\n" becomes "\n", and any other character is kept |
| Text.UniversalNewlinesConcat | functions/get_files_info.py:38-39 | text may be translated piece by piece, cutting anywhere except right after a "\r" |
| Sandbox.Machine.ReadRegularFile | functions/get_files_info.py:35-43 | the method returns what `ReadFile` describes: "not found", the whole text, or the truncated text |
| Sandbox.Machine.GetFileContent | functions/get_files_info.py:30-43 | the method returns `FileContent`, the guard as written |
| Sandbox.Machine.GetFileContentContained | functions/get_files_info.py:30-43 | the method returns `FileContentContained`, the corrected guard |
| ToolLaws.WriteRefusesIff | functions/get_files_info.py:49-51 | a write is attempted exactly when the target lies strictly below the root; the root itself and anything outside are refused with the tree unchanged |
| ToolLaws.StoreEffect | functions/get_files_info.py:52-57 | past the guard: with no directory at the target and no file above it, the file is written and success is reported; otherwise an error is returned and nothing changes |
| ToolLaws.WriteKeepsWellFormed | functions/get_files_info.py:47-59 | every write, successful or not, leaves a well-formed tree |
| ToolLaws.WriteFailureChangesNothing | functions/get_files_info.py:47-59 | a write that does not go through returns an `Error:` answer and leaves the tree as it was |
| ToolLaws.WriteSuccessEffect | functions/get_files_info.py:52-57 | a write that goes through reports the number of characters written; the target holds the content, only missing ancestors are added, and nothing else changes |
| ToolLaws.WriteReportsSuccessIff | functions/get_files_info.py:55-57 | the answer is the success message exactly when the write went through |
| ToolLaws.WriteConfined | functions/get_files_info.py:49-57 | when the root exists, a write changes nothing outside it and creates nodes only strictly below it |
| ToolLaws.WriteCreatesMissingRoot | functions/get_files_info.py:49-57 | when the root does not exist, a write that goes through creates the root itself as a directory, so it is not confined to the root |
| ToolLaws.ReadAfterWrite | functions/get_files_info.py:37-43 | reading back a file just written gives the written content, decoded and truncated as a read renders it |
| FileTree.MakeDirsExisting | functions/get_files_info.py:53-54 | `makedirs` of an existing directory changes nothing |
| FileTree.MakeDirsPrefixes | functions/get_files_info.py:53-54 | after `makedirs`, every prefix of the path is a directory |
| FileTree.WrittenEffect | functions/get_files_info.py:52-56 | creating the parents and opening the target for writing keeps the tree well formed and changes only the target and its missing ancestors |
| FileTree.AddChildWellFormed | functions/get_files_info.py:54-55 | adding a new entry under an existing directory keeps the tree well formed |
| Sandbox.Machine.WriteFile | functions/get_files_info.py:47-59 | the method (the guard, then `StoreFile`) leaves the tree and answer `WriteResult` describes, and keeps the tree well formed |
| Sandbox.Machine.StoreFile | functions/get_files_info.py:52-59 | past the guard, `makedirs` of a missing parent followed by the open and the write leaves the tree and answer `Store` describes, and keeps the tree well formed |
| Text.ReprRoundTrip | functions/get_files_info.py:58-59 | the `repr` of a file name in an `OSError` message reads back as that name, so the message names the file unambiguously |
| ToolLaws.RunChecksInOrder | functions/get_files_info.py:61-77 | the checks run in order (outside the root, missing, not `.py`) and the first that fails decides; a process starts exactly when all pass, as `python <path> <args>` in the working directory |
| ToolLaws.RunConfined | functions/get_files_info.py:63-70 | a process starts only for an existing script strictly below the root |
| ToolLaws.NoOutputExactly | functions/get_files_info.py:78-86 | "No output produced." is the report exactly when stdout and stderr are empty and the exit code is 0 |
| ToolLaws.ReportLayout | functions/get_files_info.py:78-87 | the report in each of the five cases: `STDOUT: <stripped stdout>` and `STDERR: <stripped stderr>` joined by a newline when both are non-empty, either alone when the other is empty, then a newline and the exit line when the code is not 0; the exit line alone when both are empty and the code is not 0; "No output produced." otherwise |
| ToolLaws.ExitLineInjective | functions/get_files_info.py:83-84 | the exit line determines the exit code |
| Text.StripIdempotent | functions/get_files_info.py:80-82 | stripping twice is stripping once |
| Text.Strip | functions/get_files_info.py:80-82 | the result is a slice of the input with only whitespace removed at both ends, and it neither starts nor ends with whitespace |
| Sandbox.Machine.RunPythonFile | functions/get_files_info.py:61-91 | the method returns the answer and started process that `RunResult` describes |
| Sandbox.Machine.ReportProcess | functions/get_files_info.py:71-91 | the section-by-section assembly returns the report `Report` describes, whose five cases `ToolLaws.ReportLayout` spells out |
| Dispatch.ArgList | functions/get_files_info.py:70 | `list(args)` keeps a list and splits a string into its characters |
| DispatchLaws.ErrorReplyIffUnknown | functions/get_files_info.py:171-186 | the reply holds an `error` entry exactly when the name is not one of the four tools, and then nothing else happens |
| DispatchLaws.ModelCannotChooseRoot | functions/get_files_info.py:188-192 | two calls that differ only in the working directory the model sent do exactly the same thing |
| DispatchLaws.ToolsGetWorkingDirectory | functions/get_files_info.py:188-192 | every tool a known name reaches is given `./calculator` |
| DispatchLaws.WorkingRootIsCalculator | functions/get_files_info.py:189 | the root `./calculator` resolves to the directory `calculator` inside the current directory |
| DispatchLaws.CallConfined | functions/get_files_info.py:171-202 | when `calculator` exists as a directory in a current directory with one leading slash, no call changes anything outside `calculator`, every created node is inside it, the tree stays well formed, and a process only starts for an existing script inside it |
| DispatchLaws.ExecuteConfined | functions/get_files_info.py:191-192 | when the root `./calculator` exists as a directory in a current directory with one leading slash, the same confinement for one bound tool call |
| Sandbox.Machine.CallFunction | functions/get_files_info.py:164-202 | the method, calling the tools as written, leaves the tree, reply and started process that `Call` describes, and keeps the tree well formed |
| Paths.NormPathIdempotent | functions/get_files_info.py:33 | normalising a normalised path changes nothing |
| Paths.SepPrefixIsStrictlyBelow | functions/get_files_info.py:50 | `root + "/"` prefixes the target exactly when the target's names strictly extend the root's |
| Paths.BarePrefixCharacterized | functions/get_files_info.py:10 | the bare string prefix holds exactly when the target is at or below the root, or the first extra character extends the root's last name |
| Paths.WithinIsAtOrBelow | functions/get_files_info.py:10 | the containment rule holds exactly when the target's names extend the root's |
| Text.SplitJoin | functions/get_files_info.py:25 | splitting a newline-joined list of lines without newlines gives the lines back |
| Text.NatToStringRoundTrip | functions/get_files_info.py:23 | the decimal text of a size parses back to that size |
| Examples.ListRoot | tests.py:7 | listing `.` lists the root itself, both as written and with the containment rule |
| Examples.ListInRoot | tests.py:10 | listing a path of names such as `pkg` lists that directory below the root, both as written and with the containment rule |
| Examples.ReadInRoot | tests.py:18-21 | reading a path of names such as `main.py`, `pkg/calculator.py` or `pkg/does_not_exist.py` gives the file's decoded, truncated text, or "not found" when nothing is there |
| Examples.WriteInRoot | tests.py:23-24 | writing `lorem.txt` or `pkg/morelorem.txt` under an existing directory reports the number of characters, stores the content, and reads back as written |
| Examples.RunInRoot | tests.py:27-29 | running a Python script present in the root, such as `main.py` or `tests.py`, starts `python <name> <args>` in `calculator` and answers with its report |
| Examples.CallReadsBinCat | functions/get_files_info.py:171-192 | `call_function` asked to read `/bin/cat` returns the file's whole text when it is short and has no carriage return, though `/bin/cat` lies outside `calculator` |
| Examples.CallListsSibling | functions/get_files_info.py:171-192 | `call_function` asked to list `../calculator2` returns the listing of the sibling directory |
| PathExamples.InRootPath | functions/get_files_info.py:49-50 | a relative path of names lands on the root's names followed by its own, strictly below the root |
| PathExamples.UpThen | functions/get_files_info.py:8 | `..` followed by a name leaves the root for the current directory and then takes that name |
| Examples.ListBinRefused | tests.py:13 | listing `/bin` is refused, both as written and with the containment rule |
| Examples.ListParentRefused | tests.py:16 | listing `../` is refused: it names the root's parent |
| Examples.ListSibling | functions/get_files_info.py:10-11 | `../calculator2` is listed as written and refused with the containment rule |
| Examples.ReadBinCat | tests.py:20 | reading `/bin/cat` goes through as written and is refused with the containment rule |
| Examples.WriteTmpRefused | tests.py:25 | writing `/tmp/temp.txt` is refused and changes nothing |
| Examples.RunMain | tests.py:28 | `main.py` with `3 + 5` starts `python main.py "3 + 5"` in `calculator` and answers with its report |
| Examples.RunParentRefused | tests.py:30 | running `../main.py` is refused as outside the root |
| Examples.RunMissing | tests.py:31 | running `nonexistent.py` gives "not found" |
| Examples.RunText | tests.py:32 | running `lorem.txt` gives "not a Python file" |

## Left out

- The agent loop and its iteration budget are not part of this model: `main.py` sends a single request and does not call the tools in a loop.
- The function declarations handed to the model (functions/get_files_info.py:93-162) are data for the model, not behaviour, and are not modelled.
- The `print` logging in `call_function` has no effect on results and is left out.
- The child process is not run. Its behaviour is the parameter `p` (finished with its output and exit code, timed out, or failed to start), so the 30-second timeout is a case of `p`, not a clock.
- The generic `except Exception` branches that stringify a library exception are covered only where the model knows the error: `EISDIR` and `ENOTDIR` when writing, and `TypeError` from a list passed where a path is expected. The text of the `TypeError` is the parameter `typeError`. Failures of `os.path.getsize`, permission errors and full disks are not modelled.
- Argument values the model can send are strings and lists of strings only. Numbers, booleans and nested objects are not modelled.
- A function call that carries no arguments object makes `dict(function_call_part.args)` raise `TypeError` (functions/get_files_info.py:188). The model's arguments are always a map, so this case is not modelled.
- Sandbox.Machine.CallFunction: a list passed as a write's content is modelled as truncating the file before `write` raises. The reply then carries a `TypeError` text, not the exact message of the library.
- Files are text with one character per code point. Undecodable bytes, which would make a read raise, are not modelled. A file's size in a listing is `Text.Utf8Size` of its content, so the encoding is fixed to UTF-8.
- Text.Repr: escapes are modelled for the quote, the backslash, "\n", "\r", "\t" and the control characters below 0x20 and 0x7f. Python's escapes of other non-printable characters (0x80-0x9f and non-printable Unicode) are not modelled.
- Directory sizes are those stored in the tree. Creating an entry does not change the parent's reported size, and a new directory from `makedirs` has the fixed size `dirSize`.
- New entries are appended at the end of their directory's `os.listdir` order.
- Symbolic links, hard links, permissions and Windows paths are not modelled. Paths are POSIX strings.
- FileTree.MakeDirs: `os.makedirs` is a library call, so it is modelled as a function that adds the missing directories. Its own loop is not modelled.
- The examples are stated for any absolute current directory with one leading slash. The repository's own checkout location is not known.

## Findings

| source | as written | input that shows it | evidently intended | confidence | as-written member | corrected member |
|---|---|---|---|---|---|---|
| functions/get_files_info.py:10 | `full_path.startswith(abs_path)` is a bare string prefix test | `get_files_info("calculator", "../calculator2")` lists the sibling directory `calculator2` | accept only the root itself or paths below it on a `/` boundary, as `write_file` and `run_python_file` do | not executed | ToolLaws.FilesInfoListsSibling | ToolLaws.FilesInfoContainedIff |
| functions/get_files_info.py:33 | the read guard compares `full_path` with `abspath(full_path)`, which it always starts with | `get_file_content("calculator", "/bin/cat")` reads `/bin/cat` | compare with `abspath(working_directory)` | not executed | ToolLaws.FileContentNeverRefuses | ToolLaws.FileContentContainedIff |

The dispatcher in this model (`Dispatch.Execute`) calls the tools as written.
`Examples.CallReadsBinCat` and `Examples.CallListsSibling` show the two
findings through `call_function`. The corrected guards
`Tools.FilesInfoContained` and `Tools.FileContentContained` are stated beside
the tools as written, and the `Contained` laws prove the rule they intend.
