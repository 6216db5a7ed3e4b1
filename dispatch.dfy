/**
 `call_function`: routes a function call the model requested to one of the
 four tools, after replacing whatever working directory the model supplied
 with the fixed "./calculator", and wraps the tool's answer in a message of
 role "tool".
 */
module Dispatch {
  import opened Text
  import opened Paths
  import opened FileTree
  import opened Tools

  /** An argument value the model can send: a string or a list of strings. */
  datatype Value = Str(s: string) | StrList(items: seq<string>)

  /** A function call the model requested: a name and keyword arguments. */
  datatype FunctionCall = FunctionCall(name: string, args: map<string, Value>)

  /** A function response part: the function's name and the response dictionary. */
  datatype Part = FunctionResponse(name: string, response: map<string, string>)

  datatype Content = Content(role: string, parts: seq<Part>)

  /** What `call_function` does: it returns a message, or the call of the tool raises. */
  datatype Reply = Returned(content: Content) | Raised(error: string)

  /** The working directory every tool call is given, whatever the model asked for. */
  const WorkingDirectory := "./calculator"

  /** The names `call_function` knows. */
  const Registry: set<string> := {"get_files_info", "get_file_content", "run_python_file", "write_file"}

  /** The keyword parameters each tool function declares. */
  function Params(name: string): set<string> {
    if name == "get_files_info" then {"working_directory", "directory"}
    else if name == "get_file_content" then {"working_directory", "file_path"}
    else if name == "write_file" then {"working_directory", "file_path", "content"}
    else {"working_directory", "file_path", "args"}
  }

  /** The parameters without a default value. */
  function Required(name: string): set<string> {
    if name == "get_files_info" then {"working_directory"}
    else if name == "write_file" then {"working_directory", "file_path", "content"}
    else {"working_directory", "file_path"}
  }

  /** A tool call with its arguments bound to the tool's parameters. */
  datatype ToolCall =
    | ListFiles(wd: string, directory: Value)
    | ReadContent(wd: string, path: Value)
    | WriteText(wd: string, path: Value, content: Value)
    | RunScript(wd: string, path: Value, args: Value)

  /**
   Binding the keyword arguments to the tool function's parameters: an
   unknown keyword or a missing required parameter makes the call raise
   `TypeError` (`None`); an omitted `directory` is ".", an omitted `args` is
   the empty list.
   */
  function Bind(name: string, args: map<string, Value>): (b: Option<ToolCall>)
    requires "working_directory" in args && args["working_directory"].Str?
  {
    if !(args.Keys <= Params(name)) || !(Required(name) <= args.Keys) then None
    else
      var wd := args["working_directory"].s;
      if name == "get_files_info" then
        Some(ListFiles(wd, if "directory" in args then args["directory"] else Str(".")))
      else if name == "get_file_content" then Some(ReadContent(wd, args["file_path"]))
      else if name == "write_file" then Some(WriteText(wd, args["file_path"], args["content"]))
      else Some(RunScript(wd, args["file_path"], if "args" in args then args["args"] else StrList([])))
  }

  /** `list(args)`: a list stays as it is, a string becomes its characters. */
  function ArgList(v: Value): (r: seq<string>)
    ensures v.StrList? ==> r == v.items
    ensures v.Str? ==> |r| == |v.s| && forall i :: 0 <= i < |r| ==> r[i] == [v.s[i]]
  {
    match v
    case StrList(items) => items
    case Str(s) => seq(|s|, i requires 0 <= i < |s| => [s[i]])
  }

  /** What a tool call did: the new tree, the tool's answer and the process it started, if any. */
  datatype Outcome = Outcome(tree: Tree, text: string, started: Option<Invocation>)

  /**
   Running a bound tool call. A list where a path is expected makes
   `os.path.join` raise `TypeError` inside the tool, which its handler turns
   into an answer whose text is `typeError`; a list as the content of a
   write empties the target (opening it succeeds) before `write` raises.
   Listing and reading use the guards as written.
   */
  function Execute(t: Tree, cwd: string, dirSize: nat, call: ToolCall, p: Process, typeError: string): (o: Outcome)
    requires WellFormed(t) && IsAbs(cwd)
  {
    match call
    case ListFiles(wd, directory) =>
      if !directory.Str? then Outcome(t, "Error: " + typeError, None)
      else Outcome(t, FilesInfo(t, cwd, wd, directory.s), None)
    case ReadContent(wd, path) =>
      if !path.Str? then Outcome(t, "Error: " + typeError, None)
      else Outcome(t, FileContent(t, cwd, wd, path.s), None)
    case WriteText(wd, path, content) =>
      if !path.Str? then Outcome(t, "Error: " + typeError, None)
      else if content.Str? then
        var e := WriteResult(t, cwd, wd, path.s, content.s, dirSize);
        Outcome(e.tree, e.text, None)
      else
        var e := WriteResult(t, cwd, wd, path.s, "", dirSize);
        Outcome(e.tree, if e.text == Wrote(path.s, 0) then "Error: " + typeError else e.text, None)
    case RunScript(wd, path, args) =>
      if !path.Str? then Outcome(t, LaunchError(typeError), None)
      else
        var r := RunResult(t, cwd, wd, path.s, ArgList(args), p);
        Outcome(t, r.text, r.started)
  }

  /** The reply to a name `call_function` does not know. */
  function UnknownReply(name: string): Content {
    Content("tool", [FunctionResponse(name, map["error" := "Unknown function: " + name])])
  }

  /** The reply carrying a tool's answer. */
  function ResultReply(name: string, text: string): Content {
    Content("tool", [FunctionResponse(name, map["result" := text])])
  }

  /** The tree after the call, the reply, and the process started, if any. */
  datatype Dispatched = Dispatched(tree: Tree, reply: Reply, started: Option<Invocation>)

  /**
   `call_function`: `p` is what a started process does and `typeError` the
   text of a `TypeError` raised inside a tool; neither is consulted otherwise.
   */
  function Call(t: Tree, cwd: string, dirSize: nat, fc: FunctionCall, p: Process, typeError: string): (d: Dispatched)
    requires WellFormed(t) && IsAbs(cwd)
  {
    if fc.name !in Registry then Dispatched(t, Returned(UnknownReply(fc.name)), None)
    else
      match Bind(fc.name, fc.args["working_directory" := Str(WorkingDirectory)])
      case None => Dispatched(t, Raised("TypeError"), None)
      case Some(call) =>
        var o := Execute(t, cwd, dirSize, call, p, typeError);
        Dispatched(o.tree, Returned(ResultReply(fc.name, o.text)), o.started)
  }
}
