/**
 The machine the tools run on: a filesystem the tools change in place and
 the current directory relative paths resolve against. Each method follows
 the statements of its tool in `functions/get_files_info.py` and is proved
 to compute what the functions of `Tools` and `Dispatch` describe.
 */
module Sandbox {
  import opened Text
  import opened Paths
  import opened FileTree
  import opened Tools
  import opened Dispatch

  /** `FileAncestor` of a path whose parent is a regular file is that parent. */
  lemma ParentFileIsAncestor(t: Tree, f: seq<string>)
    requires WellFormed(t) && f != [] && Parent(f) in t && t[Parent(f)].File?
    ensures !NoFileAbove(t, f)
    ensures exists i :: 0 <= i < |f| && f[..i] in t && t[f[..i]].File?
    ensures FileAncestor(t, f, 0) == |f| - 1
  {
    assert f[..|f| - 1] == Parent(f);
    forall i | 0 <= i < |f| - 1
      ensures !(f[..i] in t && t[f[..i]].File?)
    {
      AncestorsAreDirs(t, Parent(f), i);
      assert Parent(f)[..i] == f[..i];
    }
  }

  /** With the parent missing, the target is missing and only the parent's ancestors can be files. */
  lemma MissingParent(t: Tree, f: seq<string>)
    requires WellFormed(t) && f != [] && Parent(f) !in t
    ensures f !in t
    ensures NoFileAbove(t, f) <==> NoFileAbove(t, Parent(f))
  {
    assert f[..|f| - 1] == Parent(f);
    forall k | 0 <= k < |Parent(f)|
      ensures Parent(f)[..k] == f[..k]
    {
    }
  }

  /** The target string is the rendering of its own names. */
  lemma TargetRendered(cwd: string, wd: string, path: string)
    requires IsAbs(cwd)
    ensures Render(Lead(Target(cwd, wd, path)), Segments(Target(cwd, wd, path))) == Target(cwd, wd, path)
  {
    NormPathIdempotent(Anchored(cwd, Join(wd, path)));
  }

  class Machine {
    /** The filesystem. */
    var tree: Tree
    /** The process's current directory. */
    const cwd: string
    /** The size `os.path.getsize` reports for a directory `makedirs` creates. */
    const dirSize: nat

    ghost predicate Valid()
      reads this
    {
      IsAbs(cwd) && WellFormed(tree)
    }

    constructor (t: Tree, dir: string, newDirSize: nat)
      requires IsAbs(dir) && WellFormed(t)
      ensures Valid()
      ensures tree == t && cwd == dir && dirSize == newDirSize
    {
      tree := t;
      cwd := dir;
      dirSize := newDirSize;
    }

    /** The listing loop of `get_files_info`: one line per entry, in `os.listdir` order. */
    method ListDirectory(full: string, directory: string) returns (r: string)
      requires Valid()
      ensures r == ListDir(tree, full, directory)
    {
      var d := Segments(full);
      if !(d in tree && tree[d].Dir?) {
        return NotADirectory(directory);
      }
      var items := tree[d].entries;
      var results: seq<string> := [];
      var i := 0;
      while i < |items|
        invariant 0 <= i <= |items|
        invariant results == EntryLines(tree, d)[..i]
      {
        var line := EntryLine(items[i], tree[d + [items[i]]]);
        assert EntryLines(tree, d)[..i + 1] == EntryLines(tree, d)[..i] + [line];
        results := results + [line];
        i := i + 1;
      }
      assert results == EntryLines(tree, d);
      r := JoinWith('\n', results);
    }

    /** `get_files_info` as written. */
    method GetFilesInfo(wd: string, directory: string) returns (r: string)
      requires Valid()
      ensures r == FilesInfo(tree, cwd, wd, directory)
    {
      var absPath := Root(cwd, wd);
      var fullPath := Target(cwd, wd, directory);
      if !(absPath <= fullPath) {
        return ListOutside(directory);
      }
      r := ListDirectory(fullPath, directory);
    }

    /** `get_files_info` with the containment rule. */
    method GetFilesInfoContained(wd: string, directory: string) returns (r: string)
      requires Valid()
      ensures r == FilesInfoContained(tree, cwd, wd, directory)
    {
      var absPath := Root(cwd, wd);
      var fullPath := Target(cwd, wd, directory);
      if !Within(absPath, fullPath) {
        return ListOutside(directory);
      }
      r := ListDirectory(fullPath, directory);
    }

    /** Reading a regular file and truncating it, as `get_file_content` does past its guard. */
    method ReadRegularFile(full: string, path: string) returns (r: string)
      requires Valid()
      ensures r == ReadFile(tree, full, path)
    {
      var f := Segments(full);
      if !(f in tree && tree[f].File?) {
        return FileNotFound(path);
      }
      var text := UniversalNewlines(tree[f].content);
      if |text| > MaxChars {
        r := text[..MaxChars] + TruncationNotice(path);
      } else {
        r := text;
      }
    }

    /** `get_file_content` as written. */
    method GetFileContent(wd: string, path: string) returns (r: string)
      requires Valid()
      ensures r == FileContent(tree, cwd, wd, path)
    {
      var fullPath := Target(cwd, wd, path);
      if !(fullPath <= AbsPath(cwd, fullPath)) {
        return ReadOutside(path);
      }
      r := ReadRegularFile(fullPath, path);
    }

    /** `get_file_content` with the containment rule. */
    method GetFileContentContained(wd: string, path: string) returns (r: string)
      requires Valid()
      ensures r == FileContentContained(tree, cwd, wd, path)
    {
      var fullPath := Target(cwd, wd, path);
      if !Within(Root(cwd, wd), fullPath) {
        return ReadOutside(path);
      }
      r := ReadRegularFile(fullPath, path);
    }

    /**
     `write_file`: the guard, then `makedirs` of a missing parent, then
     `open(full_path, "w")` and the write.
     */
    method WriteFile(wd: string, path: string, content: string) returns (r: string)
      requires Valid()
      modifies this
      ensures Valid()
      ensures Effect(tree, r) == WriteResult(old(tree), cwd, wd, path, content, dirSize)
    {
      var fullPath := Target(cwd, wd, path);
      if !(Root(cwd, wd) + "/" <= fullPath) {
        return WriteOutside(path);
      }
      TargetRendered(cwd, wd, path);
      r := StoreFile(fullPath, path, content);
    }

    /**
     Writing a file at a normalised absolute path, as `write_file` does past
     its guard: `makedirs` of a missing parent, then `open(full_path, "w")`.
     */
    method StoreFile(fullPath: string, path: string, content: string) returns (r: string)
      requires Valid() && Render(Lead(fullPath), Segments(fullPath)) == fullPath
      modifies this
      ensures Valid()
      ensures Effect(tree, r) == Store(old(tree), fullPath, path, content, dirSize)
    {
      var f := Segments(fullPath);
      ghost var t0 := tree;
      if f != [] && Parent(f) !in tree {
        MissingParent(tree, f);
        if !NoFileAbove(tree, Parent(f)) {
          var j := FileAncestor(tree, f, 0);
          return OsError(20, "Not a directory", Render(Lead(fullPath), f[..j + 1]));
        }
        NoFileAboveParent(tree, f);
        tree := MakeDirs(tree, Parent(f), dirSize);
        assert f !in tree;
      } else if f != [] && t0[Parent(f)].Dir? {
        ParentDirMeansNoFileAbove(t0, f);
        MakeDirsExisting(t0, Parent(f), dirSize);
      }
      if f in tree && tree[f].Dir? {
        return OsError(21, "Is a directory", fullPath);
      }
      assert f != [];
      if tree[Parent(f)].File? {
        ParentFileIsAncestor(tree, f);
        assert f[..|f|] == f;
        return OsError(20, "Not a directory", fullPath);
      }
      WrittenEffect(t0, f, content, dirSize);
      if f in tree {
        tree := tree[f := File(content)];
      } else {
        tree := AddChild(tree, f, File(content));
      }
      r := Wrote(path, |content|);
    }

    /**
     `run_python_file`: the three checks, then the process `p` stands for,
     then the report assembled section by section.
     */
    method RunPythonFile(wd: string, path: string, args: seq<string>, p: Process) returns (r: string, started: Option<Invocation>)
      requires Valid()
      ensures Ran(r, started) == RunResult(tree, cwd, wd, path, args, p)
    {
      var fullPath := Target(cwd, wd, path);
      if !(Root(cwd, wd) + "/" <= fullPath) {
        return ExecOutside(path), None;
      }
      if Segments(fullPath) !in tree {
        return ScriptNotFound(path), None;
      }
      if !EndsWith(fullPath, ".py") {
        return NotPython(path), None;
      }
      var command := ["python", path] + args;
      started := Some(Invocation(command, wd));
      r := ReportProcess(p);
    }

    /** What `run_python_file` returns once the process has run: the report assembled section by section. */
    method ReportProcess(p: Process) returns (r: string)
      ensures r == Report(p)
    {
      match p
      case TimedOut =>
        r := TimeoutMessage;
      case LaunchFailed(reason) =>
        r := LaunchError(reason);
      case Completed(out, err, code) =>
        var output: seq<string> := [];
        if out != "" {
          output := output + ["STDOUT: " + Strip(out)];
        }
        if err != "" {
          output := output + ["STDERR: " + Strip(err)];
        }
        if code != 0 {
          output := output + [ExitLine(code)];
        }
        assert output == Sections(out, err, code);
        if output == [] {
          r := NoOutput;
        } else {
          r := JoinWith('\n', output);
        }
    }

    /**
     `call_function`: unknown names are answered at once; otherwise the
     working directory is overwritten, the arguments are bound and the tool
     runs.
     */
    method CallFunction(fc: FunctionCall, p: Process, typeError: string) returns (reply: Reply, started: Option<Invocation>)
      requires Valid()
      modifies this
      ensures Valid()
      ensures Dispatched(tree, reply, started) == Call(old(tree), cwd, dirSize, fc, p, typeError)
    {
      if fc.name !in Registry {
        return Returned(UnknownReply(fc.name)), None;
      }
      var args := fc.args;
      args := args["working_directory" := Str(WorkingDirectory)];
      var bound := Bind(fc.name, args);
      if bound.None? {
        return Raised("TypeError"), None;
      }
      var text: string;
      started := None;
      match bound.value {
      case ListFiles(wd, directory) =>
        if directory.Str? {
          text := GetFilesInfo(wd, directory.s);
        } else {
          text := "Error: " + typeError;
        }
      case ReadContent(wd, path) =>
        if path.Str? {
          text := GetFileContent(wd, path.s);
        } else {
          text := "Error: " + typeError;
        }
      case WriteText(wd, path, content) =>
        if !path.Str? {
          text := "Error: " + typeError;
        } else if content.Str? {
          text := WriteFile(wd, path.s, content.s);
        } else {
          text := WriteFile(wd, path.s, "");
          if text == Wrote(path.s, 0) {
            text := "Error: " + typeError;
          }
        }
      case RunScript(wd, path, scriptArgs) =>
        if path.Str? {
          text, started := RunPythonFile(wd, path.s, ArgList(scriptArgs), p);
        } else {
          text := LaunchError(typeError);
        }
      }
      reply := Returned(ResultReply(fc.name, text));
    }
  }
}
