/**
 What `call_function` promises: unknown names are answered with an error and
 nothing else, the model cannot choose the working directory, and whatever
 the model asks for, nothing outside "./calculator" is changed and no
 script outside it is started, provided "calculator" exists as a directory
 in a current directory with one leading slash. Without that directory a
 write creates it (`ToolLaws.WriteCreatesMissingRoot`).
 */
module DispatchLaws {
  import opened Text
  import opened Paths
  import opened FileTree
  import opened Tools
  import opened ToolLaws
  import opened Dispatch

  /** The reply carries an "error" entry exactly when the name is unknown, and then nothing happened. */
  lemma ErrorReplyIffUnknown(t: Tree, cwd: string, dirSize: nat, fc: FunctionCall, p: Process, typeError: string)
    requires WellFormed(t) && IsAbs(cwd)
    ensures var d := Call(t, cwd, dirSize, fc, p, typeError);
      && (d.reply.Returned? && |d.reply.content.parts| == 1 && "error" in d.reply.content.parts[0].response
        <==> fc.name !in Registry)
      && (fc.name !in Registry ==> d == Dispatched(t, Returned(UnknownReply(fc.name)), None))
  {
    var d := Call(t, cwd, dirSize, fc, p, typeError);
    if fc.name in Registry && d.reply.Returned? {
      assert d.reply.content.parts[0].response.Keys == {"result"};
    }
  }

  /** Whatever working directory the model sends, or none, the call does the same. */
  lemma ModelCannotChooseRoot(t: Tree, cwd: string, dirSize: nat, name: string,
                              args1: map<string, Value>, args2: map<string, Value>, p: Process, typeError: string)
    requires WellFormed(t) && IsAbs(cwd)
    requires args1 - {"working_directory"} == args2 - {"working_directory"}
    ensures Call(t, cwd, dirSize, FunctionCall(name, args1), p, typeError)
         == Call(t, cwd, dirSize, FunctionCall(name, args2), p, typeError)
  {
    var a1 := args1["working_directory" := Str(WorkingDirectory)];
    var a2 := args2["working_directory" := Str(WorkingDirectory)];
    forall k
      ensures k in a1 <==> k in a2
    {
      if k != "working_directory" {
        assert k in args1 <==> k in args1 - {"working_directory"};
        assert k in args2 <==> k in args2 - {"working_directory"};
      }
    }
    forall k | k in a1
      ensures a1[k] == a2[k]
    {
      if k != "working_directory" {
        assert a1[k] == (args1 - {"working_directory"})[k];
      }
    }
    assert a1 == a2;
  }

  /** Every tool a known name reaches is given "./calculator" as its working directory. */
  lemma ToolsGetWorkingDirectory(name: string, args: map<string, Value>)
    ensures var b := Bind(name, args["working_directory" := Str(WorkingDirectory)]);
      b.Some? ==> b.value.wd == WorkingDirectory
  {
  }

  /** "./calculator" splits into "." and "calculator". */
  lemma WorkingDirectorySplit()
    ensures Split('/', WorkingDirectory) == [".", "calculator"]
  {
    assert WorkingDirectory == "." + "/" + "calculator";
    SplitCons('/', ".", "calculator");
    SplitPlain('/', "calculator");
  }

  /** Normalising "." and "calculator" after `kept` appends "calculator". */
  lemma WorkingDirectoryCollapse(kept: seq<string>)
    requires AllNames(kept)
    ensures NoSlash([".", "calculator"])
    ensures CollapseFrom(kept, [".", "calculator"]) == kept + ["calculator"]
  {
    var xs := [".", "calculator"];
    assert IsName("calculator");
    assert Step(kept, ".") == kept;
    assert xs[1..] == ["calculator"];
    assert CollapseFrom(kept, xs) == CollapseFrom(kept, ["calculator"]);
    CollapseFromNames(kept, ["calculator"]);
  }

  /** The root "./calculator" resolves to: the directory "calculator" inside the current one. */
  lemma WorkingRootIsCalculator(cwd: string)
    requires IsAbs(cwd) && Lead(cwd) == 1
    ensures Lead(Anchored(cwd, WorkingDirectory)) == 1
    ensures Segments(Anchored(cwd, WorkingDirectory)) == Segments(cwd) + ["calculator"]
    ensures OrdinaryRoot(cwd, WorkingDirectory)
  {
    RelativeLead(cwd, WorkingDirectory);
    RelativeSegments(cwd, WorkingDirectory);
    WorkingDirectorySplit();
    WorkingDirectoryCollapse(Segments(cwd));
  }

  /** `r` differs from `t` only at or below `rs`, and every node it adds lies strictly below `rs`. */
  predicate ChangedOnlyBelow(rs: seq<string>, t: Tree, r: Tree) {
    && (forall q :: q in t && !AtOrBelow(rs, q) ==> q in r && r[q] == t[q])
    && (forall q :: q in r && q !in t ==> StrictlyBelow(rs, q))
  }

  /** A started process is `python` on an existing script strictly below `rs`, run from "./calculator". */
  predicate StartsOnlyBelow(cwd: string, rs: seq<string>, t: Tree, started: Option<Invocation>)
    requires IsAbs(cwd)
  {
    started.Some? ==>
      var inv := started.value;
      |inv.argv| >= 2 && inv.argv[0] == "python" && inv.dir == WorkingDirectory
      && StrictlyBelow(rs, Segments(Anchored(cwd, Join(WorkingDirectory, inv.argv[1]))))
      && Segments(Anchored(cwd, Join(WorkingDirectory, inv.argv[1]))) in t
  }

  /**
   With the current directory an ordinary absolute path and "calculator"
   present in it as a directory, no call changes anything outside
   "calculator", every node a call creates lies inside it, the tree stays
   well formed, and a process is only started for an existing script inside
   it, run from "./calculator".
   */
  lemma CallConfined(t: Tree, cwd: string, dirSize: nat, fc: FunctionCall, p: Process, typeError: string)
    requires WellFormed(t) && IsAbs(cwd) && Lead(cwd) == 1
    requires Segments(cwd) + ["calculator"] in t && t[Segments(cwd) + ["calculator"]].Dir?
    ensures var rs, d := Segments(cwd) + ["calculator"], Call(t, cwd, dirSize, fc, p, typeError);
      WellFormed(d.tree) && ChangedOnlyBelow(rs, t, d.tree) && StartsOnlyBelow(cwd, rs, t, d.started)
  {
    WorkingRootIsCalculator(cwd);
    if fc.name in Registry {
      match Bind(fc.name, fc.args["working_directory" := Str(WorkingDirectory)])
      case None =>
      case Some(call) =>
        ToolsGetWorkingDirectory(fc.name, fc.args);
        ExecuteConfined(t, cwd, dirSize, call, p, typeError);
    }
  }

  /** `CallConfined` for one bound tool call. */
  lemma ExecuteConfined(t: Tree, cwd: string, dirSize: nat, call: ToolCall, p: Process, typeError: string)
    requires WellFormed(t) && IsAbs(cwd) && call.wd == WorkingDirectory
    requires OrdinaryRoot(cwd, WorkingDirectory)
    requires Segments(Anchored(cwd, WorkingDirectory)) in t && t[Segments(Anchored(cwd, WorkingDirectory))].Dir?
    ensures var rs, o := Segments(Anchored(cwd, WorkingDirectory)), Execute(t, cwd, dirSize, call, p, typeError);
      WellFormed(o.tree) && ChangedOnlyBelow(rs, t, o.tree) && StartsOnlyBelow(cwd, rs, t, o.started)
  {
    var rs := Segments(Anchored(cwd, WorkingDirectory));
    match call
    case ListFiles(_, _) =>
      assert ChangedOnlyBelow(rs, t, t);
    case ReadContent(_, _) =>
      assert ChangedOnlyBelow(rs, t, t);
    case WriteText(wd, path, content) =>
      if path.Str? {
        WriteTextConfined(t, cwd, dirSize, wd, path.s, content, p, typeError);
      } else {
        assert ChangedOnlyBelow(rs, t, t);
      }
    case RunScript(wd, path, args) =>
      assert ChangedOnlyBelow(rs, t, t);
      if path.Str? {
        var r := RunResult(t, cwd, WorkingDirectory, path.s, ArgList(args), p);
        assert Execute(t, cwd, dirSize, call, p, typeError) == Outcome(t, r.text, r.started);
        RunScriptConfined(t, cwd, path.s, ArgList(args), p);
      }
  }

  /** `ExecuteConfined` for a write, whether its content is a string or not. */
  lemma WriteTextConfined(t: Tree, cwd: string, dirSize: nat, wd: string, path: string, content: Value, p: Process, typeError: string)
    requires WellFormed(t) && IsAbs(cwd) && OrdinaryRoot(cwd, wd)
    requires Segments(Anchored(cwd, wd)) in t && t[Segments(Anchored(cwd, wd))].Dir?
    ensures var o := Execute(t, cwd, dirSize, WriteText(wd, Str(path), content), p, typeError);
      WellFormed(o.tree) && ChangedOnlyBelow(Segments(Anchored(cwd, wd)), t, o.tree) && o.started.None?
  {
    var c := if content.Str? then content.s else "";
    var e := WriteResult(t, cwd, wd, path, c, dirSize);
    assert Execute(t, cwd, dirSize, WriteText(wd, Str(path), content), p, typeError).tree == e.tree;
    WriteKeepsWellFormed(t, cwd, wd, path, c, dirSize);
    WriteConfined(t, cwd, wd, path, c, dirSize);
  }

  /** `ExecuteConfined` for running a script. */
  lemma RunScriptConfined(t: Tree, cwd: string, path: string, args: seq<string>, p: Process)
    requires IsAbs(cwd) && OrdinaryRoot(cwd, WorkingDirectory)
    ensures StartsOnlyBelow(cwd, Segments(Anchored(cwd, WorkingDirectory)), t, RunResult(t, cwd, WorkingDirectory, path, args, p).started)
  {
    var r := RunResult(t, cwd, WorkingDirectory, path, args, p);
    if r.started.Some? {
      assert RunRefusal(t, cwd, WorkingDirectory, path).None?;
      assert r.started.value == Invocation(["python", path] + args, WorkingDirectory);
      assert r.started.value.argv[1] == path;
      RunConfined(t, cwd, WorkingDirectory, path, args, p);
    }
  }
}
