/**
 The calls `tests.py` makes, with the working directory "calculator" it
 passes, for any current directory `cwd` with one leading slash: the
 permitted root then has the names of `cwd` followed by "calculator". Each
 lemma states the answer the model gives; where the answer depends on the
 files present, the lemma is stated for any path of names and any tree
 holding what the call needs. Two further lemmas show what `call_function`
 does with the two paths the guards as written let through. Where those
 paths land is proved in `PathExamples`, and they are spelt as there: as
 concatenations of their names.
 */
module Examples {
  import opened Text
  import opened Paths
  import opened FileTree
  import opened Tools
  import opened ToolLaws
  import opened Dispatch
  import opened DispatchLaws
  import opened PathExamples

  /** Listing "." lists the root itself, under either guard. */
  lemma ListRoot(t: Tree, cwd: string)
    requires WellFormed(t) && IsAbs(cwd) && Lead(cwd) == 1
    ensures Target(cwd, Wd, ".") == Root(cwd, Wd)
    ensures FilesInfo(t, cwd, Wd, ".") == ListDir(t, Root(cwd, Wd), ".")
    ensures FilesInfoContained(t, cwd, Wd, ".") == ListDir(t, Root(cwd, Wd), ".")
  {
    CalculatorRoot(cwd);
    Relative(cwd, ".");
    SplitPlain('/', ".");
    var kept := Segments(cwd) + ["calculator"];
    assert CollapseFrom(kept, ["."]) == CollapseFrom(Step(kept, "."), []);
    NormPathEqual(Anchored(cwd, Join(Wd, ".")), Anchored(cwd, Wd));
  }

  /** Listing a path of names inside the root lists that directory, under either guard. */
  lemma ListInRoot(t: Tree, cwd: string, x: string)
    requires WellFormed(t) && IsAbs(cwd) && Lead(cwd) == 1 && !IsAbs(x) && AllNames(Split('/', x))
    ensures Segments(Target(cwd, Wd, x)) == Segments(cwd) + ["calculator"] + Split('/', x)
    ensures FilesInfo(t, cwd, Wd, x) == ListDir(t, Target(cwd, Wd, x), x)
    ensures FilesInfoContained(t, cwd, Wd, x) == ListDir(t, Target(cwd, Wd, x), x)
  {
    InRootPath(cwd, x);
    BelowPassesBoth(Root(cwd, Wd), Target(cwd, Wd, x));
  }

  /**
   Reading a path of names inside the root reads that file, under either
   guard: its text when it is a regular file, "not found" when nothing is there.
   */
  lemma ReadInRoot(t: Tree, cwd: string, x: string)
    requires IsAbs(cwd) && Lead(cwd) == 1 && !IsAbs(x) && AllNames(Split('/', x))
    ensures var f := Segments(cwd) + ["calculator"] + Split('/', x);
      && FileContent(t, cwd, Wd, x) == ReadFile(t, Target(cwd, Wd, x), x)
      && FileContentContained(t, cwd, Wd, x) == ReadFile(t, Target(cwd, Wd, x), x)
      && (f in t && t[f].File? ==> FileContent(t, cwd, Wd, x) == Truncate(UniversalNewlines(t[f].content), x))
      && (f !in t ==> FileContent(t, cwd, Wd, x) == FileNotFound(x))
  {
    InRootPath(cwd, x);
    FileContentNeverRefuses(t, cwd, Wd, x);
  }

  /**
   Writing a path of names inside the root whose parent directory exists and
   which is not itself a directory: success is reported with the number of
   characters, the file holds the content, and reading it back gives the content.
   */
  lemma WriteInRoot(t: Tree, cwd: string, x: string, content: string, dirSize: nat)
    requires WellFormed(t) && IsAbs(cwd) && Lead(cwd) == 1 && !IsAbs(x) && AllNames(Split('/', x))
    requires var f := Segments(cwd) + ["calculator"] + Split('/', x);
      Parent(f) in t && t[Parent(f)].Dir? && !(f in t && t[f].Dir?)
    ensures var e, f := WriteResult(t, cwd, Wd, x, content, dirSize), Segments(cwd) + ["calculator"] + Split('/', x);
      && e.text == Wrote(x, |content|)
      && f in e.tree && e.tree[f] == File(content)
      && FileContent(e.tree, cwd, Wd, x) == Truncate(UniversalNewlines(content), x)
  {
    InRootPath(cwd, x);
    var f := Segments(cwd) + ["calculator"] + Split('/', x);
    ParentDirMeansNoFileAbove(t, f);
    assert WriteSucceeds(t, cwd, Wd, x);
    WriteSuccessEffect(t, cwd, Wd, x, content, dirSize);
    ReadAfterWrite(t, cwd, Wd, x, content, dirSize);
  }

  /** Running a Python script present in the root starts `python <name> <args>` in "calculator". */
  lemma RunInRoot(t: Tree, cwd: string, name: string, args: seq<string>, p: Process)
    requires IsAbs(cwd) && Lead(cwd) == 1 && IsName(name) && EndsWith(name, ".py")
    requires Segments(cwd) + ["calculator", name] in t
    ensures RunResult(t, cwd, Wd, name, args, p) == Ran(Report(p), Some(Invocation(["python", name] + args, "calculator")))
  {
    InRoot(cwd, name);
    EndsWithWithin(Target(cwd, Wd, name), name, ".py");
    RunChecksInOrder(t, cwd, Wd, name, args, p);
  }

  /** Listing "/bin" is refused: it is not inside the root. */
  lemma ListBinRefused(t: Tree, cwd: string)
    requires WellFormed(t) && IsAbs(cwd) && Lead(cwd) == 1
    ensures FilesInfo(t, cwd, Wd, "/bin") == ListOutside("/bin")
    ensures FilesInfoContained(t, cwd, Wd, "/bin") == ListOutside("/bin")
  {
    CalculatorRoot(cwd);
    BinOutside(cwd);
    FilesInfoAdmits(t, cwd, Wd, "/bin");
    FilesInfoContainedIff(t, cwd, Wd, "/bin");
  }

  /** Listing "../" is refused: it names the current directory, the root's parent. */
  lemma ListParentRefused(t: Tree, cwd: string)
    requires WellFormed(t) && IsAbs(cwd) && Lead(cwd) == 1
    ensures Segments(Target(cwd, Wd, "../")) == Segments(cwd)
    ensures FilesInfo(t, cwd, Wd, "../") == ListOutside("../")
    ensures FilesInfoContained(t, cwd, Wd, "../") == ListOutside("../")
  {
    CalculatorRoot(cwd);
    ParentOfRoot(cwd);
    FilesInfoAdmits(t, cwd, Wd, "../");
    FilesInfoContainedIff(t, cwd, Wd, "../");
  }

  /**
   Listing "../calculator2" names the sibling "calculator2" of the root: the
   bare prefix test of `get_files_info` lets it through, the containment rule
   does not.
   */
  lemma ListSibling(t: Tree, cwd: string)
    requires WellFormed(t) && IsAbs(cwd) && Lead(cwd) == 1
    ensures Segments(Target(cwd, Wd, ".." + "/" + "calculator2")) == Segments(cwd) + ["calculator2"]
    ensures FilesInfo(t, cwd, Wd, ".." + "/" + "calculator2") == ListDir(t, Target(cwd, Wd, ".." + "/" + "calculator2"), ".." + "/" + "calculator2")
    ensures FilesInfoContained(t, cwd, Wd, ".." + "/" + "calculator2") == ListOutside(".." + "/" + "calculator2")
  {
    CalculatorRoot(cwd);
    UpThen(cwd, "calculator2");
    assert IsName("calculator2");
    NormPathIdempotent(Anchored(cwd, Join(Wd, ".." + "/" + "calculator2")));
    var rs := Segments(cwd) + ["calculator"];
    assert rs[..|rs| - 1] == Segments(cwd);
    assert rs[|rs| - 1] + "2" == "calculator2";
    FilesInfoListsSibling(t, cwd, Wd, ".." + "/" + "calculator2", "2");
    FilesInfoContainedIff(t, cwd, Wd, ".." + "/" + "calculator2");
  }

  /** Reading "/bin/cat": the guard as written lets it through; the containment rule refuses it. */
  lemma ReadBinCat(t: Tree, cwd: string)
    requires IsAbs(cwd) && Lead(cwd) == 1
    ensures FileContent(t, cwd, Wd, "/" + "bin" + "/" + "cat") == ReadFile(t, "/" + "bin" + "/" + "cat", "/" + "bin" + "/" + "cat")
    ensures FileContentContained(t, cwd, Wd, "/" + "bin" + "/" + "cat") == ReadOutside("/" + "bin" + "/" + "cat")
  {
    CalculatorRoot(cwd);
    BinCatOutside(cwd);
    FileContentNeverRefuses(t, cwd, Wd, "/" + "bin" + "/" + "cat");
    FileContentContainedIff(t, cwd, Wd, "/" + "bin" + "/" + "cat");
  }

  /** Writing "/tmp/temp.txt" is refused and changes nothing. */
  lemma WriteTmpRefused(t: Tree, cwd: string, content: string, dirSize: nat)
    requires WellFormed(t) && IsAbs(cwd) && Lead(cwd) == 1
    ensures WriteResult(t, cwd, Wd, "/" + "tmp" + "/" + "temp.txt", content, dirSize) == Effect(t, WriteOutside("/" + "tmp" + "/" + "temp.txt"))
  {
    CalculatorRoot(cwd);
    TmpOutside(cwd);
    WriteRefusesIff(t, cwd, Wd, "/" + "tmp" + "/" + "temp.txt", content, dirSize);
  }

  /** Running "../main.py" is refused: it names "main.py" in the root's parent. */
  lemma RunParentRefused(t: Tree, cwd: string, args: seq<string>, p: Process)
    requires IsAbs(cwd) && Lead(cwd) == 1
    ensures RunResult(t, cwd, Wd, ".." + "/" + "main.py", args, p) == Ran(ExecOutside(".." + "/" + "main.py"), None)
  {
    CalculatorRoot(cwd);
    UpThen(cwd, "main.py");
    assert IsName("main.py");
    SepPrefixIsStrictlyBelow(Anchored(cwd, Wd), Anchored(cwd, Join(Wd, ".." + "/" + "main.py")));
    RunChecksInOrder(t, cwd, Wd, ".." + "/" + "main.py", args, p);
  }

  /** Running "nonexistent.py" when nothing of that name is in the root: the file is not found. */
  lemma RunMissing(t: Tree, cwd: string, args: seq<string>, p: Process)
    requires IsAbs(cwd) && Lead(cwd) == 1
    requires Segments(cwd) + ["calculator", "nonexistent.py"] !in t
    ensures RunResult(t, cwd, Wd, "nonexistent.py", args, p) == Ran(ScriptNotFound("nonexistent.py"), None)
  {
    InRoot(cwd, "nonexistent.py");
    RunChecksInOrder(t, cwd, Wd, "nonexistent.py", args, p);
  }

  /** Running "lorem.txt", which is in the root: it is not a Python file. */
  lemma RunText(t: Tree, cwd: string, args: seq<string>, p: Process)
    requires IsAbs(cwd) && Lead(cwd) == 1
    requires Segments(cwd) + ["calculator", "lorem.txt"] in t
    ensures RunResult(t, cwd, Wd, "lorem.txt", args, p) == Ran(NotPython("lorem.txt"), None)
  {
    InRoot(cwd, "lorem.txt");
    EndsWithWithin(Target(cwd, Wd, "lorem.txt"), "lorem.txt", ".py");
    RunChecksInOrder(t, cwd, Wd, "lorem.txt", args, p);
  }

  /** Running "main.py" with "3 + 5", which is in the root: `python main.py "3 + 5"` starts in "calculator". */
  lemma RunMain(t: Tree, cwd: string, p: Process)
    requires IsAbs(cwd) && Lead(cwd) == 1
    requires Segments(cwd) + ["calculator", "main.py"] in t
    ensures RunResult(t, cwd, Wd, "main.py", ["3 + 5"], p)
      == Ran(Report(p), Some(Invocation(["python", "main.py", "3 + 5"], "calculator")))
  {
    assert EndsWith("main.py", ".py");
    RunInRoot(t, cwd, "main.py", ["3 + 5"], p);
    assert ["python", "main.py"] + ["3 + 5"] == ["python", "main.py", "3 + 5"];
  }

  /**
   `call_function` asked to read "/bin/cat" reads it: the read guard as
   written lets any path through, so a short file comes back whole.
   */
  lemma CallReadsBinCat(t: Tree, cwd: string, dirSize: nat, p: Process, typeError: string, c: string)
    requires WellFormed(t) && IsAbs(cwd)
    requires ["bin", "cat"] in t && t[["bin", "cat"]] == File(c) && |c| <= MaxChars && '\r' !in c
    ensures Call(t, cwd, dirSize, FunctionCall("get_file_content", map["file_path" := Str("/" + "bin" + "/" + "cat")]), p, typeError)
      == Dispatched(t, Returned(ResultReply("get_file_content", c)), None)
  {
    var x := "/" + "bin" + "/" + "cat";
    assert ["bin", "cat"][1..] == ["cat"];
    Normal(x, ["bin", "cat"]);
    assert Target(cwd, WorkingDirectory, x) == x;
    FileContentNeverRefuses(t, cwd, WorkingDirectory, x);
    UniversalNewlinesPlain(c);
    var args := map["file_path" := Str(x)]["working_directory" := Str(WorkingDirectory)];
    assert args.Keys == {"file_path", "working_directory"};
    assert Bind("get_file_content", args) == Some(ReadContent(WorkingDirectory, Str(x)));
  }

  /** "../calculator2" taken from "./calculator" names the sibling "calculator2" in the current directory. */
  lemma SiblingNames(cwd: string)
    requires IsAbs(cwd) && Lead(cwd) == 1
    ensures Lead(Anchored(cwd, Join(WorkingDirectory, ".." + "/" + "calculator2"))) == 1
    ensures Segments(Anchored(cwd, Join(WorkingDirectory, ".." + "/" + "calculator2"))) == Segments(cwd) + ["calculator2"]
  {
    var d := ".." + "/" + "calculator2";
    assert Join(WorkingDirectory, d) == WorkingDirectory + "/" + d;
    assert WorkingDirectory == "." + "/" + "calculator";
    SiblingAnchored(cwd, Join(WorkingDirectory, d));
  }

  /** `call_function` asked to list "../calculator2" lists the sibling of the root. */
  lemma CallListsSibling(t: Tree, cwd: string, dirSize: nat, p: Process, typeError: string)
    requires WellFormed(t) && IsAbs(cwd) && Lead(cwd) == 1
    ensures var d := ".." + "/" + "calculator2";
      && Segments(Target(cwd, WorkingDirectory, d)) == Segments(cwd) + ["calculator2"]
      && Call(t, cwd, dirSize, FunctionCall("get_files_info", map["directory" := Str(d)]), p, typeError)
        == Dispatched(t, Returned(ResultReply("get_files_info", ListDir(t, Target(cwd, WorkingDirectory, d), d))), None)
  {
    var d := ".." + "/" + "calculator2";
    WorkingRootIsCalculator(cwd);
    SiblingNames(cwd);
    NormPathIdempotent(Anchored(cwd, Join(WorkingDirectory, d)));
    var rs := Segments(cwd) + ["calculator"];
    assert rs[..|rs| - 1] == Segments(cwd);
    assert rs[|rs| - 1] + "2" == "calculator2";
    FilesInfoListsSibling(t, cwd, WorkingDirectory, d, "2");
    var args := map["directory" := Str(d)]["working_directory" := Str(WorkingDirectory)];
    assert args.Keys == {"directory", "working_directory"};
    assert Bind("get_files_info", args) == Some(ListFiles(WorkingDirectory, Str(d)));
  }
}
