/**
 What the four tools promise, proved about the functions of `Tools`: which
 targets each guard lets through (in terms of path names), what a listing
 and a report look like, and what a write changes.
 */
module ToolLaws {
  import opened Text
  import opened Paths
  import opened FileTree
  import opened Tools

  /**
   A root with one leading slash and at least one name: what `abspath` makes
   of a working directory below the filesystem root.
   */
  predicate OrdinaryRoot(cwd: string, wd: string)
    requires IsAbs(cwd)
  {
    Lead(Anchored(cwd, wd)) == 1 && Segments(Anchored(cwd, wd)) != []
  }

  /** The names of a relative path taken from `cwd`: those of `cwd`, then the path's pieces normalised after them. */
  lemma RelativeSegments(cwd: string, rel: string)
    requires IsAbs(cwd) && !IsAbs(rel)
    ensures NoSlash(Split('/', rel))
    ensures Segments(Anchored(cwd, rel)) == CollapseFrom(Segments(cwd), Split('/', rel))
  {
    if cwd[|cwd| - 1] == '/' {
      var c := cwd[..|cwd| - 1];
      assert cwd == c + "/" + "";
      SegmentsAppend(c, "");
      assert Split('/', "") == [""];
      assert CollapseFrom(Segments(c), [""]) == Segments(c);
      assert Anchored(cwd, rel) == c + "/" + rel;
      SegmentsAppend(c, rel);
    } else {
      assert Anchored(cwd, rel) == cwd + "/" + rel;
      SegmentsAppend(cwd, rel);
    }
  }

  /** A relative path taken from a directory with one leading slash keeps one leading slash. */
  lemma RelativeLead(cwd: string, rel: string)
    requires IsAbs(cwd) && Lead(cwd) == 1 && !IsAbs(rel)
    ensures Lead(Anchored(cwd, rel)) == 1
  {
    var x := Anchored(cwd, rel);
    if |cwd| >= 3 {
      assert x[..3] == cwd[..3];
    } else if |cwd| == 2 {
      assert x[1] == cwd[1];
    } else if rel != "" {
      assert x[1] == rel[0];
    }
  }

  // ---------------------------------------------------------------------
  // get_files_info

  /** The text of a decimal number holds no newline. */
  lemma NoNewlineInNumber(n: nat)
    ensures '\n' !in IntToString(n)
  {
  }

  /** A listing is empty or starts with the "- " of its first line, so it is never the refusal. */
  lemma ListDirIsNotRefusal(t: Tree, full: string, directory: string)
    requires WellFormed(t)
    ensures ListDir(t, full, directory) != ListOutside(directory)
  {
    var d := Segments(full);
    if d in t && t[d].Dir? {
      var lines := EntryLines(t, d);
      if lines != [] {
        JoinWithEnds('\n', lines);
        assert JoinWith('\n', lines)[0] == '-';
      }
    } else {
      assert NotADirectory(directory)[7] == '"';
    }
  }

  /** `get_files_info` answers with the refusal exactly when the bare prefix test fails. */
  lemma FilesInfoRefusesIff(t: Tree, cwd: string, wd: string, directory: string)
    requires WellFormed(t) && IsAbs(cwd)
    ensures FilesInfo(t, cwd, wd, directory) == ListOutside(directory) <==>
      !(Root(cwd, wd) <= Target(cwd, wd, directory))
  {
    ListDirIsNotRefusal(t, Target(cwd, wd, directory), directory);
  }

  /**
   In names, the bare prefix test of `get_files_info` admits every target
   that repeats the root's names but the last, and there has a name that
   merely begins with the root's last name: the root, everything below it,
   and siblings such as "calculator2" next to "calculator".
   */
  lemma FilesInfoAdmits(t: Tree, cwd: string, wd: string, directory: string)
    requires WellFormed(t) && IsAbs(cwd) && OrdinaryRoot(cwd, wd)
    ensures var rs, fs := Segments(Anchored(cwd, wd)), Segments(Anchored(cwd, Join(wd, directory)));
      FilesInfo(t, cwd, wd, directory) != ListOutside(directory) <==>
        Lead(Anchored(cwd, Join(wd, directory))) == 1 && |rs| <= |fs|
        && fs[..|rs| - 1] == rs[..|rs| - 1] && rs[|rs| - 1] <= fs[|rs| - 1]
  {
    var root, full := Anchored(cwd, wd), Anchored(cwd, Join(wd, directory));
    FilesInfoRefusesIff(t, cwd, wd, directory);
    assert Root(cwd, wd) == NormPath(root) && Target(cwd, wd, directory) == NormPath(full);
    BarePrefixCharacterized(root, full);
  }

  /**
   The bare prefix test lets `get_files_info` list a sibling of the root
   whose name extends the root's last name, although it is not inside the root.
   */
  lemma FilesInfoListsSibling(t: Tree, cwd: string, wd: string, directory: string, suffix: string)
    requires WellFormed(t) && IsAbs(cwd) && OrdinaryRoot(cwd, wd)
    requires suffix != ""
    requires var rs := Segments(Anchored(cwd, wd));
      Lead(Anchored(cwd, Join(wd, directory))) == 1
      && Segments(Anchored(cwd, Join(wd, directory))) == rs[..|rs| - 1] + [rs[|rs| - 1] + suffix]
    ensures FilesInfo(t, cwd, wd, directory) == ListDir(t, Target(cwd, wd, directory), directory)
    ensures !AtOrBelow(Segments(Anchored(cwd, wd)), Segments(Anchored(cwd, Join(wd, directory))))
  {
    var rs, fs := Segments(Anchored(cwd, wd)), Segments(Anchored(cwd, Join(wd, directory)));
    var k := |rs| - 1;
    assert fs[..k] == rs[..k] && fs[k] == rs[k] + suffix;
    FilesInfoAdmits(t, cwd, wd, directory);
    FilesInfoRefusesIff(t, cwd, wd, directory);
    assert |rs[k] + suffix| > |rs[k]|;
  }

  /** With the containment rule, `get_files_info` lists exactly the root and what lies below it. */
  lemma FilesInfoContainedIff(t: Tree, cwd: string, wd: string, directory: string)
    requires WellFormed(t) && IsAbs(cwd) && OrdinaryRoot(cwd, wd)
    ensures var inside := Lead(Anchored(cwd, Join(wd, directory))) == 1
        && AtOrBelow(Segments(Anchored(cwd, wd)), Segments(Anchored(cwd, Join(wd, directory))));
      && (inside ==> FilesInfoContained(t, cwd, wd, directory) == ListDir(t, Target(cwd, wd, directory), directory))
      && (!inside ==> FilesInfoContained(t, cwd, wd, directory) == ListOutside(directory))
  {
    WithinIsAtOrBelow(Anchored(cwd, wd), Anchored(cwd, Join(wd, directory)));
  }

  /** Where the containment rule lets a directory through, the bare prefix test does too, with the same answer. */
  lemma FilesInfoAgreesInside(t: Tree, cwd: string, wd: string, directory: string)
    requires WellFormed(t) && IsAbs(cwd)
    requires Within(Root(cwd, wd), Target(cwd, wd, directory))
    ensures FilesInfo(t, cwd, wd, directory) == FilesInfoContained(t, cwd, wd, directory)
  {
  }

  /** The line for an entry whose name has no newline has none either. */
  lemma EntryLineOneLine(c: string, n: Node)
    requires '\n' !in c
    ensures '\n' !in EntryLine(c, n)
  {
    NoNewlineInNumber(SizeOf(n));
  }

  /**
   A listing has one line per entry, in the directory's order, each giving
   the entry's name, size and kind; an empty directory lists as "".
   */
  lemma ListingLines(t: Tree, full: string, directory: string)
    requires WellFormed(t)
    requires Segments(full) in t && t[Segments(full)].Dir?
    requires forall c :: c in t[Segments(full)].entries ==> '\n' !in c
    ensures var d := Segments(full); var names := t[d].entries;
      && (names == [] ==> ListDir(t, full, directory) == "")
      && (names != [] ==>
        var lines := Split('\n', ListDir(t, full, directory));
        |lines| == |names|
        && forall i :: 0 <= i < |names| ==> lines[i] == EntryLine(names[i], t[d + [names[i]]]))
  {
    var d := Segments(full);
    var lines := EntryLines(t, d);
    if lines != [] {
      forall i | 0 <= i < |lines|
        ensures '\n' !in lines[i]
      {
        EntryLineOneLine(t[d].entries[i], t[d + [t[d].entries[i]]]);
      }
      SplitJoin('\n', lines);
    }
  }

  // ---------------------------------------------------------------------
  // get_file_content

  /** The target `abspath` produced always starts with its own `abspath`: the guard never fires. */
  lemma ReadGuardVacuous(cwd: string, wd: string, path: string)
    requires IsAbs(cwd)
    ensures Target(cwd, wd, path) <= AbsPath(cwd, Target(cwd, wd, path))
  {
    NormPathIdempotent(Anchored(cwd, Join(wd, path)));
  }

  /** `get_file_content` as written reads any path, wherever it lies. */
  lemma FileContentNeverRefuses(t: Tree, cwd: string, wd: string, path: string)
    requires IsAbs(cwd)
    ensures FileContent(t, cwd, wd, path) == ReadFile(t, Target(cwd, wd, path), path)
  {
    ReadGuardVacuous(cwd, wd, path);
  }

  /** With the containment rule, `get_file_content` reads only the root and what lies below it. */
  lemma FileContentContainedIff(t: Tree, cwd: string, wd: string, path: string)
    requires IsAbs(cwd) && OrdinaryRoot(cwd, wd)
    ensures var inside := Lead(Anchored(cwd, Join(wd, path))) == 1
        && AtOrBelow(Segments(Anchored(cwd, wd)), Segments(Anchored(cwd, Join(wd, path))));
      && (inside ==> FileContentContained(t, cwd, wd, path) == ReadFile(t, Target(cwd, wd, path), path))
      && (!inside ==> FileContentContained(t, cwd, wd, path) == ReadOutside(path))
  {
    WithinIsAtOrBelow(Anchored(cwd, wd), Anchored(cwd, Join(wd, path)));
  }

  /**
   A regular file is returned whole when it is short, cut to its first
   `MaxChars` characters with a notice otherwise; anything else is "not found".
   */
  lemma ReadFileReturns(t: Tree, full: string, path: string)
    ensures var f := Segments(full); var r := ReadFile(t, full, path);
      && (!(f in t && t[f].File?) ==> r == FileNotFound(path))
      && (f in t && t[f].File? && |t[f].content| <= MaxChars && '\r' !in t[f].content ==> r == t[f].content)
      && (f in t && t[f].File? ==> |r| <= MaxChars + |TruncationNotice(path)|)
  {
    var f := Segments(full);
    if f in t && t[f].File? {
      UniversalNewlinesPlain(t[f].content);
    }
  }

  // ---------------------------------------------------------------------
  // write_file

  /** Which writes `write_file` attempts: strictly below the root, never the root itself. */
  lemma WriteRefusesIff(t: Tree, cwd: string, wd: string, path: string, content: string, dirSize: nat)
    requires WellFormed(t) && IsAbs(cwd) && OrdinaryRoot(cwd, wd)
    ensures var below := Lead(Anchored(cwd, Join(wd, path))) == 1
        && StrictlyBelow(Segments(Anchored(cwd, wd)), Segments(Anchored(cwd, Join(wd, path))));
      && (below ==> WriteResult(t, cwd, wd, path, content, dirSize) == Store(t, Target(cwd, wd, path), path, content, dirSize))
      && (!below ==> WriteResult(t, cwd, wd, path, content, dirSize) == Effect(t, WriteOutside(path)))
  {
    SepPrefixIsStrictlyBelow(Anchored(cwd, wd), Anchored(cwd, Join(wd, path)));
  }

  /** Whether a write goes through: the guard passes, the target is no directory, no file lies above it. */
  predicate WriteSucceeds(t: Tree, cwd: string, wd: string, path: string)
    requires IsAbs(cwd)
  {
    var full := Target(cwd, wd, path);
    var f := Segments(full);
    Root(cwd, wd) + "/" <= full && !(f in t && t[f].Dir?) && NoFileAbove(t, f)
  }

  /** An answer in the shape every failing tool call has. */
  predicate IsError(s: string) {
    "Error: " <= s
  }

  /** What the write does past the guard: write and report, or report an error and change nothing. */
  lemma StoreEffect(t: Tree, full: string, path: string, content: string, dirSize: nat)
    requires WellFormed(t)
    ensures var f, e := Segments(full), Store(t, full, path, content, dirSize);
      && WellFormed(e.tree)
      && (!(f in t && t[f].Dir?) && NoFileAbove(t, f) ==>
        e.text == Wrote(path, |content|) && WroteOnly(t, e.tree, f, content))
      && ((f in t && t[f].Dir?) || !NoFileAbove(t, f) ==> e.tree == t && IsError(e.text))
  {
    var f := Segments(full);
    if f in t && t[f].Dir? {
      assert IsError(OsError(21, "Is a directory", full));
    } else if !NoFileAbove(t, f) {
      var j := FileAncestor(t, f, 0);
      assert IsError(OsError(20, "Not a directory", Render(Lead(full), f[..j + 1])));
    } else {
      assert f != [];
      WrittenEffect(t, f, content, dirSize);
    }
  }

  /** Every write, successful or not, leaves a well-formed tree. */
  lemma WriteKeepsWellFormed(t: Tree, cwd: string, wd: string, path: string, content: string, dirSize: nat)
    requires WellFormed(t) && IsAbs(cwd)
    ensures WellFormed(WriteResult(t, cwd, wd, path, content, dirSize).tree)
  {
    var full := Target(cwd, wd, path);
    if Root(cwd, wd) + "/" <= full {
      StoreEffect(t, full, path, content, dirSize);
    }
  }

  /** A write that does not go through reports an error and leaves the tree as it was. */
  lemma WriteFailureChangesNothing(t: Tree, cwd: string, wd: string, path: string, content: string, dirSize: nat)
    requires WellFormed(t) && IsAbs(cwd)
    requires !WriteSucceeds(t, cwd, wd, path)
    ensures WriteResult(t, cwd, wd, path, content, dirSize).tree == t
    ensures IsError(WriteResult(t, cwd, wd, path, content, dirSize).text)
  {
    var full := Target(cwd, wd, path);
    if Root(cwd, wd) + "/" <= full {
      StoreEffect(t, full, path, content, dirSize);
    } else {
      assert IsError(WriteOutside(path));
    }
  }

  /**
   A write that goes through reports the number of characters written, and
   the target then holds `content` while the rest of the tree changes only
   as `WroteOnly` allows.
   */
  lemma WriteSuccessEffect(t: Tree, cwd: string, wd: string, path: string, content: string, dirSize: nat)
    requires WellFormed(t) && IsAbs(cwd)
    requires WriteSucceeds(t, cwd, wd, path)
    ensures WriteResult(t, cwd, wd, path, content, dirSize).text == Wrote(path, |content|)
    ensures WroteOnly(t, WriteResult(t, cwd, wd, path, content, dirSize).tree, Segments(Target(cwd, wd, path)), content)
  {
    StoreEffect(t, Target(cwd, wd, path), path, content, dirSize);
  }

  /** The answer says "Successfully" exactly when the write went through. */
  lemma WriteReportsSuccessIff(t: Tree, cwd: string, wd: string, path: string, content: string, dirSize: nat)
    requires WellFormed(t) && IsAbs(cwd)
    ensures WriteResult(t, cwd, wd, path, content, dirSize).text == Wrote(path, |content|) <==> WriteSucceeds(t, cwd, wd, path)
  {
    if WriteSucceeds(t, cwd, wd, path) {
      WriteSuccessEffect(t, cwd, wd, path, content, dirSize);
    } else {
      WriteFailureChangesNothing(t, cwd, wd, path, content, dirSize);
      assert Wrote(path, |content|)[0] == 'S';
    }
  }

  /**
   When the root exists as a directory, a write changes nothing outside it:
   every node that is not the root or below it keeps its value, and every
   node the write creates lies strictly below the root.
   */
  lemma WriteConfined(t: Tree, cwd: string, wd: string, path: string, content: string, dirSize: nat)
    requires WellFormed(t) && IsAbs(cwd) && OrdinaryRoot(cwd, wd)
    requires Segments(Anchored(cwd, wd)) in t && t[Segments(Anchored(cwd, wd))].Dir?
    ensures var rs, e := Segments(Anchored(cwd, wd)), WriteResult(t, cwd, wd, path, content, dirSize);
      && (forall q :: q in t && !AtOrBelow(rs, q) ==> q in e.tree && e.tree[q] == t[q])
      && (forall q :: q in e.tree && q !in t ==> StrictlyBelow(rs, q))
  {
    var rs, fs := Segments(Anchored(cwd, wd)), Segments(Anchored(cwd, Join(wd, path)));
    if WriteSucceeds(t, cwd, wd, path) {
      WriteSuccessEffect(t, cwd, wd, path, content, dirSize);
      SepPrefixIsStrictlyBelow(Anchored(cwd, wd), Anchored(cwd, Join(wd, path)));
      NormPathIdempotent(Anchored(cwd, Join(wd, path)));
      ConfinedAfterWrite(t, WriteResult(t, cwd, wd, path, content, dirSize).tree, rs, fs, content);
    } else {
      WriteFailureChangesNothing(t, cwd, wd, path, content, dirSize);
    }
  }

  /**
   Without the root, a write that goes through is not confined to it:
   `makedirs` creates the root itself, a node that is not strictly below it.
   */
  lemma WriteCreatesMissingRoot(t: Tree, cwd: string, wd: string, path: string, content: string, dirSize: nat)
    requires WellFormed(t) && IsAbs(cwd) && OrdinaryRoot(cwd, wd)
    requires Segments(Anchored(cwd, wd)) !in t
    requires WriteSucceeds(t, cwd, wd, path)
    ensures var rs, e := Segments(Anchored(cwd, wd)), WriteResult(t, cwd, wd, path, content, dirSize);
      rs in e.tree && e.tree[rs].Dir? && !StrictlyBelow(rs, rs)
  {
    var rs, fs := Segments(Anchored(cwd, wd)), Segments(Anchored(cwd, Join(wd, path)));
    WriteSuccessEffect(t, cwd, wd, path, content, dirSize);
    SepPrefixIsStrictlyBelow(Anchored(cwd, wd), Anchored(cwd, Join(wd, path)));
    NormPathIdempotent(Anchored(cwd, Join(wd, path)));
    assert StrictlyBelow(rs, fs);
    assert fs[..|rs|] == rs;
  }

  /** A write to `fs` strictly below an existing `rs` changes and creates nodes only at or below `rs`. */
  lemma ConfinedAfterWrite(t: Tree, r: Tree, rs: seq<string>, fs: seq<string>, content: string)
    requires WellFormed(t) && rs in t && StrictlyBelow(rs, fs)
    requires WroteOnly(t, r, fs, content)
    ensures forall q :: q in t && !AtOrBelow(rs, q) ==> q in r && r[q] == t[q]
    ensures forall q :: q in r && q !in t ==> StrictlyBelow(rs, q)
  {
    PrefixesExist(t, rs);
    NewNodesBelowRoot(t, r, rs, fs);
    ChangesAtOrBelowRoot(t, r, rs, fs);
  }

  /** In a well-formed tree every prefix of an existing path exists. */
  lemma PrefixesExist(t: Tree, rs: seq<string>)
    requires WellFormed(t) && rs in t
    ensures forall k :: 0 <= k <= |rs| ==> rs[..k] in t
  {
    forall k | 0 <= k <= |rs|
      ensures rs[..k] in t
    {
      if k < |rs| {
        AncestorsAreDirs(t, rs, k);
      } else {
        assert rs[..k] == rs;
      }
    }
  }

  /** Every prefix of `fs` up to the length of an existing `rs` above it exists. */
  lemma PathThroughRoot(t: Tree, rs: seq<string>, fs: seq<string>)
    requires forall k :: 0 <= k <= |rs| ==> rs[..k] in t
    requires StrictlyBelow(rs, fs)
    ensures forall k :: 0 <= k <= |rs| ==> fs[..k] in t
  {
    forall k | 0 <= k <= |rs|
      ensures fs[..k] in t
    {
      assert fs[..k] == rs[..k];
    }
  }

  /** Nodes created on the way to `fs` below an existing `rs` lie strictly below `rs`. */
  lemma NewNodesBelowRoot(t: Tree, r: Tree, rs: seq<string>, fs: seq<string>)
    requires forall k :: 0 <= k <= |rs| ==> rs[..k] in t
    requires StrictlyBelow(rs, fs)
    requires forall q {:trigger q in r} :: q in r && q !in t ==> |q| <= |fs| && q == fs[..|q|]
    ensures forall q :: q in r && q !in t ==> StrictlyBelow(rs, q)
  {
    PathThroughRoot(t, rs, fs);
    forall q | q in r && q !in t
      ensures StrictlyBelow(rs, q)
    {
      assert |q| > |rs|;
      assert q[..|rs|] == fs[..|rs|];
    }
  }

  /** Nodes changed on the way to `fs` below an existing `rs` lie at or below `rs`. */
  lemma ChangesAtOrBelowRoot(t: Tree, r: Tree, rs: seq<string>, fs: seq<string>)
    requires forall k :: 0 <= k <= |rs| ==> rs[..k] in t
    requires StrictlyBelow(rs, fs)
    requires forall q :: q in t ==> q in r
    requires forall q {:trigger r[q]} :: q in t && q != fs && r[q] != t[q] ==> |q| < |fs| && q == fs[..|q|] && fs[..|q| + 1] !in t
    ensures forall q :: q in t && !AtOrBelow(rs, q) ==> q in r && r[q] == t[q]
  {
    PathThroughRoot(t, rs, fs);
    forall q | q in t && q != fs && r[q] != t[q]
      ensures AtOrBelow(rs, q)
    {
      assert |q| >= |rs|;
      assert q[..|rs|] == fs[..|rs|];
    }
  }

  /** Reading back a file just written yields what was written, as the read path would render it. */
  lemma ReadAfterWrite(t: Tree, cwd: string, wd: string, path: string, content: string, dirSize: nat)
    requires WellFormed(t) && IsAbs(cwd)
    requires WriteSucceeds(t, cwd, wd, path)
    ensures var t' := WriteResult(t, cwd, wd, path, content, dirSize).tree;
      && FileContentContained(t', cwd, wd, path) == Truncate(UniversalNewlines(content), path)
      && FileContent(t', cwd, wd, path) == Truncate(UniversalNewlines(content), path)
      && (|content| <= MaxChars && '\r' !in content ==> FileContentContained(t', cwd, wd, path) == content)
  {
    WriteSuccessEffect(t, cwd, wd, path, content, dirSize);
    FileContentNeverRefuses(WriteResult(t, cwd, wd, path, content, dirSize).tree, cwd, wd, path);
    UniversalNewlinesPlain(content);
  }

  // ---------------------------------------------------------------------
  // run_python_file

  /**
   The checks run in order and the first that fails decides: outside the
   root, then missing, then not ending in ".py". A process is started only
   when all three pass, as `python <path> <args>` in the working directory,
   and then the answer is the report of what it did.
   */
  lemma RunChecksInOrder(t: Tree, cwd: string, wd: string, path: string, args: seq<string>, p: Process)
    requires IsAbs(cwd)
    ensures var full, r := Target(cwd, wd, path), RunResult(t, cwd, wd, path, args, p);
      var inside := Root(cwd, wd) + "/" <= full;
      && (!inside ==> r == Ran(ExecOutside(path), None))
      && (inside && Segments(full) !in t ==> r == Ran(ScriptNotFound(path), None))
      && (inside && Segments(full) in t && !EndsWith(full, ".py") ==> r == Ran(NotPython(path), None))
      && (r.started.Some? <==> inside && Segments(full) in t && EndsWith(full, ".py"))
      && (r.started.Some? ==> r.started.value == Invocation(["python", path] + args, wd) && r.text == Report(p))
  {
  }

  /** A process is only ever started for an existing script strictly below the root. */
  lemma RunConfined(t: Tree, cwd: string, wd: string, path: string, args: seq<string>, p: Process)
    requires IsAbs(cwd) && OrdinaryRoot(cwd, wd)
    ensures RunResult(t, cwd, wd, path, args, p).started.Some? ==>
      var fs := Segments(Anchored(cwd, Join(wd, path)));
      Lead(Anchored(cwd, Join(wd, path))) == 1 && StrictlyBelow(Segments(Anchored(cwd, wd)), fs) && fs in t
  {
    SepPrefixIsStrictlyBelow(Anchored(cwd, wd), Anchored(cwd, Join(wd, path)));
    NormPathIdempotent(Anchored(cwd, Join(wd, path)));
  }

  /** "No output produced." is the report exactly when the process printed nothing and exited with 0. */
  lemma NoOutputExactly(out: string, err: string, code: int)
    ensures Report(Completed(out, err, code)) == NoOutput <==> out == "" && err == "" && code == 0
  {
    var s := Sections(out, err, code);
    if s != [] {
      JoinWithEnds('\n', s);
      if out != "" {
        assert s[0] == "STDOUT: " + Strip(out);
      } else if err != "" {
        assert s[0] == "STDERR: " + Strip(err);
      } else {
        assert s[0] == ExitLine(code);
      }
      assert JoinWith('\n', s)[0] == s[0][0] != NoOutput[0];
    }
  }

  /** Joining the sections that are present, whatever their texts. */
  lemma JoinSections(so: string, se: string, ex: string, a: bool, b: bool, c: bool)
    ensures var s := (if a then [so] else []) + (if b then [se] else []) + (if c then [ex] else []);
      var tail := if c then "\n" + ex else "";
      && (a && b ==> JoinWith('\n', s) == so + "\n" + se + tail)
      && (a && !b ==> JoinWith('\n', s) == so + tail)
      && (!a && b ==> JoinWith('\n', s) == se + tail)
      && (!a && !b && c ==> JoinWith('\n', s) == ex)
  {
    JoinWithSmall('\n', so, se, ex);
    JoinWithSmall('\n', so, ex, ex);
    JoinWithSmall('\n', se, ex, ex);
    var s := (if a then [so] else []) + (if b then [se] else []) + (if c then [ex] else []);
    if a && b && c {
      assert s == [so, se, ex];
    } else if a && b {
      assert s == [so, se];
    } else if a && c {
      assert s == [so, ex];
    } else if a {
      assert s == [so];
    } else if b && c {
      assert s == [se, ex];
    } else if b {
      assert s == [se];
    } else if c {
      assert s == [ex];
    }
  }

  /**
   The report of a finished process, case by case: the stripped standard
   output, then the stripped standard error, then the exit line when the code
   is not 0, each present only when it has something to say and separated by
   newlines.
   */
  lemma ReportLayout(out: string, err: string, code: int)
    ensures var r := Report(Completed(out, err, code));
      var so, se := "STDOUT: " + Strip(out), "STDERR: " + Strip(err);
      var tail := if code != 0 then "\n" + ExitLine(code) else "";
      && (out != "" && err != "" ==> r == so + "\n" + se + tail)
      && (out != "" && err == "" ==> r == so + tail)
      && (out == "" && err != "" ==> r == se + tail)
      && (out == "" && err == "" && code != 0 ==> r == ExitLine(code))
      && (out == "" && err == "" && code == 0 ==> r == NoOutput)
  {
    JoinSections("STDOUT: " + Strip(out), "STDERR: " + Strip(err), ExitLine(code), out != "", err != "", code != 0);
  }

  /** The exit line names the return code unambiguously. */
  lemma ExitLineInjective(a: int, b: int)
    requires ExitLine(a) == ExitLine(b)
    ensures a == b
  {
    var n := |"Process exited with code "|;
    assert ExitLine(a)[n..] == IntToString(a);
    assert ExitLine(b)[n..] == IntToString(b);
    IntToStringInjective(a, b);
  }
}
