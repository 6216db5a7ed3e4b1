/**
 Where the paths of the calls `tests.py` makes land, with the working
 directory "calculator" it passes, for any current directory `cwd` with
 one leading slash: the permitted root then has the names of `cwd`
 followed by "calculator".

 Paths are spelt as concatenations of their names ("/" + "bin" + "/" + "cat")
 so that each name is a literal of its own that the path lemmas split on.
 */
module PathExamples {
  import opened Text
  import opened Paths
  import opened Tools
  import opened ToolLaws

  const Wd := "calculator"

  /** A path spelt with one leading slash and names is its own normal form. */
  lemma Normal(p: string, segs: seq<string>)
    requires AllNames(segs) && p == Render(1, segs)
    ensures IsAbs(p) && Lead(p) == 1 && Segments(p) == segs && NormPath(p) == p
  {
    RenderParts(1, segs);
  }

  /** A string that ends with `x` ends with `y` exactly when `x` does, for `y` no longer than `x`. */
  lemma EndsWithWithin(s: string, x: string, y: string)
    requires EndsWith(s, x) && |y| <= |x|
    ensures EndsWith(s, y) <==> EndsWith(x, y)
  {
    assert s[|s| - |y|..] == s[|s| - |x|..][|x| - |y|..];
  }

  /** The root "calculator": the directory of that name in the current directory. */
  lemma CalculatorRoot(cwd: string)
    requires IsAbs(cwd) && Lead(cwd) == 1
    ensures Lead(Anchored(cwd, Wd)) == 1
    ensures Segments(Anchored(cwd, Wd)) == Segments(cwd) + ["calculator"]
    ensures OrdinaryRoot(cwd, Wd)
  {
    RelativeLead(cwd, Wd);
    RelativeSegments(cwd, Wd);
    SplitPlain('/', Wd);
    assert IsName("calculator");
    CollapseFromNames(Segments(cwd), ["calculator"]);
  }

  /** A relative path given to a tool: the root's names, then the path's pieces normalised after them. */
  lemma Relative(cwd: string, x: string)
    requires IsAbs(cwd) && Lead(cwd) == 1 && !IsAbs(x)
    ensures Lead(Anchored(cwd, Join(Wd, x))) == 1
    ensures NoSlash(Split('/', x))
    ensures Segments(Anchored(cwd, Join(Wd, x))) == CollapseFrom(Segments(cwd) + ["calculator"], Split('/', x))
  {
    var rel := Join(Wd, x);
    assert rel == Wd + "/" + x;
    RelativeLead(cwd, rel);
    SplitCons('/', Wd, x);
    RelativeSegments(cwd, rel);
    assert IsName("calculator");
    CollapseFromConcat(Segments(cwd), ["calculator"], Split('/', x));
    CollapseFromNames(Segments(cwd), ["calculator"]);
  }

  /** ".." and then `rest` steps out of the root into the current directory and then to `rest`. */
  lemma UpThen(cwd: string, rest: string)
    requires IsAbs(cwd) && Lead(cwd) == 1 && '/' !in rest
    ensures Lead(Anchored(cwd, Join(Wd, ".." + "/" + rest))) == 1
    ensures Segments(Anchored(cwd, Join(Wd, ".." + "/" + rest))) == Step(Segments(cwd), rest)
  {
    Relative(cwd, ".." + "/" + rest);
    SplitCons('/', "..", rest);
    SplitPlain('/', rest);
    assert [".."] + [rest] == ["..", rest];
    UpCollapse(Segments(cwd), rest);
  }

  /** Normalising ".." and then `rest` after `base` and "calculator" is one step of `rest` from `base`. */
  lemma UpCollapse(base: seq<string>, rest: string)
    requires AllNames(base) && '/' !in rest
    ensures NoSlash(["..", rest])
    ensures CollapseFrom(base + ["calculator"], ["..", rest]) == Step(base, rest)
  {
    var kept := base + ["calculator"];
    assert IsName("calculator");
    assert Step(kept, "..") == base;
    assert ["..", rest][1..] == [rest];
    assert CollapseFrom(kept, ["..", rest]) == CollapseFrom(base, [rest]);
    assert CollapseFrom(base, [rest]) == CollapseFrom(Step(base, rest), []);
  }

  /** "../" names the current directory itself. */
  lemma ParentOfRoot(cwd: string)
    requires IsAbs(cwd) && Lead(cwd) == 1
    ensures Lead(Anchored(cwd, Join(Wd, "../"))) == 1
    ensures Segments(Anchored(cwd, Join(Wd, "../"))) == Segments(cwd)
    ensures Segments(Target(cwd, Wd, "../")) == Segments(cwd)
  {
    assert "../" == ".." + "/" + "";
    UpThen(cwd, "");
    NormPathIdempotent(Anchored(cwd, Join(Wd, "../")));
  }

  /** The names of a relative path of names inside the root. */
  lemma InRootNames(cwd: string, x: string)
    requires IsAbs(cwd) && Lead(cwd) == 1 && !IsAbs(x) && AllNames(Split('/', x))
    ensures Segments(Target(cwd, Wd, x)) == Segments(cwd) + ["calculator"] + Split('/', x)
  {
    var full := Anchored(cwd, Join(Wd, x));
    AnchoredNames(cwd, x);
    assert Target(cwd, Wd, x) == NormPath(full);
    NormPathIdempotent(full);
  }

  /** The same names, before normalisation. */
  lemma AnchoredNames(cwd: string, x: string)
    requires IsAbs(cwd) && Lead(cwd) == 1 && !IsAbs(x) && AllNames(Split('/', x))
    ensures Lead(Anchored(cwd, Join(Wd, x))) == 1
    ensures Segments(Anchored(cwd, Join(Wd, x))) == Segments(cwd) + ["calculator"] + Split('/', x)
  {
    Relative(cwd, x);
    KeptNames(cwd, x);
  }

  /** Below the root, `..`-collapsing a run of plain names keeps them all. */
  lemma KeptNames(cwd: string, x: string)
    requires AllNames(Split('/', x))
    ensures CollapseFrom(Segments(cwd) + ["calculator"], Split('/', x)) == Segments(cwd) + ["calculator"] + Split('/', x)
  {
    assert IsName("calculator");
    CollapseFromNames(Segments(cwd) + ["calculator"], Split('/', x));
  }

  /** A path with one leading slash and some names normalises to a string ending with its last name. */
  lemma EndsWithLastName(p: string, front: seq<string>, back: seq<string>)
    requires IsAbs(p) && Lead(p) == 1 && Segments(p) == front + back && back != []
    ensures EndsWith(NormPath(p), back[|back| - 1])
  {
    var segs := Segments(p);
    var last := segs[|segs| - 1];
    assert last == back[|back| - 1];
    JoinWithEnds('/', segs);
    var j := JoinWith('/', segs);
    assert NormPath(p) == "/" + j;
    assert ("/" + j)[|"/" + j| - |last|..] == j[|j| - |last|..];
  }

  /** A relative path of names inside the root: its names, strictly below the root. */
  lemma InRootPath(cwd: string, x: string)
    requires IsAbs(cwd) && Lead(cwd) == 1 && !IsAbs(x) && AllNames(Split('/', x))
    ensures Segments(Target(cwd, Wd, x)) == Segments(cwd) + ["calculator"] + Split('/', x)
    ensures Root(cwd, Wd) + "/" <= Target(cwd, Wd, x)
  {
    InRootNames(cwd, x);
    InRootBelow(cwd, x);
  }

  /** A relative path of names lands strictly below the root. */
  lemma InRootBelow(cwd: string, x: string)
    requires IsAbs(cwd) && Lead(cwd) == 1 && !IsAbs(x) && AllNames(Split('/', x))
    ensures Root(cwd, Wd) + "/" <= Target(cwd, Wd, x)
  {
    var kept := Segments(cwd) + ["calculator"];
    var segs := kept + Split('/', x);
    AnchoredNames(cwd, x);
    CalculatorRoot(cwd);
    assert segs[..|kept|] == kept;
    SepPrefixIsStrictlyBelow(Anchored(cwd, Wd), Anchored(cwd, Join(Wd, x)));
  }

  /** A target whose anchored path has some names ends with the last of them. */
  lemma TargetEndsWith(cwd: string, x: string, front: seq<string>, back: seq<string>)
    requires IsAbs(cwd) && back != []
    requires Lead(Anchored(cwd, Join(Wd, x))) == 1 && Segments(Anchored(cwd, Join(Wd, x))) == front + back
    ensures EndsWith(Target(cwd, Wd, x), back[|back| - 1])
  {
    EndsWithLastName(Anchored(cwd, Join(Wd, x)), front, back);
  }

  /** A path strictly below the root passes the bare prefix test and the containment rule. */
  lemma BelowPassesBoth(root: string, full: string)
    requires root + "/" <= full
    ensures root <= full && Within(root, full)
  {
    assert root <= root + "/";
  }

  /** A single name inside the root. */
  lemma InRoot(cwd: string, name: string)
    requires IsAbs(cwd) && Lead(cwd) == 1 && IsName(name)
    ensures Segments(Target(cwd, Wd, name)) == Segments(cwd) + ["calculator", name]
    ensures Root(cwd, Wd) + "/" <= Target(cwd, Wd, name)
    ensures EndsWith(Target(cwd, Wd, name), name)
  {
    SplitPlain('/', name);
    InRootPath(cwd, name);
    assert Segments(cwd) + ["calculator"] + [name] == Segments(cwd) + ["calculator", name];
    AnchoredNames(cwd, name);
    TargetEndsWith(cwd, name, Segments(cwd) + ["calculator"], [name]);
  }

  /** Two two-part paths joined by a slash split into their four parts. */
  lemma SplitFour(a: string, b: string, c: string, d: string)
    requires '/' !in a && '/' !in b && '/' !in c && '/' !in d
    ensures Split('/', (a + "/" + b) + "/" + (c + "/" + d)) == [a, b, c, d]
  {
    SplitCons('/', c, d);
    SplitPlain('/', d);
    SplitCons('/', b, c + "/" + d);
    assert (a + "/" + b) + "/" + (c + "/" + d) == a + "/" + (b + "/" + (c + "/" + d));
    SplitCons('/', a, b + "/" + (c + "/" + d));
  }

  /** Normalising ".", "calculator", ".." and "calculator2" after `kept` appends "calculator2". */
  lemma SiblingCollapse(kept: seq<string>)
    requires AllNames(kept)
    ensures NoSlash([".", "calculator", "..", "calculator2"])
    ensures CollapseFrom(kept, [".", "calculator", "..", "calculator2"]) == kept + ["calculator2"]
  {
    var xs := [".", "calculator", "..", "calculator2"];
    assert IsName("calculator") && IsName("calculator2");
    assert xs[1..] == ["calculator", "..", "calculator2"];
    assert CollapseFrom(kept, xs) == CollapseFrom(kept, xs[1..]);
    var up := kept + ["calculator"];
    assert xs[2..] == ["..", "calculator2"];
    assert CollapseFrom(kept, xs[1..]) == CollapseFrom(up, xs[2..]);
    assert up[..|up| - 1] == kept;
    assert CollapseFrom(up, xs[2..]) == CollapseFrom(kept, ["calculator2"]);
    assert CollapseFrom(kept, ["calculator2"]) == CollapseFrom(kept + ["calculator2"], []);
  }

  /** "./calculator/../calculator2" taken from `cwd` names "calculator2" in `cwd`. */
  lemma SiblingAnchored(cwd: string, rel: string)
    requires IsAbs(cwd) && Lead(cwd) == 1
    requires rel == ("." + "/" + "calculator") + "/" + (".." + "/" + "calculator2")
    ensures Lead(Anchored(cwd, rel)) == 1
    ensures Segments(Anchored(cwd, rel)) == Segments(cwd) + ["calculator2"]
  {
    RelativeLead(cwd, rel);
    RelativeSegments(cwd, rel);
    SplitFour(".", "calculator", "..", "calculator2");
    SiblingCollapse(Segments(cwd));
  }

  /** "/bin" is its own target, whatever the root, and "calculator" is not a prefix of "bin". */
  lemma BinOutside(cwd: string)
    requires IsAbs(cwd)
    ensures Anchored(cwd, Join(Wd, "/bin")) == "/bin"
    ensures Lead("/bin") == 1 && Segments("/bin") == ["bin"]
    ensures var rs := Segments(cwd) + ["calculator"];
      |rs| <= 1 ==> rs[|rs| - 1] == "calculator" && !("calculator" <= "bin")
  {
    Normal("/bin", ["bin"]);
  }

  /** "/bin/cat" is its own target, whatever the root, and lies outside "calculator". */
  lemma BinCatOutside(cwd: string)
    requires IsAbs(cwd)
    ensures Anchored(cwd, Join(Wd, "/" + "bin" + "/" + "cat")) == "/" + "bin" + "/" + "cat"
    ensures Target(cwd, Wd, "/" + "bin" + "/" + "cat") == "/" + "bin" + "/" + "cat"
    ensures !AtOrBelow(Segments(cwd) + ["calculator"], Segments("/" + "bin" + "/" + "cat"))
  {
    assert ["bin", "cat"][1..] == ["cat"];
    Normal("/" + "bin" + "/" + "cat", ["bin", "cat"]);
    var rs, fs := Segments(cwd) + ["calculator"], ["bin", "cat"];
    if |rs| <= |fs| {
      assert fs[..|rs|][|rs| - 1] != rs[|rs| - 1];
    }
  }

  /** "/tmp/temp.txt" is its own target, whatever the root, and lies outside "calculator". */
  lemma TmpOutside(cwd: string)
    requires IsAbs(cwd)
    ensures Anchored(cwd, Join(Wd, "/" + "tmp" + "/" + "temp.txt")) == "/" + "tmp" + "/" + "temp.txt"
    ensures Lead("/" + "tmp" + "/" + "temp.txt") == 1
    ensures !StrictlyBelow(Segments(cwd) + ["calculator"], Segments("/" + "tmp" + "/" + "temp.txt"))
  {
    assert ["tmp", "temp.txt"][1..] == ["temp.txt"];
    Normal("/" + "tmp" + "/" + "temp.txt", ["tmp", "temp.txt"]);
    var rs, fs := Segments(cwd) + ["calculator"], ["tmp", "temp.txt"];
    if |rs| < |fs| {
      assert fs[..|rs|][|rs| - 1] != rs[|rs| - 1];
    }
  }
}
