/**
 POSIX path handling as the tools use it: `os.path.join`, `os.path.normpath`
 and `os.path.abspath` (all purely lexical), and the two string-prefix tests
 the tools apply to their results.
 */
module Paths {
  import opened Text

  /** `os.path.isabs` on POSIX. */
  predicate IsAbs(p: string) {
    |p| > 0 && p[0] == '/'
  }

  /** `os.path.join(a, b)`: an absolute `b` discards `a`; otherwise one '/' goes between them. */
  function Join(a: string, b: string): (r: string)
    ensures IsAbs(b) ==> r == b
    ensures IsAbs(a) ==> IsAbs(r)
  {
    if IsAbs(b) then b
    else if a == [] || a[|a| - 1] == '/' then a + b
    else a + "/" + b
  }

  /** A path component that normalisation keeps. */
  predicate IsName(c: string) {
    c != "" && c != "." && c != ".." && '/' !in c
  }

  predicate AllNames(segs: seq<string>) {
    forall i :: 0 <= i < |segs| ==> IsName(segs[i])
  }

  predicate NoSlash(comps: seq<string>) {
    forall i :: 0 <= i < |comps| ==> '/' !in comps[i]
  }

  /**
   One iteration of `normpath`'s loop on an absolute path: empty and "."
   components vanish, ".." drops the last kept component (and stays at the
   root when there is none), any other component is kept.
   */
  function Step(kept: seq<string>, comp: string): seq<string> {
    if comp == "" || comp == "." then kept
    else if comp == ".." then (if kept == [] then [] else kept[..|kept| - 1])
    else kept + [comp]
  }

  /** `normpath`'s loop over the components `comps`, starting from `kept`. */
  function CollapseFrom(kept: seq<string>, comps: seq<string>): (r: seq<string>)
    requires AllNames(kept) && NoSlash(comps)
    ensures AllNames(r)
    ensures |r| <= |kept| + |comps|
    decreases |comps|
  {
    if comps == [] then kept else CollapseFrom(Step(kept, comps[0]), comps[1..])
  }

  /** Running the loop over two batches of components is running it over both. */
  lemma {:induction false} CollapseFromConcat(kept: seq<string>, xs: seq<string>, ys: seq<string>)
    requires AllNames(kept) && NoSlash(xs) && NoSlash(ys)
    ensures NoSlash(xs + ys)
    ensures CollapseFrom(kept, xs + ys) == CollapseFrom(CollapseFrom(kept, xs), ys)
    decreases |xs|
  {
    assert NoSlash(xs + ys);
    if xs == [] {
      assert xs + ys == ys;
    } else {
      assert (xs + ys)[0] == xs[0];
      assert (xs + ys)[1..] == xs[1..] + ys;
      CollapseFromConcat(Step(kept, xs[0]), xs[1..], ys);
    }
  }

  /** Components that are already names pass through the loop unchanged. */
  lemma {:induction false} CollapseFromNames(kept: seq<string>, names: seq<string>)
    requires AllNames(kept) && AllNames(names)
    ensures CollapseFrom(kept, names) == kept + names
    decreases |names|
  {
    if names != [] {
      CollapseFromNames(kept + [names[0]], names[1..]);
      assert kept + [names[0]] + names[1..] == kept + names;
    }
  }

  /** The components `normpath` keeps for absolute path `p`: the key a filesystem lookup uses. */
  function Segments(p: string): (r: seq<string>)
    ensures AllNames(r)
  {
    CollapseFrom([], Split('/', p))
  }

  /** The names of `a + "/" + b`: those of `a`, then `b`'s pieces normalised after them. */
  lemma SegmentsAppend(a: string, b: string)
    ensures NoSlash(Split('/', b))
    ensures Segments(a + "/" + b) == CollapseFrom(Segments(a), Split('/', b))
  {
    SplitConcat('/', a, b);
    CollapseFromConcat([], Split('/', a), Split('/', b));
  }

  /**
   How many leading slashes `normpath` keeps: POSIX lets an implementation
   give exactly two leading slashes a meaning of its own, so "//" survives
   while one or three and more slashes become one.
   */
  function Lead(p: string): (n: nat)
    ensures n == 1 || n == 2
  {
    if |p| >= 2 && p[0] == '/' && p[1] == '/' && !(|p| >= 3 && p[2] == '/') then 2 else 1
  }

  function Slashes(n: nat): string {
    if n == 2 then "//" else "/"
  }

  /** `os.path.normpath` for an absolute path. */
  function NormPath(p: string): (r: string)
    requires IsAbs(p)
    ensures IsAbs(r)
  {
    Slashes(Lead(p)) + JoinWith('/', Segments(p))
  }

  /** `os.path.abspath`: a relative path is taken from the current directory `cwd`. */
  function AbsPath(cwd: string, p: string): (r: string)
    requires IsAbs(cwd)
    ensures IsAbs(r)
  {
    NormPath(if IsAbs(p) then p else Join(cwd, p))
  }

  /** The path spelt by a leading-slash count and a sequence of names. */
  function Render(lead: nat, segs: seq<string>): string {
    Slashes(lead) + JoinWith('/', segs)
  }

  /** A rendered path splits back into its names, behind one empty piece per leading slash. */
  lemma SplitRender(lead: nat, segs: seq<string>)
    requires lead == 1 || lead == 2
    requires AllNames(segs)
    ensures Split('/', Render(lead, segs)) == (if lead == 2 then ["", ""] else [""]) + Split('/', JoinWith('/', segs))
    ensures segs != [] ==> Split('/', JoinWith('/', segs)) == segs
  {
    var j := JoinWith('/', segs);
    if lead == 2 {
      assert Render(lead, segs) == [] + ['/'] + ([] + ['/'] + j);
      SplitConcat('/', [], [] + ['/'] + j);
      SplitConcat('/', [], j);
    } else {
      assert Render(lead, segs) == [] + ['/'] + j;
      SplitConcat('/', [], j);
    }
    if segs != [] {
      SplitJoin('/', segs);
    }
  }

  /** Reading a rendered path back gives its leading-slash count and its names. */
  lemma RenderParts(lead: nat, segs: seq<string>)
    requires lead == 1 || lead == 2
    requires AllNames(segs)
    ensures Lead(Render(lead, segs)) == lead
    ensures Segments(Render(lead, segs)) == segs
  {
    var q := Render(lead, segs);
    SplitRender(lead, segs);
    if segs == [] {
      assert Split('/', q) == (if lead == 2 then ["", "", ""] else ["", ""]);
      assert CollapseFrom([], [""]) == [];
      assert CollapseFrom([], ["", ""]) == CollapseFrom([], [""]);
      assert CollapseFrom([], ["", "", ""]) == CollapseFrom([], ["", ""]);
    } else {
      CollapseFromConcat([], if lead == 2 then ["", ""] else [""], segs);
      CollapseFromNames([], segs);
      assert segs[0][0] != '/';
      assert q[lead] == segs[0][0];
    }
  }

  /** Normalising keeps the leading-slash count and the names, so a second pass changes nothing. */
  lemma NormPathIdempotent(p: string)
    requires IsAbs(p)
    ensures Lead(NormPath(p)) == Lead(p)
    ensures Segments(NormPath(p)) == Segments(p)
    ensures NormPath(NormPath(p)) == NormPath(p)
  {
    RenderParts(Lead(p), Segments(p));
  }

  /** Two normal forms are equal exactly when their leading slashes and names agree. */
  lemma NormPathEqual(p: string, q: string)
    requires IsAbs(p) && IsAbs(q)
    ensures NormPath(p) == NormPath(q) <==> Lead(p) == Lead(q) && Segments(p) == Segments(q)
  {
    NormPathIdempotent(p);
    NormPathIdempotent(q);
  }

  /** Names `rs` lie strictly above names `fs`: `fs` starts with all of `rs` and goes on. */
  predicate StrictlyBelow(rs: seq<string>, fs: seq<string>) {
    |rs| < |fs| && fs[..|rs|] == rs
  }

  /** `fs` is `rs` itself or lies below it. */
  predicate AtOrBelow(rs: seq<string>, fs: seq<string>) {
    |rs| <= |fs| && fs[..|rs|] == rs
  }

  /** A common first part does not affect whether one string begins another. */
  lemma PrefixCancel(p: string, x: string, y: string)
    ensures p + x <= p + y <==> x <= y
  {
    if p + x <= p + y {
      assert x == (p + x)[|p|..] == (p + y)[|p|..|p| + |x|] == y[..|x|];
    }
    if x <= y {
      assert p + x == (p + y)[..|p| + |x|];
    }
  }

  /** Up to the first '/', `a/s` can begin `b/t` only when `a` and `b` agree. */
  lemma FirstNamePrefix(a: string, s: string, b: string, t: string)
    requires '/' !in a && '/' !in b
    ensures (a + "/" + s <= b + "/" + t) <==> (a == b && s <= t)
  {
    var x := a + "/" + s;
    var y := b + "/" + t;
    if |a| < |b| {
      assert x[|a|] == '/' && y[|a|] == b[|a|];
    } else if |a| > |b| {
      assert x[|b|] == a[|b|] && y[|b|] == '/';
    } else {
      if x <= y {
        assert a == x[..|a|] == y[..|a|] == b;
        assert s == x[|a| + 1..] == y[|a| + 1..|x|];
        assert t == y[|a| + 1..];
      }
      if a == b && s <= t {
        assert x == y[..|x|];
      }
    }
  }

  /** A path with a '/' after its first name never begins a bare name. */
  lemma SlashNotPrefixOfName(a: string, s: string, b: string)
    requires '/' !in b
    ensures !(a + "/" + s <= b)
  {
    var x := a + "/" + s;
    if |x| <= |b| {
      assert b[..|x|][|a|] == b[|a|] != '/' == x[|a|];
    }
  }

  /** A bare name begins `b/t` exactly when it begins `b`. */
  lemma NameBeginsPath(a: string, b: string, t: string)
    requires '/' !in a && '/' !in b
    ensures a <= b + "/" + t <==> a <= b
  {
    var y := b + "/" + t;
    if |a| <= |b| {
      assert y[..|a|] == b[..|a|];
    } else if |a| <= |y| {
      assert y[..|a|][|b|] == '/' != a[|b|];
    }
  }

  /** The joined names `rs` followed by '/' begin the joined names `fs` exactly when `rs` lies strictly above `fs`. */
  lemma {:induction false} JoinSlashPrefix(rs: seq<string>, fs: seq<string>)
    requires |rs| >= 1 && NoSlash(rs) && NoSlash(fs)
    ensures JoinWith('/', rs) + "/" <= JoinWith('/', fs) <==> StrictlyBelow(rs, fs)
    decreases |rs|
  {
    var x := JoinWith('/', rs) + "/";
    if |fs| == 0 {
    } else if |fs| == 1 {
      if |rs| == 1 {
        SlashNotPrefixOfName(rs[0], "", fs[0]);
      } else {
        assert x == rs[0] + "/" + (JoinWith('/', rs[1..]) + "/");
        SlashNotPrefixOfName(rs[0], JoinWith('/', rs[1..]) + "/", fs[0]);
      }
    } else {
      var tail := JoinWith('/', fs[1..]);
      assert JoinWith('/', fs) == fs[0] + "/" + tail;
      if |rs| == 1 {
        assert x == rs[0] + "/" + "";
        FirstNamePrefix(rs[0], "", fs[0], tail);
        assert StrictlyBelow(rs, fs) <==> fs[0] == rs[0];
      } else {
        assert x == rs[0] + "/" + (JoinWith('/', rs[1..]) + "/");
        FirstNamePrefix(rs[0], JoinWith('/', rs[1..]) + "/", fs[0], tail);
        JoinSlashPrefix(rs[1..], fs[1..]);
        assert StrictlyBelow(rs, fs) <==> rs[0] == fs[0] && StrictlyBelow(rs[1..], fs[1..]) by {
          if StrictlyBelow(rs, fs) {
            assert fs[1..][..|rs| - 1] == fs[..|rs|][1..];
          }
          if rs[0] == fs[0] && StrictlyBelow(rs[1..], fs[1..]) {
            assert fs[..|rs|] == [fs[0]] + fs[1..][..|rs| - 1];
          }
        }
      }
    }
  }

  /**
   The joined names `rs` begin the joined names `fs` exactly when `fs` agrees
   with `rs` up to `rs`'s last name and there merely starts with that name.
   */
  lemma {:induction false} JoinBarePrefix(rs: seq<string>, fs: seq<string>)
    requires |rs| >= 1 && AllNames(rs) && NoSlash(fs)
    ensures JoinWith('/', rs) <= JoinWith('/', fs) <==>
      |rs| <= |fs| && fs[..|rs| - 1] == rs[..|rs| - 1] && rs[|rs| - 1] <= fs[|rs| - 1]
    decreases |rs|
  {
    var k := |rs|;
    if |fs| == 0 {
      assert JoinWith('/', rs) != [] by {
        if k == 1 { assert rs[0] != ""; } else { assert |JoinWith('/', rs)| >= |rs[0]| + 1; }
      }
    } else if |fs| == 1 {
      if k >= 2 {
        assert JoinWith('/', rs) == rs[0] + "/" + JoinWith('/', rs[1..]);
        SlashNotPrefixOfName(rs[0], JoinWith('/', rs[1..]), fs[0]);
      }
    } else {
      var tail := JoinWith('/', fs[1..]);
      assert JoinWith('/', fs) == fs[0] + "/" + tail;
      if k == 1 {
        NameBeginsPath(rs[0], fs[0], tail);
      } else {
        assert JoinWith('/', rs) == rs[0] + "/" + JoinWith('/', rs[1..]);
        FirstNamePrefix(rs[0], JoinWith('/', rs[1..]), fs[0], tail);
        JoinBarePrefix(rs[1..], fs[1..]);
        var r1, f1 := rs[1..], fs[1..];
        if k <= |fs| {
          assert fs[..k - 1] == [fs[0]] + f1[..k - 2];
          assert rs[..k - 1] == [rs[0]] + r1[..k - 2];
          assert fs[k - 1] == f1[k - 2] && rs[k - 1] == r1[k - 2];
        }
      }
    }
  }

  /**
   The test `full.startswith(root + os.sep)` on normal forms: for a root with a
   single leading slash and at least one name, it holds exactly when `full`
   names something strictly below the root.
   */
  lemma SepPrefixIsStrictlyBelow(root: string, full: string)
    requires IsAbs(root) && IsAbs(full)
    requires Lead(root) == 1 && Segments(root) != []
    ensures NormPath(root) + "/" <= NormPath(full) <==>
      Lead(full) == 1 && StrictlyBelow(Segments(root), Segments(full))
  {
    var rs, fs := Segments(root), Segments(full);
    var jr, jf := JoinWith('/', rs), JoinWith('/', fs);
    assert NormPath(root) + "/" == "/" + (jr + "/");
    if Lead(full) == 1 {
      assert NormPath(full) == "/" + jf;
      PrefixCancel("/", jr + "/", jf);
      JoinSlashPrefix(rs, fs);
    } else {
      assert NormPath(full)[1] == '/';
      assert rs[0][0] != '/';
      assert (NormPath(root) + "/")[1] == rs[0][0];
    }
  }

  /**
   The test `full.startswith(root)` on normal forms: for a root with a single
   leading slash and at least one name, it holds exactly when `full` repeats
   the root's names except the last, and there has a name that merely starts
   with the root's last name.
   */
  lemma BarePrefixCharacterized(root: string, full: string)
    requires IsAbs(root) && IsAbs(full)
    requires Lead(root) == 1 && Segments(root) != []
    ensures var rs, fs := Segments(root), Segments(full);
      NormPath(root) <= NormPath(full) <==>
        Lead(full) == 1 && |rs| <= |fs| && fs[..|rs| - 1] == rs[..|rs| - 1] && rs[|rs| - 1] <= fs[|rs| - 1]
  {
    var rs, fs := Segments(root), Segments(full);
    var jr, jf := JoinWith('/', rs), JoinWith('/', fs);
    JoinBarePrefix(rs, fs);
    if Lead(full) == 1 {
      assert NormPath(full) == "/" + jf;
      assert NormPath(root) == "/" + jr;
      PrefixCancel("/", jr, jf);
    } else {
      assert NormPath(full)[1] == '/';
      assert rs[0][0] != '/';
      if |rs| == 1 {
        assert jr == rs[0];
      } else {
        assert jr == rs[0] + "/" + JoinWith('/', rs[1..]);
      }
      assert NormPath(root)[1] == rs[0][0];
    }
  }

  /** The containment rule "the root itself or below it, on a '/' boundary" in terms of names. */
  lemma WithinIsAtOrBelow(root: string, full: string)
    requires IsAbs(root) && IsAbs(full)
    requires Lead(root) == 1 && Segments(root) != []
    ensures (NormPath(full) == NormPath(root) || NormPath(root) + "/" <= NormPath(full)) <==>
      Lead(full) == 1 && AtOrBelow(Segments(root), Segments(full))
  {
    NormPathEqual(root, full);
    SepPrefixIsStrictlyBelow(root, full);
  }
}
