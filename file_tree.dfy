/**
 The filesystem the tools see, abstracted as a map from the names along a
 normalised absolute path to the node there. A directory records its entries
 in the order `os.listdir` reports them, and the size `os.path.getsize`
 reports for it.
 */
module FileTree {
  import opened Text
  import opened Paths

  datatype Node = File(content: string) | Dir(size: nat, entries: seq<string>)

  type Tree = map<seq<string>, Node>

  function Parent(p: seq<string>): seq<string>
    requires p != []
  {
    p[..|p| - 1]
  }

  predicate Distinct(names: seq<string>) {
    forall i, j :: 0 <= i < j < |names| ==> names[i] != names[j]
  }

  predicate RootIsDir(t: Tree) {
    [] in t && t[[]].Dir?
  }

  predicate PathsNamed(t: Tree) {
    forall p :: p in t ==> AllNames(p)
  }

  predicate ParentsList(t: Tree) {
    forall p {:trigger Parent(p)} :: p in t && p != [] ==> Parent(p) in t && t[Parent(p)].Dir? && p[|p| - 1] in t[Parent(p)].entries
  }

  predicate EntriesDistinct(t: Tree) {
    forall p :: p in t && t[p].Dir? ==> Distinct(t[p].entries)
  }

  predicate EntriesExist(t: Tree) {
    forall p, c :: p in t && t[p].Dir? && c in t[p].entries ==> p + [c] in t
  }

  /**
   A tree a POSIX filesystem can present: the root is a directory, every other
   node sits in a directory that lists it once, and every listed entry exists.
   */
  predicate WellFormed(t: Tree) {
    RootIsDir(t) && PathsNamed(t) && ParentsList(t) && EntriesDistinct(t) && EntriesExist(t)
  }

  /** `os.path.getsize`: the bytes of a file, the recorded size of a directory. */
  function SizeOf(n: Node): nat {
    match n
    case File(content) => Utf8Size(content)
    case Dir(size, _) => size
  }

  /** No proper prefix of `p` is a regular file, so every ancestor of `p` is a directory or missing. */
  predicate NoFileAbove(t: Tree, p: seq<string>) {
    forall k :: 0 <= k < |p| && p[..k] in t ==> t[p[..k]].Dir?
  }

  /** What a tree may become by creating nodes on the way to `p`: nothing is lost, files stay as they were. */
  predicate Grows(t: Tree, r: Tree, p: seq<string>) {
    && (forall q :: q in t ==> q in r)
    && (forall q :: q in t && t[q].File? ==> r[q] == t[q])
    && (forall q :: q in t && t[q].Dir? ==> r[q].Dir? && r[q].size == t[q].size && t[q].entries <= r[q].entries)
    && (forall q {:trigger q in r} :: q in r && q !in t ==> |q| <= |p| && q == p[..|q|])
    && (forall q {:trigger r[q]} :: q in t && r[q] != t[q] ==> |q| < |p| && q == p[..|q|] && p[..|q| + 1] !in t)
  }

  /** Adds node `n` at the missing path `p`, appending its name to its parent's entries. */
  function AddChild(t: Tree, p: seq<string>, n: Node): (r: Tree)
    requires p != [] && p !in t
    requires Parent(p) in t && t[Parent(p)].Dir?
    ensures r.Keys == t.Keys + {p}
    ensures r[p] == n
    ensures r[Parent(p)] == t[Parent(p)].(entries := t[Parent(p)].entries + [p[|p| - 1]])
    ensures forall q :: q in t && q != Parent(p) ==> r[q] == t[q]
  {
    var d := t[Parent(p)];
    t[Parent(p) := d.(entries := d.entries + [p[|p| - 1]])][p := n]
  }

  /** Adding a file, or an empty directory, under an existing directory keeps the tree well formed. */
  lemma AddChildWellFormed(t: Tree, p: seq<string>, n: Node)
    requires WellFormed(t)
    requires p != [] && p !in t && AllNames(p)
    requires Parent(p) in t && t[Parent(p)].Dir?
    requires n.File? || n.entries == []
    ensures WellFormed(AddChild(t, p, n))
    ensures Grows(t, AddChild(t, p, n), p)
  {
    AddChildNamed(t, p, n);
    AddChildParents(t, p, n);
    AddChildDistinct(t, p, n);
    AddChildEntries(t, p, n);
    AddChildGrows(t, p, n);
  }

  lemma AddChildNamed(t: Tree, p: seq<string>, n: Node)
    requires RootIsDir(t) && PathsNamed(t)
    requires p != [] && p !in t && AllNames(p)
    requires Parent(p) in t && t[Parent(p)].Dir?
    ensures RootIsDir(AddChild(t, p, n)) && PathsNamed(AddChild(t, p, n))
  {
  }

  lemma AddChildGrows(t: Tree, p: seq<string>, n: Node)
    requires p != [] && p !in t
    requires Parent(p) in t && t[Parent(p)].Dir?
    ensures Grows(t, AddChild(t, p, n), p)
  {
  }

  lemma AddChildParents(t: Tree, p: seq<string>, n: Node)
    requires ParentsList(t)
    requires p != [] && p !in t
    requires Parent(p) in t && t[Parent(p)].Dir?
    ensures ParentsList(AddChild(t, p, n))
  {
    var r := AddChild(t, p, n);
    forall q | q in r && q != []
      ensures Parent(q) in r && r[Parent(q)].Dir? && q[|q| - 1] in r[Parent(q)].entries
    {
      if q != p {
        assert q in t && Parent(q) in t;
      }
    }
  }

  lemma AddChildDistinct(t: Tree, p: seq<string>, n: Node)
    requires EntriesDistinct(t) && EntriesExist(t)
    requires p != [] && p !in t
    requires Parent(p) in t && t[Parent(p)].Dir?
    requires n.File? || n.entries == []
    ensures EntriesDistinct(AddChild(t, p, n))
  {
    var r := AddChild(t, p, n);
    var par, name := Parent(p), p[|p| - 1];
    assert name !in t[par].entries by {
      assert par + [name] == p;
    }
    forall q | q in r && r[q].Dir?
      ensures Distinct(r[q].entries)
    {
      if q == par {
        var e := t[par].entries + [name];
        forall i, j | 0 <= i < j < |e| ensures e[i] != e[j] {
          if j == |e| - 1 {
            assert e[i] in t[par].entries;
          }
        }
      }
    }
  }

  lemma AddChildEntries(t: Tree, p: seq<string>, n: Node)
    requires EntriesExist(t)
    requires p != [] && p !in t
    requires Parent(p) in t && t[Parent(p)].Dir?
    requires n.File? || n.entries == []
    ensures EntriesExist(AddChild(t, p, n))
  {
    var r := AddChild(t, p, n);
    var par, name := Parent(p), p[|p| - 1];
    forall q, c | q in r && r[q].Dir? && c in r[q].entries
      ensures q + [c] in r
    {
      if q == par && c == name {
        assert q + [c] == p;
      }
    }
  }

  /**
   `os.makedirs(p, exist_ok=True)`: creates every missing directory on the way
   to `p`, each with size `dirSize` and appended to its parent's entries.
   */
  function MakeDirs(t: Tree, p: seq<string>, dirSize: nat): (r: Tree)
    requires WellFormed(t) && AllNames(p)
    requires NoFileAbove(t, p) && (p in t ==> t[p].Dir?)
    ensures WellFormed(r)
    ensures p in r && r[p].Dir?
    ensures Grows(t, r, p)
    decreases |p|
  {
    if p == [] then t
    else
      var par := Parent(p);
      NoFileAboveParent(t, p);
      var t1 := MakeDirs(t, par, dirSize);
      GrowsWiden(t, t1, par, p);
      if p in t1 then
        t1
      else
        AddChildWellFormed(t1, p, Dir(dirSize, []));
        GrowsTrans(t, t1, AddChild(t1, p, Dir(dirSize, [])), p);
        AddChild(t1, p, Dir(dirSize, []))
  }

  /** The parent of `p` meets `MakeDirs`'s precondition when `p` does. */
  lemma NoFileAboveParent(t: Tree, p: seq<string>)
    requires p != [] && NoFileAbove(t, p)
    ensures NoFileAbove(t, Parent(p)) && (Parent(p) in t ==> t[Parent(p)].Dir?)
  {
    var par := Parent(p);
    assert par == p[..|p| - 1];
    forall k | 0 <= k < |par| && par[..k] in t
      ensures t[par[..k]].Dir?
    {
      assert par[..k] == p[..k];
    }
  }

  /** Growing towards `par` is growing towards any `p` below it, and it creates nothing at `p` itself. */
  lemma GrowsWiden(t: Tree, r: Tree, par: seq<string>, p: seq<string>)
    requires p != [] && par == Parent(p)
    requires Grows(t, r, par)
    ensures Grows(t, r, p)
    ensures p in r ==> p in t
  {
    forall q | q in r && q !in t
      ensures |q| <= |p| && q == p[..|q|]
    {
      assert q == par[..|q|];
    }
    forall q | q in t && r[q] != t[q]
      ensures |q| < |p| && q == p[..|q|] && p[..|q| + 1] !in t
    {
      assert q == par[..|q|] && par[..|q| + 1] == p[..|q| + 1];
    }
  }

  /** Growing twice towards the same `p` is growing towards `p`. */
  lemma GrowsTrans(t: Tree, t1: Tree, t2: Tree, p: seq<string>)
    requires Grows(t, t1, p) && Grows(t1, t2, p)
    ensures Grows(t, t2, p)
  {
  }

  /** `makedirs` on a directory that already exists changes nothing. */
  lemma {:induction false} MakeDirsExisting(t: Tree, p: seq<string>, dirSize: nat)
    requires WellFormed(t) && p in t && t[p].Dir?
    ensures AllNames(p) && NoFileAbove(t, p)
    ensures MakeDirs(t, p, dirSize) == t
    decreases |p|
  {
    forall k | 0 <= k < |p| && p[..k] in t
      ensures t[p[..k]].Dir?
    {
      AncestorsAreDirs(t, p, k);
    }
    if p != [] {
      MakeDirsExisting(t, Parent(p), dirSize);
    }
  }

  /** After `MakeDirs` every prefix of `p` is a directory. */
  lemma {:induction false} MakeDirsPrefixes(t: Tree, p: seq<string>, dirSize: nat)
    requires WellFormed(t) && AllNames(p)
    requires NoFileAbove(t, p) && (p in t ==> t[p].Dir?)
    ensures forall k :: 0 <= k <= |p| ==> p[..k] in MakeDirs(t, p, dirSize) && MakeDirs(t, p, dirSize)[p[..k]].Dir?
    decreases |p|
  {
    var r := MakeDirs(t, p, dirSize);
    forall k | 0 <= k <= |p|
      ensures p[..k] in r && r[p[..k]].Dir?
    {
      if k == |p| {
        assert p[..k] == p;
      } else {
        // r[p[..k]] is a directory because p[..k] is an ancestor of p in a well-formed tree
        AncestorsAreDirs(r, p, k);
      }
    }
  }

  /** In a well-formed tree every ancestor of an existing path exists and is a directory. */
  lemma {:induction false} AncestorsAreDirs(t: Tree, p: seq<string>, k: nat)
    requires WellFormed(t) && p in t && k < |p|
    ensures p[..k] in t && t[p[..k]].Dir?
    decreases |p| - k
  {
    var par := Parent(p);
    if k == |p| - 1 {
      assert p[..k] == par;
    } else {
      AncestorsAreDirs(t, par, k);
      assert par[..k] == p[..k];
    }
  }

  /**
   What `makedirs(dirname(p))` followed by `open(p, "w").write(content)` leaves:
   the missing directories above `p` exist and `p` is a file holding `content`.
   */
  function Written(t: Tree, p: seq<string>, content: string, dirSize: nat): (r: Tree)
    requires WellFormed(t) && AllNames(p) && p != []
    requires NoFileAbove(t, p) && !(p in t && t[p].Dir?)
  {
    NoFileAboveParent(t, p);
    var t1 := MakeDirs(t, Parent(p), dirSize);
    if p in t1 then t1[p := File(content)] else AddChild(t1, p, File(content))
  }

  /** Overwriting an existing file keeps the tree well formed. */
  lemma ReplaceFileWellFormed(t: Tree, p: seq<string>, content: string)
    requires WellFormed(t) && p in t && t[p].File?
    ensures WellFormed(t[p := File(content)])
  {
    var r := t[p := File(content)];
    assert ParentsList(r) by {
      forall q | q in r && q != []
        ensures Parent(q) in r && r[Parent(q)].Dir? && q[|q| - 1] in r[Parent(q)].entries
      {
        assert Parent(q) in t && t[Parent(q)].Dir?;
      }
    }
  }

  /**
   What a successful write of `content` to `p` promises about the tree `r` it
   leaves behind `t`: `p` holds exactly `content`, every ancestor of `p` is a
   directory, nothing that existed disappears, every other file is untouched,
   directories only gain entries, and every new node lies on the way to `p`.
   */
  predicate WroteOnly(t: Tree, r: Tree, p: seq<string>, content: string) {
    && p in r && r[p] == File(content)
    && (forall k :: 0 <= k < |p| ==> p[..k] in r && r[p[..k]].Dir?)
    && (forall q :: q in t ==> q in r)
    && (forall q :: q in t && q != p && t[q].File? ==> r[q] == t[q])
    && (forall q :: q in t && t[q].Dir? ==> r[q].Dir? && r[q].size == t[q].size && t[q].entries <= r[q].entries)
    && (forall q {:trigger q in r} :: q in r && q !in t ==> |q| <= |p| && q == p[..|q|])
    && (forall q {:trigger r[q]} :: q in t && q != p && r[q] != t[q] ==> |q| < |p| && q == p[..|q|] && p[..|q| + 1] !in t)
  }

  /** Below a directory nothing above is a regular file. */
  lemma ParentDirMeansNoFileAbove(t: Tree, f: seq<string>)
    requires WellFormed(t) && f != [] && Parent(f) in t && t[Parent(f)].Dir?
    ensures NoFileAbove(t, f)
  {
    forall k | 0 <= k < |f| && f[..k] in t
      ensures t[f[..k]].Dir?
    {
      if k < |f| - 1 {
        AncestorsAreDirs(t, Parent(f), k);
        assert Parent(f)[..k] == f[..k];
      } else {
        assert f[..k] == Parent(f);
      }
    }
  }

  /** A successful write keeps the tree well formed and changes only what `WroteOnly` allows. */
  lemma WrittenEffect(t: Tree, p: seq<string>, content: string, dirSize: nat)
    requires WellFormed(t) && AllNames(p) && p != []
    requires NoFileAbove(t, p) && !(p in t && t[p].Dir?)
    ensures WellFormed(Written(t, p, content, dirSize))
    ensures WroteOnly(t, Written(t, p, content, dirSize), p, content)
  {
    var par := Parent(p);
    NoFileAboveParent(t, p);
    var t1 := MakeDirs(t, par, dirSize);
    MakeDirsPrefixes(t, par, dirSize);
    GrowsWiden(t, t1, par, p);
    if p in t1 {
      StoreExisting(t, t1, p, content);
    } else {
      assert Parent(p)[..|Parent(p)|] == Parent(p);
      AddChildWellFormed(t1, p, File(content));
      StoreFresh(t, t1, p, content);
    }
  }

  lemma StoreExisting(t: Tree, t1: Tree, p: seq<string>, content: string)
    requires WellFormed(t1) && p != [] && Grows(t, t1, p) && p in t1 && p in t && t[p].File?
    requires forall k :: 0 <= k <= |Parent(p)| ==> Parent(p)[..k] in t1 && t1[Parent(p)[..k]].Dir?
    ensures WellFormed(t1[p := File(content)]) && WroteOnly(t, t1[p := File(content)], p, content)
  {
    ReplaceFileWellFormed(t1, p, content);
    WroteAfterMakeDirs(t, t1, t1[p := File(content)], p, content);
  }

  lemma StoreFresh(t: Tree, t1: Tree, p: seq<string>, content: string)
    requires p != [] && Grows(t, t1, p) && p !in t1 && p !in t
    requires Parent(p) in t1 && t1[Parent(p)].Dir?
    requires forall k :: 0 <= k <= |Parent(p)| ==> Parent(p)[..k] in t1 && t1[Parent(p)[..k]].Dir?
    ensures WroteOnly(t, AddChild(t1, p, File(content)), p, content)
  {
    var par := Parent(p);
    assert par[..|par|] == par;
    var r := AddChild(t1, p, File(content));
    forall q | q in t1 && q != p && t1[q].Dir?
      ensures r[q].Dir? && r[q].size == t1[q].size && t1[q].entries <= r[q].entries
    {
      if q == par {
        assert t1[q].entries <= t1[q].entries + [p[|p| - 1]];
      }
    }
    WroteAfterMakeDirs(t, t1, r, p, content);
  }

  /** Storing the file after `MakeDirs` has grown the tree towards `p` satisfies `WroteOnly`. */
  lemma WroteAfterMakeDirs(t: Tree, t1: Tree, r: Tree, p: seq<string>, content: string)
    requires p != [] && Grows(t, t1, p) && (p in t1 ==> p in t)
    requires forall k :: 0 <= k <= |Parent(p)| ==> Parent(p)[..k] in t1 && t1[Parent(p)[..k]].Dir?
    requires r.Keys == t1.Keys + {p} && r[p] == File(content)
    requires forall q :: q in t1 && q != p && t1[q].File? ==> r[q] == t1[q]
    requires forall q :: q in t1 && q != p && t1[q].Dir? ==> r[q].Dir? && r[q].size == t1[q].size && t1[q].entries <= r[q].entries
    requires p in t ==> t[p].File?
    requires forall q :: q in t1 && q != p && r[q] != t1[q] ==> q == Parent(p) && p !in t1
    ensures WroteOnly(t, r, p, content)
  {
    forall k | 0 <= k < |p|
      ensures p[..k] in r && r[p[..k]].Dir?
    {
      assert p[..k] == Parent(p)[..k];
    }
    ChangedOnPath(t, t1, r, p);
  }

  /** A node changed by growing and then storing at `p` is a directory on the way to `p` that gained a new child. */
  lemma ChangedOnPath(t: Tree, t1: Tree, r: Tree, p: seq<string>)
    requires p != [] && Grows(t, t1, p) && (p in t1 ==> p in t)
    requires r.Keys == t1.Keys + {p}
    requires forall q :: q in t1 && q != p && r[q] != t1[q] ==> q == Parent(p) && p !in t1
    ensures forall q {:trigger r[q]} :: q in t && q != p && r[q] != t[q] ==> |q| < |p| && q == p[..|q|] && p[..|q| + 1] !in t
  {
    forall q | q in t && q != p && r[q] != t[q]
      ensures |q| < |p| && q == p[..|q|] && p[..|q| + 1] !in t
    {
      if r[q] != t1[q] {
        assert p[..|q| + 1] == p;
      }
    }
  }
}
