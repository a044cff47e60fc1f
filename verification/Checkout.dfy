/** internal/store/s3.go: what a checkout is, and what each change to the cache keeps. */
module Checkout {
  import opened Basics
  import opened Text

  /** A path below the cache directory, by segments; [] is the cache directory itself. */
  type Path = seq<string>

  datatype Obj = Obj(key: string, etag: string)

  /** The sync state beside the cache: which store it belongs to, and every object's ETag. */
  datatype Index = Index(store: string, objects: map<string, string>)

  /** The cache on disk. */
  datatype Tree = Tree(files: map<Path, string>, dirs: set<Path>)

  const BARE := Tree(map[], {})

  // ---- where an object goes ---------------------------------------------------------------------------------------

  // filepath.Clean of an absolute path, continued by more segments.
  function Clean(stack: Path, segments: seq<string>): Path
    decreases |segments|
  {
    if segments == [] then stack
    else if segments[0] == "" || segments[0] == "." then Clean(stack, segments[1..])
    else if segments[0] == ".." then Clean(if stack == [] then [] else stack[..|stack| - 1], segments[1..])
    else Clean(stack + [segments[0]], segments[1..])
  }

  // resolveDest, relative to the (absolute, clean) cache path; None for a key that escapes it.
  function ResolveDest(base: Path, rel: string): Option<Path> {
    var dest := Clean(base, Split(rel, '/'));
    if base <= dest then Some(dest[|base|..]) else None
  }

  /** Which store a cache syncs from, and where the cache is. */
  datatype Config = Config(endpoint: string, bucket: string, prefix: string, base: Path)
  {
    function Identity(): string {
      endpoint + "|" + bucket + "|" + prefix
    }

    function Boundary(): string {
      if prefix != "" && !EndsWith(prefix, '/') then prefix + "/" else prefix
    }

    function Dest(key: string): Option<Path> {
      ResolveDest(base, if Boundary() <= key then key[|Boundary()|..] else key)
    }
  }

  /** What the sync uses of a configuration: the cache's owner, and where each key goes. */
  datatype Layout = Layout(identity: string, dest: string -> Option<Path>)

  function LayoutOf(c: Config): Layout {
    Layout(c.Identity(), key => c.Dest(key))
  }

  // ---- trees --------------------------------------------------------------------------------------------------------

  predicate Above(d: Path, p: Path) {
    d != [] && d < p
  }

  function DirsAbove(p: Path): set<Path> {
    set i | 0 < i < |p| :: p[..i]
  }

  // Every file and directory has its parents; nothing is both.
  ghost predicate WellFormed(t: Tree) {
    && (forall p | p in t.files :: p != [] && p !in t.dirs)
    && (forall d | d in t.dirs :: d != [])
    && (forall p, d | p in t.files && Above(d, p) :: d in t.dirs)
    && (forall e, d | e in t.dirs && Above(d, e) :: d in t.dirs)
  }

  // The directories are exactly those some file needs.
  ghost predicate Tidy(t: Tree) {
    forall d :: d in t.dirs <==> exists p | p in t.files :: Above(d, p)
  }

  // FGetObject makes the parents and writes the file.
  function WithFile(t: Tree, p: Path, content: string): Tree {
    Tree(t.files[p := content], t.dirs + DirsAbove(p))
  }

  predicate Blocked(t: Tree, p: Path) {
    p == [] || p in t.dirs || exists i | 0 < i < |p| :: p[..i] in t.files
  }

  predicate HasChild(files: map<Path, string>, dirs: set<Path>, d: Path) {
    || (exists p | p in files :: |p| == |d| + 1 && d < p)
    || (exists e | e in dirs :: |e| == |d| + 1 && d < e)
  }

  /** pruneEmptyDirs: delete the parents of p upwards, up to the first that is not empty, or gone. */
  function Pruned(files: map<Path, string>, dirs: set<Path>, p: Path): set<Path>
    decreases |p|
  {
    if |p| <= 1 then dirs
    else
      var d := p[..|p| - 1];
      if d in dirs && !HasChild(files, dirs, d) then Pruned(files, dirs - {d}, d) else dirs
  }

  // ---- what a sync may find -------------------------------------------------------------------------------------------

  type Body = (string, string, string) -> string     // store, key, ETag -> content

  function Keys(listing: seq<Obj>): set<string> {
    set i | 0 <= i < |listing| :: listing[i].key
  }

  predicate DistinctKeys(listing: seq<Obj>) {
    forall i, j | 0 <= i < j < |listing| :: listing[i].key != listing[j].key
  }

  // S3 gives every object an ETag.
  predicate Tagged(listing: seq<Obj>) {
    forall i | 0 <= i < |listing| :: listing[i].etag != ""
  }

  // A Go map lookup: a missing key reads as the empty ETag.
  function TagOf(objects: map<string, string>, key: string): string {
    if key in objects then objects[key] else ""
  }

  function ToIndex(listing: seq<Obj>): map<string, string> {
    if listing == [] then map[] else ToIndex(listing[..|listing| - 1])[listing[|listing| - 1].key := listing[|listing| - 1].etag]
  }

  lemma ToIndexStep(listing: seq<Obj>, i: nat)
    requires i < |listing|
    ensures ToIndex(listing[..i + 1]) == ToIndex(listing[..i])[listing[i].key := listing[i].etag]
  {
    assert listing[..i + 1][..i] == listing[..i];
  }

  // Destinations are distinct, and none lies inside another.
  ghost predicate Apart(c: Layout, keys: set<string>) {
    forall a, b | a in keys && b in keys && a != b && c.dest(a).Some? && c.dest(b).Some? ::
      !(c.dest(a).value <= c.dest(b).value)
  }

  ghost predicate Known(c: Layout, keys: set<string>, p: Path) {
    exists k | k in keys :: c.dest(k) == Some(p)
  }

  /** The tree a full download of the listing would make, and beside it the files of the lost keys only. */
  ghost predicate IsCheckout(c: Layout, body: Body, objects: map<string, string>, lost: set<string>, t: Tree) {
    && (forall p :: p in t.files <==> Known(c, objects.Keys + lost, p))
    && (forall k | k in objects && c.dest(k).Some? && c.dest(k).value in t.files ::
          t.files[c.dest(k).value] == body(c.identity, k, objects[k]))
    && (forall k | k in objects :: c.dest(k).Some?)
  }

  // Every directory belongs to a listed object, or to a dropped one whose own directory is still there to prune from.
  ghost predicate Prunable(c: Layout, kept: set<string>, dropped: set<string>, t: Tree) {
    forall d | d in t.dirs ::
      || (exists p :: Known(c, kept, p) && Above(d, p))
      || (exists p :: Known(c, dropped, p) && Above(d, p) && p[..|p| - 1] in t.dirs)
  }

  lemma AboveDirs(p: Path, d: Path)
    ensures d in DirsAbove(p) <==> Above(d, p)
  {
    if Above(d, p) {
      assert d == p[..|d|];
    }
  }

  lemma WithFileWellFormed(t: Tree, p: Path, content: string)
    requires WellFormed(t) && !Blocked(t, p)
    ensures WellFormed(WithFile(t, p, content))
  {
    var u := WithFile(t, p, content);
    forall d ensures d in u.dirs <==> d in t.dirs || Above(d, p) {
      AboveDirs(p, d);
    }
    forall e, d | e in u.dirs && Above(d, e) ensures d in u.dirs {
      if e !in t.dirs {
        assert Above(d, p);
      }
    }
    forall q | q in u.files ensures q != [] && q !in u.dirs {
      AboveDirs(p, q);
    }
  }

  // ---- pruning ----------------------------------------------------------------------------------------------------------

  lemma {:induction false} PrunedOnlyParents(files: map<Path, string>, dirs: set<Path>, p: Path)
    ensures Pruned(files, dirs, p) <= dirs
    ensures forall d | d in dirs && d !in Pruned(files, dirs, p) :: Above(d, p)
    decreases |p|
  {
    if |p| > 1 {
      var d := p[..|p| - 1];
      if d in dirs && !HasChild(files, dirs, d) {
        PrunedOnlyParents(files, dirs - {d}, d);
      }
    }
  }

  lemma {:induction false} PrunedWellFormed(files: map<Path, string>, dirs: set<Path>, p: Path)
    requires WellFormed(Tree(files, dirs))
    ensures WellFormed(Tree(files, Pruned(files, dirs, p)))
    decreases |p|
  {
    if |p| > 1 {
      var d := p[..|p| - 1];
      if d in dirs && !HasChild(files, dirs, d) {
        DropEmptyDir(files, dirs, d);
        PrunedWellFormed(files, dirs - {d}, d);
      }
    }
  }

  lemma DropEmptyDir(files: map<Path, string>, dirs: set<Path>, d: Path)
    requires WellFormed(Tree(files, dirs)) && d in dirs && !HasChild(files, dirs, d)
    ensures WellFormed(Tree(files, dirs - {d}))
  {
    forall p | p in files && Above(d, p) ensures false {
      ChildOnWay(files, dirs, d, p);
    }
    forall e | e in dirs && Above(d, e) ensures false {
      ChildOnWay(files, dirs, d, e);
    }
  }

  // Whatever lies below a directory, a child of it lies on the way.
  lemma ChildOnWay(files: map<Path, string>, dirs: set<Path>, d: Path, p: Path)
    requires WellFormed(Tree(files, dirs)) && (p in files || p in dirs) && Above(d, p)
    ensures HasChild(files, dirs, d)
  {
    var child := p[..|d| + 1];
    assert d < child;
    if |p| > |d| + 1 {
      assert Above(child, p);
    } else {
      assert child == p;
    }
  }

  lemma PrefixOfParent(x: Path, p: Path)
    requires p != []
    ensures x <= p ==> x == p || x <= p[..|p| - 1]
  {
    if x <= p && x != p {
      assert x == p[..|x|] == p[..|p| - 1][..|x|];
    }
  }

  /** Pruning from a directory that exists stops for a reason: what it leaves above p holds something else. */
  lemma {:induction false} PrunedHoldsOthers(files: map<Path, string>, dirs: set<Path>, p: Path, d: Path)
    requires WellFormed(Tree(files, dirs)) && p !in files && p !in dirs
    requires |p| > 1 ==> p[..|p| - 1] in dirs
    requires Above(d, p) && d in Pruned(files, dirs, p)
    ensures exists x :: (x in files || x in Pruned(files, dirs, p)) && d < x && !(x <= p)
    decreases |p|
  {
    var parent := p[..|p| - 1];
    if !HasChild(files, dirs, parent) {
      DropEmptyDir(files, dirs, parent);
      PrunedOnlyParents(files, dirs - {parent}, parent);
      assert d != parent && Above(d, parent);
      if |parent| > 1 {
        assert Above(parent[..|parent| - 1], parent);
      }
      PrunedHoldsOthers(files, dirs - {parent}, parent, d);
      var x :| (x in files || x in Pruned(files, dirs, p)) && d < x && !(x <= parent);
      PrefixOfParent(x, p);
    } else {
      var x :| (x in files || x in dirs) && |x| == |parent| + 1 && parent < x;
      assert d <= parent;
      assert x <= p ==> x == p;
    }
  }

  // ---- downloading ----------------------------------------------------------------------------------------------------------

  lemma {:induction false} ToIndexHolds(listing: seq<Obj>)
    requires DistinctKeys(listing)
    ensures forall i | 0 <= i < |listing| :: listing[i].key in ToIndex(listing) && ToIndex(listing)[listing[i].key] == listing[i].etag
    ensures forall k | k in ToIndex(listing) :: exists i | 0 <= i < |listing| :: listing[i].key == k
  {
    if listing != [] {
      ToIndexHolds(listing[..|listing| - 1]);
    }
  }

  lemma ToIndexKeys(listing: seq<Obj>)
    requires DistinctKeys(listing)
    ensures ToIndex(listing).Keys == Keys(listing)
  {
    ToIndexHolds(listing);
    forall k ensures k in ToIndex(listing) <==> k in Keys(listing) {
    }
  }

  // Two known keys with comparable destinations are one key.
  lemma OneKey(c: Layout, keys: set<string>, a: string, b: string)
    requires Apart(c, keys) && a in keys && b in keys && c.dest(a).Some? && c.dest(b).Some?
    ensures c.dest(a).value <= c.dest(b).value ==> a == b
  {
  }

  lemma ParentsWellFormed(t: Tree, p: Path)
    requires WellFormed(t) && !Blocked(t, p)
    ensures WellFormed(Tree(t.files, t.dirs + DirsAbove(p)))
  {
    WithFileWellFormed(t, p, "");
    var u := Tree(t.files, t.dirs + DirsAbove(p));
    assert WithFile(t, p, "").dirs == u.dirs;
    forall q | q in u.files ensures q != [] && q !in u.dirs {
      AboveDirs(p, q);
    }
  }

  lemma FetchPrunable(c: Layout, kept: set<string>, dropped: set<string>, t: Tree, k: string, files: map<Path, string>)
    requires k in kept && c.dest(k).Some?
    ensures Prunable(c, kept, dropped, t) <==> Prunable(c, kept, dropped, Tree(files, t.dirs + DirsAbove(c.dest(k).value)))
  {
    var p := c.dest(k).value;
    var u := Tree(files, t.dirs + DirsAbove(p));
    assert Known(c, kept, p);
    forall d | d in u.dirs ensures d in t.dirs || Covered(c, kept, dropped, u.dirs, d) {
      AboveDirs(p, d);
    }
    forall d | d in t.dirs ensures Covered(c, kept, dropped, t.dirs, d) <==> Covered(c, kept, dropped, u.dirs, d) {
      CoverGrows(c, kept, dropped, t.dirs, p, d);
    }
    AllCovered(c, kept, dropped, t);
    AllCovered(c, kept, dropped, u);
  }

  // New directories above a kept object change no other directory's cover.
  lemma CoverGrows(c: Layout, kept: set<string>, dropped: set<string>, dirs: set<Path>, p: Path, d: Path)
    requires Known(c, kept, p)
    ensures Covered(c, kept, dropped, dirs, d) <==> Covered(c, kept, dropped, dirs + DirsAbove(p), d)
  {
    if Covered(c, kept, dropped, dirs + DirsAbove(p), d) && !(exists q :: Known(c, kept, q) && Above(d, q)) {
      var q :| Known(c, dropped, q) && Above(d, q) && q[..|q| - 1] in dirs + DirsAbove(p);
      AboveDirs(p, q[..|q| - 1]);
      ParentBelow(d, q);
    }
  }

  // ---- dropping what left the store ---------------------------------------------------------------------------------------

  lemma PrunedNeedsParent(files: map<Path, string>, dirs: set<Path>, p: Path)
    ensures Pruned(files, dirs, p) == dirs || (|p| > 1 && p[..|p| - 1] in dirs)
  {
  }

  lemma ParentBelow(d: Path, p: Path)
    requires Above(d, p)
    ensures d <= p[..|p| - 1] && p[..|p| - 1] != []
  {
    assert d == p[..|d|] == p[..|p| - 1][..|d|];
  }

  ghost predicate Covered(c: Layout, kept: set<string>, dropped: set<string>, dirs: set<Path>, d: Path) {
    || (exists p :: Known(c, kept, p) && Above(d, p))
    || (exists p :: Known(c, dropped, p) && Above(d, p) && p[..|p| - 1] in dirs)
  }

  // A directory that is not above p is never pruned with p.
  lemma ParentOff(after: set<Path>, dirs: set<Path>, p: Path, e: Path, x: Path)
    requires e in dirs && x <= e && !(x <= p)
    requires forall d | d in dirs && d !in after :: Above(d, p)
    ensures e in after
  {
  }

  // The tree once k's file is gone and its parents are pruned.
  function Dropped(t: Tree, p: Path): Tree {
    Tree(t.files - {p}, Pruned(t.files - {p}, t.dirs, p))
  }

  lemma FileGone(t: Tree, p: Path)
    requires WellFormed(t)
    ensures WellFormed(Tree(t.files - {p}, t.dirs)) && WellFormed(Dropped(t, p))
    ensures Dropped(t, p).dirs <= t.dirs && forall d | d in t.dirs && d !in Dropped(t, p).dirs :: Above(d, p)
  {
    PrunedWellFormed(t.files - {p}, t.dirs, p);
    PrunedOnlyParents(t.files - {p}, t.dirs, p);
  }

  // A file off the pruned way covers every directory above it.
  lemma CoverByFile(c: Layout, kept: set<string>, dropped: set<string>, t: Tree, k: string, d: Path, x: Path)
    requires WellFormed(t) && k in dropped && c.dest(k).Some? && Known(c, kept + dropped, x)
    requires x in t.files && !(x <= c.dest(k).value) && d != [] && d < x
    ensures Covered(c, kept, dropped - {k}, Dropped(t, c.dest(k).value).dirs, d)
  {
    var after := Dropped(t, c.dest(k).value);
    FileGone(t, c.dest(k).value);
    var kx :| kx in kept + dropped && c.dest(kx) == Some(x);
    if kx in kept {
      assert Known(c, kept, x);
    } else {
      assert Known(c, dropped - {k}, x);
      ParentBelow(d, x);
      assert x in after.files && Above(x[..|x| - 1], x);
    }
  }

  // So does a directory off it.
  lemma CoverByDir(c: Layout, kept: set<string>, dropped: set<string>, t: Tree, k: string, d: Path, x: Path)
    requires WellFormed(t) && k in dropped && c.dest(k).Some? && Covered(c, kept, dropped, t.dirs, x)
    requires !(x <= c.dest(k).value) && d != [] && d < x
    ensures Covered(c, kept, dropped - {k}, Dropped(t, c.dest(k).value).dirs, d)
  {
    var p := c.dest(k).value;
    FileGone(t, p);
    if q :| Known(c, kept, q) && Above(x, q) {
      assert Above(d, q);
    } else {
      var q :| Known(c, dropped, q) && Above(x, q) && q[..|q| - 1] in t.dirs;
      var kq :| kq in dropped && c.dest(kq) == Some(q);
      ParentBelow(x, q);
      assert kq != k;
      assert Known(c, dropped - {k}, q) && Above(d, q);
      ParentOff(Dropped(t, p).dirs, t.dirs, p, q[..|q| - 1], x);
    }
  }

  // What pruning with k leaves above k's destination is covered by something else.
  lemma CoverAbove(c: Layout, kept: set<string>, dropped: set<string>, t: Tree, k: string, d: Path)
    requires WellFormed(t) && Prunable(c, kept, dropped, t) && k in dropped && c.dest(k).Some?
    requires forall q | q in t.files :: Known(c, kept + dropped, q)
    requires var p := c.dest(k).value; p !in t.dirs && Above(d, p) && p[..|p| - 1] in t.dirs && d in Dropped(t, p).dirs
    ensures Covered(c, kept, dropped - {k}, Dropped(t, c.dest(k).value).dirs, d)
  {
    var p := c.dest(k).value;
    var after := Dropped(t, p);
    FileGone(t, p);
    PrunedHoldsOthers(t.files - {p}, t.dirs, p, d);
    var x :| (x in t.files - {p} || x in after.dirs) && d < x && !(x <= p);
    if x in t.files - {p} {
      CoverByFile(c, kept, dropped, t, k, d, x);
    } else {
      CoverByDir(c, kept, dropped, t, k, d, x);
    }
  }

  // A directory that is not above k's destination, or whose way is not pruned, keeps its cover.
  lemma CoverAside(c: Layout, kept: set<string>, dropped: set<string>, t: Tree, k: string, d: Path)
    requires WellFormed(t) && k in dropped && c.dest(k).Some? && Covered(c, kept, dropped, t.dirs, d)
    requires var p := c.dest(k).value; !Above(d, p) || p[..|p| - 1] !in t.dirs
    ensures Covered(c, kept, dropped - {k}, Dropped(t, c.dest(k).value).dirs, d)
  {
    var p := c.dest(k).value;
    FileGone(t, p);
    PrunedNeedsParent(t.files - {p}, t.dirs, p);
    if !(exists q :: Known(c, kept, q) && Above(d, q)) {
      var q :| Known(c, dropped, q) && Above(d, q) && q[..|q| - 1] in t.dirs;
      var kq :| kq in dropped && c.dest(kq) == Some(q);
      assert kq != k;
      assert Known(c, dropped - {k}, q);
      ParentBelow(d, q);
      assert q[..|q| - 1] in Dropped(t, p).dirs;
    }
  }

  lemma DropCovers(c: Layout, kept: set<string>, dropped: set<string>, t: Tree, k: string)
    requires WellFormed(t) && k in dropped && c.dest(k).Some? && c.dest(k).value !in t.dirs
    requires forall q | q in t.files :: Known(c, kept + dropped, q)
    requires Prunable(c, kept, dropped, t)
    ensures Prunable(c, kept, dropped - {k}, Dropped(t, c.dest(k).value))
  {
    var p := c.dest(k).value;
    var after := Dropped(t, p);
    FileGone(t, p);
    PrunedNeedsParent(t.files - {p}, t.dirs, p);
    AllCovered(c, kept, dropped, t);
    forall d | d in after.dirs ensures Covered(c, kept, dropped - {k}, after.dirs, d) {
      if Above(d, p) && p[..|p| - 1] in t.dirs {
        CoverAbove(c, kept, dropped, t, k, d);
      } else {
        CoverAside(c, kept, dropped, t, k, d);
      }
    }
    AllCovered(c, kept, dropped - {k}, after);
  }

  /** Dropping one object keeps every directory accounted for, and accounts for none that was not. */
  lemma DropPrunable(c: Layout, kept: set<string>, dropped: set<string>, t: Tree, k: string)
    requires WellFormed(t) && k in dropped && c.dest(k).Some? && c.dest(k).value !in t.dirs
    requires forall q | q in t.files :: Known(c, kept + dropped, q)
    ensures Prunable(c, kept, dropped, t) <==> Prunable(c, kept, dropped - {k}, Dropped(t, c.dest(k).value))
  {
    if Prunable(c, kept, dropped, t) {
      DropCovers(c, kept, dropped, t, k);
    } else if Prunable(c, kept, dropped - {k}, Dropped(t, c.dest(k).value)) {
      forall d | d in t.dirs ensures Covered(c, kept, dropped, t.dirs, d) {
        CoverBefore(c, kept, dropped, t, k, d);
      }
      AllCovered(c, kept, dropped, t);
    }
  }

  // Whatever was not accounted for before is not accounted for after.
  lemma CoverBefore(c: Layout, kept: set<string>, dropped: set<string>, t: Tree, k: string, d: Path)
    requires WellFormed(t) && k in dropped && c.dest(k).Some? && d in t.dirs
    requires Prunable(c, kept, dropped - {k}, Dropped(t, c.dest(k).value))
    ensures Covered(c, kept, dropped, t.dirs, d)
  {
    var p := c.dest(k).value;
    var after := Dropped(t, p);
    FileGone(t, p);
    PrunedNeedsParent(t.files - {p}, t.dirs, p);
    if d in after.dirs {
      assert Covered(c, kept, dropped - {k}, after.dirs, d);
      if !(exists q :: Known(c, kept, q) && Above(d, q)) {
        var q :| Known(c, dropped - {k}, q) && Above(d, q) && q[..|q| - 1] in after.dirs;
        assert Known(c, dropped, q);
      }
    } else {
      assert Known(c, dropped, p);
    }
  }

  // ---- steps of a sync ---------------------------------------------------------------------------------------------------------

  // Away from the listed objects, the files are the same.
  ghost predicate Elsewhere(c: Layout, listing: seq<Obj>, before: Tree, after: Tree) {
    forall p | !Known(c, Keys(listing), p) ::
      (p in after.files <==> p in before.files) && (p in before.files ==> after.files[p] == before.files[p])
  }

  // ---- what dropping leaves ------------------------------------------------------------------------------------------------

  lemma DropKnown(c: Layout, keys: set<string>, todo: set<string>, k: string, q: Path)
    requires Known(c, keys + todo, q) && c.dest(k) != Some(q)
    ensures Known(c, keys + (todo - {k}), q)
  {
    var kq :| kq in keys + todo && c.dest(kq) == Some(q);
    assert kq in keys + (todo - {k});
  }

  // Its directories hold it, so they are accounted for as before.
  lemma StuckPrunable(c: Layout, kept: set<string>, todo: set<string>, t: Tree, k: string)
    requires WellFormed(t) && k in todo && c.dest(k).Some? && c.dest(k).value in t.files
    ensures Prunable(c, kept, todo, t) <==> Prunable(c, kept + {k}, todo - {k}, t)
  {
    var p := c.dest(k).value;
    assert Known(c, kept + {k}, p);
    forall d | d in t.dirs ensures Covered(c, kept, todo, t.dirs, d) <==> Covered(c, kept + {k}, todo - {k}, t.dirs, d) {
      StuckCover(c, kept, todo, t, k, d);
    }
    AllCovered(c, kept, todo, t);
    AllCovered(c, kept + {k}, todo - {k}, t);
  }

  lemma StuckCover(c: Layout, kept: set<string>, todo: set<string>, t: Tree, k: string, d: Path)
    requires WellFormed(t) && k in todo && c.dest(k).Some? && c.dest(k).value in t.files
    ensures Covered(c, kept, todo, t.dirs, d) <==> Covered(c, kept + {k}, todo - {k}, t.dirs, d)
  {
    var p := c.dest(k).value;
    if Above(d, p) {
      assert Known(c, kept + {k}, p) && Known(c, todo, p);
      ParentBelow(d, p);
      assert Above(p[..|p| - 1], p);
    } else {
      if q :| Known(c, kept, q) && Above(d, q) {
        KnownGrows(c, kept, kept + {k}, q);
      }
      if q :| Known(c, kept + {k}, q) && Above(d, q) {
        var kq :| kq in kept + {k} && c.dest(kq) == Some(q);
        assert Known(c, kept, q);
      }
      if q :| Known(c, todo, q) && Above(d, q) && q[..|q| - 1] in t.dirs {
        var kq :| kq in todo && c.dest(kq) == Some(q);
        assert Known(c, todo - {k}, q);
      }
      if q :| Known(c, todo - {k}, q) && Above(d, q) && q[..|q| - 1] in t.dirs {
        KnownGrows(c, todo - {k}, todo, q);
      }
    }
  }

  // Nothing above a file is empty.
  lemma PrunedAboveFile(files: map<Path, string>, dirs: set<Path>, p: Path)
    requires p in files
    ensures Pruned(files, dirs, p) == dirs
  {
    if |p| > 1 {
      assert p[..|p| - 1] < p;
      assert HasChild(files, dirs, p[..|p| - 1]);
    }
  }

  // A known key that is not listed goes where no listed one goes.
  lemma NotListed(c: Layout, scope: set<string>, listing: seq<Obj>, k: string)
    requires Apart(c, scope) && Keys(listing) <= scope && k in scope && k !in Keys(listing) && c.dest(k).Some?
    ensures !Known(c, Keys(listing), c.dest(k).value)
  {
    forall kq | kq in Keys(listing) && c.dest(kq).Some? ensures c.dest(kq) != c.dest(k) {
      OneKey(c, scope, k, kq);
    }
  }

  // ---- the ends of a sync --------------------------------------------------------------------------------------------------

  // Every one of these keys has its file there.
  ghost predicate There(c: Layout, keys: set<string>, t: Tree) {
    forall k | k in keys :: c.dest(k).Some? && c.dest(k).value in t.files
  }

  lemma TidyWhenCovered(c: Layout, keys: set<string>, t: Tree)
    requires WellFormed(t) && forall p :: p in t.files <==> Known(c, keys, p)
    ensures Prunable(c, keys, {}, t) <==> Tidy(t)
  {
    AllCovered(c, keys, {}, t);
    forall d | d in t.dirs ensures Covered(c, keys, {}, t.dirs, d) <==> exists p | p in t.files :: Above(d, p) {
    }
  }

  /** A checkout without lost files is one exactly when no file was lost. */
  lemma PlainCheckout(c: Layout, body: Body, objects: map<string, string>, lost: set<string>, t: Tree)
    requires IsCheckout(c, body, objects, lost, t) && There(c, lost, t) && lost !! objects.Keys && Apart(c, objects.Keys + lost)
    ensures IsCheckout(c, body, objects, {}, t) <==> lost == {}
  {
    assert objects.Keys + {} == objects.Keys;
    if lost != {} {
      var k :| k in lost;
      forall kq | kq in objects.Keys ensures c.dest(kq) != c.dest(k) {
        OneKey(c, objects.Keys + lost, k, kq);
      }
      assert !Known(c, objects.Keys + {}, c.dest(k).value);
    } else {
      assert objects.Keys + lost == objects.Keys;
    }
  }

  // A directory above a file is covered by that file's object.
  lemma FileCovers(c: Layout, keys: set<string>, kept: set<string>, t: Tree, d: Path, p: Path)
    requires WellFormed(t) && p in t.files && Above(d, p) && Known(c, keys, p)
    ensures Covered(c, kept, keys - kept, t.dirs, d)
  {
    var k :| k in keys && c.dest(k) == Some(p);
    ParentBelow(d, p);
    assert Above(p[..|p| - 1], p);
    if k in kept {
      assert Known(c, kept, p);
    } else {
      assert Known(c, keys - kept, p);
    }
  }

  lemma AllCovered(c: Layout, kept: set<string>, dropped: set<string>, t: Tree)
    ensures Prunable(c, kept, dropped, t) <==> forall d | d in t.dirs :: Covered(c, kept, dropped, t.dirs, d)
  {
  }

  lemma KnownGrows(c: Layout, few: set<string>, many: set<string>, p: Path)
    requires few <= many && Known(c, few, p)
    ensures Known(c, many, p)
  {
  }

  /** A checkout with no lost file and no spare directory is unique: it is what a full download into an empty cache
      makes. */
  lemma CheckoutIsUnique(c: Layout, body: Body, objects: map<string, string>, t: Tree, u: Tree)
    requires IsCheckout(c, body, objects, {}, t) && IsCheckout(c, body, objects, {}, u) && Tidy(t) && Tidy(u)
    ensures t == u
  {
    assert objects.Keys + {} == objects.Keys;
    assert t.files.Keys == u.files.Keys by {
      forall p ensures p in t.files <==> p in u.files {
      }
    }
    forall p | p in t.files ensures t.files[p] == u.files[p] {
      var k :| k in objects.Keys && c.dest(k) == Some(p);
    }
    assert t.files == u.files;
    assert t.dirs == u.dirs;
  }

  lemma ApartLess(c: Layout, few: set<string>, many: set<string>)
    requires Apart(c, many) && few <= many
    ensures Apart(c, few)
  {
  }

  // Every key has a place below the cache.
  predicate Placed(c: Layout, listing: seq<Obj>) {
    forall i | 0 <= i < |listing| :: c.dest(listing[i].key).Some? && c.dest(listing[i].key).value != []
  }

  // ---- telling stores apart ---------------------------------------------------------------------------------------------------

  /** The identity written beside the cache names one store, as no endpoint and no bucket holds a '|'. */
  lemma IdentityNamesStore(c: Config, d: Config)
    requires '|' !in c.endpoint && '|' !in c.bucket && '|' !in d.endpoint && '|' !in d.bucket
    ensures c.Identity() == d.Identity() <==> c.endpoint == d.endpoint && c.bucket == d.bucket && c.prefix == d.prefix
    ensures c.Identity() == d.Identity() && c.base == d.base ==> LayoutOf(c) == LayoutOf(d)
  {
    if c.Identity() == d.Identity() {
      assert forall e: Config :: e.Identity() == e.endpoint + ['|'] + (e.bucket + ['|'] + e.prefix);
      CutAtMark(c.endpoint, c.bucket + ['|'] + c.prefix, d.endpoint, d.bucket + ['|'] + d.prefix, '|');
      CutAtMark(c.bucket, c.prefix, d.bucket, d.prefix, '|');
    }
  }

  // ---- where keys go -----------------------------------------------------------------------------------------------------

  predicate Plain(segments: seq<string>) {
    forall i | 0 <= i < |segments| :: segments[i] != "" && segments[i] != "." && segments[i] != ".."
  }

  lemma {:induction false} CleanPlain(stack: Path, segments: seq<string>)
    requires Plain(segments)
    ensures Clean(stack, segments) == stack + segments
    decreases |segments|
  {
    if segments != [] {
      CleanPlain(stack + [segments[0]], segments[1..]);
      assert stack + [segments[0]] + segments[1..] == stack + segments;
    }
  }

  /** A listed key whose segments are plain goes to exactly those segments, so different keys go to different places;
      one lies inside another only where its segments continue the other's. */
  lemma PlainKeys(c: Config, a: string, b: string)
    requires c.Boundary() <= a && c.Boundary() <= b
    requires Plain(Split(a[|c.Boundary()|..], '/')) && Plain(Split(b[|c.Boundary()|..], '/'))
    ensures c.Dest(a) == Some(Split(a[|c.Boundary()|..], '/')) && c.Dest(a).value != []
    ensures c.Dest(a) == c.Dest(b) <==> a == b
  {
    var n := |c.Boundary()|;
    CleanPlain(c.base, Split(a[n..], '/'));
    CleanPlain(c.base, Split(b[n..], '/'));
    JoinSplit(a[n..], '/');
    JoinSplit(b[n..], '/');
    assert a == c.Boundary() + a[n..] && b == c.Boundary() + b[n..];
  }
}
