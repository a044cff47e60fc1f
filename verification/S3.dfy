/** internal/store/s3.go: the incremental sync and its sidecar index. */
module S3 {
  import opened Basics
  import opened Fileset
  import opened Ordering
  import opened Checkout
  import opened Syncing
  import opened Text

  // ---- revisions -----------------------------------------------------------------------------------------------------------

  function LineOf(o: Obj): string {
    o.key + "\t" + o.etag + "\n"
  }

  function LinesOf(objects: seq<Obj>): seq<string> {
    seq(|objects|, i requires 0 <= i < |objects| => LineOf(objects[i]))
  }

  // revisionOf: the hash of the sorted lines
  function Revision(objects: seq<Obj>): Digest {
    Sha256(Concat(Sort(LinesOf(objects))))
  }

  function WithoutAt(b: seq<Obj>, i: nat): seq<Obj>
    requires i < |b|
  {
    b[..i] + b[i + 1..]
  }

  lemma WithoutAtMembers(b: seq<Obj>, i: nat)
    requires i < |b|
    ensures multiset(WithoutAt(b, i)) == multiset(b) - multiset{b[i]}
    ensures multiset(b) == multiset(WithoutAt(b, i)) + multiset{b[i]}
    ensures forall o :: o in b <==> o == b[i] || o in WithoutAt(b, i)
  {
    assert b == b[..i] + [b[i]] + b[i + 1..];
  }

  lemma WithoutAtDistinct(b: seq<Obj>, i: nat)
    requires i < |b| && DistinctKeys(b)
    ensures DistinctKeys(WithoutAt(b, i)) && b[i] !in WithoutAt(b, i)
  {
    var rest := WithoutAt(b, i);
    forall j | 0 <= j < |rest| ensures rest[j] == b[if j < i then j else j + 1] {
    }
  }

  lemma MultisetCut(lines: seq<string>, i: nat)
    requires i < |lines|
    ensures multiset(lines) == multiset(lines[..i] + lines[i + 1..]) + multiset{lines[i]}
  {
    assert lines == lines[..i] + [lines[i]] + lines[i + 1..];
  }

  lemma LinesWithoutAt(b: seq<Obj>, i: nat)
    requires i < |b|
    ensures multiset(LinesOf(b)) == multiset(LinesOf(WithoutAt(b, i))) + multiset{LineOf(b[i])}
  {
    var lines := LinesOf(b);
    assert LinesOf(WithoutAt(b, i)) == lines[..i] + lines[i + 1..];
    MultisetCut(lines, i);
  }

  lemma {:induction false} LinesPermuted(a: seq<Obj>, b: seq<Obj>)
    requires multiset(a) == multiset(b)
    ensures multiset(LinesOf(a)) == multiset(LinesOf(b))
    decreases |a|
  {
    if a == [] {
      assert |b| == |multiset(b)| == 0;
    } else {
      assert a[0] in multiset(b);
      var i :| 0 <= i < |b| && b[i] == a[0];
      assert WithoutAt(a, 0) == a[1..];
      WithoutAtMembers(a, 0);
      WithoutAtMembers(b, i);
      LinesPermuted(a[1..], WithoutAt(b, i));
      LinesWithoutAt(a, 0);
      LinesWithoutAt(b, i);
    }
  }

  /** The revision does not depend on the order of the objects. */
  lemma RevisionIgnoresOrder(a: seq<Obj>, b: seq<Obj>)
    requires multiset(a) == multiset(b)
    ensures Revision(a) == Revision(b)
  {
    LinesPermuted(a, b);
    SortPermutation(LinesOf(a), LinesOf(b));
  }

  lemma {:induction false} SameObjects(a: seq<Obj>, b: seq<Obj>)
    requires DistinctKeys(a) && DistinctKeys(b) && forall o :: o in a <==> o in b
    ensures multiset(a) == multiset(b)
    decreases |a|
  {
    if a == [] {
      forall o ensures o !in multiset(b) {
        assert o in a <==> o in b;
      }
      assert multiset(b) == multiset{};
    } else {
      assert a[0] in b;
      var i :| 0 <= i < |b| && b[i] == a[0];
      assert WithoutAt(a, 0) == a[1..];
      WithoutAtMembers(a, 0);
      WithoutAtDistinct(a, 0);
      WithoutAtMembers(b, i);
      WithoutAtDistinct(b, i);
      SameObjects(a[1..], WithoutAt(b, i));
    }
  }

  lemma IndexMembers(listing: seq<Obj>, o: Obj)
    requires DistinctKeys(listing)
    ensures o in listing <==> o.key in ToIndex(listing) && ToIndex(listing)[o.key] == o.etag
  {
    ToIndexHolds(listing);
    if o.key in ToIndex(listing) && ToIndex(listing)[o.key] == o.etag {
      var i :| 0 <= i < |listing| && listing[i].key == o.key;
      assert listing[i] == o;
    }
  }

  /** Two listings with the same index have the same revision. */
  lemma IndexFixesRevision(a: seq<Obj>, b: seq<Obj>)
    requires DistinctKeys(a) && DistinctKeys(b) && ToIndex(a) == ToIndex(b)
    ensures Revision(a) == Revision(b)
  {
    forall o ensures o in a <==> o in b {
      IndexMembers(a, o);
      IndexMembers(b, o);
    }
    SameObjects(a, b);
    RevisionIgnoresOrder(a, b);
  }

  // ---- what a revision tells -------------------------------------------------------------------------------------------------

  // An object whose key and ETag hold neither tab nor newline.
  predicate Plainly(o: Obj) {
    Lacks(o.key, '\t') && Lacks(o.key, '\n') && Lacks(o.etag, '\t') && Lacks(o.etag, '\n')
  }

  lemma LineEnds(o: Obj)
    requires Plainly(o)
    ensures LineOf(o) == (o.key + ['\t'] + o.etag) + ['\n'] + "" && Lacks(o.key + ['\t'] + o.etag, '\n')
  {
  }

  // A line names its object.
  lemma LineNames(o: Obj, p: Obj)
    requires Plainly(o) && Plainly(p) && LineOf(o) == LineOf(p)
    ensures o == p
  {
    LineEnds(o);
    LineEnds(p);
    CutAtMark(o.key + ['\t'] + o.etag, "", p.key + ['\t'] + p.etag, "", '\n');
    CutAtMark(o.key, o.etag, p.key, p.etag, '\t');
  }

  predicate IsLine(line: string) {
    line != "" && line[|line| - 1] == '\n' && Lacks(line[..|line| - 1], '\n')
  }

  lemma SomeText(x: seq<string>)
    requires forall l | l in x :: IsLine(l)
    ensures Concat(x) == "" <==> x == []
  {
    if x != [] {
      assert x[0] in x;
    }
  }

  // Joined lines are read one way only.
  lemma {:induction false} LinesBack(x: seq<string>, y: seq<string>)
    requires (forall l | l in x :: IsLine(l)) && (forall l | l in y :: IsLine(l)) && Concat(x) == Concat(y)
    ensures x == y
    decreases |x|
  {
    SomeText(x);
    SomeText(y);
    if x != [] {
      assert x[0] in x && y[0] in y;
      var a, b := x[0][..|x[0]| - 1], y[0][..|y[0]| - 1];
      assert x[0] == a + ['\n'] && y[0] == b + ['\n'];
      assert Concat(x) == a + ['\n'] + Concat(x[1..]) && Concat(y) == b + ['\n'] + Concat(y[1..]);
      CutAtMark(a, Concat(x[1..]), b, Concat(y[1..]), '\n');
      LinesBack(x[1..], y[1..]);
      assert x == [x[0]] + x[1..] && y == [y[0]] + y[1..];
    }
  }

  // The object behind one of the other listing's lines.
  lemma LineFound(a: seq<Obj>, b: seq<Obj>) returns (i: nat)
    requires (forall o | o in a :: Plainly(o)) && (forall o | o in b :: Plainly(o))
    requires a != [] && multiset(LinesOf(a)) == multiset(LinesOf(b))
    ensures i < |b| && b[i] == a[0]
  {
    assert LinesOf(a)[0] in multiset(LinesOf(a));
    i :| 0 <= i < |LinesOf(b)| && LinesOf(b)[i] == LinesOf(a)[0];
    assert a[0] in a && b[i] in b;
    LineNames(a[0], b[i]);
  }

  lemma OneLess(x: multiset<string>, y: multiset<string>, line: string)
    requires x + multiset{line} == y + multiset{line}
    ensures x == y
  {
    assert x == x + multiset{line} - multiset{line} && y == y + multiset{line} - multiset{line};
  }

  lemma {:induction false} ObjectsBack(a: seq<Obj>, b: seq<Obj>)
    requires (forall o | o in a :: Plainly(o)) && (forall o | o in b :: Plainly(o))
    requires multiset(LinesOf(a)) == multiset(LinesOf(b))
    ensures multiset(a) == multiset(b)
    decreases |a|
  {
    if a == [] {
      assert |multiset(LinesOf(b))| == |LinesOf(b)| == |b|;
    } else {
      var i := LineFound(a, b);
      assert WithoutAt(a, 0) == a[1..];
      WithoutAtMembers(a, 0);
      WithoutAtMembers(b, i);
      LinesWithoutAt(a, 0);
      LinesWithoutAt(b, i);
      OneLess(multiset(LinesOf(a[1..])), multiset(LinesOf(WithoutAt(b, i))), LineOf(a[0]));
      ObjectsBack(a[1..], WithoutAt(b, i));
    }
  }

  lemma SortedLines(a: seq<Obj>)
    requires forall o | o in a :: Plainly(o)
    ensures multiset(Sort(LinesOf(a))) == multiset(LinesOf(a)) && forall l | l in Sort(LinesOf(a)) :: IsLine(l)
  {
    SortSorts(LinesOf(a));
    forall l | l in Sort(LinesOf(a)) ensures IsLine(l) {
      assert l in multiset(Sort(LinesOf(a)));
      var i :| 0 <= i < |a| && LinesOf(a)[i] == l;
      LineEnds(a[i]);
      assert l[..|l| - 1] == a[i].key + ['\t'] + a[i].etag;
    }
  }

  /** The revision tells listings apart: two have the same exactly when they hold the same objects with the same ETags, as
      no key and no ETag holds a tab or a newline. */
  lemma RevisionTells(a: seq<Obj>, b: seq<Obj>)
    requires forall o | o in a || o in b :: Lacks(o.key, '\t') && Lacks(o.key, '\n') && Lacks(o.etag, '\t') && Lacks(o.etag, '\n')
    ensures Revision(a) == Revision(b) <==> multiset(a) == multiset(b)
  {
    if multiset(a) == multiset(b) {
      RevisionIgnoresOrder(a, b);
    }
    if Revision(a) == Revision(b) {
      assert (forall o | o in a :: Plainly(o)) && (forall o | o in b :: Plainly(o));
      SortedLines(a);
      SortedLines(b);
      LinesBack(Sort(LinesOf(a)), Sort(LinesOf(b)));
      ObjectsBack(a, b);
    }
  }

  /** So two listings have one revision exactly when they have one index. */
  lemma RevisionNamesIndex(a: seq<Obj>, b: seq<Obj>)
    requires DistinctKeys(a) && DistinctKeys(b)
    requires forall o | o in a || o in b :: Lacks(o.key, '\t') && Lacks(o.key, '\n') && Lacks(o.etag, '\t') && Lacks(o.etag, '\n')
    ensures Revision(a) == Revision(b) <==> ToIndex(a) == ToIndex(b)
  {
    RevisionTells(a, b);
    if ToIndex(a) == ToIndex(b) {
      IndexFixesRevision(a, b);
    }
    if multiset(a) == multiset(b) {
      forall o ensures o in a <==> o in b {
        assert o in multiset(a) <==> o in multiset(b);
      }
      SameIndex(a, b);
    }
  }

  lemma SameIndex(a: seq<Obj>, b: seq<Obj>)
    requires DistinctKeys(a) && DistinctKeys(b) && forall o :: o in a <==> o in b
    ensures ToIndex(a) == ToIndex(b)
  {
    forall k | k in ToIndex(a) ensures k in ToIndex(b) && ToIndex(b)[k] == ToIndex(a)[k] {
      IndexMembers(a, Obj(k, ToIndex(a)[k]));
      IndexMembers(b, Obj(k, ToIndex(a)[k]));
    }
    forall k | k in ToIndex(b) ensures k in ToIndex(a) {
      IndexMembers(b, Obj(k, ToIndex(b)[k]));
      IndexMembers(a, Obj(k, ToIndex(b)[k]));
    }
  }

  // ---- the cache -------------------------------------------------------------------------------------------------------------

  datatype Stage = Listing | Clearing | Making | Fetching | Removing | Pruning | Saving

  datatype Outcome = Done(revision: Digest) | Failed(stage: Stage)

  // The sync is of this listing against this index.
  ghost predicate Does(job: Job, c: Layout, prev: map<string, string>, listing: seq<Obj>) {
    job.c == c && job.prev == prev && job.listing == listing && DistinctKeys(listing) && Tagged(listing) && job.Clear()
  }

  // The object has the index's ETag and its file is there.
  ghost predicate IsKept(job: Job, o: Obj, t: Tree) {
    o.key in job.prev && job.prev[o.key] == o.etag && job.c.dest(o.key).Some? && job.c.dest(o.key).value in t.files
  }

  // What is not kept is what the store serves.
  ghost predicate Serves(job: Job, body: Body, t: Tree) {
    forall i | 0 <= i < |job.listing| && !IsKept(job, job.listing[i], t) ::
      ServesOne(job, body, job.listing[i])
  }

  ghost predicate ServesOne(job: Job, body: Body, o: Obj) {
    job.body(job.c.identity, o.key, o.etag) == body(job.c.identity, o.key, o.etag)
  }

  lemma ServesMore(job: Job, body: Body, t: Tree, u: Tree)
    requires Serves(job, body, t) && t.files.Keys <= u.files.Keys
    ensures Serves(job, body, u)
  {
  }

  /** How a sync ends: done, with what it completed and the new index; or failed, with the old index and a cache in hand,
      in which directories stay accounted for if prunings finish. */
  ghost predicate Ends(job: Job, luck: Luck, r: Outcome, before: Tree, was: Index, after: Tree, present: bool, now: Index,
                       lost: set<string>) {
    match r
    case Done(revision) =>
      && revision == Revision(job.listing) && present && now == Index(job.c.identity, ToIndex(job.listing))
      && Completed(job, luck, before, after, lost) && InHand(job.c, now.objects, lost, job.seen, after)
    case Failed(_) =>
      && now == was && StillInHand(job, after, lost)
      && (luck.Prunes() && Accounted(job, before) ==> Accounted(job, after))
  }

  lemma EndDone(job: Job, luck: Luck, r: Outcome, before: Tree, was: Index, after: Tree, present: bool, now: Index, lost: set<string>)
    requires DistinctKeys(job.listing) && job.Clear() && Amid(job, after) && Completed(job, luck, before, after, lost)
    requires r == Done(Revision(job.listing)) && present && now == Index(job.c.identity, ToIndex(job.listing))
    ensures Ends(job, luck, r, before, was, after, present, now, lost)
  {
    DoneInHand(job, luck, before, after, lost);
  }

  lemma Fail(job: Job, luck: Luck, r: Outcome, before: Tree, was: Index, after: Tree, present: bool) returns (lost: set<string>)
    requires Amid(job, after) && job.Clear() && (luck.Prunes() && Accounted(job, before) ==> Accounted(job, after)) && r.Failed?
    ensures Ends(job, luck, r, before, was, after, present, was, lost)
  {
    lost := FailHere(job, after);
  }

  lemma FailedEnd(job: Job, luck: Luck, r: Outcome, now: Index, after: Tree, present: bool, lost: set<string>)
    requires r.Failed?
    ensures forall before, was :: Ends(job, luck, r, before, was, after, present, now, lost) ==> now == was
  {
  }

  // Everything fetched so far, and nothing fetched otherwise than served.
  ghost predicate FetchState(job: Job, body: Body, start: Tree, n: nat, t: Tree) {
    Forward(job, start, t) && Serves(job, body, t) && FetchedUpTo(job, n, t)
  }

  lemma FetchStart(job: Job, body: Body, t: Tree)
    requires HalfSynced(job, t) && Serves(job, body, t)
    ensures FetchState(job, body, t, 0, t)
  {
    ForwardFrom(job, t);
  }

  lemma FetchStep(job: Job, body: Body, start: Tree, n: nat, before: Tree, after: Tree, ok: bool)
    requires FetchState(job, body, start, n, before) && Forward(job, before, after) && Serves(job, body, after)
    requires n < |job.listing| && (ok ==> Fetched(job, n, after))
    ensures Forward(job, start, after) && (ok ==> FetchState(job, body, start, n + 1, after))
  {
    ForwardStep(job, start, before, after);
    if ok {
      FetchedNext(job, before, after, n);
    }
  }

  lemma ServesStart(c: Layout, body: Body, prev: map<string, string>, listing: seq<Obj>, lost: set<string>, seen: set<string>, t: Tree)
    ensures Serves(JobOf(c, body, prev, listing, lost, seen, t), body, t)
  {
  }

  /** A cache at one time. */
  datatype State = State(tree: Tree, present: bool, index: Index, lost: set<string>, seen: set<string>)

  /** A sync that got its listing: from what the cache has, or from nothing if it belongs to another store; then a failure
      leaves the old index and its record. */
  ghost predicate Tried(c: Layout, body: Body, listing: seq<Obj>, luck: Luck, r: Outcome, was: State, now: State) {
    if was.index.store == c.identity then
      var job := JobOf(c, body, was.index.objects, listing, was.lost, was.seen, was.tree);
      now.seen == job.seen && Ends(job, luck, r, was.tree, was.index, now.tree, now.present, now.index, now.lost)
    else if r.Done? then
      var job := JobOf(c, body, map[], listing, {}, {}, BARE);
      now.seen == job.seen && Ends(job, luck, r, BARE, was.index, now.tree, now.present, now.index, now.lost)
    else
      now.index == was.index && now.lost == was.lost && now.seen == was.seen
  }

  class Cache {
    var tree: Tree
    var present: bool
    var index: Index
    ghost var lost: set<string>     // keys of the index's store whose files are there though the index does not know them
    ghost var seen: set<string>     // all keys that store has listed since the cache was cleared for it

    // The cache and what is known of it.
    ghost function Now(): State
      reads this
    {
      State(tree, present, index, lost, seen)
    }

    constructor ()
      ensures tree == BARE && !present && index == Index("", map[]) && lost == {} && seen == {}
    {
      tree, present, index, lost, seen := BARE, false, Index("", map[]), {}, {};
    }

    // lastGood: the cached checkout's revision, from an index iterated in any order
    method LastGood(c: Layout) returns (rev: Option<Digest>)
      ensures rev.Some? <==> index.store == c.identity && present
      ensures rev.Some? ==> forall l | DistinctKeys(l) && ToIndex(l) == index.objects :: rev.value == Revision(l)
    {
      if index.store != c.identity || !present {
        return None;
      }
      var objs: seq<Obj> := [];
      var todo := index.objects.Keys;
      ghost var done := {};
      while todo != {}
        invariant todo + done == index.objects.Keys && todo !! done
        invariant DistinctKeys(objs)
        invariant forall o :: o in objs <==> o.key in done && index.objects[o.key] == o.etag
        decreases todo
      {
        var k :| k in todo;
        todo, done := todo - {k}, done + {k};
        objs := objs + [Obj(k, index.objects[k])];
      }
      assert done == index.objects.Keys;
      forall l | DistinctKeys(l) && ToIndex(l) == index.objects ensures Revision(objs) == Revision(l) {
        forall o ensures o in objs <==> o in l {
          IndexMembers(l, o);
        }
        SameObjects(objs, l);
        RevisionIgnoresOrder(objs, l);
      }
      return Some(Revision(objs));
    }

    // One object: kept when its ETag is known and something is there, downloaded otherwise.
    method Fetch(c: Layout, listing: seq<Obj>, i: nat, prev: map<string, string>, body: Body, luck: Luck, ghost job: Job) returns (ok: bool)
      requires i < |listing| && Does(job, c, prev, listing) && HalfSynced(job, tree) && Serves(job, body, tree)
      modifies this`tree
      ensures Forward(job, old(tree), tree) && Serves(job, body, tree)
      ensures ok ==> Fetched(job, i, tree)
      ensures luck.failing == {} && c.dest(listing[i].key).Some? && c.dest(listing[i].key).value != [] ==> ok
    {
      ForwardFrom(job, tree);
      var o := listing[i];
      var dest := c.dest(o.key);
      if dest.None? {
        return false;
      }
      var p := dest.value;
      assert NotStale(job, i, tree);
      if p != [] {
        NotBlocked(job, tree, i);
      }
      if TagOf(prev, o.key) == o.etag && (p in tree.files || p in tree.dirs || p == []) {
        return true;
      }
      if Blocked(tree, p) {
        return false;
      }
      if o.key in luck.failing {
        if o.key in luck.made {
          ParentsForward(job, tree, i);
          ServesMore(job, body, tree, Tree(tree.files, tree.dirs + DirsAbove(p)));
          tree := Tree(tree.files, tree.dirs + DirsAbove(p));
        }
        return false;
      }
      DownloadForward(job, tree, i);
      assert !IsKept(job, listing[i], tree) && ServesOne(job, body, listing[i]);
      ServesMore(job, body, tree, WithFile(tree, p, body(c.identity, o.key, o.etag)));
      tree := WithFile(tree, p, body(c.identity, o.key, o.etag));
      return true;
    }

    // The same, after the ones before it.
    method FetchNext(c: Layout, listing: seq<Obj>, i: nat, prev: map<string, string>, body: Body, luck: Luck, ghost job: Job,
                     ghost start: Tree) returns (ok: bool)
      requires i < |listing| && Does(job, c, prev, listing) && FetchState(job, body, start, i, tree)
      modifies this`tree
      ensures if ok then FetchState(job, body, start, i + 1, tree) else Forward(job, start, tree)
      ensures luck.failing == {} && c.dest(listing[i].key).Some? && c.dest(listing[i].key).value != [] ==> ok
    {
      ghost var before := tree;
      ok := Fetch(c, listing, i, prev, body, luck, job);
      FetchStep(job, body, start, i, before, tree, ok);
    }

    method FetchAll(c: Layout, listing: seq<Obj>, prev: map<string, string>, body: Body, luck: Luck, ghost job: Job)
      returns (ok: bool, next: map<string, string>)
      requires Does(job, c, prev, listing) && HalfSynced(job, tree) && Serves(job, body, tree)
      modifies this`tree
      ensures Forward(job, old(tree), tree)
      ensures ok ==> FetchedUpTo(job, |listing|, tree) && next == ToIndex(listing)
      ensures luck.failing == {} && Placed(c, listing) ==> ok
    {
      ghost var start := tree;
      FetchStart(job, body, start);
      next := map[];
      for i := 0 to |listing|
        invariant FetchState(job, body, start, i, tree)
        invariant next == ToIndex(listing[..i])
      {
        ok := FetchNext(c, listing, i, prev, body, luck, job, start);
        if !ok {
          return;
        }
        ToIndexStep(listing, i);
        next := next[listing[i].key := listing[i].etag];
      }
      assert listing[..|listing|] == listing;
      ok := true;
    }

    // pruneEmptyDirs; with a limit, it ends once it has deleted that many directories.
    method PruneEmptyDirs(file: Path, limit: Option<nat>)
      requires WellFormed(tree)
      modifies this`tree
      ensures tree.files == old(tree).files && tree.dirs <= old(tree).dirs && WellFormed(tree)
      ensures limit == None ==> tree.dirs == Pruned(old(tree).files, old(tree).dirs, file)
      ensures file in old(tree).files ==> tree == old(tree)
    {
      if file in tree.files && |file| > 1 {
        PrunedAboveFile(tree.files, tree.dirs, file);
        assert HasChild(tree.files, tree.dirs, file[..|file| - 1]);
      }
      var p, done := file, 0;
      while |p| > 1 && p[..|p| - 1] in tree.dirs && !HasChild(tree.files, tree.dirs, p[..|p| - 1])
        invariant tree.files == old(tree).files && tree.dirs <= old(tree).dirs && WellFormed(tree)
        invariant Pruned(tree.files, tree.dirs, p) == Pruned(old(tree).files, old(tree).dirs, file)
        invariant file in tree.files ==> p == file && tree == old(tree)
        decreases |p|
      {
        if limit == Some(done) {
          return;
        }
        p := p[..|p| - 1];
        DropEmptyDir(tree.files, tree.dirs, p);
        tree, done := Tree(tree.files, tree.dirs - {p}), done + 1;
      }
    }

    // One object that left the store: its file, unless that fails, then the directories it emptied.
    method DropOne(c: Layout, k: string, stuck: bool, limit: Option<nat>, ghost job: Job, ghost left: set<string>, ghost todo: set<string>)
      requires job.c == c && job.Clear() && Dropping(job, left, todo, tree)
      requires There(c, left, tree) && left <= job.lost + job.prev.Keys && k !in left
      requires k in todo && todo <= job.Gone()
      modifies this`tree
      ensures OneGone(job, left, todo, k, stuck, limit == None, old(tree), tree)
    {
      DroppedDestFree(job, tree, k);
      ghost var before := tree;
      var p := c.dest(k).value;
      if stuck && p in tree.files {
        PruneEmptyDirs(p, limit);
        StuckOne(job, left, todo, k, before);
      } else {
        FileGone(tree, p);
        tree := Tree(tree.files - {p}, tree.dirs);
        PruneEmptyDirs(p, limit);
        GoneOne(job, left, todo, k, stuck, limit == None, before, tree);
      }
    }

    // The same, amid the others.
    method DropNow(c: Layout, k: string, stuck: set<string>, limit: Option<nat>, ghost job: Job, ghost left: set<string>,
                   ghost todo: set<string>, ghost start: Tree)
      requires job.c == c && job.Clear() && job.lost !! job.prev.Keys
      requires DropState(job, left, todo, stuck, start, tree) && k in todo && k !in job.New()
      modifies this`tree
      ensures DropState(job, LeftAfter(c, left, k, k in stuck, old(tree)), todo - {k}, stuck, start, tree)
      ensures limit == None && Balanced(job, left, todo, start, old(tree)) ==>
                Balanced(job, LeftAfter(c, left, k, k in stuck, old(tree)), todo - {k}, start, tree)
    {
      ghost var before := tree;
      TakeOne(todo, job.New(), k);
      DropHere(job, left, todo, stuck, start, tree, k);
      DropOne(c, k, k in stuck, limit, job, left, todo - job.New());
      DropNext(job, left, todo, stuck, start, before, tree, k);
    }

    // Drop what left the store, in any order.
    method DropRemoved(c: Layout, prev: map<string, string>, next: map<string, string>, luck: Luck, ghost job: Job)
      returns (stop: Option<Stage>, ghost left: set<string>)
      requires job.c == c && job.prev == prev && job.Clear() && Amid(job, tree) && next.Keys == job.New()
      requires Dropping(job, job.lost - job.New(), job.Gone(), tree)
      modifies this`tree
      ensures Amid(job, tree)
      ensures stop == None ==> DropState(job, left, {}, luck.stuck, old(tree), tree)
      ensures stop == None && luck.slips == map[] ==> Balanced(job, left, {}, old(tree), tree)
      ensures stop == Some(Removing) && luck.slips == map[] && Accounted(job, old(tree)) ==> Accounted(job, tree)
      ensures stop == None || stop == Some(if luck.torn.Some? then Pruning else Removing)
      ensures luck.kill == None ==> stop == None
    {
      ghost var start := tree;
      left := job.lost - job.New();
      DropStart(job, luck.stuck, start);
      var todo := prev.Keys;
      var count := 0;
      while todo != {}
        invariant DropState(job, left, todo, luck.stuck, start, tree)
        invariant luck.slips == map[] ==> Balanced(job, left, todo, start, tree)
        decreases todo
      {
        var k :| k in todo;
        TakeOne(todo, job.New(), k);
        if k in next {
          DropSkip(job, left, todo, luck.stuck, start, tree, k);
          todo := todo - {k};
          continue;
        }
        if luck.kill == Some(count) && luck.torn == None {
          DropsKeep(job, left, todo, luck.stuck, start, tree);
          return Some(Removing), left;
        }
        var limit := if luck.kill == Some(count) then luck.torn else Slip(luck, k);
        ghost var before := tree;
        DropNow(c, k, luck.stuck, limit, job, left, todo, start);
        left := LeftAfter(c, left, k, k in luck.stuck, before);
        todo := todo - {k};
        if luck.kill == Some(count) {
          DropsKeep(job, left, todo, luck.stuck, start, tree);
          return Some(Pruning), left;
        }
        count := count + 1;
      }
      DropsKeep(job, left, todo, luck.stuck, start, tree);
      stop := None;
    }

    // The drops after all downloads, and what they make of the cache since `start`.
    method DropAll(c: Layout, prev: map<string, string>, next: map<string, string>, luck: Luck, ghost job: Job, ghost start: Tree)
      returns (stop: Option<Stage>, ghost left: set<string>)
      requires Does(job, c, prev, job.listing) && next == ToIndex(job.listing)
      requires Amid(job, tree) && FetchedUpTo(job, |job.listing|, tree) && Forward(job, start, tree)
      modifies this`tree
      ensures Amid(job, tree)
      ensures stop == None ==> Completed(job, luck, start, tree, left)
      ensures luck.Prunes() && Accounted(job, start) ==> Accounted(job, tree)
      ensures luck.kill == None ==> stop == None
    {
      FetchedDropping(job, tree);
      ToIndexKeys(job.listing);
      ghost var fetched := tree;
      stop, left := DropRemoved(c, prev, next, luck, job);
      if stop == None {
        LeftAtEnd(job, left, luck.stuck, fetched, tree);
        Complete(job, left, luck, start, fetched, tree);
      }
    }

    // All of a sync but the index: downloads, then drops.
    method Bring(c: Layout, listing: seq<Obj>, prev: map<string, string>, body: Body, luck: Luck, ghost job: Job)
      returns (stop: Option<Stage>, next: map<string, string>, ghost left: set<string>)
      requires Does(job, c, prev, listing) && Amid(job, tree) && Serves(job, body, tree)
      modifies this`tree
      ensures Amid(job, tree)
      ensures stop == None ==> next == ToIndex(listing) && Completed(job, luck, old(tree), tree, left)
      ensures luck.Prunes() && Accounted(job, old(tree)) ==> Accounted(job, tree)
      ensures luck.Harmless() && Placed(c, listing) ==> stop == None
    {
      ghost var start := tree;
      var ok;
      left := {};
      ok, next := FetchAll(c, listing, prev, body, luck, job);
      ThereElsewhere(c, job.seen, listing, job.lost, start, tree);
      if !ok {
        return Some(Fetching), next, left;
      }
      stop, left := DropAll(c, prev, next, luck, job, start);
    }

    // All but the new index: making the cache, downloads, drops, and whether the index can be saved.
    method SyncTree(c: Layout, listing: seq<Obj>, prev: map<string, string>, body: Body, luck: Luck, ghost job: Job, ghost was: Index)
      returns (r: Outcome, now: Index, ghost left: set<string>)
      requires Does(job, c, prev, listing) && Amid(job, tree) && Serves(job, body, tree)
      modifies this`tree, this`present
      ensures Ends(job, luck, r, old(tree), was, tree, present, if r.Done? then now else was, left)
      ensures luck.Harmless() && Placed(c, listing) ==> r.Done?
    {
      ghost var before := tree;
      now := Index(c.identity, map[]);
      if luck.makeFails {
        left := Fail(job, luck, Failed(Making), before, was, tree, present);
        return Failed(Making), now, left;
      }
      present := true;
      var stop, next;
      stop, next, left := Bring(c, listing, prev, body, luck, job);
      if stop == None && luck.saveFails {
        stop := Some(Saving);
      }
      if stop.Some? {
        left := Fail(job, luck, Failed(stop.value), before, was, tree, present);
        return Failed(stop.value), now, left;
      }
      now := Index(c.identity, next);
      EndDone(job, luck, Done(Revision(listing)), before, was, tree, present, now, left);
      return Done(Revision(listing)), now, left;
    }

    // The sync proper, on a cache of this store whose index was `prev`.
    method SyncHere(c: Layout, listing: seq<Obj>, prev: map<string, string>, body: Body, luck: Luck, ghost job: Job) returns (r: Outcome)
      requires Does(job, c, prev, listing) && Amid(job, tree) && Serves(job, body, tree)
      modifies this
      ensures seen == job.seen && Ends(job, luck, r, old(tree), old(index), tree, present, index, lost)
      ensures luck.Harmless() && Placed(c, listing) ==> r.Done?
    {
      var now;
      ghost var left;
      r, now, left := SyncTree(c, listing, prev, body, luck, job, index);
      seen, lost := job.seen, left;
      if r.Done? {
        index := now;
      }
    }

    /** One sync: the listing (None when it failed), the store's contents, and what goes wrong. */
    method Sync(c: Layout, listing: Option<seq<Obj>>, body: Body, luck: Luck) returns (r: Outcome)
      requires listing.Some? ==> Acceptable(c, index, seen, listing.value)
      requires listing.Some? && index.store == c.identity ==> InHand(c, index.objects, lost, seen, tree)
      modifies this
      ensures listing.None? ==> Now() == old(Now())
      ensures listing.None? ==> (r.Done? <==> index.store == c.identity && present) && (r.Failed? ==> r.stage == Listing)
      ensures listing.None? && r.Done? ==> forall l | DistinctKeys(l) && ToIndex(l) == index.objects :: r.revision == Revision(l)
      ensures listing.Some? ==> Tried(c, body, listing.value, luck, r, old(Now()), Now())
      ensures listing.Some? && luck.Harmless() && Placed(c, listing.value) ==> r.Done?
    {
      if listing.None? {
        var rev := LastGood(c);
        return if rev.Some? then Done(rev.value) else Failed(Listing);
      }
      var l := listing.value;
      if index.store == c.identity {
        StartOf(c, body, index.objects, l, lost, seen, tree);
        ServesStart(c, body, index.objects, l, lost, seen, tree);
        r := SyncHere(c, l, index.objects, body, luck, JobOf(c, body, index.objects, l, lost, seen, tree));
        return;
      }
      ghost var was, wasSeen := lost, seen;
      if luck.clearFails {
        tree := luck.leftover;
        return Failed(Clearing);
      }
      tree, present, lost, seen := BARE, false, {}, {};
      BareInHand(c);
      StartOf(c, body, map[], l, {}, {}, BARE);
      ServesStart(c, body, map[], l, {}, {}, BARE);
      r := SyncHere(c, l, map[], body, luck, JobOf(c, body, map[], l, {}, {}, BARE));
      if r.Failed? {
        FailedEnd(JobOf(c, body, map[], l, {}, {}, BARE), luck, r, index, tree, present, lost);
        lost, seen := was, wasSeen;
      }
    }

    /** Sync one target again and again until an attempt lists the store and completes; each may list something else. */
    method Settle(t: Target, body: Body) returns (done: nat)
      requires Ready(t, Now())
      modifies this
      ensures done <= |t.attempts|
      ensures done == |t.attempts| ==> !t.Hopeful() && index == old(index) && Ready(t, Now())
      ensures done < |t.attempts| ==> Settled(t, done, body, old(Now()), Now())
    {
      ghost var start := Now();
      TryingStart(t, body, start);
      done := 0;
      while done < |t.attempts|
        invariant done <= |t.attempts| && Trying(t, body, start, Now())
        invariant forall j | 0 <= j < done :: !t.attempts[j].Hopeful(t.layout)
      {
        var a := t.attempts[done];
        ghost var was := Now();
        TryingFits(t, done, body, start, was);
        var r := Sync(t.layout, a.listing, body, a.luck);
        if a.listing.Some? {
          if r.Done? {
            SettledNow(t, done, body, start, was, r, Now());
            return;
          }
          StillTrying(t, done, body, start, was, r, Now());
        }
        done := done + 1;
      }
    }

    // The next target of a run.
    method FollowOne(targets: seq<Target>, i: nat, body: Body) returns (ok: bool)
      requires Compatible(targets) && i < |targets| && Walked(true, body, targets, i, Now())
      modifies this
      ensures Walked(ok, body, targets, if ok then i + 1 else i, Now())
      ensures targets[i].Hopeful() ==> ok
    {
      ghost var was := Now();
      NextReady(body, targets, i, was);
      var done := Settle(targets[i], body);
      ok := done < |targets[i].attempts|;
      if ok {
        StandingNext(body, targets, i, done, was, Now());
      }
    }

    /** A whole run: one target after the other, each until it is settled. */
    method Follow(targets: seq<Target>, body: Body) returns (done: nat)
      requires index.store == "" && Compatible(targets)
      modifies this
      ensures done <= |targets|
      ensures Walked(done == |targets|, body, targets, done, Now())
      ensures done < |targets| ==> !targets[done].Hopeful()
    {
      for i := 0 to |targets|
        invariant Walked(true, body, targets, i, Now())
      {
        var ok := FollowOne(targets, i, body);
        if !ok {
          return i;
        }
      }
      return |targets|;
    }
  }

  // ---- one target ----------------------------------------------------------------------------------------------------------

  // An attempt to sync: what the store lists (None when listing fails), and what goes wrong.
  datatype Attempt = Attempt(listing: Option<seq<Obj>>, luck: Luck)
  {
    // It lists the store and meets no fault that fails it.
    predicate Hopeful(c: Layout) {
      listing.Some? && luck.Harmless() && Placed(c, listing.value)
    }
  }

  /** One store, and the attempts to sync to it. */
  datatype Target = Target(layout: Layout, attempts: seq<Attempt>)
  {
    function Listed(): set<string> {
      set i, k | 0 <= i < |attempts| && attempts[i].listing.Some? && k in Keys(attempts[i].listing.value) :: k
    }

    predicate Hopeful() {
      exists i | 0 <= i < |attempts| :: attempts[i].Hopeful(layout)
    }

    // The store lists the same each time.
    predicate Steady() {
      forall i, j | 0 <= i < |attempts| && 0 <= j < |attempts| && attempts[i].listing.Some? && attempts[j].listing.Some? ::
        attempts[i].listing == attempts[j].listing
    }

    // No attempt leaves a pruning unfinished.
    predicate Intact() {
      forall i | 0 <= i < |attempts| :: attempts[i].luck.Prunes()
    }

    // No removal fails.
    predicate Unstuck() {
      forall i | 0 <= i < |attempts| :: attempts[i].luck.stuck == {}
    }

    predicate Lists() {
      forall i | 0 <= i < |attempts| && attempts[i].listing.Some? ::
        DistinctKeys(attempts[i].listing.value) && Tagged(attempts[i].listing.value)
    }
  }

  // What the cache remembers of the keys of this store.
  function Mine(c: Layout, s: State): set<string> {
    if s.index.store == c.identity then s.seen else {}
  }

  /** The target can be tried on this cache. */
  ghost predicate Ready(t: Target, s: State) {
    && t.Lists() && Apart(t.layout, Mine(t.layout, s) + t.Listed())
    && (s.index.store == t.layout.identity ==> InHand(t.layout, s.index.objects, s.lost, s.seen, s.tree))
  }

  // The directories are accounted for by this listing.
  ghost predicate Covers(c: Layout, listing: seq<Obj>, s: State) {
    Prunable(c, Keys(listing) + s.lost, s.index.objects.Keys - Keys(listing), s.tree)
  }

  // Failed attempts with this listing keep what is current, what is lost besides, and what is accounted for.
  ghost predicate Steadily(t: Target, body: Body, start: State, s: State, listing: seq<Obj>) {
    && (Current(t.layout, body, s.index.objects, listing, start.tree) ==> Current(t.layout, body, s.index.objects, listing, s.tree))
    && s.lost - Keys(listing) == start.lost - Keys(listing)
    && (t.Intact() && Covers(t.layout, listing, start) ==> Covers(t.layout, listing, s))
  }

  /** After failed attempts. */
  ghost predicate Trying(t: Target, body: Body, start: State, s: State) {
    && Ready(t, s) && s.index == start.index && Mine(t.layout, s) <= Mine(t.layout, start) + t.Listed()
    && (s.index.store == t.layout.identity && t.Steady() ==>
          forall i | 0 <= i < |t.attempts| && t.attempts[i].listing.Some? :: Steadily(t, body, start, s, t.attempts[i].listing.value))
  }

  lemma TryingStart(t: Target, body: Body, s: State)
    requires Ready(t, s)
    ensures Trying(t, body, s, s)
  {
  }

  lemma ListedOne(t: Target, i: nat)
    requires i < |t.attempts| && t.attempts[i].listing.Some?
    ensures Keys(t.attempts[i].listing.value) <= t.Listed()
  {
  }

  lemma TryingFits(t: Target, i: nat, body: Body, start: State, s: State)
    requires Trying(t, body, start, s) && i < |t.attempts|
    ensures t.attempts[i].listing.Some? ==> Acceptable(t.layout, s.index, s.seen, t.attempts[i].listing.value)
  {
    if t.attempts[i].listing.Some? {
      ListedOne(t, i);
      ApartLess(t.layout, Mine(t.layout, s) + Keys(t.attempts[i].listing.value), Mine(t.layout, s) + t.Listed());
    }
  }

  lemma SameBeside(keys: set<string>, a: set<string>, b: set<string>)
    requires a - keys == b - keys
    ensures keys + a == keys + b
  {
    assert keys + a == keys + (a - keys) && keys + b == keys + (b - keys);
  }

  // What a failed attempt at the same store leaves as it was.
  lemma FailsSteadily(c: Layout, body: Body, listing: seq<Obj>, luck: Luck, r: Outcome, was: State, now: State)
    requires was.index.store == c.identity && Tried(c, body, listing, luck, r, was, now) && r.Failed?
    ensures now.index == was.index && InHand(c, now.index.objects, now.lost, now.seen, now.tree)
    ensures Current(c, body, was.index.objects, listing, was.tree) ==> Current(c, body, was.index.objects, listing, now.tree)
    ensures now.lost - Keys(listing) == was.lost - Keys(listing)
    ensures luck.Prunes() && Covers(c, listing, was) ==> Covers(c, listing, now)
  {
    var job := JobOf(c, body, was.index.objects, listing, was.lost, was.seen, was.tree);
    SameBeside(Keys(listing), now.lost, was.lost);
    if Current(c, body, was.index.objects, listing, was.tree) {
      forall i | 0 <= i < |listing| ensures IsCurrent(c, body, was.index.objects, listing[i], now.tree) {
        assert NotStale(job, i, now.tree) && IsCurrent(c, body, was.index.objects, listing[i], was.tree);
        ViewedTrue(c, body, was.index.objects, listing[i], was.tree);
      }
    }
  }

  lemma StillTrying(t: Target, i: nat, body: Body, start: State, was: State, r: Outcome, now: State)
    requires Trying(t, body, start, was) && i < |t.attempts| && t.attempts[i].listing.Some?
    requires Tried(t.layout, body, t.attempts[i].listing.value, t.attempts[i].luck, r, was, now) && r.Failed?
    ensures Trying(t, body, start, now)
  {
    var l := t.attempts[i].listing.value;
    ListedOne(t, i);
    if was.index.store == t.layout.identity {
      FailsSteadily(t.layout, body, l, t.attempts[i].luck, r, was, now);
      assert now.seen + t.Listed() == was.seen + t.Listed();
    }
  }

  /** A target that is settled: its listing's index, the cache in hand with every listed object there; and if the store
      listed the same each time, its checkout and the lost files, given that nothing was stale at the start; without
      spare directories, given that all were accounted for and every pruning finished; and nothing lost, given that
      nothing was and no removal failed. */
  ghost predicate Settled(t: Target, done: nat, body: Body, start: State, s: State)
    requires done < |t.attempts|
  {
    && t.attempts[done].listing.Some?
    && var c, l, same := t.layout, t.attempts[done].listing.value, start.index.store == t.layout.identity;
    && s.present && s.index == Index(c.identity, ToIndex(l)) && InHand(c, s.index.objects, s.lost, s.seen, s.tree)
    && There(c, Keys(l), s.tree) && s.seen <= Mine(c, start) + t.Listed()
    && (t.Steady() && (same ==> Current(c, body, start.index.objects, l, start.tree)) ==>
          IsCheckout(c, body, ToIndex(l), s.lost, s.tree))
    && (t.Steady() && t.Intact() && (same ==> Covers(c, l, start)) ==> Tidy(s.tree))
    && (t.Steady() && t.Unstuck() && (same ==> start.lost == {}) ==> s.lost == {})
  }

  // A completed attempt, in the terms of where it started.
  lemma DoneFrom(c: Layout, body: Body, listing: seq<Obj>, luck: Luck, r: Outcome, was: State, now: State)
    requires DistinctKeys(listing) && Tried(c, body, listing, luck, r, was, now) && r.Done?
    ensures var same := was.index.store == c.identity;
            && now.present && now.index == Index(c.identity, ToIndex(listing)) && InHand(c, now.index.objects, now.lost, now.seen, now.tree)
            && There(c, Keys(listing), now.tree) && now.seen == Mine(c, was) + Keys(listing)
            && ((same ==> Current(c, body, was.index.objects, listing, was.tree)) ==>
                  IsCheckout(c, body, ToIndex(listing), now.lost, now.tree))
            && (luck.slips == map[] && (same ==> Covers(c, listing, was)) ==> Tidy(now.tree))
            && (luck.stuck == {} ==> now.lost <= if same then was.lost - Keys(listing) else {})
  {
    var same := was.index.store == c.identity;
    var prev, before := if same then was.index.objects else map[], if same then was.tree else BARE;
    var job := if same then JobOf(c, body, prev, listing, was.lost, was.seen, was.tree) else JobOf(c, body, map[], listing, {}, {}, BARE);
    assert Completed(job, luck, before, now.tree, now.lost);
    CheckoutIsTrue(c, body, prev, listing, now.lost, before, now.tree);
    ToIndexKeys(listing);
    forall k | k in Keys(listing) ensures c.dest(k).Some? && c.dest(k).value in now.tree.files {
      assert k in ToIndex(listing);
      assert Known(c, ToIndex(listing).Keys + now.lost, c.dest(k).value);
    }
  }

  lemma SettledNow(t: Target, done: nat, body: Body, start: State, was: State, r: Outcome, now: State)
    requires Trying(t, body, start, was) && done < |t.attempts| && t.attempts[done].listing.Some?
    requires Tried(t.layout, body, t.attempts[done].listing.value, t.attempts[done].luck, r, was, now) && r.Done?
    ensures Settled(t, done, body, start, now)
  {
    var l := t.attempts[done].listing.value;
    ListedOne(t, done);
    DoneFrom(t.layout, body, l, t.attempts[done].luck, r, was, now);
    if t.Steady() && was.index.store == t.layout.identity {
      assert Steadily(t, body, start, was, l);
    }
  }

  // ---- runs ------------------------------------------------------------------------------------------------------------------

  // Every key a store lists in a run.
  function StoreKeys(targets: seq<Target>, identity: string): set<string> {
    set i, k | 0 <= i < |targets| && targets[i].layout.identity == identity && k in targets[i].Listed() :: k
  }

  lemma InStoreKeys(targets: seq<Target>, i: nat)
    requires i < |targets|
    ensures targets[i].Listed() <= StoreKeys(targets, targets[i].layout.identity)
  {
  }

  /** Stores may change from target to target; the destinations of all a store lists stay apart. */
  ghost predicate Compatible(targets: seq<Target>) {
    forall i: nat | i < |targets| :: Fits(targets, i)
  }

  ghost predicate Fits(targets: seq<Target>, i: nat)
    requires i < |targets|
  {
    var t := targets[i];
    && t.layout.identity != "" && t.Lists() && Apart(t.layout, StoreKeys(targets, t.layout.identity))
    && (i > 0 && targets[i - 1].layout.identity == t.layout.identity ==> targets[i - 1].layout == t.layout)
  }

  predicate SteadyTo(targets: seq<Target>, i: nat)
    requires i <= |targets|
  {
    forall j | 0 <= j < i :: targets[j].Steady()
  }

  /** After the first targets of a run: the cache is the last one's, only keys its store listed are about; and as long as no
      store changed what it lists between the attempts at one target, the cache is that listing's checkout and the lost
      files, without spare directories if no pruning was cut short, and none is lost if no removal failed. */
  ghost predicate Standing(body: Body, targets: seq<Target>, i: nat, s: State)
    requires 0 < i <= |targets|
  {
    var c := targets[i - 1].layout;
    && s.present && s.index.store == c.identity && InHand(c, s.index.objects, s.lost, s.seen, s.tree)
    && There(c, s.index.objects.Keys, s.tree) && s.seen <= StoreKeys(targets, c.identity)
    && (SteadyTo(targets, i) ==> IsCheckout(c, body, s.index.objects, s.lost, s.tree))
    && (SteadyTo(targets, i) && (forall j | 0 <= j < i :: targets[j].Intact()) ==> Tidy(s.tree))
    && (SteadyTo(targets, i) && (forall j | 0 <= j < i :: targets[j].Unstuck()) ==> s.lost == {})
  }

  /** The first `i` targets are settled one after the other, and the run goes on (`ok`); or it gave up on the next one,
      which may be tried again. */
  ghost predicate Walked(ok: bool, body: Body, targets: seq<Target>, i: nat, s: State)
    requires if ok then i <= |targets| else i < |targets|
  {
    if !ok then Ready(targets[i], s)
    else if i == 0 then s.index.store == ""
    else Standing(body, targets, i, s)
  }

  lemma NextReady(body: Body, targets: seq<Target>, i: nat, s: State)
    requires Compatible(targets) && i < |targets| && Walked(true, body, targets, i, s)
    ensures Ready(targets[i], s)
  {
    var t := targets[i];
    assert Fits(targets, i);
    InStoreKeys(targets, i);
    if i > 0 {
      assert Fits(targets, i - 1);
    }
    ApartLess(t.layout, Mine(t.layout, s) + t.Listed(), StoreKeys(targets, t.layout.identity));
  }

  // What a settled cache means for the next target of its store.
  lemma StandsFor(c: Layout, body: Body, listing: seq<Obj>, s: State)
    requires s.index.store == c.identity && InHand(c, s.index.objects, s.lost, s.seen, s.tree)
    requires IsCheckout(c, body, s.index.objects, s.lost, s.tree)
    ensures Current(c, body, s.index.objects, listing, s.tree)
    ensures Tidy(s.tree) ==> Covers(c, listing, s)
  {
    SyncedStart(c, body, s.index.objects, listing, s.lost, s.seen, s.tree);
  }

  lemma StandingNext(body: Body, targets: seq<Target>, i: nat, done: nat, was: State, now: State)
    requires Compatible(targets) && i < |targets| && Walked(true, body, targets, i, was)
    requires done < |targets[i].attempts| && Settled(targets[i], done, body, was, now)
    ensures Standing(body, targets, i + 1, now)
  {
    var t := targets[i];
    var l := t.attempts[done].listing.value;
    assert Fits(targets, i);
    InStoreKeys(targets, i);
    ToIndexKeys(l);
    if i > 0 {
      assert Fits(targets, i - 1);
      if SteadyTo(targets, i) && was.index.store == t.layout.identity {
        StandsFor(t.layout, body, l, was);
      }
    }
    assert SteadyTo(targets, i + 1) ==> SteadyTo(targets, i) && t.Steady();
  }

  // ---- when the listing changes between a failed sync and the next ------------------------------------------------------------

  // Where only listed objects have files, none is lost.
  lemma NoneLost(c: Layout, keys: set<string>, lost: set<string>, t: Tree)
    requires There(c, lost, t) && lost !! keys && Apart(c, keys + lost) && forall p | p in t.files :: Known(c, keys, p)
    ensures lost == {}
  {
    forall k | k in lost ensures false {
      var q :| q in keys && c.dest(q) == c.dest(k);
      OneKey(c, keys + lost, k, q);
    }
  }

  /** A completed sync leaves the plain checkout of its listing exactly when no file is lost and nothing it kept was stale. */
  lemma PlainWhenTrue(c: Layout, body: Body, listing: seq<Obj>, luck: Luck, r: Outcome, was: State, now: State)
    requires DistinctKeys(listing) && Tried(c, body, listing, luck, r, was, now) && r.Done?
    ensures IsCheckout(c, body, ToIndex(listing), {}, now.tree) <==>
              && now.lost == {}
              && (was.index.store == c.identity ==> Current(c, body, was.index.objects, listing, was.tree))
  {
    var same := was.index.store == c.identity;
    var prev, before := if same then was.index.objects else map[], if same then was.tree else BARE;
    CheckoutIsTrue(c, body, prev, listing, now.lost, before, now.tree);
    if IsCheckout(c, body, ToIndex(listing), {}, now.tree) {
      ApartLess(c, ToIndex(listing).Keys + now.lost, now.seen);
      assert ToIndex(listing).Keys + {} == ToIndex(listing).Keys;
      NoneLost(c, ToIndex(listing).Keys, now.lost, now.tree);
    }
  }

  /** A sync to a second listing after a failed one to a first, from a cache without lost files and with no removal failing,
      leaves the plain checkout exactly when no object fetched only for the first stays, listed neither by the index nor
      again, and no object whose ETag is the index's again holds what was fetched for the first. */
  lemma ListingChanged(c: Layout, body: Body, first: seq<Obj>, second: seq<Obj>, luck: Luck, luck': Luck, r: Outcome, r': Outcome,
                       s: State, s': State, s'': State)
    requires s.index.store == c.identity && s.lost == {} && DistinctKeys(second) && luck'.stuck == {}
    requires Tried(c, body, first, luck, r, s, s') && r.Failed? && Tried(c, body, second, luck', r', s', s'') && r'.Done?
    ensures IsCheckout(c, body, ToIndex(second), {}, s''.tree) <==>
              && (forall k | k in Keys(first) && k !in s.index.objects && k !in Keys(second) && c.dest(k).Some? ::
                    c.dest(k).value !in s'.tree.files)
              && Current(c, body, s.index.objects, second, s'.tree)
  {
    PlainWhenTrue(c, body, second, luck', r', s', s'');
    assert s'.lost == Astray(c, s.index.objects, first, {}, s'.tree);
    assert s''.lost == LostOf(c, second, s'.lost, s.index.objects.Keys * {}, s'.tree.files);
    StrayOnly(c, s.index.objects, first, second, s'.tree);
  }

  lemma StrayOnly(c: Layout, prev: map<string, string>, first: seq<Obj>, second: seq<Obj>, t: Tree)
    ensures LostOf(c, second, Astray(c, prev, first, {}, t), prev.Keys * {}, t.files) == {} <==>
              forall k | k in Keys(first) && k !in prev && k !in Keys(second) && c.dest(k).Some? :: c.dest(k).value !in t.files
  {
    if k :| k in Keys(first) && k !in prev && k !in Keys(second) && c.dest(k).Some? && c.dest(k).value in t.files {
      assert k in LostOf(c, second, Astray(c, prev, first, {}, t), prev.Keys * {}, t.files);
    }
  }

  /** Two completed syncs of one store report one revision exactly when they saved one index. */
  lemma SyncsTell(c: Layout, body: Body, first: seq<Obj>, second: seq<Obj>, luck: Luck, luck': Luck, r: Outcome, r': Outcome,
                  s: State, after: State, s': State, after': State)
    requires DistinctKeys(first) && DistinctKeys(second)
    requires forall o | o in first || o in second :: Lacks(o.key, '\t') && Lacks(o.key, '\n') && Lacks(o.etag, '\t') && Lacks(o.etag, '\n')
    requires Tried(c, body, first, luck, r, s, after) && r.Done? && Tried(c, body, second, luck', r', s', after') && r'.Done?
    ensures r.revision == r'.revision <==> after.index == after'.index
  {
    RevisionNamesIndex(first, second);
  }

  // ---- runs of configured stores -----------------------------------------------------------------------------------------------

  // The path of a key below its store's prefix.
  function Segments(config: Config, key: string): seq<string> {
    Split(if config.Boundary() <= key then key[|config.Boundary()|..] else key, '/')
  }

  /** What a store lists is below its prefix, in plain segments, and no key continues another. */
  ghost predicate PlainListed(config: Config, keys: set<string>) {
    && (forall k | k in keys :: config.Boundary() <= k && Plain(Segments(config, k)))
    && (forall a, b | a in keys && b in keys && a != b :: !(Segments(config, a) <= Segments(config, b)))
  }

  lemma PlainApart(config: Config, keys: set<string>)
    requires PlainListed(config, keys)
    ensures Apart(LayoutOf(config), keys)
  {
    forall a, b | a in keys && b in keys && a != b && config.Dest(a).Some? && config.Dest(b).Some?
      ensures !(config.Dest(a).value <= config.Dest(b).value)
    {
      PlainKeys(config, a, b);
      PlainKeys(config, b, a);
      assert config.Dest(a).value == Segments(config, a) && config.Dest(b).value == Segments(config, b);
    }
  }

  lemma SameStore(a: Config, b: Config)
    requires '|' !in a.endpoint && '|' !in a.bucket && '|' !in b.endpoint && '|' !in b.bucket && a.base == b.base
    requires a.Identity() == b.Identity()
    ensures LayoutOf(a) == LayoutOf(b)
  {
    IdentityNamesStore(a, b);
  }

  /** Targets of configured stores fit a run: one cache directory, endpoints and buckets without a bar, and plain keys. */
  lemma ConfiguredFit(configs: seq<Config>, targets: seq<Target>)
    requires |configs| == |targets|
    requires forall i | 0 <= i < |configs| ::
               && '|' !in configs[i].endpoint && '|' !in configs[i].bucket && configs[i].base == configs[0].base
               && targets[i].layout == LayoutOf(configs[i]) && targets[i].Lists()
               && PlainListed(configs[i], StoreKeys(targets, configs[i].Identity()))
    ensures Compatible(targets)
  {
    forall i: nat | i < |targets| ensures Fits(targets, i) {
      PlainApart(configs[i], StoreKeys(targets, configs[i].Identity()));
      NamedStore(configs[i]);
      if i > 0 && targets[i - 1].layout.identity == targets[i].layout.identity {
        SameStore(configs[i - 1], configs[i]);
      }
    }
  }

  lemma NamedStore(config: Config)
    ensures config.Identity() != "" && LayoutOf(config).identity == config.Identity()
  {
    assert |config.Identity()| >= 2;
  }

  // ---- what the run properties do not survive ------------------------------------------------------------------------------

  const FINE := Luck({}, {}, false, BARE, false, {}, map[], None, None, false)

  /** The run that loses a file: an object is synced, leaves the store, and its removal fails. */
  method LosesFile(c: Layout, o: Obj, body: Body) returns (cache: Cache)
    requires c.identity != "" && o.etag != "" && c.dest(o.key).Some? && c.dest(o.key).value != []
    ensures cache.index == Index(c.identity, map[]) && cache.lost == {o.key}
    ensures cache.tree.files == map[c.dest(o.key).value := body(c.identity, o.key, o.etag)]
  {
    cache := new Cache();
    FewKeys(o);
    var first := cache.Sync(c, Some([o]), body, FINE);
    ghost var was := cache.Now();
    OneSynced(c, o, body, first, was);
    var second := cache.Sync(c, Some([]), body, FINE.(stuck := {o.key}));
    OneLost(c, o, body, second, was, cache.Now());
  }

  lemma FewKeys(o: Obj)
    ensures Keys([o]) == {o.key} && Keys([]) == {}
  {
    assert [o][0] == o;
  }

  lemma OneSynced(c: Layout, o: Obj, body: Body, r: Outcome, s: State)
    requires DistinctKeys([o]) && r.Done? && c.dest(o.key).Some?
    requires Ends(JobOf(c, body, map[], [o], {}, {}, BARE), FINE, r, BARE, Index("", map[]), s.tree, s.present, s.index, s.lost)
    ensures s.index == Index(c.identity, map[o.key := o.etag]) && s.lost == {}
    ensures s.tree.files == map[c.dest(o.key).value := body(c.identity, o.key, o.etag)]
  {
    assert ToIndex([o]) == map[o.key := o.etag] by {
      assert [o][..0] == [] && ToIndex([]) == map[];
    }
    assert Keys([o]) == {o.key};
    OneFile(c, o.key, s.tree.files, map[o.key := o.etag].Keys + {});
  }

  lemma OneFile(c: Layout, k: string, files: map<Path, string>, keys: set<string>)
    requires keys == {k} && c.dest(k).Some? && forall p :: p in files <==> Known(c, keys, p)
    ensures files.Keys == {c.dest(k).value}
  {
    forall p ensures p in files <==> p == c.dest(k).value {
      assert Known(c, keys, p) <==> p == c.dest(k).value;
    }
  }

  lemma OneLost(c: Layout, o: Obj, body: Body, r: Outcome, was: State, s: State)
    requires was.index == Index(c.identity, map[o.key := o.etag]) && was.lost == {} && r.Done? && c.dest(o.key).Some?
    requires was.tree.files == map[c.dest(o.key).value := body(c.identity, o.key, o.etag)]
    requires Tried(c, body, [], FINE.(stuck := {o.key}), r, was, s)
    ensures s.index == Index(c.identity, map[]) && s.lost == {o.key} && s.tree.files == was.tree.files
  {
    assert Keys([]) == {} && ToIndex([]) == map[];
    var prev := was.index.objects;
    assert prev.Keys * {o.key} == {o.key};
    assert s.lost == {o.key};
    assert ToIndex([]).Keys + s.lost == {o.key};
    OneFile(c, o.key, s.tree.files, ToIndex([]).Keys + s.lost);
    assert !Known(c, Keys([]), c.dest(o.key).value);
  }

  /** Killed between two directories of one pruning, a sync leaves the upper one; the retry, whose file is gone
      and whose lower directory is too, does not reach it. */
  lemma TornPruningLeavesDirectory(a: string, b: string, f: string)
    ensures var file := [a, b, f]; var dirs := {[a], [a, b]};
            && Pruned(map[], dirs, file) == {}
            && Pruned(map[], dirs - {[a, b]}, file) == {[a]}
  {
    var file: Path, dirs: set<Path> := [a, b, f], {[a], [a, b]};
    var none: map<Path, string> := map[];
    assert file[..2] == [a, b] && file[..2][..1] == [a];
    assert !HasChild(none, dirs, [a, b]) && !HasChild(none, dirs - {[a, b]}, [a]);
    assert dirs - {[a, b]} == {[a]};
    assert Pruned(none, dirs, file) == Pruned(none, dirs - {[a, b]}, [a, b]) == Pruned(none, {}, [a]);
  }

  // The directory such a kill leaves is not accounted for.
  lemma TornUnaccounted(c: Layout, o: Obj, a: string, b: string, f: string, s: State)
    requires c.dest(o.key) == Some([a, b, f]) && s.tree == Tree(map[], {[a]})
    requires s.index == Index(c.identity, map[o.key := o.etag]) && s.lost == {}
    ensures !Covers(c, [], s)
  {
    assert Keys([]) + s.lost == {} && s.index.objects.Keys - Keys([]) == {o.key};
    var d: Path := [a];
    assert d in s.tree.dirs;
    assert [a, b, f][..2] == [a, b] && [a, b] !in s.tree.dirs;
    assert forall p :: !Known(c, {}, p);
    assert forall p | Known(c, {o.key}, p) :: p == [a, b, f];
  }

  /** The retry itself: whatever else fails, once it completes with its prunings finished the cache has a spare directory. */
  method TornRetry(cache: Cache, c: Layout, o: Obj, a: string, b: string, f: string, body: Body, luck: Luck) returns (r: Outcome)
    requires c.identity != "" && c.dest(o.key) == Some([a, b, f]) && luck.slips == map[]
    requires cache.tree == Tree(map[], {[a]}) && cache.index == Index(c.identity, map[o.key := o.etag])
    requires cache.lost == {} && cache.seen == {o.key}
    modifies cache
    ensures r.Done? ==> cache.index == Index(c.identity, map[]) && !Tidy(cache.tree)
  {
    ghost var was := cache.Now();
    TornInHand(c, o, a, b, f, was);
    TornUnaccounted(c, o, a, b, f, was);
    r := cache.Sync(c, Some([]), body, luck);
    assert ToIndex([]) == map[];
  }

  lemma TornInHand(c: Layout, o: Obj, a: string, b: string, f: string, s: State)
    requires c.dest(o.key) == Some([a, b, f]) && s.tree == Tree(map[], {[a]})
    requires s.index == Index(c.identity, map[o.key := o.etag]) && s.lost == {} && s.seen == {o.key}
    ensures InHand(c, s.index.objects, s.lost, s.seen, s.tree) && Acceptable(c, s.index, s.seen, [])
  {
    assert Known(c, s.seen, [a, b, f]) && Above([a], [a, b, f]);
    assert s.seen + Keys([]) == s.seen;
  }
}
