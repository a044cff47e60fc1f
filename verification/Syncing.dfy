/** One sync as a step from tree to tree: what downloads and drops keep, and what a completed sync leaves. */
module Syncing {
  import opened Basics
  import opened Checkout

  /** A sync: the store's layout and what the cache will hold of its objects, the old index, the new listing, the keys
      whose files are there although the index does not know them, and every key listed since the cache was cleared. */
  datatype Job = Job(c: Layout, body: Body, prev: map<string, string>, listing: seq<Obj>, lost: set<string>, seen: set<string>)
  {
    function New(): set<string> {
      Keys(listing)
    }

    function Gone(): set<string> {
      prev.Keys - Keys(listing)
    }

    // The keys whose files may be there.
    function Scope(): set<string> {
      prev.Keys + Keys(listing) + lost
    }

    // Destinations stay apart.
    ghost predicate Clear() {
      Apart(c, seen) && Scope() <= seen
    }
  }

  /** What goes wrong in one sync: downloads that fail (some after making the parents), clearing the cache (which
      may leave anything), making it, removals that fail, prunings that end early after so many directories, being
      killed after so many objects were dropped (at the next object, or `torn`: with that object's file gone and at
      most so many of its directories), and saving the state.  Failed removals and prunings are ignored. */
  datatype Luck = Luck(failing: set<string>, made: set<string>, clearFails: bool, leftover: Tree, makeFails: bool,
                       stuck: set<string>, slips: map<string, nat>, kill: Option<nat>, torn: Option<nat>, saveFails: bool)
  {
    predicate Harmless() {
      failing == {} && !clearFails && !makeFails && kill == None && !saveFails
    }

    // No pruning ends before its time.
    predicate Prunes() {
      torn == None && slips == map[]
    }
  }

  function Slip(luck: Luck, k: string): Option<nat> {
    if k in luck.slips then Some(luck.slips[k]) else None
  }

  /** The keys no index will know though their files are there: lost before, or dropped now with a removal that
      failed, and not listed again. */
  function LostOf(c: Layout, listing: seq<Obj>, lost: set<string>, tried: set<string>, files: map<Path, string>): set<string> {
    set k | k in lost + tried && k !in Keys(listing) && c.dest(k).Some? && c.dest(k).value in files
  }

  lemma LostGrows(c: Layout, listing: seq<Obj>, lost: set<string>, tried: set<string>, files: map<Path, string>, k: string)
    requires k !in Keys(listing)
    ensures LostOf(c, listing, lost, tried + {k}, files) ==
            LostOf(c, listing, lost, tried, files) + if c.dest(k).Some? && c.dest(k).value in files then {k} else {}
  {
  }

  lemma LostStart(c: Layout, listing: seq<Obj>, lost: set<string>, t: Tree)
    requires There(c, lost - Keys(listing), t)
    ensures LostOf(c, listing, lost, {}, t.files) == lost - Keys(listing)
  {
  }

  // Away from the listed objects the same files, so the same lost ones.
  lemma LostElsewhere(c: Layout, listing: seq<Obj>, lost: set<string>, tried: set<string>, before: Tree, after: Tree)
    requires Apart(c, lost + tried + Keys(listing)) && Elsewhere(c, listing, before, after)
    ensures LostOf(c, listing, lost, tried, after.files) == LostOf(c, listing, lost, tried, before.files)
  {
    forall k | k in lost + tried && k !in Keys(listing) && c.dest(k).Some?
      ensures c.dest(k).value in after.files <==> c.dest(k).value in before.files
    {
      NotListed(c, lost + tried + Keys(listing), listing, k);
    }
  }

  // Nothing new, and nothing changed.
  ghost predicate Within(after: map<Path, string>, before: map<Path, string>) {
    forall p | p in after :: p in before && after[p] == before[p]
  }

  // In a half-synced tree, an unchanged object that is there has its current content.
  predicate NotStale(job: Job, i: nat, t: Tree)
    requires i < |job.listing|
  {
    var o := job.listing[i];
    o.key in job.prev && job.prev[o.key] == o.etag && job.c.dest(o.key).Some? && job.c.dest(o.key).value in t.files ==>
      t.files[job.c.dest(o.key).value] == job.body(job.c.identity, o.key, o.etag)
  }

  /** A tree amid a sync: every file belongs to an indexed, listed or lost object, every directory to one once listed. */
  ghost predicate HalfSynced(job: Job, t: Tree) {
    && WellFormed(t)
    && (forall p | p in t.files :: Known(job.c, job.Scope(), p))
    && (forall d | d in t.dirs :: exists p :: Known(job.c, job.seen, p) && Above(d, p))
    && (forall k | k in job.prev :: job.c.dest(k).Some? && job.c.dest(k).value != [])
    && (forall i | 0 <= i < |job.listing| :: NotStale(job, i, t))
  }

  // The object at position i is in the cache with its current content.
  predicate Fetched(job: Job, i: nat, t: Tree)
    requires i < |job.listing|
  {
    var o := job.listing[i];
    && job.c.dest(o.key).Some? && job.c.dest(o.key).value in t.files
    && t.files[job.c.dest(o.key).value] == job.body(job.c.identity, o.key, o.etag)
  }

  lemma NotBlocked(job: Job, t: Tree, i: nat)
    requires HalfSynced(job, t) && job.Clear() && i < |job.listing|
    requires job.c.dest(job.listing[i].key).Some? && job.c.dest(job.listing[i].key).value != []
    ensures !Blocked(t, job.c.dest(job.listing[i].key).value)
  {
    var keys, key := job.seen, job.listing[i].key;
    var p := job.c.dest(key).value;
    assert key in job.New();
    forall q | q in t.files ensures !(q < p) {
      var k :| k in keys && job.c.dest(k) == Some(q);
      OneKey(job.c, keys, k, key);
    }
    forall d | d in t.dirs ensures d != p {
      var q :| Known(job.c, keys, q) && Above(d, q);
      var k :| k in keys && job.c.dest(k) == Some(q);
      OneKey(job.c, keys, key, k);
    }
  }

  // No other object goes where this one goes.
  lemma OtherDest(job: Job, i: nat, j: nat)
    requires job.Clear() && DistinctKeys(job.listing) && i < |job.listing| && j < |job.listing| && i != j
    requires job.c.dest(job.listing[i].key).Some? && job.c.dest(job.listing[j].key).Some?
    ensures job.c.dest(job.listing[j].key).value != job.c.dest(job.listing[i].key).value
  {
    var keys := job.seen;
    assert job.listing[j].key in keys && job.listing[i].key in keys && job.listing[j].key != job.listing[i].key;
    OneKey(job.c, keys, job.listing[j].key, job.listing[i].key);
  }

  lemma FetchedKept(job: Job, t: Tree, i: nat)
    requires job.Clear() && DistinctKeys(job.listing) && i < |job.listing| && job.c.dest(job.listing[i].key).Some?
    ensures var u := WithFile(t, job.c.dest(job.listing[i].key).value, job.body(job.c.identity, job.listing[i].key, job.listing[i].etag));
            forall j | 0 <= j < |job.listing| && (j == i || Fetched(job, j, t)) :: Fetched(job, j, u)
  {
    var u := WithFile(t, job.c.dest(job.listing[i].key).value, job.body(job.c.identity, job.listing[i].key, job.listing[i].etag));
    forall j | 0 <= j < |job.listing| && j != i && Fetched(job, j, t) ensures Fetched(job, j, u) {
      OtherDest(job, i, j);
    }
  }

  lemma FetchKeeps(job: Job, t: Tree, i: nat)
    requires HalfSynced(job, t) && job.Clear() && DistinctKeys(job.listing) && i < |job.listing|
    requires job.c.dest(job.listing[i].key).Some? && !Blocked(t, job.c.dest(job.listing[i].key).value)
    ensures HalfSynced(job,
                       WithFile(t, job.c.dest(job.listing[i].key).value, job.body(job.c.identity, job.listing[i].key, job.listing[i].etag)))
  {
    var o := job.listing[i];
    var p := job.c.dest(o.key).value;
    var u := WithFile(t, p, job.body(job.c.identity, o.key, o.etag));
    WithFileWellFormed(t, p, job.body(job.c.identity, o.key, o.etag));
    assert o.key in job.Scope() && Known(job.c, job.Scope(), p) && Known(job.c, job.seen, p);
    forall d | d in u.dirs ensures exists q :: Known(job.c, job.seen, q) && Above(d, q) {
      AboveDirs(p, d);
    }
    forall j | 0 <= j < |job.listing| ensures NotStale(job, j, u) {
      assert NotStale(job, j, t);
      if j != i && job.c.dest(job.listing[j].key).Some? {
        OtherDest(job, i, j);
      }
    }
  }

  // A failed download may have made the parents.
  lemma ParentsKeep(job: Job, t: Tree, i: nat)
    requires HalfSynced(job, t) && job.Clear() && i < |job.listing|
    requires job.c.dest(job.listing[i].key).Some? && !Blocked(t, job.c.dest(job.listing[i].key).value)
    ensures HalfSynced(job, Tree(t.files, t.dirs + DirsAbove(job.c.dest(job.listing[i].key).value)))
  {
    var o := job.listing[i];
    var p := job.c.dest(o.key).value;
    var u := Tree(t.files, t.dirs + DirsAbove(p));
    ParentsWellFormed(t, p);
    assert o.key in job.Scope() && Known(job.c, job.Scope(), p) && Known(job.c, job.seen, p);
    forall d | d in u.dirs ensures exists q :: Known(job.c, job.seen, q) && Above(d, q) {
      AboveDirs(p, d);
    }
    forall j | 0 <= j < |job.listing| ensures NotStale(job, j, u) {
      assert NotStale(job, j, t);
    }
  }

  // Of the directories, all are needed or will be pruned with something still to drop.
  ghost predicate Accounted(job: Job, t: Tree) {
    Prunable(job.c, job.New() + job.lost, job.Gone(), t)
  }

  // A new directory is one a listed object needs.
  ghost predicate NewDirs(job: Job, before: Tree, after: Tree) {
    forall d | d in after.dirs && d !in before.dirs :: exists p :: Known(job.c, job.New(), p) && Above(d, p)
  }

  /** What a download keeps, whether it succeeds or not. */
  ghost predicate Forward(job: Job, before: Tree, after: Tree) {
    && HalfSynced(job, after)
    && (forall j | 0 <= j < |job.listing| && Fetched(job, j, before) :: Fetched(job, j, after))
    && Accounted(job, before) == Accounted(job, after)
    && Elsewhere(job.c, job.listing, before, after) && NewDirs(job, before, after)
  }

  lemma ForwardFrom(job: Job, t: Tree)
    requires HalfSynced(job, t)
    ensures Forward(job, t, t)
  {
  }

  ghost predicate FetchedUpTo(job: Job, n: nat, t: Tree) {
    n <= |job.listing| && forall j | 0 <= j < n :: Fetched(job, j, t)
  }

  lemma ElsewhereStep(c: Layout, listing: seq<Obj>, start: Tree, before: Tree, after: Tree)
    requires Elsewhere(c, listing, start, before) && Elsewhere(c, listing, before, after)
    ensures Elsewhere(c, listing, start, after)
  {
  }

  lemma ForwardStep(job: Job, start: Tree, before: Tree, after: Tree)
    requires Forward(job, start, before) && Forward(job, before, after)
    ensures Forward(job, start, after)
  {
    ElsewhereStep(job.c, job.listing, start, before, after);
    forall j | 0 <= j < |job.listing| && Fetched(job, j, start) ensures Fetched(job, j, after) {
      assert Fetched(job, j, before);
    }
  }

  lemma FetchedNext(job: Job, before: Tree, after: Tree, n: nat)
    requires forall j | 0 <= j < |job.listing| && Fetched(job, j, before) :: Fetched(job, j, after)
    requires FetchedUpTo(job, n, before) && n < |job.listing| && Fetched(job, n, after)
    ensures FetchedUpTo(job, n + 1, after)
  {
  }

  lemma WrittenElsewhere(c: Layout, listing: seq<Obj>, t: Tree, p: Path, content: string)
    requires Known(c, Keys(listing), p)
    ensures Elsewhere(c, listing, t, WithFile(t, p, content))
  {
  }

  lemma DownloadForward(job: Job, t: Tree, i: nat)
    requires HalfSynced(job, t) && job.Clear() && DistinctKeys(job.listing) && i < |job.listing|
    requires job.c.dest(job.listing[i].key).Some? && !Blocked(t, job.c.dest(job.listing[i].key).value)
    ensures var u := WithFile(t, job.c.dest(job.listing[i].key).value, job.body(job.c.identity, job.listing[i].key, job.listing[i].etag));
            Forward(job, t, u) && Fetched(job, i, u)
  {
    var o := job.listing[i];
    var p, content := job.c.dest(o.key).value, job.body(job.c.identity, o.key, o.etag);
    FetchKeeps(job, t, i);
    FetchedKept(job, t, i);
    assert o.key in job.New() && Known(job.c, job.New(), p);
    WrittenElsewhere(job.c, job.listing, t, p, content);
    FetchAccounted(job, t, o.key, t.files[p := content]);
    ParentsNew(job, t, t.files[p := content], o.key);
    assert Fetched(job, i, WithFile(t, p, content));
  }

  lemma FetchAccounted(job: Job, t: Tree, k: string, files: map<Path, string>)
    requires k in job.New() && job.c.dest(k).Some?
    ensures Accounted(job, t) == Accounted(job, Tree(files, t.dirs + DirsAbove(job.c.dest(k).value)))
  {
    FetchPrunable(job.c, job.New() + job.lost, job.Gone(), t, k, files);
  }

  lemma ParentsNew(job: Job, t: Tree, files: map<Path, string>, k: string)
    requires k in job.New() && job.c.dest(k).Some?
    ensures NewDirs(job, t, Tree(files, t.dirs + DirsAbove(job.c.dest(k).value)))
  {
    var p := job.c.dest(k).value;
    assert Known(job.c, job.New(), p);
    forall d | d in DirsAbove(p) ensures Above(d, p) {
      AboveDirs(p, d);
    }
  }

  lemma SameFiles(job: Job, t: Tree, dirs: set<Path>)
    ensures Elsewhere(job.c, job.listing, t, Tree(t.files, dirs))
    ensures forall j | 0 <= j < |job.listing| && Fetched(job, j, t) :: Fetched(job, j, Tree(t.files, dirs))
  {
  }

  lemma ForwardOf(job: Job, t: Tree, u: Tree)
    requires HalfSynced(job, u) && Elsewhere(job.c, job.listing, t, u) && Accounted(job, t) == Accounted(job, u) && NewDirs(job, t, u)
    requires forall j | 0 <= j < |job.listing| && Fetched(job, j, t) :: Fetched(job, j, u)
    ensures Forward(job, t, u)
  {
  }

  lemma ParentsForward(job: Job, t: Tree, i: nat)
    requires HalfSynced(job, t) && job.Clear() && i < |job.listing|
    requires job.c.dest(job.listing[i].key).Some? && !Blocked(t, job.c.dest(job.listing[i].key).value)
    ensures Forward(job, t, Tree(t.files, t.dirs + DirsAbove(job.c.dest(job.listing[i].key).value)))
  {
    var dirs := t.dirs + DirsAbove(job.c.dest(job.listing[i].key).value);
    ParentsKeep(job, t, i);
    assert job.listing[i].key in job.New();
    FetchAccounted(job, t, job.listing[i].key, t.files);
    SameFiles(job, t, dirs);
    ParentsNew(job, t, t.files, job.listing[i].key);
    ForwardOf(job, t, Tree(t.files, dirs));
  }

  /** Half synced, everything listed fetched, and of the dropped keys only `todo` still to go and `left` to stay. */
  ghost predicate Dropping(job: Job, left: set<string>, todo: set<string>, t: Tree) {
    && HalfSynced(job, t)
    && (forall j | 0 <= j < |job.listing| :: Fetched(job, j, t))
    && (forall p | p in t.files :: Known(job.c, job.New() + left + todo, p))
  }

  // The objects that stay are elsewhere.
  lemma DropSpares(job: Job, t: Tree, k: string, j: nat, u: Tree)
    requires job.Clear() && k in job.Gone() && job.c.dest(k).Some? && j < |job.listing|
    requires u.files == t.files - {job.c.dest(k).value}
    ensures Fetched(job, j, t) ==> Fetched(job, j, u)
    ensures NotStale(job, j, t) ==> NotStale(job, j, u)
  {
    assert job.listing[j].key in job.New();
    if job.c.dest(job.listing[j].key).Some? {
      OneKey(job.c, job.seen, job.listing[j].key, k);
    }
  }

  lemma DropStep(job: Job, left: set<string>, todo: set<string>, t: Tree, k: string, dirs: set<Path>)
    requires Dropping(job, left, todo, t) && job.Clear()
    requires k in todo && todo <= job.Gone() && dirs <= t.dirs
    requires WellFormed(Tree(t.files - {job.c.dest(k).value}, dirs))
    ensures Dropping(job, left, todo - {k}, Tree(t.files - {job.c.dest(k).value}, dirs))
  {
    var u := Tree(t.files - {job.c.dest(k).value}, dirs);
    forall j | 0 <= j < |job.listing| ensures Fetched(job, j, u) && NotStale(job, j, u) {
      assert Fetched(job, j, t) && NotStale(job, j, t);
      DropSpares(job, t, k, j, u);
    }
    forall q | q in u.files ensures Known(job.c, job.New() + left + (todo - {k}), q) {
      DropKnown(job.c, job.New() + left, todo, k, q);
    }
  }

  // A file whose removal fails stays, and its key is left.
  lemma StuckStep(job: Job, left: set<string>, todo: set<string>, t: Tree, k: string)
    requires Dropping(job, left, todo, t)
    ensures Dropping(job, left + {k}, todo - {k}, t)
  {
    forall p | p in t.files ensures Known(job.c, job.New() + (left + {k}) + (todo - {k}), p) {
      KnownGrows(job.c, job.New() + left + todo, job.New() + (left + {k}) + (todo - {k}), p);
    }
  }

  lemma DroppedDestFree(job: Job, t: Tree, k: string)
    requires HalfSynced(job, t) && job.Clear() && k in job.prev
    ensures job.c.dest(k).Some? && job.c.dest(k).value !in t.dirs
  {
    var keys := job.seen;
    forall d | d in t.dirs ensures d != job.c.dest(k).value {
      var q :| Known(job.c, keys, q) && Above(d, q);
      var kq :| kq in keys && job.c.dest(kq) == Some(q);
      OneKey(job.c, keys, k, kq);
    }
  }

  lemma DroppedAll(job: Job, left: set<string>, t: Tree)
    requires DistinctKeys(job.listing) && Dropping(job, left, {}, t) && There(job.c, left - job.New(), t)
    ensures WellFormed(t) && IsCheckout(job.c, job.body, ToIndex(job.listing), left - job.New(), t)
    ensures Prunable(job.c, job.New() + left, {}, t) <==> Tidy(t)
  {
    var objects := ToIndex(job.listing);
    ToIndexHolds(job.listing);
    ToIndexKeys(job.listing);
    assert job.New() + left + {} == job.New() + left == objects.Keys + (left - job.New());
    forall k | k in objects
      ensures job.c.dest(k).Some? && job.c.dest(k).value in t.files
      ensures t.files[job.c.dest(k).value] == job.body(job.c.identity, k, objects[k])
    {
      var i :| 0 <= i < |job.listing| && job.listing[i].key == k;
      assert Fetched(job, i, t);
    }
    forall p ensures p in t.files <==> Known(job.c, job.New() + left, p) {
    }
    TidyWhenCovered(job.c, job.New() + left, t);
  }

  // ---- drops ---------------------------------------------------------------------------------------------------------

  // The keys left when this one is dropped.
  function LeftAfter(c: Layout, left: set<string>, k: string, stuck: bool, before: Tree): set<string> {
    if stuck && c.dest(k).Some? && c.dest(k).value in before.files then left + {k} else left
  }

  /** One dropped object dealt with; `whole` when its pruning ran to its end. */
  ghost predicate OneGone(job: Job, left: set<string>, todo: set<string>, k: string, stuck: bool, whole: bool, before: Tree, after: Tree) {
    && job.c.dest(k).Some?
    && after.files == (if stuck && job.c.dest(k).value in before.files then before.files else before.files - {job.c.dest(k).value})
    && Dropping(job, LeftAfter(job.c, left, k, stuck, before), todo - {k}, after) && after.dirs <= before.dirs
    && (whole ==> (Prunable(job.c, job.New() + left, todo, before) <==>
                   Prunable(job.c, job.New() + LeftAfter(job.c, left, k, stuck, before), todo - {k}, after)))
  }

  lemma StuckOne(job: Job, left: set<string>, todo: set<string>, k: string, t: Tree)
    requires Dropping(job, left, todo, t) && k in todo && job.c.dest(k).Some? && job.c.dest(k).value in t.files
    ensures forall whole :: OneGone(job, left, todo, k, true, whole, t, t)
  {
    StuckStep(job, left, todo, t, k);
    StuckPrunable(job.c, job.New() + left, todo, t, k);
    assert job.New() + left + {k} == job.New() + (left + {k});
  }

  lemma GoneOne(job: Job, left: set<string>, todo: set<string>, k: string, stuck: bool, whole: bool, before: Tree, after: Tree)
    requires job.Clear() && Dropping(job, left, todo, before)
    requires k in todo && todo <= job.Gone() && job.c.dest(k).Some? && job.c.dest(k).value !in before.dirs
    requires !(stuck && job.c.dest(k).value in before.files)
    requires after.files == before.files - {job.c.dest(k).value} && after.dirs <= before.dirs && WellFormed(after)
    requires whole ==> after.dirs == Pruned(before.files - {job.c.dest(k).value}, before.dirs, job.c.dest(k).value)
    ensures OneGone(job, left, todo, k, stuck, whole, before, after)
  {
    DropStep(job, left, todo, before, k, after.dirs);
    if whole {
      assert after == Dropped(before, job.c.dest(k).value);
      DropPrunable(job.c, job.New() + left, todo, before, k);
    }
  }

  // The dropped objects still to come are there or not as at the start.
  ghost predicate Waiting(c: Layout, keys: set<string>, start: map<Path, string>, now: map<Path, string>) {
    forall k | k in keys && c.dest(k).Some? :: c.dest(k).value in now <==> c.dest(k).value in start
  }

  /** Amid the drops: `todo` is not looked at yet, and exactly the keys whose removal failed are left. */
  ghost predicate DropState(job: Job, left: set<string>, todo: set<string>, stuck: set<string>, start: Tree, t: Tree) {
    && todo <= job.prev.Keys && job.lost - job.New() <= left <= job.lost + (job.prev.Keys - todo)
    && Dropping(job, left, todo - job.New(), t) && There(job.c, left, t)
    && left == LostOf(job.c, job.listing, job.lost, (job.prev.Keys - todo) * stuck, start.files)
    && Within(t.files, start.files) && Waiting(job.c, todo - job.New(), start.files, t.files) && t.dirs <= start.dirs
  }

  lemma DropStart(job: Job, stuck: set<string>, t: Tree)
    requires Dropping(job, job.lost - job.New(), job.Gone(), t)
    requires There(job.c, job.lost - job.New(), t)
    ensures DropState(job, job.lost - job.New(), job.prev.Keys, stuck, t, t)
    ensures Balanced(job, job.lost - job.New(), job.prev.Keys, t, t)
  {
    LostStart(job.c, job.listing, job.lost, t);
    assert job.New() + (job.lost - job.New()) == job.New() + job.lost;
    assert (job.prev.Keys - job.prev.Keys) * stuck == {};
  }

  lemma DropSkip(job: Job, left: set<string>, todo: set<string>, stuck: set<string>, start: Tree, t: Tree, k: string)
    requires DropState(job, left, todo, stuck, start, t) && k in todo && k in job.New()
    ensures DropState(job, left, todo - {k}, stuck, start, t)
  {
    TakeOne(todo, job.New(), k);
    TryOne(job.c, job.listing, job.lost, job.prev.Keys, todo, stuck, start.files, k);
  }

  // What the next drop may assume.
  lemma DropHere(job: Job, left: set<string>, todo: set<string>, stuck: set<string>, start: Tree, t: Tree, k: string)
    requires DropState(job, left, todo, stuck, start, t) && k in todo && k !in job.New() && job.lost !! job.prev.Keys
    ensures Dropping(job, left, todo - job.New(), t) && There(job.c, left, t) && WellFormed(t)
    ensures left <= job.lost + job.prev.Keys && k !in left && left !! job.New() && todo - job.New() <= job.Gone()
  {
  }

  lemma DropNext(job: Job, left: set<string>, todo: set<string>, stuck: set<string>, start: Tree, before: Tree, after: Tree, k: string)
    requires DropState(job, left, todo, stuck, start, before) && job.Clear()
    requires k in todo && k !in job.New() && k !in left && job.c.dest(k).Some?
    requires after.files == if k in stuck && job.c.dest(k).value in before.files then before.files else before.files - {job.c.dest(k).value}
    requires Dropping(job, LeftAfter(job.c, left, k, k in stuck, before), todo - job.New() - {k}, after) && after.dirs <= before.dirs
    ensures DropState(job, LeftAfter(job.c, left, k, k in stuck, before), todo - {k}, stuck, start, after)
  {
    TakeOne(todo, job.New(), k);
    assert k in todo - job.New();
    FilesStep(job.c, k, k in stuck, start.files, before.files, after.files);
    NextLeft(job.c, job.listing, job.lost, job.prev.Keys, left, todo, stuck, start, before, k);
    LeftThere(job.c, job.seen, left, k, k in stuck, before, after);
    WaitingStep(job.c, job.seen, todo - job.New(), start.files, before.files, after.files, k);
  }

  lemma FilesStep(c: Layout, k: string, stuck: bool, start: map<Path, string>, before: map<Path, string>, after: map<Path, string>)
    requires c.dest(k).Some? && Within(before, start)
    requires after == if stuck && c.dest(k).value in before then before else before - {c.dest(k).value}
    ensures Within(after, start) && Within(after, before) && forall q | q in before && q != c.dest(k).value :: q in after
  {
  }

  lemma NextLeft(c: Layout, listing: seq<Obj>, lost: set<string>, keys: set<string>, left: set<string>, todo: set<string>,
                 stuck: set<string>, start: Tree, before: Tree, k: string)
    requires k in todo && todo <= keys && k !in Keys(listing) && Waiting(c, todo - Keys(listing), start.files, before.files)
    requires left == LostOf(c, listing, lost, (keys - todo) * stuck, start.files)
    requires lost - Keys(listing) <= left <= lost + (keys - todo)
    ensures var left' := LeftAfter(c, left, k, k in stuck, before);
            && left' == LostOf(c, listing, lost, (keys - (todo - {k})) * stuck, start.files)
            && lost - Keys(listing) <= left' <= lost + (keys - (todo - {k}))
  {
    TryOne(c, listing, lost, keys, todo, stuck, start.files, k);
  }

  lemma LeftThere(c: Layout, scope: set<string>, left: set<string>, k: string, stuck: bool, before: Tree, after: Tree)
    requires Apart(c, scope) && There(c, left, before) && left <= scope && k in scope && k !in left && c.dest(k).Some?
    requires after.files == if stuck && c.dest(k).value in before.files then before.files else before.files - {c.dest(k).value}
    ensures There(c, LeftAfter(c, left, k, stuck, before), after)
  {
    forall kl | kl in left ensures c.dest(kl).value in after.files {
      OneKey(c, scope, kl, k);
    }
  }

  lemma WaitingStep(c: Layout, scope: set<string>, keys: set<string>, start: map<Path, string>, before: map<Path, string>,
                    now: map<Path, string>, k: string)
    requires Waiting(c, keys, start, before) && Apart(c, scope) && keys <= scope && k in keys && c.dest(k).Some?
    requires Within(now, before) && forall q | q in before && q != c.dest(k).value :: q in now
    ensures Waiting(c, keys - {k}, start, now)
  {
    forall o | o in keys - {k} && c.dest(o).Some? ensures c.dest(o).value in now <==> c.dest(o).value in start {
      OneKey(c, scope, o, k);
    }
  }

  lemma TryOne(c: Layout, listing: seq<Obj>, lost: set<string>, keys: set<string>, todo: set<string>, stuck: set<string>,
               files: map<Path, string>, k: string)
    requires k in todo && todo <= keys
    ensures LostOf(c, listing, lost, (keys - (todo - {k})) * stuck, files) ==
            LostOf(c, listing, lost, (keys - todo) * stuck, files)
            + if k in stuck && k !in Keys(listing) && c.dest(k).Some? && c.dest(k).value in files then {k} else {}
  {
    var tried := (keys - todo) * stuck;
    if k in stuck {
      assert (keys - (todo - {k})) * stuck == tried + {k};
      if k !in Keys(listing) {
        LostGrows(c, listing, lost, tried, files, k);
      }
    } else {
      assert (keys - (todo - {k})) * stuck == tried;
    }
  }

  // Directories are accounted for now exactly when they were at the start.
  ghost predicate Balanced(job: Job, left: set<string>, todo: set<string>, start: Tree, t: Tree) {
    Accounted(job, start) <==> Prunable(job.c, job.New() + left, todo - job.New(), t)
  }

  // However the drops ended, the cache is half synced and the lost files are there.
  lemma DropsKeep(job: Job, left: set<string>, todo: set<string>, stuck: set<string>, start: Tree, t: Tree)
    requires DropState(job, left, todo, stuck, start, t) && job.lost !! job.prev.Keys
    ensures Amid(job, t)
    ensures Balanced(job, left, todo, start, t) && Accounted(job, start) ==>
              Accounted(job, t)
  {
    LeftBack(job, left, todo - job.New(), t);
  }

  // Left keys were lost or indexed, so what accounts for directories now did so in the index's terms.
  lemma LeftBack(job: Job, left: set<string>, todo: set<string>, t: Tree)
    requires job.lost - job.New() <= left <= job.lost + job.prev.Keys && todo <= job.Gone() && left !! job.New()
    requires There(job.c, left, t) && WellFormed(t)
    ensures Prunable(job.c, job.New() + left, todo, t) ==> Accounted(job, t)
  {
    if Prunable(job.c, job.New() + left, todo, t) {
      forall d | d in t.dirs ensures Covered(job.c, job.New() + job.lost, job.Gone(), t.dirs, d) {
        CoverBack(job, left, todo, t, d);
      }
      AllCovered(job.c, job.New() + job.lost, job.Gone(), t);
    }
  }

  lemma CoverBack(job: Job, left: set<string>, todo: set<string>,
                  t: Tree, d: Path)
    requires left <= job.lost + job.prev.Keys && todo <= job.Gone() && left !! job.New()
    requires There(job.c, left, t) && WellFormed(t) && d in t.dirs && Prunable(job.c, job.New() + left, todo, t)
    ensures Covered(job.c, job.New() + job.lost, job.Gone(), t.dirs, d)
  {
    if q :| Known(job.c, job.New() + left, q) && Above(d, q) {
      var k :| k in job.New() + left && job.c.dest(k) == Some(q);
      if k in job.New() + job.lost {
        assert Known(job.c, job.New() + job.lost, q);
      } else {
        assert Known(job.c, job.Gone(), q);
        ParentBelow(d, q);
        assert q in t.files && Above(q[..|q| - 1], q);
      }
    } else {
      var q :| Known(job.c, todo, q) && Above(d, q) && q[..|q| - 1] in t.dirs;
      KnownGrows(job.c, todo, job.Gone(), q);
    }
  }

  lemma ThereElsewhere(c: Layout, scope: set<string>, listing: seq<Obj>, lost: set<string>, before: Tree, after: Tree)
    requires Apart(c, scope) && lost + Keys(listing) <= scope && Elsewhere(c, listing, before, after)
    requires There(c, lost - Keys(listing), before)
    ensures There(c, lost - Keys(listing), after)
  {
    forall k | k in lost - Keys(listing) ensures c.dest(k).Some? && c.dest(k).value in after.files {
      NotListed(c, scope, listing, k);
    }
  }

  /** What a completed sync leaves: the listing's checkout and beside it exactly the files of the lost keys, each as it
      was; so it is the plain checkout exactly when none is lost.  It has no new directory but those the listing needs;
      with every pruning finished, it has no spare one exactly when all were accounted for before. */
  ghost predicate Completed(job: Job, luck: Luck, before: Tree, after: Tree, lost: set<string>) {
    && WellFormed(after) && IsCheckout(job.c, job.body, ToIndex(job.listing), lost, after) && There(job.c, lost, after)
    && lost == LostOf(job.c, job.listing, job.lost, job.prev.Keys * luck.stuck, before.files)
    && (forall p | p in after.files && !Known(job.c, job.New(), p) :: p in before.files && after.files[p] == before.files[p])
    && (IsCheckout(job.c, job.body, ToIndex(job.listing), {}, after) <==> lost == {})
    && NewDirs(job, before, after) && (luck.slips == map[] ==> (Tidy(after) <==> Accounted(job, before)))
  }

  lemma Complete(job: Job, left: set<string>, luck: Luck, start: Tree, fetched: Tree, t: Tree)
    requires DistinctKeys(job.listing) && job.Clear() && job.lost !! job.prev.Keys
    requires Forward(job, start, fetched)
    requires DropState(job, left, {}, luck.stuck, fetched, t)
    requires luck.slips == map[] ==> Balanced(job, left, {}, fetched, t)
    ensures Completed(job, luck, start, t, left)
  {
    assert {} - job.New() == {} && job.prev.Keys - {} == job.prev.Keys && left - job.New() == left;
    ApartLess(job.c, job.lost + job.prev.Keys * luck.stuck + job.New(), job.seen);
    LostElsewhere(job.c, job.listing, job.lost, job.prev.Keys * luck.stuck, start, fetched);
    DroppedAll(job, left, t);
    ApartLess(job.c, job.lost + job.prev.Keys + job.New(), job.seen);
    AtEnd(job, left, t);
  }

  lemma LeftAtEnd(job: Job, left: set<string>, stuck: set<string>, start: Tree, t: Tree)
    requires DropState(job, left, {}, stuck, start, t)
    ensures Prunable(job.c, job.New() + left, {}, t) ==> Accounted(job, t)
  {
    LeftBack(job, left, {}, t);
  }

  lemma AtEnd(job: Job, left: set<string>, t: Tree)
    requires DistinctKeys(job.listing) && IsCheckout(job.c, job.body, ToIndex(job.listing), left, t) && There(job.c, left, t)
    requires left !! job.New() && left <= job.lost + job.prev.Keys && Apart(job.c, job.lost + job.prev.Keys + job.New())
    ensures IsCheckout(job.c, job.body, ToIndex(job.listing), {}, t) <==> left == {}
  {
    ToIndexKeys(job.listing);
    PlainCheckout(job.c, job.body, ToIndex(job.listing), left, t);
  }

  // Half synced, and the lost files are there.
  ghost predicate Amid(job: Job, t: Tree) {
    HalfSynced(job, t) && There(job.c, job.lost - job.New(), t) && job.lost !! job.prev.Keys
  }

  lemma TakeOne(todo: set<string>, keys: set<string>, k: string)
    ensures todo - {k} - keys == if k in keys then todo - keys else todo - keys - {k}
  {
  }

  lemma FetchedDropping(job: Job, t: Tree)
    requires HalfSynced(job, t) && FetchedUpTo(job, |job.listing|, t)
    ensures Dropping(job, job.lost - job.New(), job.Gone(), t)
  {
    assert job.New() + (job.lost - job.New()) + (job.Gone()) == job.Scope();
  }

  // ---- between syncs ------------------------------------------------------------------------------------------------------

  /** Between syncs every file belongs to an indexed or a lost object, the lost ones' files are there, and every directory
      belongs to an object once listed. */
  ghost predicate InHand(c: Layout, objects: map<string, string>, lost: set<string>, seen: set<string>, t: Tree) {
    && WellFormed(t) && Apart(c, seen) && objects.Keys + lost <= seen
    && (forall p | p in t.files :: Known(c, objects.Keys + lost, p))
    && (forall d | d in t.dirs :: exists p :: Known(c, seen, p) && Above(d, p))
    && (forall k | k in objects :: c.dest(k).Some? && c.dest(k).value != [])
    && There(c, lost, t) && lost !! objects.Keys
  }

  /** What a sync makes of the store: an object with the ETag the index has is kept as it is where something is there. */
  function Viewed(c: Layout, body: Body, prev: map<string, string>, t: Tree): Body {
    (store, k, etag) =>
      if store == c.identity && k in prev && prev[k] == etag && c.dest(k).Some? && c.dest(k).value in t.files
      then t.files[c.dest(k).value] else body(store, k, etag)
  }

  /** The sync that starts from this tree. */
  function JobOf(c: Layout, body: Body, prev: map<string, string>, listing: seq<Obj>, lost: set<string>, seen: set<string>, t: Tree): Job {
    Job(c, Viewed(c, body, prev, t), prev, listing, lost, seen + Keys(listing))
  }

  lemma StartOf(c: Layout, body: Body, prev: map<string, string>, listing: seq<Obj>, lost: set<string>, seen: set<string>, t: Tree)
    requires InHand(c, prev, lost, seen, t) && Apart(c, seen + Keys(listing))
    ensures var job := JobOf(c, body, prev, listing, lost, seen, t); job.Clear() && Amid(job, t)
  {
    var job := JobOf(c, body, prev, listing, lost, seen, t);
    forall p | p in t.files ensures Known(c, job.Scope(), p) {
      KnownGrows(c, prev.Keys + lost, job.Scope(), p);
    }
    forall d | d in t.dirs ensures exists p :: Known(c, job.seen, p) && Above(d, p) {
      var p :| Known(c, seen, p) && Above(d, p);
      KnownGrows(c, seen, job.seen, p);
    }
  }

  /** The keys whose files a failed sync leaves there though the index does not know them: lost before, or fetched now. */
  function Astray(c: Layout, prev: map<string, string>, listing: seq<Obj>, lost: set<string>, t: Tree): set<string> {
    set k | k in lost + Keys(listing) && k !in prev && c.dest(k).Some? && c.dest(k).value in t.files
  }

  lemma FailedInHand(job: Job, t: Tree)
    requires Amid(job, t) && job.Clear()
    ensures InHand(job.c, job.prev, Astray(job.c, job.prev, job.listing, job.lost, t), job.seen, t)
  {
    var lost := Astray(job.c, job.prev, job.listing, job.lost, t);
    forall p | p in t.files ensures Known(job.c, job.prev.Keys + lost, p) {
      var k :| k in job.Scope() && job.c.dest(k) == Some(p);
      assert k in job.prev.Keys + lost;
    }
  }

  lemma BareInHand(c: Layout)
    ensures InHand(c, map[], {}, {}, BARE)
  {
  }

  /** After a failed sync: the old index, and the files fetched only for the new listing are lost until it is listed again. */
  ghost predicate StillInHand(job: Job, t: Tree, lost: set<string>) {
    && lost == Astray(job.c, job.prev, job.listing, job.lost, t) && InHand(job.c, job.prev, lost, job.seen, t)
    && (forall i | 0 <= i < |job.listing| :: NotStale(job, i, t)) && lost - job.New() == job.lost - job.New()
  }

  lemma FailHere(job: Job, t: Tree) returns (lost: set<string>)
    requires Amid(job, t) && job.Clear()
    ensures StillInHand(job, t, lost)
  {
    lost := Astray(job.c, job.prev, job.listing, job.lost, t);
    FailedInHand(job, t);
  }

  lemma DoneInHand(job: Job, luck: Luck, before: Tree, after: Tree, lost: set<string>)
    requires DistinctKeys(job.listing) && job.Clear() && Amid(job, after) && Completed(job, luck, before, after, lost)
    ensures InHand(job.c, ToIndex(job.listing), lost, job.seen, after)
  {
    ToIndexKeys(job.listing);
    forall k | k in ToIndex(job.listing) ensures job.c.dest(k).Some? && job.c.dest(k).value != [] {
      assert Known(job.c, ToIndex(job.listing).Keys + lost, job.c.dest(k).value);
    }
  }

  ghost predicate Acceptable(c: Layout, index: Index, seen: set<string>, listing: seq<Obj>) {
    && DistinctKeys(listing) && Tagged(listing)
    && Apart(c, (if index.store == c.identity then seen else {}) + Keys(listing))
  }

  // ---- what is current ------------------------------------------------------------------------------------------------------

  // An object with the ETag the index has, whose file is there, has its content.
  predicate IsCurrent(c: Layout, body: Body, prev: map<string, string>, o: Obj, t: Tree) {
    o.key in prev && prev[o.key] == o.etag && c.dest(o.key).Some? && c.dest(o.key).value in t.files ==>
      t.files[c.dest(o.key).value] == body(c.identity, o.key, o.etag)
  }

  predicate Current(c: Layout, body: Body, prev: map<string, string>, listing: seq<Obj>, t: Tree) {
    forall i | 0 <= i < |listing| :: IsCurrent(c, body, prev, listing[i], t)
  }

  lemma ViewedTrue(c: Layout, body: Body, prev: map<string, string>, o: Obj, t: Tree)
    ensures Viewed(c, body, prev, t)(c.identity, o.key, o.etag) == body(c.identity, o.key, o.etag) <==> IsCurrent(c, body, prev, o, t)
  {
  }

  /** What a completed sync made of the store is what the store holds exactly when nothing it kept was stale. */
  lemma CheckoutIsTrue(c: Layout, body: Body, prev: map<string, string>, listing: seq<Obj>, lost: set<string>, before: Tree, after: Tree)
    requires DistinctKeys(listing) && IsCheckout(c, Viewed(c, body, prev, before), ToIndex(listing), lost, after)
    ensures IsCheckout(c, body, ToIndex(listing), lost, after) <==> Current(c, body, prev, listing, before)
  {
    ToIndexHolds(listing);
    forall i | 0 <= i < |listing|
      ensures var k := listing[i].key;
              && c.dest(k).Some? && c.dest(k).value in after.files
              && (after.files[c.dest(k).value] == body(c.identity, k, listing[i].etag) <==> IsCurrent(c, body, prev, listing[i], before))
    {
      ViewedTrue(c, body, prev, listing[i], before);
      assert Known(c, ToIndex(listing).Keys + lost, c.dest(listing[i].key).value);
    }
    if Current(c, body, prev, listing, before) {
      forall k | k in ToIndex(listing)
        ensures after.files[c.dest(k).value] == body(c.identity, k, ToIndex(listing)[k])
      {
        var i :| 0 <= i < |listing| && listing[i].key == k;
        assert IsCurrent(c, body, prev, listing[i], before);
      }
    }
  }

  /** A checkout is current for any next listing, and without spare directories accounts for all it has. */
  lemma SyncedStart(c: Layout, body: Body, objects: map<string, string>, listing: seq<Obj>, lost: set<string>, seen: set<string>, t: Tree)
    requires WellFormed(t) && IsCheckout(c, body, objects, lost, t) && lost !! objects.Keys
    ensures Current(c, body, objects, listing, t)
    ensures Tidy(t) ==> Accounted(JobOf(c, body, objects, listing, lost, seen, t), t)
  {
    forall i | 0 <= i < |listing| ensures IsCurrent(c, body, objects, listing[i], t) {
    }
    if Tidy(t) {
      forall d | d in t.dirs ensures Covered(c, Keys(listing) + lost, objects.Keys - Keys(listing), t.dirs, d) {
        var p :| p in t.files && Above(d, p);
        FileCovers(c, objects.Keys + lost, Keys(listing) + lost, t, d, p);
        assert objects.Keys + lost - (Keys(listing) + lost) == objects.Keys - Keys(listing);
      }
      AllCovered(c, Keys(listing) + lost, objects.Keys - Keys(listing), t);
    }
  }
}
