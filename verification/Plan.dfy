/** internal/plan: the diff engine.  `PlanOf` is the set-theoretic plan; `Compute` is the imperative
    diff that must equal it whatever order its maps are iterated in. */
module Plan {
  import opened Fileset
  import opened Ordering
  import opened Quadletref

  // manifest.Resources: the two slice limits, "" when unset
  datatype Resources = Resources(memoryMax: string, cpuQuota: string)

  const UNLIMITED := Resources("", "")

  /** cadre.File */
  datatype File = File(name: string, content: string, hash: Digest, isUnit: bool, isSystemdUnit: bool)

  /** state.RegistriesHash as an ideal hash of what it fingerprints. */
  datatype Login = Login(registry: string, username: string, passwordKey: string, insecure: bool)

  datatype LoginDigest = NoLogins | LoginDigest(logins: seq<Login>, passwords: seq<Digest>)

  /** state.State.  The unit lists are multisets: nothing reads their order, but a duplicate would show. */
  datatype State = State(uid: int, files: map<string, Digest>, secretHashes: map<string, Digest>,
                         units: multiset<string>, systemdUnits: multiset<string>,
                         resources: Resources, registries: LoginDigest)

  const EMPTY_STATE := State(0, map[], map[], multiset{}, multiset{}, UNLIMITED, NoLogins)

  /** plan.Plan.  Files are named, the cadre holds their contents. */
  datatype Plan = Plan(writeFiles: seq<string>, removeFiles: seq<string>,
                       createSecrets: seq<string>, removeSecrets: seq<string>,
                       setResources: bool, daemonReload: bool,
                       startUnits: seq<string>, restartUnits: seq<string>, stopUnits: seq<string>,
                       enableUnits: seq<string>, restartSystemdUnits: seq<string>, disableUnits: seq<string>)
  {
    predicate Empty() {
      && writeFiles == [] && removeFiles == [] && createSecrets == [] && removeSecrets == []
      && !setResources && !daemonReload
      && startUnits == [] && restartUnits == [] && stopUnits == []
      && enableUnits == [] && restartSystemdUnits == [] && disableUnits == []
    }
  }

  /** What a pass wants: the files by name, the hashes of the secrets to create, the limits. */
  datatype Desired = Desired(files: map<string, File>, secretHashes: map<string, Digest>, resources: Resources)

  // ---- the cadre's file list ------------------------------------------------------------------

  predicate DistinctNames(fs: seq<File>) {
    forall i, j | 0 <= i < j < |fs| :: fs[i].name != fs[j].name
  }

  // cadre.Load and prune.Files set the flags from the extension.
  predicate FlagsFollow(f: File) {
    f.isUnit == IsUnitFile(f.name) && f.isSystemdUnit == IsSystemdUnit(f.name)
  }

  function ByName(fs: seq<File>): map<string, File> {
    if fs == [] then map[] else ByName(fs[..|fs| - 1])[fs[|fs| - 1].name := fs[|fs| - 1]]
  }

  lemma {:induction false} ByNameHolds(fs: seq<File>)
    requires DistinctNames(fs)
    ensures forall i | 0 <= i < |fs| :: fs[i].name in ByName(fs) && ByName(fs)[fs[i].name] == fs[i]
    ensures forall n | n in ByName(fs) :: ByName(fs)[n] in fs && ByName(fs)[n].name == n
  {
    if fs != [] {
      ByNameHolds(fs[..|fs| - 1]);
    }
  }

  predicate Named(files: map<string, File>) {
    forall n | n in files :: files[n].name == n && FlagsFollow(files[n])
  }

  // ---- the set-theoretic plan -----------------------------------------------------------------

  predicate Changed(d: Desired, prior: State, n: string)
    requires n in d.files
  {
    Recorded(prior.files, n) != d.files[n].hash
  }

  predicate Enabled(f: File) {
    ShouldEnable(f.name, f.content)
  }

  function EnableSet(d: Desired, prior: State): set<string> {
    set n | n in d.files && Enabled(d.files[n]) && n !in prior.systemdUnits
  }

  function DisableSet(d: Desired, prior: State): set<string> {
    set u | u in prior.systemdUnits && !(u in d.files && Enabled(d.files[u]))
  }

  // Written: every changed file, and every unit enabled for the first time.
  function WriteSet(d: Desired, prior: State): set<string> {
    set n | n in d.files && (Changed(d, prior, n) || n in EnableSet(d, prior))
  }

  function RemoveSet(d: Desired, prior: State): set<string> {
    set n | n in prior.files && n !in d.files
  }

  function CreateSet(d: Desired, prior: State): set<string> {
    set k | k in d.secretHashes && Recorded(prior.secretHashes, k) != d.secretHashes[k]
  }

  function DropSet(d: Desired, prior: State): set<string> {
    set k | k in prior.secretHashes && k !in d.secretHashes
  }

  function ChangedSupport(d: Desired, prior: State): set<string> {
    set n | n in d.files && Changed(d, prior, n) && !d.files[n].isUnit && !d.files[n].isSystemdUnit
  }

  function RemovedSupport(d: Desired, prior: State): set<string> {
    set n | n in prior.files && n !in d.files && IsSupportFile(n)
  }

  predicate Meets(refs: seq<string>, changed: set<string>) {
    exists r | r in refs :: r in changed
  }

  predicate Mentions(f: File, n: string) {
    f.isUnit && n in Extract(f.content).files
  }

  predicate Referenced(d: Desired, n: string) {
    exists m | m in d.files :: Mentions(d.files[m], n)
  }

  // Some changed support file is referenced by no unit.
  predicate Orphaned(d: Desired, prior: State) {
    exists n | n in ChangedSupport(d, prior) :: !Referenced(d, n)
  }

  // A running unit must restart: its own file, a file or secret it refers to, or an orphan changed.
  predicate Stale(d: Desired, prior: State, f: File)
    requires f.name in d.files
  {
    || Changed(d, prior, f.name)
    || Meets(Extract(f.content).files, ChangedSupport(d, prior))
    || Meets(Extract(f.content).files, RemovedSupport(d, prior))
    || Meets(Extract(f.content).secrets, CreateSet(d, prior))
    || Orphaned(d, prior)
  }

  function StartSet(d: Desired, prior: State): set<string> {
    set n | n in d.files && d.files[n].isUnit && n !in prior.units
  }

  function RestartSet(d: Desired, prior: State): set<string>
    requires Named(d.files)
  {
    set n | n in d.files && d.files[n].isUnit && n in prior.units && Stale(d, prior, d.files[n])
  }

  function StopSet(d: Desired, prior: State): set<string> {
    set u | u in prior.units && u !in d.files
  }

  function RestartSystemdSet(d: Desired, prior: State): set<string> {
    set n | n in d.files && Enabled(d.files[n]) && n in prior.systemdUnits && (Changed(d, prior, n) || Orphaned(d, prior))
  }

  // A unit file is written or removed, or a unit disabled.
  predicate Reloads(d: Desired, prior: State) {
    || (exists n | n in WriteSet(d, prior) :: d.files[n].isUnit || d.files[n].isSystemdUnit)
    || (exists n | n in RemoveSet(d, prior) :: !IsSupportFile(n))
    || DisableSet(d, prior) != {}
  }

  ghost function PlanOf(d: Desired, prior: State): Plan
    requires Named(d.files)
  {
    Plan(Listing(WriteSet(d, prior)), Listing(RemoveSet(d, prior)),
         Listing(CreateSet(d, prior)), Listing(DropSet(d, prior)),
         d.resources != prior.resources, Reloads(d, prior),
         Listing(StartSet(d, prior)), Listing(RestartSet(d, prior)), Listing(StopSet(d, prior)),
         Listing(EnableSet(d, prior)), Listing(RestartSystemdSet(d, prior)), Listing(DisableSet(d, prior)))
  }

  // ---- Compute --------------------------------------------------------------------------------

  method DiffFiles(d: Desired, prior: State)
    returns (write: seq<string>, support: set<string>, units: set<string>, systemd: set<string>)
    ensures Lists(write, set n | n in d.files && Changed(d, prior, n))
    ensures support == ChangedSupport(d, prior)
    ensures units == set n | n in d.files && Changed(d, prior, n) && d.files[n].isUnit
    ensures systemd == set n | n in d.files && Changed(d, prior, n) && !d.files[n].isUnit && d.files[n].isSystemdUnit
  {
    write, support, units, systemd := [], {}, {}, {};
    var todo := d.files.Keys;
    ghost var changed := {};
    while todo != {}
      invariant todo <= d.files.Keys
      invariant Lists(write, changed)
      invariant forall n :: n in changed <==> n in d.files && n !in todo && Changed(d, prior, n)
      invariant forall n :: n in units <==> n in changed && d.files[n].isUnit
      invariant forall n :: n in systemd <==> n in changed && !d.files[n].isUnit && d.files[n].isSystemdUnit
      invariant forall n :: n in support <==> n in changed && !d.files[n].isUnit && !d.files[n].isSystemdUnit
      decreases todo
    {
      var n :| n in todo;
      todo := todo - {n};
      var f := d.files[n];
      if Recorded(prior.files, n) != f.hash {
        ListsAppend(write, changed, n);
        write, changed := write + [n], changed + {n};
        if f.isUnit {
          units := units + {n};
        } else if f.isSystemdUnit {
          systemd := systemd + {n};
        } else {
          support := support + {n};
        }
      }
    }
    assert changed == set n | n in d.files && Changed(d, prior, n);
  }

  // A walk over the cadre's file list has seen `done`, and the file at hand is new to it.
  ghost predicate Walked(fs: seq<File>, i: nat, done: set<string>)
    requires i <= |fs|
  {
    forall n :: n in done <==> exists j | 0 <= j < i :: fs[j].name == n
  }

  lemma WalkStep(fs: seq<File>, i: nat, done: set<string>)
    requires DistinctNames(fs) && i < |fs| && Walked(fs, i, done)
    ensures fs[i].name !in done && Walked(fs, i + 1, done + {fs[i].name})
  {
  }

  lemma WalkEnd(fs: seq<File>, done: set<string>)
    requires DistinctNames(fs) && Walked(fs, |fs|, done)
    ensures done == ByName(fs).Keys
  {
    ByNameHolds(fs);
    forall n | n in ByName(fs) ensures n in done {
      var k :| 0 <= k < |fs| && fs[k] == ByName(fs)[n];
    }
  }

  method DiffSystemd(fs: seq<File>, d: Desired, prior: State, systemd: set<string>)
    returns (enable: seq<string>, restart: seq<string>, replaced: seq<string>)
    requires DistinctNames(fs) && d.files == ByName(fs) && Named(d.files)
    requires systemd == set n | n in d.files && Changed(d, prior, n) && !d.files[n].isUnit && d.files[n].isSystemdUnit
    ensures Lists(enable, EnableSet(d, prior))
    ensures Lists(restart, set n | n in d.files && Enabled(d.files[n]) && n in prior.systemdUnits && Changed(d, prior, n))
    ensures Lists(replaced, set n | n in EnableSet(d, prior) && !Changed(d, prior, n))
  {
    enable, restart, replaced := [], [], [];
    ghost var done, e, r, w := {}, {}, {}, {};
    ByNameHolds(fs);
    for i := 0 to |fs|
      invariant Walked(fs, i, done) && done <= d.files.Keys
      invariant Lists(enable, e) && Lists(restart, r) && Lists(replaced, w)
      invariant forall n :: n in e <==> n in done && Enabled(d.files[n]) && n !in prior.systemdUnits
      invariant forall n :: n in r <==> n in done && Enabled(d.files[n]) && n in prior.systemdUnits && Changed(d, prior, n)
      invariant forall n :: n in w <==> n in e && !Changed(d, prior, n)
    {
      var f := fs[i];
      WalkStep(fs, i, done);
      done := done + {f.name};
      if ShouldEnable(f.name, f.content) {
        if f.name !in prior.systemdUnits {
          ListsAppend(enable, e, f.name);
          enable, e := enable + [f.name], e + {f.name};
          if Recorded(prior.files, f.name) == f.hash {
            ListsAppend(replaced, w, f.name);
            replaced, w := replaced + [f.name], w + {f.name};
          }
        } else if f.name in systemd {
          ListsAppend(restart, r, f.name);
          restart, r := restart + [f.name], r + {f.name};
        }
      }
    }
    WalkEnd(fs, done);
    assert e == EnableSet(d, prior);
    assert w == set n | n in EnableSet(d, prior) && !Changed(d, prior, n);
    assert r == set n | n in d.files && Enabled(d.files[n]) && n in prior.systemdUnits && Changed(d, prior, n);
  }

  // Stale without the orphan fallback.
  predicate Touched(d: Desired, prior: State, f: File)
    requires f.name in d.files
  {
    || Changed(d, prior, f.name)
    || Meets(Extract(f.content).files, ChangedSupport(d, prior))
    || Meets(Extract(f.content).files, RemovedSupport(d, prior))
    || Meets(Extract(f.content).secrets, CreateSet(d, prior))
  }

  method DiffUnits(fs: seq<File>, d: Desired, prior: State, units: set<string>,
                   support: set<string>, removed: set<string>, secrets: set<string>)
    returns (start: seq<string>, restart: seq<string>)
    requires DistinctNames(fs) && d.files == ByName(fs) && Named(d.files)
    requires units == set n | n in d.files && Changed(d, prior, n) && d.files[n].isUnit
    requires support == ChangedSupport(d, prior) && removed == RemovedSupport(d, prior) && secrets == CreateSet(d, prior)
    ensures Lists(start, StartSet(d, prior))
    ensures Lists(restart, set n | n in d.files && d.files[n].isUnit && n in prior.units && Touched(d, prior, d.files[n]))
  {
    start, restart := [], [];
    ghost var done, s, r := {}, {}, {};
    ByNameHolds(fs);
    for i := 0 to |fs|
      invariant Walked(fs, i, done) && done <= d.files.Keys
      invariant Lists(start, s) && Lists(restart, r)
      invariant forall n :: n in s <==> n in done && d.files[n].isUnit && n !in prior.units
      invariant forall n :: n in r <==> n in done && d.files[n].isUnit && n in prior.units && Touched(d, prior, d.files[n])
    {
      var f := fs[i];
      WalkStep(fs, i, done);
      done := done + {f.name};
      if f.isUnit {
        if f.name !in prior.units {
          ListsAppend(start, s, f.name);
          start, s := start + [f.name], s + {f.name};
        } else {
          var again := f.name in units;
          if !again {
            var refs := ExtractRefs(f.content);
            again := Meets(refs.files, support) || Meets(refs.files, removed) || Meets(refs.secrets, secrets);
          }
          if again {
            ListsAppend(restart, r, f.name);
            restart, r := restart + [f.name], r + {f.name};
          }
        }
      }
    }
    WalkEnd(fs, done);
    assert s == StartSet(d, prior);
    assert r == set n | n in d.files && d.files[n].isUnit && n in prior.units && Touched(d, prior, d.files[n]);
  }

  predicate MentionedBefore(fs: seq<File>, i: nat, n: string)
    requires i <= |fs|
  {
    exists j | 0 <= j < i :: Mentions(fs[j], n)
  }

  lemma MentionedStep(fs: seq<File>, i: nat, n: string)
    requires i < |fs|
    ensures MentionedBefore(fs, i + 1, n) <==> MentionedBefore(fs, i, n) || Mentions(fs[i], n)
  {
  }

  method ReferencedNames(fs: seq<File>) returns (referenced: set<string>)
    ensures forall n :: n in referenced <==> MentionedBefore(fs, |fs|, n)
  {
    referenced := {};
    for i := 0 to |fs|
      invariant forall n :: n in referenced <==> MentionedBefore(fs, i, n)
    {
      forall n ensures MentionedBefore(fs, i + 1, n) <==> MentionedBefore(fs, i, n) || Mentions(fs[i], n) {
        MentionedStep(fs, i, n);
      }
      if fs[i].isUnit {
        var refs := ExtractRefs(fs[i].content);
        referenced := referenced + set r | r in refs.files;
      }
    }
  }

  method OrphanChanged(fs: seq<File>, d: Desired, prior: State, support: set<string>) returns (orphan: bool)
    requires DistinctNames(fs) && d.files == ByName(fs)
    requires support == ChangedSupport(d, prior)
    ensures orphan == Orphaned(d, prior)
  {
    if support == {} {
      return false;
    }
    var referenced := ReferencedNames(fs);
    SeqReferences(fs, d);
    orphan := exists n | n in support :: n !in referenced;
  }

  lemma SeqReferences(fs: seq<File>, d: Desired)
    requires DistinctNames(fs) && d.files == ByName(fs)
    ensures forall n :: Referenced(d, n) <==> exists f | f in fs :: Mentions(f, n)
  {
    ByNameHolds(fs);
    forall n ensures Referenced(d, n) <==> exists f | f in fs :: Mentions(f, n) {
      if f :| f in fs && Mentions(f, n) {
        assert f.name in d.files && d.files[f.name] == f;
      }
      if m :| m in d.files && Mentions(d.files[m], n) {
        assert d.files[m] in fs;
      }
    }
  }

  // The coarse fallback: every present unit, Quadlet and native alike, not already queued.
  method RestartAll(fs: seq<File>, d: Desired, prior: State, start: seq<string>, enable: seq<string>,
                    restart0: seq<string>, native0: seq<string>, ghost r0: set<string>, ghost v0: set<string>)
    returns (restart: seq<string>, native: seq<string>)
    requires DistinctNames(fs) && d.files == ByName(fs) && Named(d.files)
    requires Lists(start, StartSet(d, prior)) && Lists(enable, EnableSet(d, prior))
    requires Lists(restart0, r0) && r0 <= KeptUnits(d, prior)
    requires Lists(native0, v0) && v0 <= KeptNative(d, prior)
    ensures Lists(restart, KeptUnits(d, prior))
    ensures Lists(native, KeptNative(d, prior))
  {
    restart, native := restart0, native0;
    ghost var done := {};
    ghost var r, v := r0, v0;
    ByNameHolds(fs);
    for i := 0 to |fs|
      invariant Walked(fs, i, done) && done <= d.files.Keys
      invariant Lists(restart, r) && Lists(native, v)
      invariant r <= KeptUnits(d, prior) && done * KeptUnits(d, prior) <= r
      invariant v <= KeptNative(d, prior) && done * KeptNative(d, prior) <= v
    {
      var f := fs[i];
      WalkStep(fs, i, done);
      done := done + {f.name};
      if f.isUnit && f.name in prior.units && f.name !in restart && f.name !in start {
        ListsAppend(restart, r, f.name);
        restart, r := restart + [f.name], r + {f.name};
      } else if ShouldEnable(f.name, f.content) && f.name in prior.systemdUnits && f.name !in native && f.name !in enable {
        ListsAppend(native, v, f.name);
        native, v := native + [f.name], v + {f.name};
      }
    }
    WalkEnd(fs, done);
  }

  lemma ListsUnion(a: seq<string>, s: set<string>, b: seq<string>, t: set<string>)
    requires Lists(a, s) && Lists(b, t) && s !! t
    ensures Lists(a + b, s + t)
  {
    forall i, j | 0 <= i < j < |a + b| ensures (a + b)[i] != (a + b)[j] {
      if i < |a| <= j {
        assert a[i] in s && b[j - |a|] in t;
      }
    }
  }

  // Sorting the twelve raw lists of a diff gives the plan.
  lemma Assembled(d: Desired, prior: State, p: Plan)
    requires Named(d.files)
    requires Lists(p.writeFiles, WriteSet(d, prior)) && Lists(p.removeFiles, RemoveSet(d, prior))
    requires Lists(p.createSecrets, CreateSet(d, prior)) && Lists(p.removeSecrets, DropSet(d, prior))
    requires Lists(p.startUnits, StartSet(d, prior)) && Lists(p.restartUnits, RestartSet(d, prior))
    requires Lists(p.stopUnits, StopSet(d, prior)) && Lists(p.enableUnits, EnableSet(d, prior))
    requires Lists(p.restartSystemdUnits, RestartSystemdSet(d, prior)) && Lists(p.disableUnits, DisableSet(d, prior))
    requires p.setResources == (d.resources != prior.resources) && p.daemonReload == Reloads(d, prior)
    ensures SortPlan(p) == PlanOf(d, prior)
  {
    SortLists(p.writeFiles, WriteSet(d, prior));
    SortLists(p.removeFiles, RemoveSet(d, prior));
    SortLists(p.createSecrets, CreateSet(d, prior));
    SortLists(p.removeSecrets, DropSet(d, prior));
    SortLists(p.startUnits, StartSet(d, prior));
    SortLists(p.restartUnits, RestartSet(d, prior));
    SortLists(p.stopUnits, StopSet(d, prior));
    SortLists(p.enableUnits, EnableSet(d, prior));
    SortLists(p.restartSystemdUnits, RestartSystemdSet(d, prior));
    SortLists(p.disableUnits, DisableSet(d, prior));
  }

  function SortPlan(p: Plan): Plan {
    Plan(Sort(p.writeFiles), Sort(p.removeFiles), Sort(p.createSecrets), Sort(p.removeSecrets),
         p.setResources, p.daemonReload,
         Sort(p.startUnits), Sort(p.restartUnits), Sort(p.stopUnits),
         Sort(p.enableUnits), Sort(p.restartSystemdUnits), Sort(p.disableUnits))
  }

  // The units that stay, and were already started or enabled.
  function KeptUnits(d: Desired, prior: State): set<string> {
    set n | n in d.files && d.files[n].isUnit && n in prior.units
  }

  function KeptNative(d: Desired, prior: State): set<string> {
    set n | n in d.files && Enabled(d.files[n]) && n in prior.systemdUnits
  }

  method DiffLifecycle(fs: seq<File>, d: Desired, prior: State, units: set<string>, systemd: set<string>,
                       support: set<string>, removed: set<string>, secrets: set<string>)
    returns (start: seq<string>, restart: seq<string>, enable: seq<string>, native: seq<string>, replaced: seq<string>)
    requires DistinctNames(fs) && d.files == ByName(fs) && Named(d.files)
    requires units == set n | n in d.files && Changed(d, prior, n) && d.files[n].isUnit
    requires systemd == set n | n in d.files && Changed(d, prior, n) && !d.files[n].isUnit && d.files[n].isSystemdUnit
    requires support == ChangedSupport(d, prior) && removed == RemovedSupport(d, prior) && secrets == CreateSet(d, prior)
    ensures Lists(start, StartSet(d, prior)) && Lists(restart, RestartSet(d, prior))
    ensures Lists(enable, EnableSet(d, prior)) && Lists(native, RestartSystemdSet(d, prior))
    ensures Lists(replaced, set n | n in EnableSet(d, prior) && !Changed(d, prior, n))
  {
    enable, native, replaced := DiffSystemd(fs, d, prior, systemd);
    start, restart := DiffUnits(fs, d, prior, units, support, removed, secrets);
    ghost var r := set n | n in d.files && d.files[n].isUnit && n in prior.units && Touched(d, prior, d.files[n]);
    ghost var v := set n | n in d.files && Enabled(d.files[n]) && n in prior.systemdUnits && Changed(d, prior, n);
    var orphan := OrphanChanged(fs, d, prior, support);
    if orphan {
      restart, native := RestartAll(fs, d, prior, start, enable, restart, native, r, v);
      assert KeptUnits(d, prior) == RestartSet(d, prior) && KeptNative(d, prior) == RestartSystemdSet(d, prior);
    } else {
      assert r == RestartSet(d, prior) && v == RestartSystemdSet(d, prior);
    }
  }

  // Some unit file is written: changed, or re-placed because its unit is enabled for the first time.
  lemma WrittenUnits(d: Desired, prior: State, units: set<string>, systemd: set<string>, replaced: seq<string>)
    requires Named(d.files)
    requires units == set n | n in d.files && Changed(d, prior, n) && d.files[n].isUnit
    requires systemd == set n | n in d.files && Changed(d, prior, n) && !d.files[n].isUnit && d.files[n].isSystemdUnit
    requires Lists(replaced, set n | n in EnableSet(d, prior) && !Changed(d, prior, n))
    ensures units != {} || systemd != {} || replaced != [] <==>
            exists n | n in WriteSet(d, prior) :: d.files[n].isUnit || d.files[n].isSystemdUnit
  {
    if units != {} {
      var n :| n in units;
      assert n in WriteSet(d, prior);
    } else if systemd != {} {
      var n :| n in systemd;
      assert n in WriteSet(d, prior);
    } else if replaced != [] {
      assert replaced[0] in replaced;
      assert replaced[0] in WriteSet(d, prior) && d.files[replaced[0]].isSystemdUnit;
    } else {
      forall n | n in WriteSet(d, prior) ensures !d.files[n].isUnit && !d.files[n].isSystemdUnit {
        assert n !in replaced && n !in units && n !in systemd;
      }
    }
  }

  method DiffGone(d: Desired, prior: State) returns (remove: seq<string>, disable: seq<string>, stop: seq<string>)
    ensures Lists(remove, RemoveSet(d, prior)) && Lists(disable, DisableSet(d, prior)) && Lists(stop, StopSet(d, prior))
  {
    remove := Collect(prior.files.Keys, n => n !in d.files);
    assert RemoveSet(d, prior) == set n | n in prior.files.Keys && n !in d.files;
    var priorSystemd := set u | u in prior.systemdUnits;
    disable := Collect(priorSystemd, u => !(u in d.files && Enabled(d.files[u])));
    assert DisableSet(d, prior) == set u | u in priorSystemd && !(u in d.files && Enabled(d.files[u]));
    var priorUnits := set u | u in prior.units;
    stop := Collect(priorUnits, u => u !in d.files);
    assert StopSet(d, prior) == set u | u in priorUnits && u !in d.files;
  }

  method DiffSecrets(d: Desired, prior: State) returns (create: seq<string>, drop: seq<string>)
    ensures Lists(create, CreateSet(d, prior)) && Lists(drop, DropSet(d, prior))
  {
    create := Collect(d.secretHashes.Keys, k requires k in d.secretHashes => Recorded(prior.secretHashes, k) != d.secretHashes[k]);
    assert CreateSet(d, prior) == set k | k in d.secretHashes.Keys && Recorded(prior.secretHashes, k) != d.secretHashes[k];
    drop := Collect(prior.secretHashes.Keys, k => k !in d.secretHashes);
    assert DropSet(d, prior) == set k | k in prior.secretHashes.Keys && k !in d.secretHashes;
  }

  // removedAnyUnit
  method RemovedAnyUnit(removed: seq<string>) returns (any: bool)
    ensures any <==> exists n | n in removed :: !IsSupportFile(n)
  {
    for i := 0 to |removed|
      invariant forall n | n in removed[..i] :: IsSupportFile(n)
    {
      assert removed[..i + 1] == removed[..i] + [removed[i]];
      if IsUnitFile(removed[i]) || IsSystemdUnit(removed[i]) {
        assert removed[i] in removed;
        return true;
      }
    }
    assert removed[..|removed|] == removed;
    return false;
  }

  /** The diff equals the set-theoretic plan, for every order its maps may be iterated in. */
  method Compute(fs: seq<File>, secretHashes: map<string, Digest>, resources: Resources, prior: State) returns (p: Plan)
    requires DistinctNames(fs) && Named(ByName(fs))
    ensures p == PlanOf(Desired(ByName(fs), secretHashes, resources), prior)
  {
    var d := Desired(ByName(fs), secretHashes, resources);
    var write, support, units, systemd := DiffFiles(d, prior);
    var remove, disable, stop := DiffGone(d, prior);
    var removed := set n | n in remove && IsSupportFile(n);
    assert removed == RemovedSupport(d, prior);
    var create, drop := DiffSecrets(d, prior);
    var changedSecrets := set k | k in create;
    assert changedSecrets == CreateSet(d, prior);
    var start, restart, enable, native, replaced := DiffLifecycle(fs, d, prior, units, systemd, support, removed, changedSecrets);
    var anyRemoved := RemovedAnyUnit(remove);
    var reload := units != {} || systemd != {} || anyRemoved || disable != [] || replaced != [];
    assert reload == Reloads(d, prior) by {
      WrittenUnits(d, prior, units, systemd, replaced);
      EmptyListing(disable, DisableSet(d, prior));
    }
    assert Lists(write + replaced, WriteSet(d, prior)) by {
      var changed := set n | n in d.files && Changed(d, prior, n);
      var placed := set n | n in EnableSet(d, prior) && !Changed(d, prior, n);
      ListsUnion(write, changed, replaced, placed);
      assert changed + placed == WriteSet(d, prior);
    }
    p := Plan(write + replaced, remove, create, drop, resources != prior.resources, reload,
              start, restart, stop, enable, native, disable);
    Assembled(d, prior, p);
    p := SortPlan(p);
  }

  lemma EmptyListing(l: seq<string>, s: set<string>)
    requires Lists(l, s)
    ensures l == [] <==> s == {}
  {
    if l != [] {
      assert l[0] in l;
    }
  }
}
