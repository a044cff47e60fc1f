/** Laws of the plan: it ignores order, gives each unit at most one lifecycle action, and reloads exactly when
    a unit file or an enablement changes. */
module PlanLaws {
  import opened Agreement
  import opened Fileset
  import opened Ordering
  import opened Plan
  import opened Quadletref
  import opened Text

  lemma {:induction false} PermutedByName(a: seq<File>, b: seq<File>)
    requires DistinctNames(a) && DistinctNames(b) && multiset(a) == multiset(b)
    ensures ByName(a) == ByName(b)
  {
    ByNameHolds(a);
    ByNameHolds(b);
    forall n ensures n in ByName(a) <==> n in ByName(b) {
      if n in ByName(a) { SameFile(a, b, ByName(a)[n]); }
      if n in ByName(b) { SameFile(b, a, ByName(b)[n]); }
    }
    forall n | n in ByName(a) ensures ByName(a)[n] == ByName(b)[n] {
      SameFile(a, b, ByName(a)[n]);
    }
  }

  lemma SameFile(a: seq<File>, b: seq<File>, f: File)
    requires multiset(a) == multiset(b) && f in a
    ensures f in b
  {
    assert f in multiset(a);
  }

  /** Any permutation of the cadre's files gives the same plan. */
  lemma PlanIgnoresFileOrder(a: seq<File>, b: seq<File>, hashes: map<string, Digest>, r: Resources, prior: State)
    requires DistinctNames(a) && DistinctNames(b) && multiset(a) == multiset(b) && Named(ByName(a))
    ensures Named(ByName(b)) && PlanOf(Desired(ByName(a), hashes, r), prior) == PlanOf(Desired(ByName(b), hashes, r), prior)
  {
    PermutedByName(a, b);
  }

  function Actions(p: Plan): seq<string> {
    p.startUnits + p.restartUnits + p.stopUnits + p.enableUnits + p.restartSystemdUnits + p.disableUnits
  }

  /** No unit is listed twice, whether in one list or in two: each gets at most one lifecycle action. */
  lemma OneActionPerUnit(d: Desired, prior: State)
    requires Named(d.files) && TypedState(prior)
    ensures NoDuplicates(Actions(PlanOf(d, prior)))
  {
    var p := PlanOf(d, prior);
    var start, restart, stop := StartSet(d, prior), RestartSet(d, prior), StopSet(d, prior);
    var enable, again, disable := EnableSet(d, prior), RestartSystemdSet(d, prior), DisableSet(d, prior);
    ListingLists(start);
    ListingLists(restart);
    ListingLists(stop);
    ListingLists(enable);
    ListingLists(again);
    ListingLists(disable);
    ListsUnion(p.startUnits, start, p.restartUnits, restart);
    ListsUnion(p.startUnits + p.restartUnits, start + restart, p.stopUnits, stop);
    var quadlets := start + restart + stop;
    QuadletActions(d, prior);
    ListsUnion(p.startUnits + p.restartUnits + p.stopUnits, quadlets, p.enableUnits, enable);
    ListsUnion(p.startUnits + p.restartUnits + p.stopUnits + p.enableUnits, quadlets + enable, p.restartSystemdUnits, again);
    ListsUnion(p.startUnits + p.restartUnits + p.stopUnits + p.enableUnits + p.restartSystemdUnits, quadlets + enable + again,
               p.disableUnits, disable);
  }

  lemma KindsDisjoint(quadlets: set<string>, natives: set<string>)
    requires (forall u | u in quadlets :: IsUnitFile(u)) && forall u | u in natives :: IsSystemdUnit(u)
    ensures quadlets !! natives
  {
  }

  lemma QuadletKinds(d: Desired, prior: State)
    requires Named(d.files) && TypedState(prior)
    ensures forall u | u in StartSet(d, prior) + RestartSet(d, prior) + StopSet(d, prior) :: IsUnitFile(u)
  {
  }

  lemma NativeKinds(d: Desired, prior: State)
    requires Named(d.files) && TypedState(prior)
    ensures forall u | u in EnableSet(d, prior) :: IsSystemdUnit(u)
    ensures forall u | u in RestartSystemdSet(d, prior) :: IsSystemdUnit(u)
    ensures forall u | u in DisableSet(d, prior) :: IsSystemdUnit(u)
  {
  }

  lemma QuadletActions(d: Desired, prior: State)
    requires Named(d.files) && TypedState(prior)
    ensures var quadlets := StartSet(d, prior) + RestartSet(d, prior) + StopSet(d, prior);
            && quadlets !! EnableSet(d, prior) && quadlets !! RestartSystemdSet(d, prior) && quadlets !! DisableSet(d, prior)
  {
    var quadlets := StartSet(d, prior) + RestartSet(d, prior) + StopSet(d, prior);
    QuadletKinds(d, prior);
    NativeKinds(d, prior);
    KindsDisjoint(quadlets, EnableSet(d, prior));
    KindsDisjoint(quadlets, RestartSystemdSet(d, prior));
    KindsDisjoint(quadlets, DisableSet(d, prior));
  }

  // ---- what demands an action -------------------------------------------------------------------

  // The empty hash stands for absence, on both sides.
  ghost predicate RealHashes(d: Desired, prior: State) {
    && (forall n | n in d.files :: d.files[n].hash != NoDigest)
    && (forall n | n in prior.files :: prior.files[n] != NoDigest)
  }

  function WantedHash(d: Desired, n: string): Digest {
    if n in d.files then d.files[n].hash else NoDigest
  }

  // The same file, with one content or absent, before and after.
  predicate SameFileHash(d: Desired, prior: State, n: string) {
    Recorded(prior.files, n) == WantedHash(d, n)
  }

  predicate SameSecret(d: Desired, prior: State, k: string) {
    k in d.secretHashes ==> Recorded(prior.secretHashes, k) == d.secretHashes[k]
  }

  /** All a unit reads is recorded as it is wanted: itself, each support file it mentions, each wanted secret it names. */
  predicate SameInputs(d: Desired, prior: State, f: File) {
    && SameFileHash(d, prior, f.name)
    && (forall r | r in Extract(f.content).files && IsSupportFile(r) :: SameFileHash(d, prior, r))
    && (forall k | k in Extract(f.content).secrets :: SameSecret(d, prior, k))
  }

  lemma StaleInputs(d: Desired, prior: State, u: string)
    requires Named(d.files) && RealHashes(d, prior) && u in d.files && !Orphaned(d, prior)
    ensures Stale(d, prior, d.files[u]) <==> !SameInputs(d, prior, d.files[u])
  {
    var refs := Extract(d.files[u].content);
    StaleFiles(d, prior, refs.files);
    StaleSecrets(d, prior, refs.secrets);
  }

  lemma StaleFiles(d: Desired, prior: State, names: seq<string>)
    requires Named(d.files) && RealHashes(d, prior)
    ensures Meets(names, ChangedSupport(d, prior)) || Meets(names, RemovedSupport(d, prior)) <==>
            exists r | r in names :: IsSupportFile(r) && !SameFileHash(d, prior, r)
  {
    forall r ensures r in ChangedSupport(d, prior) || r in RemovedSupport(d, prior) <==> IsSupportFile(r) && !SameFileHash(d, prior, r) {
    }
  }

  lemma StaleSecrets(d: Desired, prior: State, names: seq<string>)
    ensures Meets(names, CreateSet(d, prior)) <==> exists k | k in names :: !SameSecret(d, prior, k)
  {
    forall k ensures k in CreateSet(d, prior) <==> !SameSecret(d, prior, k) {
    }
  }

  /** A unit that stays is restarted exactly when something it reads is recorded otherwise than it is wanted, or a
      support file changed that no unit mentions. */
  lemma RestartsAreExact(d: Desired, prior: State, u: string)
    requires Named(d.files) && RealHashes(d, prior)
    ensures u in PlanOf(d, prior).restartUnits <==>
            && u in d.files && d.files[u].isUnit && u in prior.units
            && (!SameInputs(d, prior, d.files[u]) || Orphaned(d, prior))
  {
    ListingLists(RestartSet(d, prior));
    if u in d.files && !Orphaned(d, prior) {
      StaleInputs(d, prior, u);
    }
  }

  /** A reload is due exactly when some unit file comes, goes or changes, or a native unit is enabled or disabled. */
  lemma ReloadsAreExact(d: Desired, prior: State)
    requires Named(d.files) && RealHashes(d, prior)
    ensures var p := PlanOf(d, prior);
            p.daemonReload <==> (exists n :: !IsSupportFile(n) && !SameFileHash(d, prior, n)) || p.enableUnits != [] || p.disableUnits != []
  {
    ListingLists(EnableSet(d, prior));
    ListingLists(DisableSet(d, prior));
    EmptyListing(Listing(EnableSet(d, prior)), EnableSet(d, prior));
    EmptyListing(Listing(DisableSet(d, prior)), DisableSet(d, prior));
    ReloadCauses(d, prior);
  }

  lemma UnitFileCauses(d: Desired, prior: State, n: string)
    requires Named(d.files) && RealHashes(d, prior) && !IsSupportFile(n)
    ensures !SameFileHash(d, prior, n) ==> n in WriteSet(d, prior) || n in RemoveSet(d, prior)
    ensures n in WriteSet(d, prior) ==> !SameFileHash(d, prior, n) || n in EnableSet(d, prior)
    ensures n in RemoveSet(d, prior) ==> !SameFileHash(d, prior, n)
  {
  }

  lemma UnitKinds(d: Desired, prior: State, n: string)
    requires Named(d.files) && n in d.files
    ensures !IsSupportFile(n) <==> d.files[n].isUnit || d.files[n].isSystemdUnit
    ensures n in EnableSet(d, prior) ==> !IsSupportFile(n) && n in WriteSet(d, prior)
  {
  }

  lemma ReloadCauses(d: Desired, prior: State)
    requires Named(d.files) && RealHashes(d, prior)
    ensures Reloads(d, prior) <==>
            (exists n :: !IsSupportFile(n) && !SameFileHash(d, prior, n)) || EnableSet(d, prior) != {} || DisableSet(d, prior) != {}
  {
    forall n | n in d.files
      ensures !IsSupportFile(n) <==> d.files[n].isUnit || d.files[n].isSystemdUnit
      ensures n in EnableSet(d, prior) ==> !IsSupportFile(n) && n in WriteSet(d, prior)
    {
      UnitKinds(d, prior, n);
    }
    forall n | !IsSupportFile(n)
      ensures !SameFileHash(d, prior, n) ==> n in WriteSet(d, prior) || n in RemoveSet(d, prior)
      ensures n in WriteSet(d, prior) ==> !SameFileHash(d, prior, n) || n in EnableSet(d, prior)
      ensures n in RemoveSet(d, prior) ==> !SameFileHash(d, prior, n)
    {
      UnitFileCauses(d, prior, n);
    }
    ReloadSplit(d, prior, set n | n in WriteSet(d, prior) && !IsSupportFile(n), set n | n in RemoveSet(d, prior) && !IsSupportFile(n));
  }

  lemma ReloadSplit(d: Desired, prior: State, written: set<string>, removed: set<string>)
    requires Named(d.files)
    requires written == set n | n in WriteSet(d, prior) && !IsSupportFile(n)
    requires removed == set n | n in RemoveSet(d, prior) && !IsSupportFile(n)
    ensures Reloads(d, prior) <==> written != {} || removed != {} || DisableSet(d, prior) != {}
  {
    forall n | n in WriteSet(d, prior) ensures n in written <==> d.files[n].isUnit || d.files[n].isSystemdUnit {
      UnitKinds(d, prior, n);
    }
    if n :| n in WriteSet(d, prior) && (d.files[n].isUnit || d.files[n].isSystemdUnit) {
      assert n in written;
    }
    if n :| n in RemoveSet(d, prior) && !IsSupportFile(n) {
      assert n in removed;
    }
    if n :| n in written {
      assert n in WriteSet(d, prior);
    }
    if n :| n in removed {
      assert n in RemoveSet(d, prior);
    }
  }
}
