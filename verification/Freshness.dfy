/** Convergence, the fixed point, and restart freshness over whole runs. */
module Freshness {
  import opened Agreement
  import opened Basics
  import opened Convergence
  import opened Fileset
  import opened Host
  import opened Plan
  import opened Quadletref
  import opened Reconcile
  import opened Retry
  import opened Segments

  // ---- the fixed point ----------------------------------------------------------------------------------

  lemma Occupied(l: seq<string>)
    ensures l == [] || exists x :: x in l
  {
    if l != [] {
      assert l[0] in l;
    }
  }

  lemma EmptyListings(d: Desired, s: State)
    requires Named(d.files)
    requires WriteSet(d, s) == {} && RemoveSet(d, s) == {} && CreateSet(d, s) == {} && DropSet(d, s) == {}
    requires StartSet(d, s) == {} && RestartSet(d, s) == {} && StopSet(d, s) == {}
    requires EnableSet(d, s) == {} && RestartSystemdSet(d, s) == {} && DisableSet(d, s) == {}
    requires d.resources == s.resources
    ensures PlanOf(d, s).Empty()
  {
    var p := PlanOf(d, s);
    PlanMembers(d, s);
    Occupied(p.writeFiles);
    Occupied(p.removeFiles);
    Occupied(p.createSecrets);
    Occupied(p.removeSecrets);
    Occupied(p.startUnits);
    Occupied(p.restartUnits);
    Occupied(p.stopUnits);
    Occupied(p.enableUnits);
    Occupied(p.restartSystemdUnits);
    Occupied(p.disableUnits);
    assert !Reloads(d, s);
  }

  // Nothing to write, remove, create or drop when the state records exactly what is wanted.
  lemma NothingToPlace(d: Desired, s: State)
    requires Named(d.files) && s.files.Keys == d.files.Keys && (forall n | n in d.files :: s.files[n] == d.files[n].hash)
    requires s.secretHashes == d.secretHashes
    requires forall n | n in d.files && Enabled(d.files[n]) :: n in s.systemdUnits
    ensures EnableSet(d, s) == {} && WriteSet(d, s) == {} && RemoveSet(d, s) == {} && CreateSet(d, s) == {} && DropSet(d, s) == {}
    ensures ChangedSupport(d, s) == {} && RemovedSupport(d, s) == {}
    ensures forall n | n in d.files :: !Changed(d, s, n)
  {
    assert forall n | n in d.files :: Recorded(s.files, n) == d.files[n].hash;
  }

  // And nothing to start, stop or restart.
  lemma NothingToRun(d: Desired, s: State)
    requires Named(d.files) && (forall n | n in d.files :: !Changed(d, s, n))
    requires ChangedSupport(d, s) == {} && RemovedSupport(d, s) == {} && CreateSet(d, s) == {}
    requires forall u :: u in s.units <==> u in d.files && d.files[u].isUnit
    requires forall u :: u in s.systemdUnits <==> u in d.files && !d.files[u].isUnit && Enabled(d.files[u])
    ensures StartSet(d, s) == {} && StopSet(d, s) == {} && DisableSet(d, s) == {}
    ensures RestartSet(d, s) == {} && RestartSystemdSet(d, s) == {}
  {
  }

  // An enabled unit is a native one.
  lemma EnabledIsNative(f: File)
    requires FlagsFollow(f) && Enabled(f)
    ensures !f.isUnit
  {
  }

  /** The plan against the state a pass saves is empty, for every goal. */
  lemma NextStateIsFixedPoint(g: Goal)
    requires ValidGoal(g)
    ensures PlanOf(g.d, NextState(g)).Empty()
  {
    var d, s := g.d, NextState(g);
    forall n | n in d.files && Enabled(d.files[n]) ensures !d.files[n].isUnit {
      EnabledIsNative(d.files[n]);
    }
    NothingToPlace(d, s);
    NothingToRun(d, s);
    EmptyListings(d, s);
  }

  // ---- convergence ----------------------------------------------------------------------------------------

  predicate WantsService(d: Desired, s: string) {
    exists u | u in d.files :: d.files[u].isUnit && UnitService(u) == s
  }

  /** Files, secrets, limits, enabled units and running services are exactly the goal's. */
  ghost predicate Reached(h: Host, g: Goal) {
    && (forall l | IsFileLoc(l) :: Look(h.at, l) == if l == FileLoc(l.name) then AsText(WantedText(g, l.name)) else None)
    && (forall k :: Look(h.at, Secret(k)) == AsText(WantedSecret(g, k)))
    && LimitsOn(h.at) == g.d.resources
    && (forall s :: Service(s) in h.at <==> WantsService(g.d, s))
    && (forall u :: Native(u) in h.at <==> u in g.d.files && Enabled(g.d.files[u]))
  }

  lemma KeptService(h: Host, g: Goal, u: string)
    requires Sound(g, h)
    requires u in g.d.files && g.d.files[u].isUnit && !Launches(g.d, h.saved, u)
    ensures !LaunchesService(g.d, h.saved, UnitService(u)) && !StopsService(g.d, h.saved, UnitService(u))
    ensures u in h.saved.units && Service(UnitService(u)) in h.at
  {
    assert u in h.saved.units;
  }

  lemma UnwantedService(h: Host, g: Goal, s: string)
    requires Sound(g, h) && !WantsService(g.d, s)
    ensures !LaunchesService(g.d, h.saved, s)
    ensures Service(s) in h.at ==> StopsService(g.d, h.saved, s)
  {
    if Service(s) in h.at {
      var v :| v in h.saved.units && UnitService(v) == s;
      assert v in StopSet(g.d, h.saved);
    }
  }

  lemma FinalServiceWanted(h: Host, g: Goal, s: string)
    requires Sound(g, h)
    ensures FinalService(h, g, s).Some? <==> WantsService(g.d, s)
  {
    if !WantsService(g.d, s) {
      UnwantedService(h, g, s);
    } else if !LaunchesService(g.d, h.saved, s) {
      var u :| u in g.d.files && g.d.files[u].isUnit && UnitService(u) == s;
      KeptService(h, g, u);
    }
  }

  lemma FinalNativeWanted(h: Host, g: Goal, u: string)
    requires Sound(g, h)
    ensures FinalNative(h, g, u).Some? <==> u in g.d.files && Enabled(g.d.files[u])
  {
    assert Native(u) in h.at <==> u in h.saved.systemdUnits;
  }

  lemma ServiceReached(h: Host, g: Goal, faults: Faults, s: string)
    requires Sound(g, h) && Faultless(faults) && Pass(h, g, faults).ok
    ensures Service(s) in Pass(h, g, faults).host.at <==> WantsService(g.d, s)
  {
    HalfAppliedSelf(h, g);
    FinalAt(h, h, g, faults, Service(s));
    FinalServiceWanted(h, g, s);
  }

  lemma NativeReached(h: Host, g: Goal, faults: Faults, u: string)
    requires Sound(g, h) && Faultless(faults) && Pass(h, g, faults).ok
    ensures Native(u) in Pass(h, g, faults).host.at <==> u in g.d.files && Enabled(g.d.files[u])
  {
    HalfAppliedSelf(h, g);
    FinalNativeWanted(h, g, u);
    if Arms(g.d, h.saved, u) {
      ArmedNative(h, h, g, faults, u);
    } else {
      QuietNative(h, h, g, faults, u);
    }
  }

  lemma FixedFile(h: Host, g: Goal, l: Loc)
    requires IsFileLoc(l)
    ensures FinalFixed(h, g, l) == if l == FileLoc(l.name) then AsText(WantedText(g, l.name)) else None
  {
  }

  lemma ReachedLimits(after: Host, h: Host, g: Goal)
    requires LimitsOn(h.at) == h.saved.resources && Look(after.at, Limits) == FinalFixed(h, g, Limits)
    ensures LimitsOn(after.at) == g.d.resources
  {
  }

  lemma ReachedFiles(after: Host, h: Host, g: Goal)
    requires Sound(g, h) && forall l {:trigger FinalLook(h, g, l)} :: Look(after.at, l) == FinalLook(h, g, l)
    ensures forall l | IsFileLoc(l) :: Look(after.at, l) == if l == FileLoc(l.name) then AsText(WantedText(g, l.name)) else None
    ensures forall k :: Look(after.at, Secret(k)) == AsText(WantedSecret(g, k))
    ensures LimitsOn(after.at) == g.d.resources
  {
    assert Look(after.at, Limits) == FinalLook(h, g, Limits);
    ReachedLimits(after, h, g);
    forall l | IsFileLoc(l) ensures Look(after.at, l) == if l == FileLoc(l.name) then AsText(WantedText(g, l.name)) else None {
      assert Look(after.at, l) == FinalLook(h, g, l);
      FixedFile(h, g, l);
    }
    forall k ensures Look(after.at, Secret(k)) == AsText(WantedSecret(g, k)) {
      assert Look(after.at, Secret(k)) == FinalLook(h, g, Secret(k));
    }
  }

  lemma PassReaches(h: Host, g: Goal, faults: Faults)
    requires Sound(g, h) && LoginsResolve(g) && Faultless(faults)
    ensures Pass(h, g, faults).ok && Reached(Pass(h, g, faults).host, g)
  {
    HalfAppliedSelf(h, g);
    CleanPassOk(h, h, g, faults);
    var after := Pass(h, g, faults).host;
    forall l ensures Look(after.at, l) == FinalLook(h, g, l) {
      FinalAt(h, h, g, faults, l);
    }
    forall s ensures Service(s) in after.at <==> WantsService(g.d, s) {
      ServiceReached(h, g, faults, s);
    }
    forall u ensures Native(u) in after.at <==> u in g.d.files && Enabled(g.d.files[u]) {
      NativeReached(h, g, faults, u);
    }
    ReachedFiles(after, h, g);
  }

  lemma ReachedServices(h: Host, d: Desired)
    requires forall s :: Service(s) in h.at <==> WantsService(d, s)
    requires forall u :: u in h.saved.units <==> u in d.files && d.files[u].isUnit
    ensures forall s :: Service(s) in h.at <==> exists u | u in h.saved.units :: UnitService(u) == s
  {
    forall s ensures Service(s) in h.at <==> exists u | u in h.saved.units :: UnitService(u) == s {
      assert Service(s) in h.at <==> WantsService(d, s);
      if WantsService(d, s) {
        var u :| u in d.files && d.files[u].isUnit && UnitService(u) == s;
        assert u in h.saved.units;
      }
    }
  }

  lemma ReachedAgrees(h: Host, g: Goal)
    requires ValidGoal(g) && Reached(h, g) && h.saved == NextState(g)
    ensures FilesAgree(h) && forall k :: SecretAgrees(h.at, h.saved, k)
  {
    forall l | IsFileLoc(l) ensures AgreesAt(h.at, h.saved, l) {
      assert Look(h.at, l) == if l == FileLoc(l.name) then AsText(WantedText(g, l.name)) else None;
    }
    forall k ensures SecretAgrees(h.at, h.saved, k) {
      assert Look(h.at, Secret(k)) == AsText(WantedSecret(g, k));
    }
  }

  lemma NextUnits(g: Goal)
    requires ValidGoal(g)
    ensures var s := NextState(g);
            && (forall u :: u in s.units <==> u in g.d.files && g.d.files[u].isUnit)
            && (forall u :: u in s.systemdUnits <==> u in g.d.files && !g.d.files[u].isUnit && Enabled(g.d.files[u]))
            && TypedState(s) && forall n | n in s.files && IsUnitFile(n) :: n in s.units
  {
  }

  // A host that has reached its goal matches the state saved for it.
  lemma ReachedMatches(h: Host, g: Goal)
    requires ValidGoal(g) && NoSharedService(g.d)
    requires Reached(h, g) && h.saved == NextState(g) && h.loaded == UnitsOn(h.at)
    ensures Matches(h)
  {
    NextUnits(g);
    ReachedServices(h, g.d);
    ReachedAgrees(h, g);
  }

  /** Convergence: from a host that matches its saved state, a pass without faults is never refused, makes
      files, secrets, limits, enabled units and running services exactly the goal's, and saves a state that
      the host matches again and against which the goal's plan is empty. */
  lemma PassConverges(h: Host, g: Goal, faults: Faults)
    requires Sound(g, h) && LoginsResolve(g) && Faultless(faults)
    ensures var r := Pass(h, g, faults);
            r.ok && Reached(r.host, g) && Matches(r.host) && PlanOf(g.d, r.host.saved).Empty()
  {
    PassReaches(h, g, faults);
    HalfAppliedSelf(h, g);
    FinalLoaded(h, h, g, faults);
    ReachedMatches(Pass(h, g, faults).host, g);
    NextStateIsFixedPoint(g);
  }

  /** Idempotence: a second pass for the same goal changes nothing on the host. */
  lemma SecondPassIsQuiet(h: Host, g: Goal, faults: Faults)
    requires Sound(g, h) && LoginsResolve(g) && Faultless(faults)
    ensures var once := Pass(h, g, faults).host;
            Sound(g, once) && Pass(once, g, faults) == Outcome(once, true)
  {
    PassConverges(h, g, faults);
    var once := Pass(h, g, faults).host;
    HalfAppliedSelf(h, g);
    FinalLoaded(h, h, g, faults);
    HalfAppliedSelf(once, g);
    CleanPassOk(once, once, g, faults);
    var twice := Pass(once, g, faults).host;
    forall l ensures Look(twice.at, l) == Look(once.at, l) {
      FinalAt(once, once, g, faults, l);
      QuietLook(once, g, l);
    }
    LookExtensional(twice.at, once.at);
    FinalLoaded(once, once, g, faults);
  }

  // Where an empty plan launches, stops, enables and disables nothing, a reached goal is where the host already is.
  lemma QuietFixed(h: Host, g: Goal, l: Loc)
    requires Reached(h, g) && g.d.resources == h.saved.resources && !l.Service? && !l.Native?
    ensures FinalFixed(h, g, l) == Look(h.at, l)
  {
    if l.Secret? {
      assert Look(h.at, Secret(l.key)) == AsText(WantedSecret(g, l.key));
    } else {
      assert l.Limits? || IsFileLoc(l);
    }
  }

  lemma QuietLook(h: Host, g: Goal, l: Loc)
    requires Sound(g, h) && Reached(h, g) && PlanOf(g.d, h.saved).Empty()
    ensures FinalLook(h, g, l) == Look(h.at, l)
  {
    PlanMembers(g.d, h.saved);
    assert StartSet(g.d, h.saved) == {} && RestartSet(g.d, h.saved) == {} && StopSet(g.d, h.saved) == {};
    assert EnableSet(g.d, h.saved) == {} && RestartSystemdSet(g.d, h.saved) == {} && DisableSet(g.d, h.saved) == {};
    if !l.Service? && !l.Native? {
      QuietFixed(h, g, l);
    }
  }

  // ---- restart freshness ------------------------------------------------------------------------------------

  /** This launch read what the host holds now: the unit's own content, every support file its unit mentions
      (or that file's absence), and every secret it names that is still there. */
  ghost predicate ReadsCurrent(at: map<Loc, Val>, u: string, launch: Launch) {
    && launch.own.Some? && launch.own == ReadText(at, QuadletFile(u))
    && Current(at, Extract(launch.own.value), launch)
  }

  ghost predicate Current(at: map<Loc, Val>, refs: Refs, launch: Launch) {
    && (forall r | r in refs.files && IsSupportFile(r) ::
          r in launch.files && launch.files[r] == ReadText(at, QuadletFile(r)))
    && (forall s | s in refs.secrets && Secret(s) in at ::
          s in launch.secrets && launch.secrets[s] == ReadText(at, Secret(s)))
  }

  ghost predicate UnitFresh(h: Host, u: string) {
    match Look(h.at, Service(UnitService(u)))
    case Some(Running(launch)) => ReadsCurrent(h.at, u, launch)
    case _ => false
  }

  ghost predicate NativeFresh(h: Host, u: string) {
    Look(h.at, Native(u)) == Some(Active(ReadText(h.at, UserFile(u))))
  }

  /** Every unit the saved state names runs, and was last started with its current inputs. */
  ghost predicate Fresh(h: Host) {
    && (forall u | u in h.saved.units :: UnitFresh(h, u))
    && (forall u | u in h.saved.systemdUnits :: NativeFresh(h, u))
  }

  lemma WantedIsCurrent(h: Host, g: Goal, own: string, refs: Refs)
    requires Reached(h, g)
    ensures Current(h.at, refs, WantedInputs(own, refs, g))
  {
    var launch := WantedInputs(own, refs, g);
    forall r | r in refs.files && IsSupportFile(r) ensures launch.files[r] == ReadText(h.at, QuadletFile(r)) {
      assert FileLoc(r) == QuadletFile(r) && IsFileLoc(QuadletFile(r));
      assert Look(h.at, QuadletFile(r)) == AsText(WantedText(g, r));
    }
    forall s | s in refs.secrets ensures launch.secrets[s] == ReadText(h.at, Secret(s)) {
      assert Look(h.at, Secret(s)) == AsText(WantedSecret(g, s));
    }
  }

  lemma ReachedText(h: Host, g: Goal, n: string)
    requires Reached(h, g)
    ensures ReadText(h.at, FileLoc(n)) == WantedText(g, n)
  {
    assert IsFileLoc(FileLoc(n));
    assert Look(h.at, FileLoc(n)) == AsText(WantedText(g, n));
  }

  lemma MatchedText(h: Host, g: Goal, n: string)
    requires Sound(g, h)
    requires if n in g.d.files then !Changed(g.d, h.saved, n) else n !in h.saved.files
    ensures ReadText(h.at, FileLoc(n)) == WantedText(g, n)
  {
    assert IsFileLoc(FileLoc(n)) && AgreesAt(h.at, h.saved, FileLoc(n));
  }

  // A unit that is not restarted refers to nothing that changed.
  lemma KeptInputs(h: Host, after: Host, g: Goal, refs: Refs, launch: Launch)
    requires Sound(g, h) && Reached(after, g)
    requires !Meets(refs.files, ChangedSupport(g.d, h.saved)) && !Meets(refs.files, RemovedSupport(g.d, h.saved))
    requires !Meets(refs.secrets, CreateSet(g.d, h.saved))
    requires Current(h.at, refs, launch)
    ensures Current(after.at, refs, launch)
  {
    forall r | r in refs.files && IsSupportFile(r) ensures r in launch.files && launch.files[r] == ReadText(after.at, QuadletFile(r)) {
      assert FileLoc(r) == QuadletFile(r);
      assert r !in ChangedSupport(g.d, h.saved) && r !in RemovedSupport(g.d, h.saved);
      MatchedText(h, g, r);
      ReachedText(after, g, r);
    }
    forall s | s in refs.secrets && Secret(s) in after.at
      ensures s in launch.secrets && launch.secrets[s] == ReadText(after.at, Secret(s))
    {
      assert Look(after.at, Secret(s)) == AsText(WantedSecret(g, s));
      assert s !in CreateSet(g.d, h.saved);
      assert SecretAgrees(h.at, h.saved, s);
    }
  }

  // The launch of a unit that is not restarted is still there after the pass.
  lemma KeptLaunch(h: Host, g: Goal, faults: Faults, u: string)
    requires Sound(g, h) && LoginsResolve(g) && Faultless(faults)
    requires u in g.d.files && g.d.files[u].isUnit && !Launches(g.d, h.saved, u)
    ensures var l := Service(UnitService(u)); Look(Pass(h, g, faults).host.at, l) == Look(h.at, l)
  {
    PassReaches(h, g, faults);
    HalfAppliedSelf(h, g);
    KeptService(h, g, u);
    QuietService(h, h, g, faults, UnitService(u));
  }

  lemma NotStale(h: Host, g: Goal, u: string, own: string)
    requires Sound(g, h) && ReadText(h.at, QuadletFile(u)) == Some(own)
    requires u in g.d.files && g.d.files[u].isUnit && u in h.saved.units && u !in RestartSet(g.d, h.saved)
    ensures own == ContentOf(g, u) && !Changed(g.d, h.saved, u)
    ensures var refs := Extract(own);
            && !Meets(refs.files, ChangedSupport(g.d, h.saved)) && !Meets(refs.files, RemovedSupport(g.d, h.saved))
            && !Meets(refs.secrets, CreateSet(g.d, h.saved))
  {
    assert !Stale(g.d, h.saved, g.d.files[u]);
    MatchedText(h, g, u);
    assert FileLoc(u) == QuadletFile(u);
  }

  lemma KeptUnitFresh(h: Host, g: Goal, faults: Faults, u: string)
    requires Sound(g, h) && LoginsResolve(g) && Faultless(faults) && Fresh(h)
    requires u in g.d.files && g.d.files[u].isUnit && !Launches(g.d, h.saved, u)
    ensures UnitFresh(Pass(h, g, faults).host, u)
  {
    var after := Pass(h, g, faults).host;
    PassReaches(h, g, faults);
    KeptLaunch(h, g, faults, u);
    KeptService(h, g, u);
    assert UnitFresh(h, u);
    var launch := h.at[Service(UnitService(u))].launch;
    var own := launch.own.value;
    NotStale(h, g, u, own);
    ReachedText(after, g, u);
    assert FileLoc(u) == QuadletFile(u);
    KeptInputs(h, after, g, Extract(own), launch);
  }

  lemma LaunchedUnitFresh(h: Host, g: Goal, faults: Faults, u: string)
    requires Sound(g, h) && LoginsResolve(g) && Faultless(faults)
    requires u in g.d.files && g.d.files[u].isUnit && Launches(g.d, h.saved, u)
    ensures UnitFresh(Pass(h, g, faults).host, u)
  {
    var after := Pass(h, g, faults).host;
    PassReaches(h, g, faults);
    HalfAppliedSelf(h, g);
    LaunchedService(h, h, g, faults, u);
    ReachedText(after, g, u);
    assert FileLoc(u) == QuadletFile(u);
    WantedIsCurrent(after, g, ContentOf(g, u), Extract(ContentOf(g, u)));
  }

  lemma NativeStaysFresh(h: Host, g: Goal, faults: Faults, u: string)
    requires Sound(g, h) && LoginsResolve(g) && Faultless(faults) && Fresh(h)
    requires u in g.d.files && Enabled(g.d.files[u])
    ensures NativeFresh(Pass(h, g, faults).host, u)
  {
    PassReaches(h, g, faults);
    HalfAppliedSelf(h, g);
    ReachedText(Pass(h, g, faults).host, g, u);
    assert FileLoc(u) == UserFile(u);
    if Arms(g.d, h.saved, u) {
      ArmedNative(h, h, g, faults, u);
    } else {
      QuietNative(h, h, g, faults, u);
      assert NativeFresh(h, u);
      MatchedText(h, g, u);
    }
  }

  /** One pass without faults keeps every unit fresh: whatever it does not restart needed no restart. */
  lemma PassKeepsFresh(h: Host, g: Goal, faults: Faults)
    requires Sound(g, h) && LoginsResolve(g) && Faultless(faults) && Fresh(h)
    ensures Fresh(Pass(h, g, faults).host)
  {
    var after := Pass(h, g, faults).host;
    PassReaches(h, g, faults);
    HalfAppliedSelf(h, g);
    FinalLoaded(h, h, g, faults);
    forall u | u in after.saved.units ensures UnitFresh(after, u) {
      assert u in g.d.files && g.d.files[u].isUnit;
      if Launches(g.d, h.saved, u) {
        LaunchedUnitFresh(h, g, faults, u);
      } else {
        KeptUnitFresh(h, g, faults, u);
      }
    }
    forall u | u in after.saved.systemdUnits ensures NativeFresh(after, u) {
      NativeStaysFresh(h, g, faults, u);
    }
  }

  // ---- whole runs -----------------------------------------------------------------------------------------------

  /** Any passes that abort, and then one without faults for the goal of the round. */
  datatype Round = Round(aborted: seq<Attempt>, goal: Goal, faults: Faults)

  /** The aborted passes were for the same goal, or have left the host half applied for it all the same. */
  ghost predicate PicksUp(h: Host, r: Round)
    requires ValidGoal(r.goal) && AllAbort(h, r.aborted)
  {
    AllFor(r.goal, r.aborted) || HalfApplied(AfterAborts(h, r.aborted), h, r.goal)
  }

  ghost predicate GoodRound(h: Host, r: Round) {
    && ValidGoal(r.goal) && !UidChanged(r.goal, h.saved) && NoSharedService(r.goal.d) && LoginsResolve(r.goal)
    && AllAbort(h, r.aborted) && PicksUp(h, r) && Faultless(r.faults)
  }

  ghost predicate GoodRun(h: Host, rounds: seq<Round>)
    decreases |rounds|
  {
    rounds == [] || (GoodRound(h, rounds[0]) && GoodRun(RoundEnd(h, rounds[0]), rounds[1..]))
  }

  ghost function RoundEnd(h: Host, r: Round): Host
    requires ValidGoal(r.goal) && AllAbort(h, r.aborted)
  {
    Pass(AfterAborts(h, r.aborted), r.goal, r.faults).host
  }

  ghost function GoodRunEnd(h: Host, rounds: seq<Round>): Host
    requires GoodRun(h, rounds)
    decreases |rounds|
  {
    if rounds == [] then h else GoodRunEnd(RoundEnd(h, rounds[0]), rounds[1..])
  }

  function LastGoal(rounds: seq<Round>): Goal
    requires rounds != []
  {
    if |rounds| == 1 then rounds[0].goal else LastGoal(rounds[1..])
  }

  lemma RoundConverges(h: Host, r: Round)
    requires Matches(h) && Fresh(h) && GoodRound(h, r)
    ensures var end := RoundEnd(h, r); Matches(end) && Fresh(end) && Reached(end, r.goal)
  {
    HalfAppliedSelf(h, r.goal);
    if AllFor(r.goal, r.aborted) {
      AbortsLeaveHalfApplied(h, h, r.goal, r.aborted);
    }
    RetryReaches(AfterAborts(h, r.aborted), h, r.goal, r.faults, r.faults);
    PassConverges(h, r.goal, r.faults);
    PassKeepsFresh(h, r.goal, r.faults);
  }

  lemma {:induction false} RunStaysFresh(h: Host, rounds: seq<Round>)
    requires Matches(h) && Fresh(h) && GoodRun(h, rounds)
    ensures var end := GoodRunEnd(h, rounds);
            Matches(end) && Fresh(end) && (rounds != [] ==> Reached(end, LastGoal(rounds)))
    decreases |rounds|
  {
    if rounds != [] {
      var r, next := rounds[0], RoundEnd(h, rounds[0]);
      RoundConverges(h, r);
      RunStaysFresh(next, rounds[1..]);
    }
  }

  lemma FreshHostMatches()
    ensures Matches(FRESH) && Fresh(FRESH)
  {
    assert UnitsOn(FRESH.at) == map[];
  }

  /** Restart freshness over whole runs: from a fresh host, whatever the sequence of goals and however often passes for
      each, or for others that leave it nothing foreign, aborted before it completed, the host matches its saved state,
      has reached the last goal, and every unit it runs was last started with its current inputs. */
  lemma RunsStayFresh(rounds: seq<Round>)
    requires GoodRun(FRESH, rounds)
    ensures var end := GoodRunEnd(FRESH, rounds);
            Matches(end) && Fresh(end) && (rounds != [] ==> Reached(end, LastGoal(rounds)))
  {
    FreshHostMatches();
    RunStaysFresh(FRESH, rounds);
  }
}
