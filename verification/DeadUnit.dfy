/** A stop that fails after it took effect: the unit is recorded and dead, and wanting it again does not start it. */
module DeadUnit {
  import opened Agreement
  import opened Convergence
  import opened Fileset
  import opened Freshness
  import opened Host
  import opened Ledger
  import opened Plan
  import opened Reconcile
  import opened Retry
  import opened Segments
  import opened SharedServices

  // The stop of this one unit works and reports a failure.
  function LateFailure(u: string): Faults {
    c => if c == StopUnit(u) then FullEffect else NoFault
  }

  // The one unit of its service.
  predicate Alone(d: Desired, u: string) {
    && u in d.files && d.files[u].isUnit
    && forall v | v in d.files && d.files[v].isUnit && UnitService(v) == UnitService(u) :: v == u
  }

  lemma LeavesAlone(g: Goal, u: string)
    requires ValidGoal(g) && u in g.d.files && g.d.files[u].isUnit
    ensures ValidGoal(Less(g, u)) && !UidChanged(Less(g, u), NextState(g))
    ensures StopSet(Less(g, u).d, NextState(g)) == {u} && DisableSet(Less(g, u).d, NextState(g)) == {}
  {
    NextUnits(g);
    assert FlagsFollow(g.d.files[u]);
  }

  lemma OnlyStopFailed(h: Host, g: Goal, u: string)
    requires ValidGoal(g) && StopSet(g.d, h.saved) == {u} && DisableSet(g.d, h.saved) == {} && !UidChanged(g, h.saved)
    ensures Failed(h, g, LateFailure(u)) == {u}
  {
    PlanMembers(g.d, h.saved);
  }

  // Putting one file back.
  lemma NamesWith(files: map<string, File>, u: string)
    requires u in files && FlagsFollow(files[u]) && files[u].isUnit
    ensures var less := files - {u};
            && QuadletNames(files, files.Keys) == QuadletNames(less, less.Keys) + {u}
            && EnabledNames(files, files.Keys) == EnabledNames(less, less.Keys)
            && HashesOf(files, files.Keys) == HashesOf(less, less.Keys) + map[u := files[u].hash]
  {
  }

  lemma KeptOne(u: string, s: State)
    requires !IsSystemdUnit(u) && u in s.files
    ensures OfKind({u}, false) == {u} && OfKind({u}, true) == {} && Kept({u}, s) == map[u := s.files[u]]
  {
  }

  // The state of the rest, with the unit kept, is the state of the whole.
  lemma KeptIsWhole(g: Goal, u: string)
    requires ValidGoal(g) && u in g.d.files && g.d.files[u].isUnit
    ensures Retain(NextState(Less(g, u)), {u}, NextState(g)) == NextState(g)
  {
    var files, less := g.d.files, g.d.files - {u};
    assert FlagsFollow(files[u]);
    NamesWith(files, u);
    KeptOne(u, NextState(g));
    var rest := QuadletNames(less, less.Keys);
    assert u !in rest && multiset(rest + {u}) == multiset(rest) + multiset({u});
  }

  lemma PassWithout(h: Host, g: Goal, u: string)
    requires ValidGoal(g) && LoginsResolve(g) && Alone(g.d, u) && h.saved == NextState(g)
    ensures ValidGoal(Less(g, u)) && !UidChanged(Less(g, u), h.saved)
    ensures var r := Pass(h, Less(g, u), LateFailure(u));
            r.ok && r.host.saved == NextState(g) && Service(UnitService(u)) !in r.host.at
  {
    var less, late := Less(g, u), LateFailure(u);
    RestIsQuiet(g, u);
    NothingStale(less.d, h.saved);
    QuietPassOk(h, less, late);
    LeavesAlone(g, u);
    OnlyStopFailed(h, less, u);
    PassStages(h, less, late);
    KeptIsWhole(g, u);
    NextUnits(g);
    PassServes(h, less, late, UnitService(u));
    LeftQuits(less.d, h.saved, late, u, UnitService(u));
    NotLaunched(less.d, h.saved, UnitService(u));
  }

  lemma NotLaunched(d: Desired, prior: State, s: string)
    requires Named(d.files) && StartSet(d, prior) == {} && RestartSet(d, prior) == {}
    ensures !LaunchesService(d, prior, s)
  {
  }

  lemma PassWith(h: Host, g: Goal, u: string, faults: Faults)
    requires ValidGoal(g) && Alone(g.d, u) && h.saved == NextState(g) && Service(UnitService(u)) !in h.at
    ensures Pass(h, g, faults).ok ==> Service(UnitService(u)) !in Pass(h, g, faults).host.at
  {
    if Pass(h, g, faults).ok {
      NothingToRun(g.d, h.saved);
      NotLaunched(g.d, h.saved, UnitService(u));
      PassServes(h, g, faults, UnitService(u));
    }
  }

  /** From a fresh host a goal is applied, then the goal without one unit, whose stop takes effect and is reported as
      failed, then the whole goal again.  The saved state is the same after each, so the third pass has nothing to do,
      and the unit, wanted and recorded, does not run. */
  lemma WantedButDead(g: Goal, u: string, faults: Faults, once: Host, twice: Host)
    requires ValidGoal(g) && LoginsResolve(g) && Alone(g.d, u)
    requires ValidGoal(Less(g, u)) && once == Pass(FRESH, g, c => NoFault).host && twice == Pass(once, Less(g, u), LateFailure(u)).host
    ensures Saves(FRESH, Attempt(g, c => NoFault), once) && Saves(once, Attempt(Less(g, u), LateFailure(u)), twice)
    ensures Service(UnitService(u)) in once.at && once.saved == twice.saved && PlanOf(g.d, twice.saved).Empty()
    ensures Pass(twice, g, faults).ok ==> Service(UnitService(u)) !in Pass(twice, g, faults).host.at
  {
    FirstPassSaves(g, c => NoFault);
    FirstPassServes(g, c => NoFault, u);
    PassWithout(once, g, u);
    NextStateIsFixedPoint(g);
    PassWith(twice, g, u, faults);
  }

  // ---- the same of a native unit --------------------------------------------------------------------------

  // The disable of this one unit works and reports a failure.
  function LateDisable(u: string): Faults {
    c => if c == DisableUnit(u) then FullEffect else NoFault
  }

  lemma DropsEnabled(g: Goal, u: string)
    requires ValidGoal(g) && u in g.d.files && Enabled(g.d.files[u])
    ensures ValidGoal(Less(g, u)) && !UidChanged(Less(g, u), NextState(g))
    ensures StopSet(Less(g, u).d, NextState(g)) == {} && DisableSet(Less(g, u).d, NextState(g)) == {u}
  {
    NextUnits(g);
    EnabledIsNative(g.d.files[u]);
  }

  lemma OnlyDisableFailed(h: Host, g: Goal, u: string)
    requires ValidGoal(g) && StopSet(g.d, h.saved) == {} && DisableSet(g.d, h.saved) == {u} && !UidChanged(g, h.saved)
    ensures Failed(h, g, LateDisable(u)) == {u}
  {
    PlanMembers(g.d, h.saved);
  }

  lemma NativesWith(files: map<string, File>, u: string)
    requires u in files && !files[u].isUnit && Enabled(files[u])
    ensures var less := files - {u};
            && QuadletNames(files, files.Keys) == QuadletNames(less, less.Keys)
            && EnabledNames(files, files.Keys) == EnabledNames(less, less.Keys) + {u}
            && HashesOf(files, files.Keys) == HashesOf(less, less.Keys) + map[u := files[u].hash]
  {
  }

  lemma KeptNative(u: string, s: State)
    requires IsSystemdUnit(u) && u in s.files
    ensures OfKind({u}, false) == {} && OfKind({u}, true) == {u} && Kept({u}, s) == map[u := s.files[u]]
  {
  }

  lemma EnabledKind(f: File)
    requires FlagsFollow(f) && Enabled(f)
    ensures !f.isUnit && IsSystemdUnit(f.name)
  {
  }

  lemma KeptNativeIsWhole(g: Goal, u: string)
    requires ValidGoal(g) && u in g.d.files && Enabled(g.d.files[u])
    ensures Retain(NextState(Less(g, u)), {u}, NextState(g)) == NextState(g)
  {
    var files, less := g.d.files, g.d.files - {u};
    EnabledKind(files[u]);
    NativesWith(files, u);
    KeptNative(u, NextState(g));
    var rest := EnabledNames(less, less.Keys);
    assert u !in rest && multiset(rest + {u}) == multiset(rest) + multiset({u});
  }

  lemma PassWithoutNative(h: Host, g: Goal, u: string)
    requires ValidGoal(g) && LoginsResolve(g) && u in g.d.files && Enabled(g.d.files[u]) && h.saved == NextState(g)
    ensures ValidGoal(Less(g, u)) && !UidChanged(Less(g, u), h.saved)
    ensures var r := Pass(h, Less(g, u), LateDisable(u));
            r.ok && r.host.saved == NextState(g) && Native(u) !in r.host.at
  {
    var less, late := Less(g, u), LateDisable(u);
    RestIsQuiet(g, u);
    NothingStale(less.d, h.saved);
    QuietPassOk(h, less, late);
    DropsEnabled(g, u);
    OnlyDisableFailed(h, less, u);
    PassStages(h, less, late);
    KeptNativeIsWhole(g, u);
    PassEnables(h, less, late, u);
  }

  lemma PassWithNative(h: Host, g: Goal, u: string, faults: Faults)
    requires ValidGoal(g) && u in g.d.files && Enabled(g.d.files[u]) && h.saved == NextState(g) && Native(u) !in h.at
    ensures Pass(h, g, faults).ok ==> Native(u) !in Pass(h, g, faults).host.at
  {
    if Pass(h, g, faults).ok {
      RecordedQuietly(g, u);
      WantedAgainEnabled(h, g, faults, u);
    }
  }

  lemma RecordedQuietly(g: Goal, u: string)
    requires ValidGoal(g) && u in g.d.files && Enabled(g.d.files[u])
    ensures u in NextState(g).systemdUnits && !Changed(g.d, NextState(g), u) && !Orphaned(g.d, NextState(g))
    ensures !UidChanged(g, NextState(g))
  {
    EnabledIsNative(g.d.files[u]);
    NextUnits(g);
    NothingToPlace(g.d, NextState(g));
  }

  lemma FirstPassEnables(g: Goal, faults: Faults, u: string)
    requires ValidGoal(g) && Pass(FRESH, g, faults).ok && u in g.d.files && Enabled(g.d.files[u])
    ensures Native(u) in Pass(FRESH, g, faults).host.at
  {
    PassEnables(FRESH, g, faults, u);
  }

  /** The same run with an enabled native unit, whose disable takes effect and is reported as failed. */
  lemma EnabledButDead(g: Goal, u: string, faults: Faults, once: Host, twice: Host)
    requires ValidGoal(g) && LoginsResolve(g) && u in g.d.files && Enabled(g.d.files[u])
    requires ValidGoal(Less(g, u)) && once == Pass(FRESH, g, c => NoFault).host && twice == Pass(once, Less(g, u), LateDisable(u)).host
    ensures Saves(FRESH, Attempt(g, c => NoFault), once) && Saves(once, Attempt(Less(g, u), LateDisable(u)), twice)
    ensures Native(u) in once.at && once.saved == twice.saved && PlanOf(g.d, twice.saved).Empty()
    ensures Pass(twice, g, faults).ok ==> Native(u) !in Pass(twice, g, faults).host.at
  {
    FirstPassSaves(g, c => NoFault);
    FirstPassEnables(g, c => NoFault, u);
    PassWithoutNative(once, g, u);
    NextStateIsFixedPoint(g);
    PassWithNative(twice, g, u, faults);
  }
}
