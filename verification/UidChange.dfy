/** A pass whose user has a new uid: the saved state describes a home that is gone. */
module UidChange {
  import opened Agreement
  import opened Basics
  import opened Convergence
  import opened Fileset
  import opened Freshness
  import opened Host
  import opened NewGoal
  import opened Ordering
  import opened Plan
  import opened Reconcile
  import opened Retry
  import opened Segments

  // The plan after a uid change: what it adds is planned from nothing, what it takes away from the saved state.
  lemma ChangedPlan(g: Goal, saved: State)
    requires ValidGoal(g) && UidChanged(g, saved)
    ensures var p, p0 := PassPlan(g, saved), PlanOf(g.d, EMPTY_STATE);
            && LimitCmds(g, p) == LimitCmds(g, p0) && LifeCmds(p) == LifeCmds(p0)
            && p.setResources == p0.setResources
            && p.writeFiles == p0.writeFiles && p.createSecrets == p0.createSecrets && p.removeSecrets == p0.removeSecrets
            && p.removeFiles == Listing(RemoveSet(g.d, saved))
            && (p0.daemonReload ==> p.daemonReload)
  {
  }

  lemma ChangedSeparate(g: Goal, saved: State)
    requires ValidGoal(g) && UidChanged(g, saved)
    ensures Separate(PassPlan(g, saved))
    ensures forall n | n in PassPlan(g, saved).removeFiles :: n !in g.d.files
    ensures forall n :: n in PassPlan(g, saved).removeFiles <==> n in RemoveSet(g.d, saved)
  {
    ChangedPlan(g, saved);
    PlanMembers(g.d, EMPTY_STATE);
    ListingLists(RemoveSet(g.d, saved));
  }

  lemma FreshSound(g: Goal)
    requires ValidGoal(g) && NoSharedService(g.d)
    ensures Sound(g, FRESH) && HalfApplied(FRESH, FRESH, g)
  {
    FreshHostMatches();
    HalfAppliedSelf(FRESH, g);
  }

  // ---- commands on a host of which only the record is another home's ------------------------------------------------

  lemma EffectSavedFree(h: Host, c: Cmd, s: State)
    ensures Effect(h.(saved := s), c) == Effect(h, c) && Refused(h.(saved := s), c) == Refused(h, c)
  {
  }

  lemma ExecSavedFree(h: Host, c: Cmd, s: State)
    ensures Exec(h.(saved := s), c) == Exec(h, c).(saved := s)
  {
    EffectSavedFree(h, c, s);
  }

  lemma DoSavedFree(h: Host, c: Cmd, faults: Faults, s: State)
    ensures Do(h.(saved := s), c, faults) == Outcome(Do(h, c, faults).host.(saved := s), Do(h, c, faults).ok)
  {
    EffectSavedFree(h, c, s);
    ExecSavedFree(h, c, s);
    if faults(c).Torn? {
      TornSavedFree(h, c, faults(c).residue, s);
    }
  }

  lemma TornSavedFree(h: Host, c: Cmd, residue: Option<string>, s: State)
    ensures TornValue(h.(saved := s), c, residue) == TornValue(h, c, residue)
  {
  }

  lemma {:induction false} RunSavedFree(h: Host, cmds: seq<Cmd>, faults: Faults, s: State)
    ensures var r := RunUntil(h, cmds, faults);
            RunUntil(h.(saved := s), cmds, faults) == Outcome(r.host.(saved := s), r.ok)
    ensures RunAll(h.(saved := s), cmds, faults) == RunAll(h, cmds, faults).(saved := s)
    decreases |cmds|
  {
    if cmds != [] {
      DoSavedFree(h, cmds[0], faults, s);
      RunSavedFree(Do(h, cmds[0], faults).host, cmds[1..], faults, s);
    }
  }

  // What the folded-in part of the plan may do: it finds nothing of the old home.
  predicate Spare(g: Goal, c: Cmd) {
    match c
    case RemoveFile(n) => n !in g.d.files
    case StopUnit(_) | DisableUnit(_) | Reload => true
    case _ => false
  }

  lemma NoUnitsLoaded(x: Host, g: Goal)
    requires ValidGoal(g) && Framed(x, FRESH, g) && !Reloads(g.d, EMPTY_STATE)
    ensures UnitsOn(x.at) == map[]
  {
    forall l | IsUnitLoc(l) ensures l !in UnitsOn(x.at) {
      QuietUnits(g, EMPTY_STATE, l);
      assert Look(x.at, l) == Look(FRESH.at, l);
    }
  }

  lemma SpareReload(x: Host, g: Goal, faults: Faults)
    requires ValidGoal(g) && Framed(x, FRESH, g)
    ensures Framed(Do(x, Reload, faults).host, FRESH, g)
  {
    DoReload(x, faults);
    if !Reloads(g.d, EMPTY_STATE) {
      NoUnitsLoaded(x, g);
    }
  }

  lemma DoReload(x: Host, faults: Faults)
    ensures var next := Do(x, Reload, faults).host; next == x || next == x.(loaded := UnitsOn(x.at))
  {
  }

  lemma SpareAt(x: Host, g: Goal, c: Cmd, faults: Faults, l: Loc)
    requires ValidGoal(g) && Spare(g, c) && Target(c).Some? && Look(x.at, l) == None
    ensures Look(Do(x, c, faults).host.at, l) == None
  {
    if l != Target(c).value {
      DoElsewhere(x, c, faults, l);
    } else {
      StaysAway(x, g, c, faults);
    }
  }

  lemma SpareUntouched(x: Host, g: Goal, c: Cmd, faults: Faults, l: Loc)
    requires ValidGoal(g) && Framed(x, FRESH, g) && Spare(g, c) && Target(c).Some?
    ensures Touches(g.d, EMPTY_STATE, l) || Look(Do(x, c, faults).host.at, l) == None
  {
    if !Touches(g.d, EMPTY_STATE, l) {
      assert Look(x.at, l) == Look(FRESH.at, l);
      SpareAt(x, g, c, faults, l);
    }
  }

  lemma DoSpare(x: Host, g: Goal, c: Cmd, faults: Faults)
    requires ValidGoal(g) && Framed(x, FRESH, g) && Spare(g, c)
    ensures Framed(Do(x, c, faults).host, FRESH, g)
  {
    if c.Reload? {
      SpareReload(x, g, faults);
    } else {
      DoSaves(x, c, faults);
      forall l ensures Touches(g.d, EMPTY_STATE, l) || Look(Do(x, c, faults).host.at, l) == None {
        SpareUntouched(x, g, c, faults, l);
      }
    }
  }

  lemma StaysAway(x: Host, g: Goal, c: Cmd, faults: Faults)
    requires Spare(g, c) && Target(c).Some? && Look(x.at, Target(c).value) == None
    ensures Look(Do(x, c, faults).host.at, Target(c).value) == None
  {
  }

  lemma {:induction false} RunSpare(x: Host, g: Goal, cmds: seq<Cmd>, faults: Faults)
    requires ValidGoal(g) && Framed(x, FRESH, g) && forall c | c in cmds :: Harmless(FRESH, g, c) || Spare(g, c)
    ensures Framed(RunUntil(x, cmds, faults).host, FRESH, g)
    ensures Framed(RunAll(x, cmds, faults), FRESH, g)
    decreases |cmds|
  {
    if cmds != [] {
      assert cmds[0] in cmds && forall c | c in cmds[1..] :: c in cmds;
      if Spare(g, cmds[0]) {
        DoSpare(x, g, cmds[0], faults);
      } else {
        DoFramed(x, FRESH, g, cmds[0], faults);
      }
      RunSpare(Do(x, cmds[0], faults).host, g, cmds[1..], faults);
    }
  }

  lemma StopsSpare(g: Goal, p: Plan)
    ensures forall c | c in StopCmds(p) :: Spare(g, c)
  {
    StopMembers(p);
  }

  lemma SettleSpare(cmds: seq<Cmd>, g: Goal, p: Plan, failed: set<string>)
    requires ValidGoal(g) && Settles(cmds, g, p, failed) && forall n | n in p.removeFiles :: n !in g.d.files
    requires forall n | n in p.writeFiles :: n in WriteSet(g.d, EMPTY_STATE)
    requires forall k | k in p.createSecrets :: k in CreateSet(g.d, EMPTY_STATE)
    requires forall k | k in p.removeSecrets :: k in DropSet(g.d, EMPTY_STATE)
    ensures forall c | c in cmds :: Harmless(FRESH, g, c) || Spare(g, c)
  {
    forall c | c in cmds ensures Harmless(FRESH, g, c) || Spare(g, c) {
      if c.WriteFile? || c.CreateSecret? || c.RemoveSecret? {
        SettleTouches(g.d, EMPTY_STATE, c);
      }
    }
  }

  lemma ChangedSettle(g: Goal, saved: State, failed: set<string>)
    requires ValidGoal(g) && UidChanged(g, saved)
    ensures forall c | c in SettleCmds(g, PassPlan(g, saved), failed, saved) :: Harmless(FRESH, g, c) || Spare(g, c)
  {
    var p := PassPlan(g, saved);
    ChangedPlan(g, saved);
    ChangedSeparate(g, saved);
    PlanMembers(g.d, EMPTY_STATE);
    SettleMembers(g, p, failed, saved);
    SettleSpare(SettleCmds(g, p, failed, saved), g, p, failed);
  }

  lemma ChangedLimits(g: Goal, saved: State)
    requires ValidGoal(g) && UidChanged(g, saved)
    ensures forall c | c in LimitCmds(g, PassPlan(g, saved)) :: Harmless(FRESH, g, c)
  {
    ChangedPlan(g, saved);
    LimitHarmless(FRESH, g);
  }

  lemma ChangedLife(g: Goal, saved: State)
    requires ValidGoal(g) && UidChanged(g, saved)
    ensures forall c | c in LifeCmds(PassPlan(g, saved)) :: Harmless(FRESH, g, c)
  {
    var p0 := PlanOf(g.d, EMPTY_STATE);
    ChangedPlan(g, saved);
    PlanMembers(g.d, EMPTY_STATE);
    LifeMembers(p0);
    LifeHarmless(FRESH, g, p0, LifeCmds(p0));
  }

  // ---- the stretches of a pass in the new home -------------------------------------------------------------------

  lemma LimitsHalf(x: Host, g: Goal, saved: State, faults: Faults)
    requires ValidGoal(g) && UidChanged(g, saved) && HalfApplied(x, FRESH, g)
    ensures HalfApplied(RunUntil(x, LimitCmds(g, PassPlan(g, saved)), faults).host, FRESH, g)
  {
    var cmds := LimitCmds(g, PassPlan(g, saved));
    ChangedLimits(g, saved);
    HalfIsFramed(x, FRESH, g);
    RunSpare(x, g, cmds, faults);
    var after := RunUntil(x, cmds, faults).host;
    forall l | IsUnitState(l) ensures Look(after.at, l) == Look(x.at, l) {
      RunUntouched(x, cmds, faults, l);
    }
    ReadyClears(x.at, after.at, g, EMPTY_STATE);
    HalfIsFramed(after, FRESH, g);
  }

  lemma StopsHalf(x: Host, g: Goal, saved: State, faults: Faults)
    requires ValidGoal(g) && UidChanged(g, saved) && HalfApplied(x, FRESH, g)
    ensures HalfApplied(RunAll(x, StopCmds(PassPlan(g, saved)), faults), FRESH, g)
  {
    var cmds := StopCmds(PassPlan(g, saved));
    StopMembers(PassPlan(g, saved));
    StopsSpare(g, PassPlan(g, saved));
    HalfIsFramed(x, FRESH, g);
    RunSpare(x, g, cmds, faults);
    var after := RunAll(x, cmds, faults);
    forall l | IsUnitState(l) ensures Look(after.at, l) == Look(x.at, l) || Look(after.at, l) == None {
      StopsOnlyClear(x, cmds, faults, l);
    }
    ReadyClears(x.at, after.at, g, EMPTY_STATE);
    HalfIsFramed(after, FRESH, g);
  }

  lemma SettleHalf(x: Host, g: Goal, saved: State, failed: set<string>, faults: Faults)
    requires ValidGoal(g) && UidChanged(g, saved) && HalfApplied(x, FRESH, g)
    ensures HalfApplied(RunUntil(x, SettleCmds(g, PassPlan(g, saved), failed, saved), faults).host, FRESH, g)
  {
    var p := PassPlan(g, saved);
    var cmds := SettleCmds(g, p, failed, saved);
    ChangedSettle(g, saved, failed);
    SettleMembers(g, p, failed, saved);
    HalfIsFramed(x, FRESH, g);
    RunSpare(x, g, cmds, faults);
    SettleSparesUnits(x, cmds, g, p, failed, faults);
    ReadyClears(x.at, RunUntil(x, cmds, faults).host.at, g, EMPTY_STATE);
    HalfIsFramed(RunUntil(x, cmds, faults).host, FRESH, g);
  }

  // Two settling stretches that write the same and remove only what is not there end alike.
  lemma SettledAlike(a: Host, b: Host, g: Goal, cmds: seq<Cmd>, cmds0: seq<Cmd>, p: Plan, p0: Plan,
                     failed: set<string>, failed0: set<string>, l: Loc)
    requires Separate(p) && Separate(p0) && Settles(cmds, g, p, failed) && Settles(cmds0, g, p0, failed0)
    requires p.writeFiles == p0.writeFiles && p.createSecrets == p0.createSecrets && p.removeSecrets == p0.removeSecrets
    requires Look(a.at, l) == Look(b.at, l)
    requires IsFileLoc(l) && (l.name in p.removeFiles || l.name in p0.removeFiles) && l == FileLoc(l.name) ==> Look(a.at, l) == None
    ensures Look(ExecAll(a, cmds).at, l) == Look(ExecAll(b, cmds0).at, l)
  {
    if l.Secret? {
      SettledSecret(a, cmds, g, p, failed, l.key);
      SettledSecret(b, cmds0, g, p0, failed0, l.key);
    } else if IsFileLoc(l) && l == FileLoc(l.name) {
      SettledFile(a, cmds, g, p, failed, l.name);
      SettledFile(b, cmds0, g, p0, failed0, l.name);
    } else {
      SettleLeaves(a, cmds, g, p, failed, l);
      SettleLeaves(b, cmds0, g, p0, failed0, l);
    }
  }

  // The limits are set already, and on a host whose state is empty there is nothing to stop.
  lemma NothingStopped(x: Host, g: Goal, faults: Faults, l: Loc)
    requires ValidGoal(g) && x.saved == EMPTY_STATE
    requires g.d.resources != EMPTY_STATE.resources ==> Look(x.at, Limits) == Some(Caps(g.d.resources))
    ensures Look(Stopped(x, g, faults).at, l) == Look(x.at, l) && Stopped(x, g, faults).loaded == x.loaded
  {
    var p := PassPlan(g, EMPTY_STATE);
    PlanMembers(g.d, EMPTY_STATE);
    StopMembers(p);
    StoppedLook(x, g, faults, l);
  }

  lemma NotThere(x: Host, g: Goal, n: string)
    requires ValidGoal(g) && HalfApplied(x, FRESH, g) && n !in g.d.files
    ensures Look(x.at, FileLoc(n)) == None
  {
    StrayUntouched(g, EMPTY_STATE, n);
    LeftAlone(x, FRESH, g, FileLoc(n));
  }

  lemma FreshRemovesNothing(g: Goal)
    requires ValidGoal(g)
    ensures forall n :: n !in PassPlan(g, EMPTY_STATE).removeFiles
  {
    PlanMembers(g.d, EMPTY_STATE);
  }

  lemma SettledHere(x: Host, g: Goal, saved: State, failed: set<string>, faults: Faults, l: Loc)
    requires ValidGoal(g) && UidChanged(g, saved) && HalfApplied(x, FRESH, g)
    requires g.d.resources != EMPTY_STATE.resources ==> Look(x.at, Limits) == Some(Caps(g.d.resources))
    ensures Look(ExecAll(x, SettleCmds(g, PassPlan(g, saved), failed, saved)).at, l) == Look(Settled(x, g, faults).at, l)
  {
    var p, p0 := PassPlan(g, saved), PassPlan(g, EMPTY_STATE);
    ChangedPlan(g, saved);
    ChangedSeparate(g, saved);
    PlanSeparate(g, EMPTY_STATE);
    FreshRemovesNothing(g);
    SettleMembers(g, p, failed, saved);
    SettleMembers(g, p0, Failed(x, g, faults), EMPTY_STATE);
    NothingStopped(x, g, faults, l);
    if IsFileLoc(l) && l.name !in g.d.files && l == FileLoc(l.name) {
      NotThere(x, g, l.name);
    }
    SettledAlike(x, Stopped(x, g, faults), g, SettleCmds(g, p, failed, saved),
                 SettleCmds(g, p0, Failed(x, g, faults), EMPTY_STATE), p, p0, failed, Failed(x, g, faults), l);
  }

  // So a settling stretch of the changed plan is one of the plan for a fresh host.
  lemma SettledSame(x: Host, g: Goal, saved: State, failed: set<string>, faults: Faults)
    requires ValidGoal(g) && NoSharedService(g.d) && UidChanged(g, saved) && HalfApplied(x, FRESH, g)
    requires g.d.resources != EMPTY_STATE.resources ==> Look(x.at, Limits) == Some(Caps(g.d.resources))
    ensures ExecAll(x, SettleCmds(g, PassPlan(g, saved), failed, saved)) == Settled(x, g, faults)
  {
    var here := ExecAll(x, SettleCmds(g, PassPlan(g, saved), failed, saved));
    forall l ensures Look(here.at, l) == Look(Settled(x, g, faults).at, l) {
      SettledHere(x, g, saved, failed, faults, l);
    }
    LookExtensional(here.at, Settled(x, g, faults).at);
    SettledReads(x, g, saved, failed, faults);
    SavedKept(x, SettleCmds(g, PassPlan(g, saved), failed, saved), faults);
    SettledSaved(x, g, faults);
  }

  lemma SettledReads(x: Host, g: Goal, saved: State, failed: set<string>, faults: Faults)
    requires ValidGoal(g) && NoSharedService(g.d) && UidChanged(g, saved) && HalfApplied(x, FRESH, g)
    requires g.d.resources != EMPTY_STATE.resources ==> Look(x.at, Limits) == Some(Caps(g.d.resources))
    requires ExecAll(x, SettleCmds(g, PassPlan(g, saved), failed, saved)).at == Settled(x, g, faults).at
    ensures ExecAll(x, SettleCmds(g, PassPlan(g, saved), failed, saved)).loaded == Settled(x, g, faults).loaded
  {
    ChangedPlan(g, saved);
    FreshSound(g);
    SettledLoaded(x, FRESH, g, faults);
    NothingStopped(x, g, faults, Limits);
    ReloadLast(x, g, PassPlan(g, saved), failed, saved);
    ReloadLast(Stopped(x, g, faults), g, PassPlan(g, EMPTY_STATE), Failed(x, g, faults), EMPTY_STATE);
  }

  lemma SettledSaved(h: Host, g: Goal, faults: Faults)
    requires ValidGoal(g)
    ensures Settled(h, g, faults).saved == h.saved
  {
    var p := PassPlan(g, h.saved);
    SavedKept(h, LimitCmds(g, p), faults);
    SavedKept(ExecAll(h, LimitCmds(g, p)), StopCmds(p), faults);
    SavedKept(Stopped(h, g, faults), SettleCmds(g, p, Failed(h, g, faults), h.saved), faults);
  }

  lemma LifeHalf(x: Host, g: Goal, saved: State, faults: Faults)
    requires ValidGoal(g) && NoSharedService(g.d) && UidChanged(g, saved) && HalfApplied(x, FRESH, g)
    requires HalfApplied(Settled(x, g, faults), FRESH, g)
    ensures HalfApplied(RunUntil(Settled(x, g, faults), LifeCmds(PassPlan(g, saved)), faults).host, FRESH, g)
  {
    var settled := Settled(x, g, faults);
    ChangedPlan(g, saved);
    ChangedLife(g, saved);
    FreshSound(g);
    HalfIsFramed(settled, FRESH, g);
    RunFramed(settled, FRESH, g, LifeCmds(PassPlan(g, saved)), faults);
    LifeReadyKept(x, FRESH, g, faults);
    HalfIsFramed(RunUntil(settled, LifeCmds(PassPlan(g, saved)), faults).host, FRESH, g);
  }

  // The limits and stops of the pass, and what comes behind them.
  ghost function Before(x: Host, g: Goal, saved: State, faults: Faults): Host
    requires ValidGoal(g)
  {
    RunAll(RunUntil(x, LimitCmds(g, PassPlan(g, saved)), faults).host, StopCmds(PassPlan(g, saved)), faults)
  }

  ghost function Behind(x: Host, g: Goal, saved: State, faults: Faults): Outcome
    requires ValidGoal(g)
  {
    var p := PassPlan(g, saved);
    RunUntil(x, SettleCmds(g, p, StopFailed(p, faults), saved) + LifeCmds(p), faults)
  }

  lemma BeforeHalf(x: Host, g: Goal, saved: State, faults: Faults)
    requires ValidGoal(g) && UidChanged(g, saved) && HalfApplied(x, FRESH, g)
    ensures HalfApplied(Before(x, g, saved, faults), FRESH, g)
  {
    LimitsHalf(x, g, saved, faults);
    StopsHalf(RunUntil(x, LimitCmds(g, PassPlan(g, saved)), faults).host, g, saved, faults);
  }

  lemma BeforeSets(x: Host, g: Goal, saved: State, faults: Faults)
    requires ValidGoal(g) && UidChanged(g, saved) && RunUntil(x, LimitCmds(g, PassPlan(g, saved)), faults).ok
    ensures g.d.resources != EMPTY_STATE.resources ==> Look(Before(x, g, saved, faults).at, Limits) == Some(Caps(g.d.resources))
  {
    var p := PassPlan(g, saved);
    var limited := RunUntil(x, LimitCmds(g, p), faults).host;
    RunUntilOk(x, LimitCmds(g, p), faults);
    LimitLook(x, g, p, Limits);
    StopMembers(p);
    StopsOnlyClear(limited, StopCmds(p), faults, Limits);
  }

  lemma BehindHalf(x: Host, g: Goal, saved: State, faults: Faults)
    requires ValidGoal(g) && NoSharedService(g.d) && UidChanged(g, saved) && HalfApplied(x, FRESH, g)
    requires g.d.resources != EMPTY_STATE.resources ==> Look(x.at, Limits) == Some(Caps(g.d.resources))
    ensures HalfApplied(Behind(x, g, saved, faults).host, FRESH, g)
  {
    var p := PassPlan(g, saved);
    var settle := SettleCmds(g, p, StopFailed(p, faults), saved);
    RunUntilAppend(x, settle, LifeCmds(p), faults);
    SettleHalf(x, g, saved, StopFailed(p, faults), faults);
    if RunUntil(x, settle, faults).ok {
      RunUntilOk(x, settle, faults);
      SettledSame(x, g, saved, StopFailed(p, faults), faults);
      LifeHalf(x, g, saved, faults);
    }
  }

  // A pass in the new home, with its record put aside.
  lemma PassBySteps(a: Host, g: Goal, faults: Faults)
    requires ValidGoal(g)
    ensures var x, p := a.(saved := EMPTY_STATE), PassPlan(g, a.saved);
            var limited, r := RunUntil(x, LimitCmds(g, p), faults), Behind(Before(x, g, a.saved, faults), g, a.saved, faults);
            && (!Pass(a, g, faults).ok ==> Pass(a, g, faults).host.saved == a.saved)
            && Pass(a, g, faults).host.(saved := EMPTY_STATE) == (if limited.ok then r.host else limited.host)
            && (Pass(a, g, faults).ok <==> limited.ok && r.ok && faults(SaveState) == NoFault)
  {
    var x, p := a.(saved := EMPTY_STATE), PassPlan(g, a.saved);
    var limited := RunUntil(a, LimitCmds(g, p), faults);
    RunSavedFree(a, LimitCmds(g, p), faults, EMPTY_STATE);
    SavedKept(a, LimitCmds(g, p), faults);
    if limited.ok {
      var stopped, rest := RunAll(limited.host, StopCmds(p), faults), SettleCmds(g, p, StopFailed(p, faults), a.saved) + LifeCmds(p);
      RunSavedFree(limited.host, StopCmds(p), faults, EMPTY_STATE);
      RunSavedFree(stopped, rest, faults, EMPTY_STATE);
      SavedKept(limited.host, StopCmds(p), faults);
      SavedKept(stopped, rest, faults);
    }
  }

  // ---- passes in the new home ------------------------------------------------------------------------------------------

  /** The saved state is the old home's, and the new one is half applied for the goal. */
  ghost predicate InNewHome(a: Host, g: Goal, saved: State) {
    && ValidGoal(g) && NoSharedService(g.d) && UidChanged(g, saved)
    && a.saved == saved && HalfApplied(a.(saved := EMPTY_STATE), FRESH, g)
  }

  lemma AbortInNewHome(a: Host, g: Goal, saved: State, faults: Faults)
    requires InNewHome(a, g, saved) && !Pass(a, g, faults).ok
    ensures InNewHome(Pass(a, g, faults).host, g, saved)
  {
    var x := a.(saved := EMPTY_STATE);
    PassBySteps(a, g, faults);
    LimitsHalf(x, g, saved, faults);
    if RunUntil(x, LimitCmds(g, PassPlan(g, saved)), faults).ok {
      BeforeHalf(x, g, saved, faults);
      BeforeSets(x, g, saved, faults);
      BehindHalf(Before(x, g, saved, faults), g, saved, faults);
    }
  }

  lemma {:induction false} AbortsInNewHome(a: Host, g: Goal, saved: State, attempts: seq<Attempt>)
    requires InNewHome(a, g, saved) && AllFor(g, attempts) && AllAbort(a, attempts)
    ensures InNewHome(AfterAborts(a, attempts), g, saved)
    decreases |attempts|
  {
    if attempts != [] {
      assert attempts[0] in attempts && forall t | t in attempts[1..] :: t in attempts;
      AbortInNewHome(a, g, saved, attempts[0].faults);
      AbortsInNewHome(Pass(a, g, attempts[0].faults).host, g, saved, attempts[1..]);
    }
  }

  // What comes behind the stops ends, without faults, where a first pass does.
  lemma BehindEnds(x: Host, g: Goal, saved: State, faults: Faults)
    requires ValidGoal(g) && NoSharedService(g.d) && UidChanged(g, saved) && HalfApplied(x, FRESH, g)
    requires LoginsResolve(g) && Faultless(faults)
    requires g.d.resources != EMPTY_STATE.resources ==> Look(x.at, Limits) == Some(Caps(g.d.resources))
    ensures var r := Behind(x, g, saved, faults);
            r.ok && r.host.(saved := NextState(g)) == Pass(FRESH, g, faults).host && Pass(FRESH, g, faults).ok
  {
    var p := PassPlan(g, saved);
    var settle := SettleCmds(g, p, StopFailed(p, faults), saved);
    FreshSound(g);
    ChangedPlan(g, saved);
    RunUntilAppend(x, settle, LifeCmds(p), faults);
    SettleOnly(x, g, p, StopFailed(p, faults), saved, faults);
    SettledSame(x, g, saved, StopFailed(p, faults), faults);
    LifeFrom(x, g, faults);
    RetryReaches(x, FRESH, g, faults, faults);
    RunUntilOk(Settled(x, g, faults), LifeCmds(p), faults);
    EndOf(x, g, faults);
  }

  lemma LifeFrom(x: Host, g: Goal, faults: Faults)
    requires Sound(g, FRESH) && HalfApplied(x, FRESH, g) && Faultless(faults)
    ensures RunUntil(Settled(x, g, faults), LifeCmds(PassPlan(g, EMPTY_STATE)), faults).ok
  {
    forall c | c in LifeCmds(PassPlan(g, EMPTY_STATE)) ensures !Fixed(c) && Ready(Settled(x, g, faults), c) {
      LifeReady(x, FRESH, g, faults, c);
    }
    LifeOk(Settled(x, g, faults), LifeCmds(PassPlan(g, EMPTY_STATE)), faults);
  }

  lemma EndOf(x: Host, g: Goal, faults: Faults)
    requires Sound(g, FRESH) && HalfApplied(x, FRESH, g) && Faultless(faults) && Pass(x, g, faults).ok
    ensures Pass(x, g, faults).host == ExecAll(Settled(x, g, faults), LifeCmds(PassPlan(g, EMPTY_STATE))).(saved := NextState(g))
  {
    PassStages(x, g, faults);
    NothingFails(x, g, faults);
    RetainNothing(NextState(g), EMPTY_STATE);
  }

  lemma PassInNewHome(a: Host, g: Goal, saved: State, faults: Faults)
    requires InNewHome(a, g, saved) && LoginsResolve(g) && Faultless(faults)
    ensures Pass(a, g, faults) == Pass(FRESH, g, faults) && Pass(FRESH, g, faults).ok
  {
    var x := a.(saved := EMPTY_STATE);
    PassBySteps(a, g, faults);
    StretchesOk(x, g, PassPlan(g, saved), faults);
    BeforeHalf(x, g, saved, faults);
    BeforeSets(x, g, saved, faults);
    BehindEnds(Before(x, g, saved, faults), g, saved, faults);
    PassStages(a, g, faults);
    NothingFails(a, g, faults);
    RetainNothing(NextState(g), saved);
  }

  /** Retry after a uid change: in a new, empty home any number of aborted passes for a goal followed by one without faults
      end as one uninterrupted pass on a fresh host would: everything is applied, and the state it saves is exact. */
  lemma RetryInNewHome(h: Host, g: Goal, attempts: seq<Attempt>, faults: Faults)
    requires ValidGoal(g) && NoSharedService(g.d) && LoginsResolve(g) && Faultless(faults)
    requires h.saved.uid != 0 && g.uid != h.saved.uid && h.at == map[] && h.loaded == map[]
    requires AllFor(g, attempts) && AllAbort(h, attempts)
    ensures var r := Pass(AfterAborts(h, attempts), g, faults);
            && r == Pass(FRESH, g, faults)
            && r.ok && Reached(r.host, g) && Matches(r.host) && PlanOf(g.d, r.host.saved).Empty()
  {
    FreshSound(g);
    PassConverges(FRESH, g, faults);
    EmptyHome(h, g);
    AbortsInNewHome(h, g, h.saved, attempts);
    PassInNewHome(AfterAborts(h, attempts), g, h.saved, faults);
  }

  lemma EmptyHome(h: Host, g: Goal)
    requires ValidGoal(g) && NoSharedService(g.d) && UidChanged(g, h.saved) && h.at == map[] && h.loaded == map[]
    ensures InNewHome(h, g, h.saved)
  {
    FreshSound(g);
    assert h.(saved := EMPTY_STATE) == FRESH;
  }

  /** In particular one such pass does what it would do on a fresh host. */
  lemma NewHomeConverges(h: Host, g: Goal, faults: Faults)
    requires ValidGoal(g) && NoSharedService(g.d) && LoginsResolve(g) && Faultless(faults)
    requires h.saved.uid != 0 && g.uid != h.saved.uid && h.at == map[] && h.loaded == map[]
    ensures var r := Pass(h, g, faults);
            && r == Pass(FRESH, g, faults)
            && r.ok && Reached(r.host, g) && Matches(r.host) && PlanOf(g.d, r.host.saved).Empty()
  {
    RetryInNewHome(h, g, [], faults);
  }

  lemma StillRemoved(g: Goal, saved: State, n: string)
    requires ValidGoal(g) && UidChanged(g, saved) && n in saved.files && n !in g.d.files
    ensures Separate(PassPlan(g, saved)) && n in PassPlan(g, saved).removeFiles
  {
    ChangedSeparate(g, saved);
  }

  /** If the old home persisted after all, the files that left the desired set are still removed, unless their
      unit failed to stop, whatever else is on the host. */
  lemma OldFilesStillGo(h: Host, g: Goal, faults: Faults, n: string)
    requires ValidGoal(g) && h.saved.uid != 0 && g.uid != h.saved.uid && Pass(h, g, faults).ok
    requires n in h.saved.files && n !in g.d.files && n !in Failed(h, g, faults)
    ensures Look(Pass(h, g, faults).host.at, FileLoc(n)) == None
  {
    StillRemoved(g, h.saved, n);
    FileLocKind(n);
    SettledPassFile(h, g, faults, n);
    PassKeepsSettled(h, g, faults, FileLoc(n));
  }

  // ---- what the old home still runs --------------------------------------------------------------------------------------

  lemma OldStopsSent(g: Goal, saved: State, u: string)
    requires ValidGoal(g) && UidChanged(g, saved)
    ensures u in StopSet(g.d, saved) ==> StopUnit(u) in StopCmds(PassPlan(g, saved))
    ensures u in DisableSet(g.d, saved) ==> DisableUnit(u) in StopCmds(PassPlan(g, saved))
  {
    var p := PassPlan(g, saved);
    PlanMembers(g.d, saved);
    EachMembers(p.stopUnits, u => StopUnit(u));
    EachMembers(p.disableUnits, u => DisableUnit(u));
  }

  // Nothing the pass starts or enables is there.
  predicate Unwanted(g: Goal, l: Loc) {
    match l
    case Service(s) => !WantsService(g.d, s)
    case Native(u) => !(u in g.d.files && Enabled(g.d.files[u]))
    case _ => false
  }

  ghost predicate Launchable(p: Plan, d: Desired) {
    && (forall u | u in p.startUnits || u in p.restartUnits :: u in d.files && d.files[u].isUnit)
    && (forall u | u in p.enableUnits || u in p.restartSystemdUnits :: u in d.files && Enabled(d.files[u]))
  }

  lemma PlanLaunches(d: Desired, prior: State)
    requires Named(d.files)
    ensures Launchable(PlanOf(d, prior), d)
  {
    PlanMembers(d, prior);
  }

  lemma LaunchedElsewhere(g: Goal, p: Plan, cmds: seq<Cmd>, c: Cmd, l: Loc)
    requires Lives(cmds, p) && Launchable(p, g.d) && c in cmds && Unwanted(g, l)
    ensures Target(c) != Some(l)
  {
    if c.StartUnit? || c.RestartUnit? {
      assert WantsService(g.d, UnitService(c.unit));
    } else {
      assert c.unit in g.d.files && Enabled(g.d.files[c.unit]);
    }
  }

  lemma NotLaunchedHere(g: Goal, saved: State, c: Cmd, l: Loc)
    requires ValidGoal(g) && UidChanged(g, saved) && c in LifeCmds(PassPlan(g, saved)) && Unwanted(g, l)
    ensures Target(c) != Some(l)
  {
    ChangedPlan(g, saved);
    PlanLaunches(g.d, EMPTY_STATE);
    LifeMembers(PlanOf(g.d, EMPTY_STATE));
    LaunchedElsewhere(g, PlanOf(g.d, EMPTY_STATE), LifeCmds(PlanOf(g.d, EMPTY_STATE)), c, l);
  }

  /** If the old home persisted, what it ran and the goal does not want is brought down by its recorded unit, unless that
      stop or disable had no effect. */
  lemma OldUnitsStillStop(h: Host, g: Goal, faults: Faults, u: string)
    requires ValidGoal(g) && h.saved.uid != 0 && g.uid != h.saved.uid && Pass(h, g, faults).ok
    requires u in h.saved.units && u !in g.d.files && faults(StopUnit(u)) != NoEffect && !WantsService(g.d, UnitService(u))
    ensures Look(Pass(h, g, faults).host.at, Service(UnitService(u))) == None
  {
    OldStopsSent(g, h.saved, u);
    BroughtDown(h, g, faults, StopUnit(u), Service(UnitService(u)));
  }

  lemma OldNativesStillStop(h: Host, g: Goal, faults: Faults, u: string)
    requires ValidGoal(g) && h.saved.uid != 0 && g.uid != h.saved.uid && Pass(h, g, faults).ok
    requires u in h.saved.systemdUnits && !(u in g.d.files && Enabled(g.d.files[u])) && faults(DisableUnit(u)) != NoEffect
    ensures Look(Pass(h, g, faults).host.at, Native(u)) == None
  {
    OldStopsSent(g, h.saved, u);
    BroughtDown(h, g, faults, DisableUnit(u), Native(u));
  }

  lemma BroughtDown(h: Host, g: Goal, faults: Faults, c: Cmd, l: Loc)
    requires ValidGoal(g) && UidChanged(g, h.saved) && Pass(h, g, faults).ok && Unwanted(g, l)
    requires c in StopCmds(PassPlan(g, h.saved)) && Target(c) == Some(l) && faults(c) != NoEffect
    ensures Look(Pass(h, g, faults).host.at, l) == None
  {
    var p, failed := PassPlan(g, h.saved), Failed(h, g, faults);
    StoppedLook(h, g, faults, l);
    assert Clears(StopCmds(p), faults, l);
    SettleMembers(g, p, failed, h.saved);
    SettleLeaves(Stopped(h, g, faults), SettleCmds(g, p, failed, h.saved), g, p, failed, l);
    PassStages(h, g, faults);
    forall x | x in LifeCmds(p) ensures Target(x) != Some(l) {
      NotLaunchedHere(g, h.saved, x, l);
    }
    Untouched(Settled(h, g, faults), LifeCmds(p), l);
  }

  lemma RemovalReloads(g: Goal, saved: State, n: string)
    requires ValidGoal(g) && UidChanged(g, saved) && n in saved.files && n !in g.d.files && !IsSupportFile(n)
    ensures PassPlan(g, saved).daemonReload
  {
    assert n in RemoveSet(g.d, saved);
  }

  lemma LifeKeepsLoaded(h: Host, p: Plan)
    requires h.loaded == UnitsOn(h.at)
    ensures var end := ExecAll(h, LifeCmds(p)); end.loaded == UnitsOn(end.at)
  {
    LifeMembers(p);
    LoadedKept(h, LifeCmds(p));
    forall l | IsUnitLoc(l) ensures Look(ExecAll(h, LifeCmds(p)).at, l) == Look(h.at, l) {
      LifeLeaves(h, p, l);
    }
    UnitsOnEqual(h.at, ExecAll(h, LifeCmds(p)).at);
  }

  /** And the manager forgets the units whose files it removes: the pass ends with exactly the unit files on disk loaded. */
  lemma OldUnitsForgotten(h: Host, g: Goal, faults: Faults, n: string)
    requires ValidGoal(g) && h.saved.uid != 0 && g.uid != h.saved.uid && Pass(h, g, faults).ok
    requires n in h.saved.files && n !in g.d.files && !IsSupportFile(n)
    ensures Pass(h, g, faults).host.loaded == UnitsOn(Pass(h, g, faults).host.at)
  {
    var p := PassPlan(g, h.saved);
    RemovalReloads(g, h.saved, n);
    PassStages(h, g, faults);
    ReloadsLast(Stopped(h, g, faults), g, p, Failed(h, g, faults), h.saved);
    LifeKeepsLoaded(Settled(h, g, faults), p);
  }

  lemma ReloadsLast(from: Host, g: Goal, p: Plan, failed: set<string>, saved: State)
    requires p.daemonReload
    ensures var end := ExecAll(from, SettleCmds(g, p, failed, saved)); end.loaded == UnitsOn(end.at)
  {
    var before := FileCmds(g, p, failed) + SecretCmds(g, p) + LoginCmds(g, p, saved);
    assert SettleCmds(g, p, failed, saved) == before + [Reload];
    ExecAllAppend(from, before, [Reload]);
    var mid := ExecAll(from, before);
    assert [Reload][1..] == [] && ExecAll(mid, [Reload]) == Exec(mid, Reload);
  }
}
