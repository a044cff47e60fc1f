/** A goal that aborts and another that follows it: exactly when the second ends as if the first had never been tried. */
module NewGoal {
  import opened Agreement
  import opened Basics
  import opened Convergence
  import opened Fileset
  import opened Freshness
  import opened Host
  import opened Plan
  import opened Reconcile
  import opened Retry
  import opened Segments

  // ---- a pass changes only what its plan touches, from any host ------------------------------------------------

  lemma FramedSelf(a: Host, g: Goal)
    requires ValidGoal(g)
    ensures Framed(a, a, g)
  {
  }

  lemma PlanShape(g: Goal, saved: State)
    requires ValidGoal(g) && !UidChanged(g, saved)
    ensures Holds(PassPlan(g, saved), g.d, saved) && PassPlan(g, saved).daemonReload == Reloads(g.d, saved)
  {
    PlanMembers(g.d, saved);
  }

  lemma StopsFramed(a: Host, from: Host, g: Goal, faults: Faults)
    requires ValidGoal(g) && !UidChanged(g, a.saved) && Framed(from, a, g)
    ensures Framed(RunAll(from, StopCmds(PassPlan(g, a.saved)), faults), a, g)
  {
    var p := PassPlan(g, a.saved);
    PlanShape(g, a.saved);
    StopMembers(p);
    StopHarmless(a, g, p, StopCmds(p));
    RunFramed(from, a, g, StopCmds(p), faults);
  }

  lemma RestFramed(a: Host, from: Host, g: Goal, failed: set<string>, faults: Faults)
    requires ValidGoal(g) && !UidChanged(g, a.saved) && Framed(from, a, g)
    ensures var p := PassPlan(g, a.saved);
            Framed(RunUntil(from, SettleCmds(g, p, failed, a.saved) + LifeCmds(p), faults).host, a, g)
  {
    var p := PassPlan(g, a.saved);
    var settle := SettleCmds(g, p, failed, a.saved);
    PlanShape(g, a.saved);
    SettleMembers(g, p, failed, a.saved);
    LifeMembers(p);
    PlanHarmless(a, g, p, settle, failed);
    LifeHarmless(a, g, p, LifeCmds(p));
    RunFramed(from, a, g, settle + LifeCmds(p), faults);
  }

  // The stretches of a pass, saved or not.
  ghost function RestOf(h: Host, g: Goal, faults: Faults): Outcome
    requires ValidGoal(g)
  {
    var p := PassPlan(g, h.saved);
    var stopped := RunAll(RunUntil(h, LimitCmds(g, p), faults).host, StopCmds(p), faults);
    RunUntil(stopped, SettleCmds(g, p, StopFailed(p, faults), h.saved) + LifeCmds(p), faults)
  }

  lemma PassByRest(h: Host, g: Goal, faults: Faults)
    requires ValidGoal(g) && RunUntil(h, LimitCmds(g, PassPlan(g, h.saved)), faults).ok
    ensures var r := RestOf(h, g, faults);
            && (Pass(h, g, faults).ok <==> r.ok && faults(SaveState) == NoFault)
            && Pass(h, g, faults).host.(saved := r.host.saved) == r.host
            && (!Pass(h, g, faults).ok ==> Pass(h, g, faults).host == r.host)
  {
  }

  lemma LimitsFramed(a: Host, g: Goal, faults: Faults)
    requires ValidGoal(g) && !UidChanged(g, a.saved)
    ensures Framed(RunUntil(a, LimitCmds(g, PassPlan(g, a.saved)), faults).host, a, g)
  {
    FramedSelf(a, g);
    LimitHarmless(a, g);
    RunFramed(a, a, g, LimitCmds(g, PassPlan(g, a.saved)), faults);
  }

  lemma AllFramed(a: Host, g: Goal, faults: Faults)
    requires ValidGoal(g) && !UidChanged(g, a.saved)
    ensures Framed(RestOf(a, g, faults).host, a, g)
  {
    var p := PassPlan(g, a.saved);
    var limited := RunUntil(a, LimitCmds(g, p), faults);
    LimitsFramed(a, g, faults);
    StopsFramed(a, limited.host, g, faults);
    RestFramed(a, RunAll(limited.host, StopCmds(p), faults), g, StopFailed(p, faults), faults);
  }

  /** However a pass ends, what its plan does not touch is as it was. */
  lemma PassFramed(a: Host, g: Goal, faults: Faults)
    requires ValidGoal(g) && !UidChanged(g, a.saved)
    ensures Framed(Pass(a, g, faults).host.(saved := a.saved), a, g)
    ensures !Pass(a, g, faults).ok ==> Pass(a, g, faults).host.saved == a.saved
  {
    LimitsFramed(a, g, faults);
    if RunUntil(a, LimitCmds(g, PassPlan(g, a.saved)), faults).ok {
      AllFramed(a, g, faults);
      PassByRest(a, g, faults);
    } else {
      LimitsAbort(a, g, faults);
    }
  }

  lemma LimitsAbort(a: Host, g: Goal, faults: Faults)
    requires ValidGoal(g) && !RunUntil(a, LimitCmds(g, PassPlan(g, a.saved)), faults).ok
    ensures Pass(a, g, faults) == RunUntil(a, LimitCmds(g, PassPlan(g, a.saved)), faults)
  {
  }

  // ---- a unit that runs already is left as it is --------------------------------------------------------------

  lemma {:induction false} StartLeaves(h: Host, cmds: seq<Cmd>, u: string)
    requires Service(UnitService(u)) in h.at && forall c | c in cmds && Target(c) == Some(Service(UnitService(u))) :: c == StartUnit(u)
    ensures Look(ExecAll(h, cmds).at, Service(UnitService(u))) == Look(h.at, Service(UnitService(u)))
    decreases |cmds|
  {
    if cmds != [] {
      assert cmds[0] in cmds && forall c | c in cmds[1..] :: c in cmds;
      StartLeaves(Exec(h, cmds[0]), cmds[1..], u);
    }
  }

  lemma {:induction false} EnableLeaves(h: Host, cmds: seq<Cmd>, u: string)
    requires Native(u) in h.at && forall c | c in cmds && Target(c) == Some(Native(u)) :: c == EnableUnit(u)
    ensures Look(ExecAll(h, cmds).at, Native(u)) == Look(h.at, Native(u))
    decreases |cmds|
  {
    if cmds != [] {
      assert cmds[0] in cmds && forall c | c in cmds[1..] :: c in cmds;
      EnableLeaves(Exec(h, cmds[0]), cmds[1..], u);
    }
  }

  // The only command on the service of a unit that is started is that start.
  lemma OnlyStart(cmds: seq<Cmd>, p: Plan, g: Goal, prior: State, u: string)
    requires ValidGoal(g) && NoSharedService(g.d) && Holds(p, g.d, prior) && Lives(cmds, p) && u in StartSet(g.d, prior)
    ensures forall c | c in cmds && Target(c) == Some(Service(UnitService(u))) :: c == StartUnit(u)
  {
    forall c | c in cmds && Target(c) == Some(Service(UnitService(u))) ensures c == StartUnit(u) {
      OneLauncher(cmds, p, g, prior, u, c);
    }
  }

  lemma OnlyEnable(cmds: seq<Cmd>, p: Plan, g: Goal, prior: State, u: string)
    requires ValidGoal(g) && Holds(p, g.d, prior) && Lives(cmds, p) && u in EnableSet(g.d, prior)
    ensures forall c | c in cmds && Target(c) == Some(Native(u)) :: c == EnableUnit(u)
  {
    forall c | c in cmds && Target(c) == Some(Native(u)) ensures c == EnableUnit(u) {
      ArmsByName(cmds, p, u, c);
    }
  }

  lemma ArmsByName(cmds: seq<Cmd>, p: Plan, u: string, c: Cmd)
    requires Lives(cmds, p) && c in cmds && Target(c) == Some(Native(u))
    ensures c == EnableUnit(u) || (c == RestartNative(u) && u in p.restartSystemdUnits)
  {
    assert c.EnableUnit? || c.RestartNative?;
  }

  // Stops and files before the lifecycle commands leave unit state alone where the plan neither stops nor disables.
  lemma SettledKeepsUnit(a: Host, g: Goal, faults: Faults, l: Loc)
    requires ValidGoal(g) && !UidChanged(g, a.saved) && IsUnitState(l)
    requires if l.Service? then !StopsService(g.d, a.saved, l.service) else l.unit !in DisableSet(g.d, a.saved)
    ensures Look(Settled(a, g, faults).at, l) == Look(a.at, l)
  {
    var p, failed := PassPlan(g, a.saved), Failed(a, g, faults);
    PlanShape(g, a.saved);
    if l.Service? {
      StopIssued(p, g.d, a.saved, l.service);
    } else {
      DisableIssued(p, g.d, a.saved, l.unit);
    }
    StoppedLook(a, g, faults, l);
    SettleMembers(g, p, failed, a.saved);
    SettleLeaves(Stopped(a, g, faults), SettleCmds(g, p, failed, a.saved), g, p, failed, l);
  }

  lemma StartedLeft(a: Host, g: Goal, faults: Faults, u: string)
    requires ValidGoal(g) && NoSharedService(g.d) && !UidChanged(g, a.saved) && Pass(a, g, faults).ok
    requires u in StartSet(g.d, a.saved) && !StopsService(g.d, a.saved, UnitService(u)) && Service(UnitService(u)) in a.at
    ensures Look(Pass(a, g, faults).host.at, Service(UnitService(u))) == Look(a.at, Service(UnitService(u)))
  {
    var p, l := PassPlan(g, a.saved), Service(UnitService(u));
    PassStages(a, g, faults);
    PlanShape(g, a.saved);
    SettledKeepsUnit(a, g, faults, l);
    LifeMembers(p);
    OnlyStart(LifeCmds(p), p, g, a.saved, u);
    StartLeaves(Settled(a, g, faults), LifeCmds(p), u);
  }

  lemma EnabledLeft(a: Host, g: Goal, faults: Faults, u: string)
    requires ValidGoal(g) && !UidChanged(g, a.saved) && Pass(a, g, faults).ok
    requires u in EnableSet(g.d, a.saved) && Native(u) in a.at
    ensures Look(Pass(a, g, faults).host.at, Native(u)) == Look(a.at, Native(u))
  {
    var p := PassPlan(g, a.saved);
    PassStages(a, g, faults);
    PlanShape(g, a.saved);
    SettledKeepsUnit(a, g, faults, Native(u));
    LifeMembers(p);
    OnlyEnable(LifeCmds(p), p, g, a.saved, u);
    EnableLeaves(Settled(a, g, faults), LifeCmds(p), u);
  }

  // ---- the second goal -------------------------------------------------------------------------------------------

  lemma SameEnd(a: Host, h: Host, g: Goal, faults: Faults)
    requires Sound(g, h) && a.saved == h.saved && LoginsResolve(g) && Faultless(faults)
    requires Pass(a, g, faults) == Pass(h, g, faults)
    ensures Framed(a, h, g)
  {
    HalfAppliedSelf(h, g);
    CleanPassOk(h, h, g, faults);
    PassFramed(a, g, faults);
    PassFramed(h, g, faults);
    var x, y := Pass(a, g, faults).host, Pass(h, g, faults).host;
    forall l ensures Touches(g.d, h.saved, l) || Look(a.at, l) == Look(h.at, l) {
      assert Touches(g.d, h.saved, l) || (Look(x.at, l) == Look(a.at, l) && Look(y.at, l) == Look(h.at, l));
    }
  }

  lemma SameStarts(a: Host, h: Host, g: Goal, faults: Faults, u: string)
    requires Sound(g, h) && a.saved == h.saved && LoginsResolve(g) && Faultless(faults)
    requires Pass(a, g, faults) == Pass(h, g, faults) && u in StartSet(g.d, h.saved)
    ensures StartReady(g, h.saved, a.at, u)
  {
    HalfAppliedSelf(h, g);
    CleanPassOk(h, h, g, faults);
    var l := Service(UnitService(u));
    if !StopsService(g.d, h.saved, l.service) && l in a.at {
      assert Launches(g.d, h.saved, u);
      LaunchedService(h, h, g, faults, u);
      StartedLeft(a, g, faults, u);
    }
  }

  lemma SameEnables(a: Host, h: Host, g: Goal, faults: Faults, u: string)
    requires Sound(g, h) && a.saved == h.saved && LoginsResolve(g) && Faultless(faults)
    requires Pass(a, g, faults) == Pass(h, g, faults) && u in EnableSet(g.d, h.saved)
    ensures EnableReady(g, a.at, u)
  {
    HalfAppliedSelf(h, g);
    CleanPassOk(h, h, g, faults);
    if Native(u) in a.at {
      assert Arms(g.d, h.saved, u);
      ArmedNative(h, h, g, faults, u);
      EnabledLeft(a, g, faults, u);
    }
  }

  /** A goal tried on any host with the saved state of `h` ends where it would from `h` exactly when that host is `h`
      wherever the goal's plan does not reach, its manager has read the same units unless the plan reloads, and every
      unit the plan starts or enables is dead or already runs with the wanted inputs. */
  lemma EndsAlike(a: Host, h: Host, g: Goal, faults: Faults)
    requires Sound(g, h) && a.saved == h.saved && LoginsResolve(g) && Faultless(faults)
    ensures Pass(a, g, faults) == Pass(h, g, faults) <==> HalfApplied(a, h, g)
  {
    if HalfApplied(a, h, g) {
      RetryReaches(a, h, g, faults, faults);
    }
    if Pass(a, g, faults) == Pass(h, g, faults) {
      SameEnd(a, h, g, faults);
      forall u | u in StartSet(g.d, h.saved) ensures StartReady(g, h.saved, a.at, u) {
        SameStarts(a, h, g, faults, u);
      }
      forall u | u in EnableSet(g.d, h.saved) ensures EnableReady(g, a.at, u) {
        SameEnables(a, h, g, faults, u);
      }
    }
  }

  // ---- after aborted passes for other goals --------------------------------------------------------------------

  // Some attempt's plan touches the location, or reloads the manager.
  ghost predicate Reach(attempts: seq<Attempt>, prior: State, l: Loc) {
    exists t | t in attempts :: ValidGoal(t.goal) && Touches(t.goal.d, prior, l)
  }

  ghost predicate SameUser(attempts: seq<Attempt>, saved: State) {
    forall t | t in attempts :: !UidChanged(t.goal, saved)
  }

  lemma {:induction false} AbortsFramed(a: Host, attempts: seq<Attempt>, l: Loc)
    requires AllAbort(a, attempts) && SameUser(attempts, a.saved) && !Reach(attempts, a.saved, l)
    ensures Look(AfterAborts(a, attempts).at, l) == Look(a.at, l)
    decreases |attempts|
  {
    if attempts != [] {
      var t := attempts[0];
      assert t in attempts && forall t | t in attempts[1..] :: t in attempts;
      PassFramed(a, t.goal, t.faults);
      AbortsFramed(Pass(a, t.goal, t.faults).host, attempts[1..], l);
    }
  }

  lemma {:induction false} AbortsSave(a: Host, attempts: seq<Attempt>)
    requires AllAbort(a, attempts) && SameUser(attempts, a.saved)
    ensures AfterAborts(a, attempts).saved == a.saved
    decreases |attempts|
  {
    if attempts != [] {
      var t := attempts[0];
      assert t in attempts && forall t | t in attempts[1..] :: t in attempts;
      PassFramed(a, t.goal, t.faults);
      AbortsSave(Pass(a, t.goal, t.faults).host, attempts[1..]);
    }
  }

  /** Where the aborted plans reached and the new one does not, the host is as it was; the manager has read the same
      units, or the new plan reloads; and what the new plan starts or enables is dead or runs as wanted. */
  ghost predicate NothingForeign(a: Host, h: Host, attempts: seq<Attempt>, g: Goal)
    requires ValidGoal(g)
  {
    && (forall l | Reach(attempts, h.saved, l) && !Touches(g.d, h.saved, l) :: Look(a.at, l) == Look(h.at, l))
    && (a.loaded == h.loaded || Reloads(g.d, h.saved)) && UnitsReady(a.at, g, h.saved)
  }

  lemma FramedByReach(a: Host, h: Host, attempts: seq<Attempt>, g: Goal)
    requires ValidGoal(g) && a.saved == h.saved && forall l | !Reach(attempts, h.saved, l) :: Look(a.at, l) == Look(h.at, l)
    ensures (forall l :: Touches(g.d, h.saved, l) || Look(a.at, l) == Look(h.at, l))
       <==> (forall l | Reach(attempts, h.saved, l) && !Touches(g.d, h.saved, l) :: Look(a.at, l) == Look(h.at, l))
  {
  }

  lemma HalfIsFramed(a: Host, h: Host, g: Goal)
    requires ValidGoal(g)
    ensures HalfApplied(a, h, g) <==> Framed(a, h, g) && UnitsReady(a.at, g, h.saved)
  {
  }

  lemma ForeignIsAll(h: Host, attempts: seq<Attempt>, g: Goal)
    requires Sound(g, h) && AllAbort(h, attempts) && SameUser(attempts, h.saved)
    ensures var a := AfterAborts(h, attempts);
            a.saved == h.saved && (HalfApplied(a, h, g) <==> NothingForeign(a, h, attempts, g))
  {
    var a := AfterAborts(h, attempts);
    AbortsSave(h, attempts);
    forall l | !Reach(attempts, h.saved, l) ensures Look(a.at, l) == Look(h.at, l) {
      AbortsFramed(h, attempts, l);
    }
    FramedByReach(a, h, attempts, g);
    HalfIsFramed(a, h, g);
  }

  /** A new goal after any aborted passes for other goals: a faultless pass ends with the host and the state that it would
      have reached had they never been tried exactly when they left nothing foreign to it. */
  lemma NewGoalAfterAborts(h: Host, attempts: seq<Attempt>, g: Goal, faults: Faults)
    requires Sound(g, h) && LoginsResolve(g) && AllAbort(h, attempts) && SameUser(attempts, h.saved) && Faultless(faults)
    ensures Reached(Pass(h, g, faults).host, g)
    ensures Pass(AfterAborts(h, attempts), g, faults) == Pass(h, g, faults)
       <==> NothingForeign(AfterAborts(h, attempts), h, attempts, g)
  {
    PassReaches(h, g, faults);
    ForeignIsAll(h, attempts, g);
    EndsAlike(AfterAborts(h, attempts), h, g, faults);
  }

  /** A file that only an aborted goal had is in no plan again: every later pass of a goal without it leaves it. */
  lemma StrayFileStays(a: Host, g: Goal, faults: Faults, n: string)
    requires ValidGoal(g) && !UidChanged(g, a.saved) && n !in g.d.files && n !in a.saved.files
    ensures Look(Pass(a, g, faults).host.at, FileLoc(n)) == Look(a.at, FileLoc(n))
    ensures n !in Pass(a, g, faults).host.saved.files
  {
    PassFramed(a, g, faults);
    StrayUntouched(g, a.saved, n);
    if Pass(a, g, faults).ok {
      PassStages(a, g, faults);
      SavedRecord(g, Failed(a, g, faults), a.saved, n);
    }
  }

  lemma StrayUntouched(g: Goal, prior: State, n: string)
    requires ValidGoal(g) && n !in g.d.files && n !in prior.files
    ensures !Touches(g.d, prior, FileLoc(n))
  {
    assert FileLoc(n).name == n;
  }

  // ---- a first pass that does everything but save ---------------------------------------------------------------

  const UNSAVED: Faults := c => if c == SaveState then NoEffect else NoFault

  lemma {:induction false} RunsSame(h: Host, cmds: seq<Cmd>, f: Faults, f': Faults)
    requires forall c | c in cmds :: f(c) == f'(c)
    ensures RunUntil(h, cmds, f) == RunUntil(h, cmds, f') && RunAll(h, cmds, f) == RunAll(h, cmds, f')
    decreases |cmds|
  {
    if cmds != [] {
      assert cmds[0] in cmds && forall c | c in cmds[1..] :: c in cmds;
      RunsSame(Do(h, cmds[0], f).host, cmds[1..], f, f');
    }
  }

  lemma NeverSaves(g: Goal, p: Plan, failed: set<string>, saved: State)
    ensures SaveState !in LimitCmds(g, p) && SaveState !in StopCmds(p)
    ensures SaveState !in SettleCmds(g, p, failed, saved) + LifeCmds(p)
  {
    StopMembers(p);
    SettleMembers(g, p, failed, saved);
    LifeMembers(p);
  }

  lemma RestSaved(h: Host, g: Goal, faults: Faults)
    requires ValidGoal(g)
    ensures RestOf(h, g, faults).host.saved == h.saved
  {
    var p := PassPlan(g, h.saved);
    var limited := RunUntil(h, LimitCmds(g, p), faults).host;
    SavedKept(h, LimitCmds(g, p), faults);
    SavedKept(limited, StopCmds(p), faults);
    SavedKept(RunAll(limited, StopCmds(p), faults), SettleCmds(g, p, StopFailed(p, faults), h.saved) + LifeCmds(p), faults);
  }

  lemma NoneFailed(p: Plan, faults: Faults)
    requires forall c: Cmd :: c.StopUnit? || c.DisableUnit? ==> faults(c) == NoFault
    ensures StopFailed(p, faults) == {}
  {
  }

  lemma RestSame(h: Host, g: Goal, faults: Faults)
    requires ValidGoal(g) && Faultless(faults)
    ensures RestOf(h, g, UNSAVED) == RestOf(h, g, faults)
    ensures RunUntil(h, LimitCmds(g, PassPlan(g, h.saved)), UNSAVED) == RunUntil(h, LimitCmds(g, PassPlan(g, h.saved)), faults)
  {
    var p := PassPlan(g, h.saved);
    NeverSaves(g, p, {}, h.saved);
    RunsSame(h, LimitCmds(g, p), faults, UNSAVED);
    var limited := RunUntil(h, LimitCmds(g, p), faults).host;
    RunsSame(limited, StopCmds(p), faults, UNSAVED);
    NoneFailed(p, faults);
    NoneFailed(p, UNSAVED);
    RunsSame(RunAll(limited, StopCmds(p), faults), SettleCmds(g, p, {}, h.saved) + LifeCmds(p), faults, UNSAVED);
  }

  lemma SaveFails(h: Host, g: Goal, faults: Faults)
    requires ValidGoal(g) && Faultless(faults) && Pass(h, g, faults).ok
    ensures Pass(h, g, UNSAVED) == Outcome(Pass(h, g, faults).host.(saved := h.saved), false)
  {
    RestSame(h, g, faults);
    RestSaved(h, g, faults);
    PassByRest(h, g, faults);
    PassByRest(h, g, UNSAVED);
  }

  lemma FirstPassWrites(g: Goal, faults: Faults, n: string)
    requires ValidGoal(g) && Faultless(faults) && Pass(FRESH, g, faults).ok && n in g.d.files
    ensures Look(Pass(FRESH, g, faults).host.at, FileLoc(n)) == Some(Text(ContentOf(g, n)))
  {
    PassFile(FRESH, g, faults, n);
    PlanMembers(g.d, EMPTY_STATE);
    assert n in WriteSet(g.d, EMPTY_STATE);
  }

  /** The run: a first pass does everything but save, and a second goal without one of its files then never removes it. */
  lemma RevisionLeavesFile(g: Goal, g': Goal, n: string, faults: Faults)
    requires ValidGoal(g) && LoginsResolve(g) && n in g.d.files
    requires ValidGoal(g') && n !in g'.d.files
    ensures var once := Pass(FRESH, g, UNSAVED);
            && AllAbort(FRESH, [Attempt(g, UNSAVED)]) && AfterAborts(FRESH, [Attempt(g, UNSAVED)]) == once.host
            && Look(once.host.at, FileLoc(n)) == Some(Text(ContentOf(g, n)))
            && Look(Pass(once.host, g', faults).host.at, FileLoc(n)) == Some(Text(ContentOf(g, n)))
            && !NothingForeign(once.host, FRESH, [Attempt(g, UNSAVED)], g')
  {
    var once := Pass(FRESH, g, UNSAVED).host;
    FirstPassOk(g, c => NoFault);
    FirstPassWrites(g, c => NoFault, n);
    SaveFails(FRESH, g, c => NoFault);
    OneAttempt(FRESH, Attempt(g, UNSAVED));
    StrayFileStays(once, g', faults, n);
    StrayUntouched(g', EMPTY_STATE, n);
    WrittenReach(g, n);
  }

  lemma OneAttempt(h: Host, t: Attempt)
    requires ValidGoal(t.goal) && !UidChanged(t.goal, h.saved) && !Pass(h, t.goal, t.faults).ok
    ensures AllAbort(h, [t]) && AfterAborts(h, [t]) == Pass(h, t.goal, t.faults).host
  {
    var next := Pass(h, t.goal, t.faults).host;
    assert [t][1..] == [];
    assert AllAbort(next, []) && AfterAborts(next, []) == next;
  }

  lemma WrittenReach(g: Goal, n: string)
    requires ValidGoal(g) && n in g.d.files
    ensures Reach([Attempt(g, UNSAVED)], EMPTY_STATE, FileLoc(n))
  {
    var t := Attempt(g, UNSAVED);
    assert n in WriteSet(g.d, EMPTY_STATE) && FileLoc(n).name == n;
    assert Touches(t.goal.d, EMPTY_STATE, FileLoc(n)) && t in [t];
  }
}
