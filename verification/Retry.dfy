/** Retry after abort: however often a pass stops half way, a completed pass for the same goal ends where an
    uninterrupted one would have. */
module Retry {
  import opened Agreement
  import opened Basics
  import opened Convergence
  import opened Fileset
  import opened Host
  import opened Plan
  import opened Reconcile
  import opened Segments

  // ---- a pass without faults is never refused --------------------------------------------------------

  predicate Ready(h: Host, c: Cmd) {
    match c
    case StartUnit(u) => QuadletFile(u) in h.loaded
    case RestartUnit(u) => QuadletFile(u) in h.loaded
    case EnableUnit(u) => UserFile(u) in h.loaded
    case RestartNative(u) => UserFile(u) in h.loaded
    case LogIn(_, _, password) => password.Some?
    case _ => true
  }

  lemma {:induction false} FixedOk(h: Host, cmds: seq<Cmd>, faults: Faults)
    requires forall c | c in cmds :: Fixed(c) && Ready(h, c) && faults(c) == NoFault
    ensures RunUntil(h, cmds, faults).ok
    decreases |cmds|
  {
    if cmds != [] {
      assert cmds[0] in cmds && forall c | c in cmds[1..] :: c in cmds;
      FixedOk(Exec(h, cmds[0]), cmds[1..], faults);
    }
  }

  lemma {:induction false} LifeOk(h: Host, cmds: seq<Cmd>, faults: Faults)
    requires forall c | c in cmds :: !Fixed(c) && Ready(h, c) && faults(c) == NoFault
    ensures RunUntil(h, cmds, faults).ok
    decreases |cmds|
  {
    if cmds != [] {
      assert cmds[0] in cmds && forall c | c in cmds[1..] :: c in cmds;
      assert Exec(h, cmds[0]).loaded == h.loaded;
      LifeOk(Exec(h, cmds[0]), cmds[1..], faults);
    }
  }

  lemma LoginsReady(g: Goal, p: Plan, saved: State)
    requires LoginsResolve(g)
    ensures forall c | c in LoginCmds(g, p, saved) :: c.LogIn? && c.password.Some?
  {
  }

  lemma SettleOk(h: Host, g: Goal, p: Plan, failed: set<string>, saved: State, faults: Faults)
    requires LoginsResolve(g) && forall c | c in SettleCmds(g, p, failed, saved) :: faults(c) == NoFault
    ensures RunUntil(h, SettleCmds(g, p, failed, saved), faults).ok
  {
    FileMembers(g, p, failed);
    SecretMembers(g, p);
    LoginsReady(g, p, saved);
    FixedOk(h, SettleCmds(g, p, failed, saved), faults);
  }

  lemma NothingFails(a: Host, g: Goal, faults: Faults)
    requires ValidGoal(g) && Faultless(faults)
    ensures Failed(a, g, faults) == {}
  {
  }

  // A lifecycle command acts on a file of the goal, of the kind it is for.
  lemma LifeTarget(cmds: seq<Cmd>, p: Plan, d: Desired, prior: State, c: Cmd)
    requires Named(d.files) && Holds(p, d, prior) && Lives(cmds, p) && c in cmds
    ensures c.StartUnit? || c.RestartUnit? || c.EnableUnit? || c.RestartNative?
    ensures c.unit in d.files && !IsSupportFile(c.unit)
    ensures FileLoc(c.unit) == if c.StartUnit? || c.RestartUnit? then QuadletFile(c.unit) else UserFile(c.unit)
  {
  }

  lemma LifeReady(a: Host, h: Host, g: Goal, faults: Faults, c: Cmd)
    requires Sound(g, h) && HalfApplied(a, h, g)
    requires c in LifeCmds(PassPlan(g, h.saved))
    ensures !Fixed(c) && Ready(Settled(a, g, faults), c)
  {
    var p := PassPlan(g, h.saved);
    PlanMembers(g.d, h.saved);
    LifeMembers(p);
    LifeTarget(LifeCmds(p), p, g.d, h.saved, c);
    SettledUnit(a, h, g, faults, c.unit);
  }

  // Stops and disables may fail, nothing else does.
  ghost predicate OnlyStopsFail(faults: Faults) {
    forall c: Cmd :: c.StopUnit? || c.DisableUnit? || faults(c) == NoFault
  }

  lemma StretchesOk(h: Host, g: Goal, p: Plan, faults: Faults)
    requires LoginsResolve(g) && OnlyStopsFail(faults)
    ensures RunUntil(h, LimitCmds(g, p), faults).ok && RunUntil(h, LimitCmds(g, p), faults).host == ExecAll(h, LimitCmds(g, p))
    ensures forall from: Host, failed, saved: State ::
              var r := RunUntil(from, SettleCmds(g, p, failed, saved), faults);
              r.ok && r.host == ExecAll(from, SettleCmds(g, p, failed, saved))
  {
    FixedOk(h, LimitCmds(g, p), faults);
    RunUntilOk(h, LimitCmds(g, p), faults);
    forall from: Host, failed, saved: State
      ensures var r := RunUntil(from, SettleCmds(g, p, failed, saved), faults);
              r.ok && r.host == ExecAll(from, SettleCmds(g, p, failed, saved))
    {
      SettleOnly(from, g, p, failed, saved, faults);
    }
  }

  lemma SettleOnly(from: Host, g: Goal, p: Plan, failed: set<string>, saved: State, faults: Faults)
    requires LoginsResolve(g) && OnlyStopsFail(faults)
    ensures var r := RunUntil(from, SettleCmds(g, p, failed, saved), faults);
            r.ok && r.host == ExecAll(from, SettleCmds(g, p, failed, saved))
  {
    SettleMembers(g, p, failed, saved);
    SettleOk(from, g, p, failed, saved, faults);
    RunUntilOk(from, SettleCmds(g, p, failed, saved), faults);
  }

  // A pass reaches its save when only stops fail and every unit it launches has been loaded by then.
  lemma PassOk(h: Host, g: Goal, faults: Faults)
    requires ValidGoal(g) && LoginsResolve(g) && OnlyStopsFail(faults)
    requires forall c | c in LifeCmds(PassPlan(g, h.saved)) :: !Fixed(c) && Ready(Settled(h, g, faults), c)
    ensures Pass(h, g, faults).ok
  {
    var p := PassPlan(g, h.saved);
    StretchesOk(h, g, p, faults);
    LifeOk(Settled(h, g, faults), LifeCmds(p), faults);
    RunUntilAppend(Stopped(h, g, faults), SettleCmds(g, p, Failed(h, g, faults), h.saved), LifeCmds(p), faults);
  }

  lemma NoLife(cmds: seq<Cmd>, p: Plan, d: Desired, prior: State)
    requires Named(d.files) && Holds(p, d, prior) && Lives(cmds, p)
    requires StartSet(d, prior) == {} && RestartSet(d, prior) == {} && EnableSet(d, prior) == {} && RestartSystemdSet(d, prior) == {}
    ensures forall c :: c !in cmds
  {
  }

  // Where no unit is due to be launched, a pass in which only stops fail reaches its save.
  lemma QuietPassOk(h: Host, g: Goal, faults: Faults)
    requires ValidGoal(g) && !UidChanged(g, h.saved) && LoginsResolve(g) && OnlyStopsFail(faults)
    requires StartSet(g.d, h.saved) == {} && RestartSet(g.d, h.saved) == {}
    requires EnableSet(g.d, h.saved) == {} && RestartSystemdSet(g.d, h.saved) == {}
    ensures Pass(h, g, faults).ok
  {
    var p := PassPlan(g, h.saved);
    PlanMembers(g.d, h.saved);
    LifeMembers(p);
    NoLife(LifeCmds(p), p, g.d, h.saved);
    PassOk(h, g, faults);
  }

  lemma WrittenLoaded(from: Host, cmds: seq<Cmd>, g: Goal, p: Plan, failed: set<string>, n: string)
    requires Separate(p) && Settles(cmds, g, p, failed) && n in p.writeFiles && !IsSupportFile(n)
    requires ExecAll(from, cmds).loaded == UnitsOn(ExecAll(from, cmds).at)
    ensures FileLoc(n) in ExecAll(from, cmds).loaded
  {
    SettledFile(from, cmds, g, p, failed, n);
  }

  // What a first plan launches it also writes and loads.
  lemma FreshTarget(g: Goal, p: Plan, c: Cmd)
    requires ValidGoal(g) && p == PlanOf(g.d, EMPTY_STATE) && c in LifeCmds(p)
    ensures c.StartUnit? || c.RestartUnit? || c.EnableUnit? || c.RestartNative?
    ensures FileLoc(c.unit) == if c.StartUnit? || c.RestartUnit? then QuadletFile(c.unit) else UserFile(c.unit)
    ensures c.unit in p.writeFiles && !IsSupportFile(c.unit) && p.daemonReload
  {
    PlanMembers(g.d, EMPTY_STATE);
    LifeMembers(p);
    LifeTarget(LifeCmds(p), p, g.d, EMPTY_STATE, c);
    assert c.unit in WriteSet(g.d, EMPTY_STATE);
    UnitsReload(g.d, EMPTY_STATE, c.unit);
  }

  // On a fresh host, every unit a pass launches has just been written and loaded.
  lemma FreshReady(g: Goal, faults: Faults, c: Cmd)
    requires ValidGoal(g) && c in LifeCmds(PassPlan(g, EMPTY_STATE))
    ensures !Fixed(c) && Ready(Settled(FRESH, g, faults), c)
  {
    var p, failed := PassPlan(g, EMPTY_STATE), Failed(FRESH, g, faults);
    FreshTarget(g, p, c);
    PlanSeparate(g, EMPTY_STATE);
    SettleMembers(g, p, failed, EMPTY_STATE);
    ReloadLast(Stopped(FRESH, g, faults), g, p, failed, EMPTY_STATE);
    WrittenLoaded(Stopped(FRESH, g, faults), SettleCmds(g, p, failed, EMPTY_STATE), g, p, failed, c.unit);
  }

  lemma UnitsReload(d: Desired, prior: State, n: string)
    requires Named(d.files) && n in WriteSet(d, prior) && !IsSupportFile(n)
    ensures Reloads(d, prior)
  {
    assert d.files[n].isUnit || d.files[n].isSystemdUnit;
  }

  /** The first pass of any goal is never refused. */
  lemma FirstPassOk(g: Goal, faults: Faults)
    requires ValidGoal(g) && LoginsResolve(g) && Faultless(faults)
    ensures Pass(FRESH, g, faults).ok
  {
    forall c | c in LifeCmds(PassPlan(g, EMPTY_STATE)) ensures !Fixed(c) && Ready(Settled(FRESH, g, faults), c) {
      FreshReady(g, faults, c);
    }
    PassOk(FRESH, g, faults);
  }

  /** No command of a faultless pass is refused: every unit it launches has been loaded by then. */
  lemma CleanPassOk(a: Host, h: Host, g: Goal, faults: Faults)
    requires Sound(g, h) && HalfApplied(a, h, g) && LoginsResolve(g) && Faultless(faults)
    ensures Pass(a, g, faults).ok
  {
    forall c | c in LifeCmds(PassPlan(g, h.saved)) ensures !Fixed(c) && Ready(Settled(a, g, faults), c) {
      LifeReady(a, h, g, faults, c);
    }
    PassOk(a, g, faults);
  }

  // ---- where a faultless pass ends ----------------------------------------------------------------------

  ghost function FinalService(h: Host, g: Goal, s: string): Option<Val>
    requires ValidGoal(g)
  {
    if LaunchesService(g.d, h.saved, s) then
      var u :| u in g.d.files && Launches(g.d, h.saved, u) && UnitService(u) == s;
      Some(Running(WantedLaunch(g, u)))
    else if StopsService(g.d, h.saved, s) then None
    else Look(h.at, Service(s))
  }

  function FinalNative(h: Host, g: Goal, u: string): Option<Val> {
    if Arms(g.d, h.saved, u) then Some(Active(Some(ContentOf(g, u))))
    else if u in DisableSet(g.d, h.saved) then None
    else Look(h.at, Native(u))
  }

  function FinalFixed(h: Host, g: Goal, l: Loc): Option<Val> {
    match l
    case Limits => if g.d.resources != h.saved.resources then Some(Caps(g.d.resources)) else Look(h.at, l)
    case QuadletFile(n) => if l == FileLoc(n) then AsText(WantedText(g, n)) else None
    case UserFile(n) => if l == FileLoc(n) then AsText(WantedText(g, n)) else None
    case Secret(k) => AsText(WantedSecret(g, k))
    case _ => None
  }

  /** Every location's value after a faultless pass: the goal's, or the old one where the plan is silent. */
  ghost function FinalLook(h: Host, g: Goal, l: Loc): Option<Val>
    requires ValidGoal(g)
  {
    if l.Service? then FinalService(h, g, l.service)
    else if l.Native? then FinalNative(h, g, l.unit)
    else FinalFixed(h, g, l)
  }

  // A stop the plan holds is among the commands, and a faultless run carries it out.
  lemma StopIssued(p: Plan, d: Desired, prior: State, s: string)
    requires Named(d.files) && Holds(p, d, prior)
    ensures StopsService(d, prior, s) <==> exists c | c in StopCmds(p) :: Target(c) == Some(Service(s))
  {
    StopMembers(p);
    if v :| v in StopSet(d, prior) && UnitService(v) == s {
      assert StopUnit(v) in StopCmds(p) && Target(StopUnit(v)) == Some(Service(s));
    }
  }

  lemma StoppedByPlan(a: Host, h: Host, g: Goal, faults: Faults, s: string)
    requires Sound(g, h) && HalfApplied(a, h, g) && Faultless(faults)
    ensures var after := Look(Stopped(a, g, faults).at, Service(s));
            if StopsService(g.d, h.saved, s) then after == None else after == Look(a.at, Service(s))
  {
    PlanMembers(g.d, h.saved);
    StopIssued(PassPlan(g, h.saved), g.d, h.saved, s);
    StoppedLook(a, g, faults, Service(s));
    assert forall c :: faults(c) == NoFault;
  }

  lemma DisableIssued(p: Plan, d: Desired, prior: State, u: string)
    requires Named(d.files) && Holds(p, d, prior)
    ensures u in DisableSet(d, prior) <==> exists c | c in StopCmds(p) :: Target(c) == Some(Native(u))
  {
    StopMembers(p);
    if u in DisableSet(d, prior) {
      assert DisableUnit(u) in StopCmds(p) && Target(DisableUnit(u)) == Some(Native(u));
    }
  }

  lemma DisabledByPlan(a: Host, h: Host, g: Goal, faults: Faults, u: string)
    requires Sound(g, h) && HalfApplied(a, h, g) && Faultless(faults)
    ensures var after := Look(Stopped(a, g, faults).at, Native(u));
            if u in DisableSet(g.d, h.saved) then after == None else after == Look(a.at, Native(u))
  {
    PlanMembers(g.d, h.saved);
    DisableIssued(PassPlan(g, h.saved), g.d, h.saved, u);
    StoppedLook(a, g, faults, Native(u));
    assert forall c :: faults(c) == NoFault;
  }

  lemma SettledUnitState(a: Host, h: Host, g: Goal, faults: Faults, l: Loc)
    requires Sound(g, h) && HalfApplied(a, h, g) && IsUnitState(l)
    ensures Look(Settled(a, g, faults).at, l) == Look(Stopped(a, g, faults).at, l)
  {
    var p, failed := PassPlan(g, h.saved), Failed(a, g, faults);
    SettleMembers(g, p, failed, h.saved);
    SettleLeaves(Stopped(a, g, faults), SettleCmds(g, p, failed, h.saved), g, p, failed, l);
  }

  lemma LaunchesByName(cmds: seq<Cmd>, p: Plan, s: string, c: Cmd)
    requires Lives(cmds, p) && c in cmds && Target(c) == Some(Service(s))
    ensures c == StartUnit(c.unit) || c == RestartUnit(c.unit)
    ensures (c.unit in p.startUnits || c.unit in p.restartUnits) && UnitService(c.unit) == s
  {
    assert c.StartUnit? || c.RestartUnit?;
  }

  lemma LaunchesQuadlet(p: Plan, d: Desired, prior: State, u: string)
    requires Named(d.files) && Holds(p, d, prior) && (u in p.startUnits || u in p.restartUnits)
    ensures u in d.files && d.files[u].isUnit
  {
  }

  lemma OneLauncher(cmds: seq<Cmd>, p: Plan, g: Goal, prior: State, u: string, c: Cmd)
    requires ValidGoal(g) && NoSharedService(g.d) && Holds(p, g.d, prior) && Lives(cmds, p)
    requires u in g.d.files && g.d.files[u].isUnit
    requires c in cmds && Target(c) == Some(Service(UnitService(u)))
    ensures c == StartUnit(u) || c == RestartUnit(u)
  {
    LaunchesByName(cmds, p, UnitService(u), c);
    LaunchesQuadlet(p, g.d, prior, c.unit);
  }

  lemma StartsClear(a: Host, h: Host, g: Goal, faults: Faults, u: string)
    requires Sound(g, h) && HalfApplied(a, h, g) && Faultless(faults)
    requires u in StartSet(g.d, h.saved)
    ensures var v := Look(Settled(a, g, faults).at, Service(UnitService(u)));
            v == None || v == Some(Running(WantedLaunch(g, u)))
  {
    StoppedByPlan(a, h, g, faults, UnitService(u));
    SettledUnitState(a, h, g, faults, Service(UnitService(u)));
    assert StartReady(g, h.saved, a.at, u);
  }

  // The commands that launch `u` are there, and no other command aims at its service.
  lemma LaunchCommands(cmds: seq<Cmd>, p: Plan, g: Goal, prior: State, u: string)
    requires ValidGoal(g) && NoSharedService(g.d) && Holds(p, g.d, prior) && Lives(cmds, p)
    requires u in g.d.files && Launches(g.d, prior, u)
    ensures forall c | c in cmds && Target(c) == Some(Service(UnitService(u))) :: c == StartUnit(u) || c == RestartUnit(u)
    ensures exists c | c in cmds :: Target(c) == Some(Service(UnitService(u)))
  {
    forall c | c in cmds && Target(c) == Some(Service(UnitService(u))) ensures c == StartUnit(u) || c == RestartUnit(u) {
      OneLauncher(cmds, p, g, prior, u, c);
    }
    assert u in p.startUnits || u in p.restartUnits;
    LifeService(cmds, p, UnitService(u));
  }

  lemma NotStarted(cmds: seq<Cmd>, p: Plan, d: Desired, prior: State, u: string)
    requires Named(d.files) && Holds(p, d, prior) && Lives(cmds, p) && u !in StartSet(d, prior)
    ensures StartUnit(u) !in cmds
  {
  }

  lemma LaunchedService(a: Host, h: Host, g: Goal, faults: Faults, u: string)
    requires Sound(g, h) && HalfApplied(a, h, g) && Faultless(faults)
    requires u in g.d.files && Launches(g.d, h.saved, u)
    requires Pass(a, g, faults).ok
    ensures Look(Pass(a, g, faults).host.at, Service(UnitService(u))) == Some(Running(WantedLaunch(g, u)))
  {
    var p, l := PassPlan(g, h.saved), Service(UnitService(u));
    PassStages(a, g, faults);
    PlanMembers(g.d, h.saved);
    LifeMembers(p);
    LaunchCommands(LifeCmds(p), p, g, h.saved, u);
    SettledLaunch(a, h, g, faults, u);
    if u in StartSet(g.d, h.saved) {
      StartsClear(a, h, g, faults, u);
    } else {
      NotStarted(LifeCmds(p), p, g.d, h.saved, u);
    }
    LifeLaunches(Settled(a, g, faults), LifeCmds(p), u, l, WantedLaunch(g, u));
  }

  lemma QuietLife(s: Host, p: Plan, d: Desired, prior: State, name: string)
    requires Named(d.files) && Holds(p, d, prior) && !LaunchesService(d, prior, name)
    ensures Look(ExecAll(s, LifeCmds(p)).at, Service(name)) == Look(s.at, Service(name))
  {
    LifeMembers(p);
    LifeService(LifeCmds(p), p, name);
    LaunchSets(p, d, prior, name);
    Untouched(s, LifeCmds(p), Service(name));
  }

  lemma LeftAlone(a: Host, h: Host, g: Goal, l: Loc)
    requires ValidGoal(g) && HalfApplied(a, h, g) && !Touches(g.d, h.saved, l)
    ensures Look(a.at, l) == Look(h.at, l)
  {
  }

  lemma QuietBefore(a: Host, h: Host, g: Goal, s: string)
    requires ValidGoal(g) && HalfApplied(a, h, g) && !LaunchesService(g.d, h.saved, s)
    ensures StopsService(g.d, h.saved, s) || Look(a.at, Service(s)) == Look(h.at, Service(s))
  {
    if !StopsService(g.d, h.saved, s) {
      LeftAlone(a, h, g, Service(s));
    }
  }

  lemma QuietService(a: Host, h: Host, g: Goal, faults: Faults, s: string)
    requires Sound(g, h) && HalfApplied(a, h, g) && Faultless(faults)
    requires !LaunchesService(g.d, h.saved, s)
    requires Pass(a, g, faults).ok
    ensures Look(Pass(a, g, faults).host.at, Service(s)) ==
            if StopsService(g.d, h.saved, s) then None else Look(h.at, Service(s))
  {
    PassStages(a, g, faults);
    PlanMembers(g.d, h.saved);
    QuietLife(Settled(a, g, faults), PassPlan(g, h.saved), g.d, h.saved, s);
    StoppedByPlan(a, h, g, faults, s);
    SettledUnitState(a, h, g, faults, Service(s));
    QuietBefore(a, h, g, s);
  }

  lemma EnablesClear(a: Host, h: Host, g: Goal, faults: Faults, u: string)
    requires Sound(g, h) && HalfApplied(a, h, g) && Faultless(faults)
    requires u in EnableSet(g.d, h.saved)
    ensures var v := Look(Settled(a, g, faults).at, Native(u));
            v == None || v == Some(Active(Some(ContentOf(g, u))))
  {
    DisabledByPlan(a, h, g, faults, u);
    SettledUnitState(a, h, g, faults, Native(u));
    assert EnableReady(g, a.at, u);
  }

  lemma ArmCommands(cmds: seq<Cmd>, p: Plan, g: Goal, prior: State, u: string)
    requires ValidGoal(g) && Holds(p, g.d, prior) && Lives(cmds, p) && Arms(g.d, prior, u)
    ensures exists c | c in cmds :: Target(c) == Some(Native(u))
    ensures u in EnableSet(g.d, prior) || EnableUnit(u) !in cmds
  {
    LifeNative(cmds, p, u);
  }

  lemma ArmedNative(a: Host, h: Host, g: Goal, faults: Faults, u: string)
    requires Sound(g, h) && HalfApplied(a, h, g) && Faultless(faults)
    requires Arms(g.d, h.saved, u) && Pass(a, g, faults).ok
    ensures Look(Pass(a, g, faults).host.at, Native(u)) == Some(Active(Some(ContentOf(g, u))))
  {
    var p := PassPlan(g, h.saved);
    PassStages(a, g, faults);
    PlanMembers(g.d, h.saved);
    LifeMembers(p);
    ArmCommands(LifeCmds(p), p, g, h.saved, u);
    SettledUnit(a, h, g, faults, u);
    if u in EnableSet(g.d, h.saved) {
      EnablesClear(a, h, g, faults, u);
    }
    LifeArms(Settled(a, g, faults), LifeCmds(p), u, Some(ContentOf(g, u)));
  }

  lemma QuietArms(s: Host, p: Plan, d: Desired, prior: State, u: string)
    requires Named(d.files) && Holds(p, d, prior) && !Arms(d, prior, u)
    ensures Look(ExecAll(s, LifeCmds(p)).at, Native(u)) == Look(s.at, Native(u))
  {
    LifeMembers(p);
    LifeNative(LifeCmds(p), p, u);
    Untouched(s, LifeCmds(p), Native(u));
  }

  lemma QuietNativeBefore(a: Host, h: Host, g: Goal, u: string)
    requires ValidGoal(g) && HalfApplied(a, h, g) && !Arms(g.d, h.saved, u)
    ensures FinalNative(h, g, u) == if u in DisableSet(g.d, h.saved) then None else Look(a.at, Native(u))
  {
    if u !in DisableSet(g.d, h.saved) {
      LeftAlone(a, h, g, Native(u));
    }
  }

  lemma QuietNative(a: Host, h: Host, g: Goal, faults: Faults, u: string)
    requires Sound(g, h) && HalfApplied(a, h, g) && Faultless(faults)
    requires !Arms(g.d, h.saved, u) && Pass(a, g, faults).ok
    ensures Look(Pass(a, g, faults).host.at, Native(u)) == FinalNative(h, g, u)
  {
    PassStages(a, g, faults);
    PlanMembers(g.d, h.saved);
    QuietArms(Settled(a, g, faults), PassPlan(g, h.saved), g.d, h.saved, u);
    DisabledByPlan(a, h, g, faults, u);
    SettledUnitState(a, h, g, faults, Native(u));
    QuietNativeBefore(a, h, g, u);
  }

  lemma FinalLimits(a: Host, h: Host, g: Goal, faults: Faults)
    requires Sound(g, h) && HalfApplied(a, h, g)
    ensures Look(Settled(a, g, faults).at, Limits) == FinalFixed(h, g, Limits)
  {
    var p, failed := PassPlan(g, h.saved), Failed(a, g, faults);
    SettleMembers(g, p, failed, h.saved);
    SettleLeaves(Stopped(a, g, faults), SettleCmds(g, p, failed, h.saved), g, p, failed, Limits);
    StoppedLook(a, g, faults, Limits);
    if g.d.resources == h.saved.resources {
      LeftAlone(a, h, g, Limits);
    }
  }

  lemma FinalMisplaced(a: Host, h: Host, g: Goal, faults: Faults, l: Loc)
    requires Sound(g, h) && HalfApplied(a, h, g) && Misplaced(l) && Pass(a, g, faults).ok
    ensures Look(Pass(a, g, faults).host.at, l) == FinalFixed(h, g, l)
  {
    PassMisplaced(a, g, faults, l);
    LeftAlone(a, h, g, l);
    assert IsFileLoc(l) && AgreesAt(h.at, h.saved, l);
  }

  lemma FinalSecret(a: Host, h: Host, g: Goal, faults: Faults, k: string)
    requires Sound(g, h) && HalfApplied(a, h, g)
    ensures Look(Settled(a, g, faults).at, Secret(k)) == FinalFixed(h, g, Secret(k))
  {
    SettledSecretWanted(a, h, g, faults, k);
  }

  lemma FinalFile(a: Host, h: Host, g: Goal, faults: Faults, l: Loc)
    requires Sound(g, h) && HalfApplied(a, h, g) && Faultless(faults) && IsFileLoc(l) && !Misplaced(l)
    ensures Look(Settled(a, g, faults).at, l) == FinalFixed(h, g, l)
  {
    NothingFails(a, g, faults);
    SettledWanted(a, h, g, faults, l.name);
    FixedByName(h, g, l);
  }

  lemma SettledStays(a: Host, h: Host, g: Goal, faults: Faults, l: Loc)
    requires Sound(g, h) && HalfApplied(a, h, g) && Faultless(faults)
    requires !IsUnitState(l) && !Misplaced(l)
    ensures Look(Settled(a, g, faults).at, l) == FinalFixed(h, g, l)
  {
    if l.Secret? {
      FinalSecret(a, h, g, faults, l.key);
    } else if l.Limits? {
      FinalLimits(a, h, g, faults);
    } else {
      FinalFile(a, h, g, faults, l);
    }
  }

  lemma FixedByName(h: Host, g: Goal, l: Loc)
    requires IsFileLoc(l) && !Misplaced(l)
    ensures l == FileLoc(l.name) && FinalFixed(h, g, l) == AsText(WantedText(g, l.name))
  {
  }

  lemma FinalStays(a: Host, h: Host, g: Goal, faults: Faults, l: Loc)
    requires Sound(g, h) && HalfApplied(a, h, g) && Faultless(faults)
    requires Pass(a, g, faults).ok && !IsUnitState(l)
    ensures Look(Pass(a, g, faults).host.at, l) == FinalFixed(h, g, l)
  {
    if Misplaced(l) {
      FinalMisplaced(a, h, g, faults, l);
    } else {
      PassStages(a, g, faults);
      LifeLeaves(Settled(a, g, faults), PassPlan(g, h.saved), l);
      SettledStays(a, h, g, faults, l);
    }
  }

  lemma FinalServiceAt(a: Host, h: Host, g: Goal, faults: Faults, s: string)
    requires Sound(g, h) && HalfApplied(a, h, g) && Faultless(faults)
    requires Pass(a, g, faults).ok
    ensures Look(Pass(a, g, faults).host.at, Service(s)) == FinalService(h, g, s)
  {
    if LaunchesService(g.d, h.saved, s) {
      var u :| u in g.d.files && Launches(g.d, h.saved, u) && UnitService(u) == s
            && FinalService(h, g, s) == Some(Running(WantedLaunch(g, u)));
      LaunchedService(a, h, g, faults, u);
    } else {
      QuietService(a, h, g, faults, s);
    }
  }

  lemma FinalNativeAt(a: Host, h: Host, g: Goal, faults: Faults, u: string)
    requires Sound(g, h) && HalfApplied(a, h, g) && Faultless(faults)
    requires Pass(a, g, faults).ok
    ensures Look(Pass(a, g, faults).host.at, Native(u)) == FinalNative(h, g, u)
  {
    if Arms(g.d, h.saved, u) {
      ArmedNative(a, h, g, faults, u);
    } else {
      QuietNative(a, h, g, faults, u);
    }
  }

  lemma FinalAt(a: Host, h: Host, g: Goal, faults: Faults, l: Loc)
    requires Sound(g, h) && HalfApplied(a, h, g) && Faultless(faults)
    requires Pass(a, g, faults).ok
    ensures Look(Pass(a, g, faults).host.at, l) == FinalLook(h, g, l)
  {
    if l.Service? {
      FinalServiceAt(a, h, g, faults, l.service);
    } else if l.Native? {
      FinalNativeAt(a, h, g, faults, l.unit);
    } else {
      FinalStays(a, h, g, faults, l);
    }
  }

  // Lifecycle commands neither write unit files nor reload.
  lemma LifeKeepsLoaded(s: Host, p: Plan)
    requires s.loaded == UnitsOn(s.at)
    ensures ExecAll(s, LifeCmds(p)).loaded == UnitsOn(ExecAll(s, LifeCmds(p)).at)
  {
    LifeMembers(p);
    LoadedKept(s, LifeCmds(p));
    forall l | IsUnitLoc(l) ensures Look(ExecAll(s, LifeCmds(p)).at, l) == Look(s.at, l) {
      LifeLeaves(s, p, l);
    }
    UnitsOnEqual(ExecAll(s, LifeCmds(p)).at, s.at);
  }

  lemma FinalLoaded(a: Host, h: Host, g: Goal, faults: Faults)
    requires Sound(g, h) && HalfApplied(a, h, g) && Faultless(faults)
    requires Pass(a, g, faults).ok
    ensures Pass(a, g, faults).host.loaded == UnitsOn(Pass(a, g, faults).host.at)
    ensures Pass(a, g, faults).host.saved == NextState(g)
  {
    PassStages(a, g, faults);
    NothingFails(a, g, faults);
    SettledLoaded(a, h, g, faults);
    LifeKeepsLoaded(Settled(a, g, faults), PassPlan(g, h.saved));
    RetainNothing(NextState(g), h.saved);
  }

  lemma RetainNothing(s: State, prior: State)
    ensures Retain(s, {}, prior) == s
  {
    assert WithOld(s.files, {}, prior) == s.files;
    assert OfKind({}, false) == {} && OfKind({}, true) == {};
  }

  /** Where a faultless pass ends depends on the goal and on the host before the first attempt only: a retry
      after any aborted passes reaches the host and the saved state of an uninterrupted pass. */
  lemma RetryReaches(a: Host, h: Host, g: Goal, retry: Faults, direct: Faults)
    requires Sound(g, h) && HalfApplied(a, h, g) && LoginsResolve(g) && Faultless(retry) && Faultless(direct)
    ensures Pass(a, g, retry) == Pass(h, g, direct) && Pass(h, g, direct).ok
  {
    HalfAppliedSelf(h, g);
    CleanPassOk(a, h, g, retry);
    CleanPassOk(h, h, g, direct);
    var x, y := Pass(a, g, retry).host, Pass(h, g, direct).host;
    forall l ensures Look(x.at, l) == Look(y.at, l) {
      FinalAt(a, h, g, retry, l);
      FinalAt(h, h, g, direct, l);
    }
    LookExtensional(x.at, y.at);
    FinalLoaded(a, h, g, retry);
    FinalLoaded(h, h, g, direct);
  }

  // ---- aborted passes leave the host half applied ---------------------------------------------------------

  // What one command of the plan may do to a half-applied host, failed or not.
  ghost predicate Harmless(h: Host, g: Goal, c: Cmd)
    requires ValidGoal(g)
  {
    && (Target(c).Some? ==> Touches(g.d, h.saved, Target(c).value))
    && (c.Reload? ==> Reloads(g.d, h.saved))
    && c != SaveState
  }

  // Half applied, apart from what the starting and enabling units look like.
  ghost predicate Framed(a: Host, h: Host, g: Goal)
    requires ValidGoal(g)
  {
    && a.saved == h.saved
    && (forall l {:trigger Touches(g.d, h.saved, l)} :: Touches(g.d, h.saved, l) || Look(a.at, l) == Look(h.at, l))
    && (a.loaded == h.loaded || Reloads(g.d, h.saved))
  }

  lemma DoElsewhere(a: Host, c: Cmd, faults: Faults, l: Loc)
    requires Target(c) != Some(l)
    ensures Look(Do(a, c, faults).host.at, l) == Look(a.at, l)
  {
  }

  lemma DoSaves(a: Host, c: Cmd, faults: Faults)
    ensures Do(a, c, faults).host.saved == a.saved
    ensures !c.Reload? ==> Do(a, c, faults).host.loaded == a.loaded
  {
  }

  lemma DoFramed(a: Host, h: Host, g: Goal, c: Cmd, faults: Faults)
    requires ValidGoal(g) && Framed(a, h, g) && Harmless(h, g, c)
    ensures Framed(Do(a, c, faults).host, h, g)
  {
    DoSaves(a, c, faults);
    forall l ensures Touches(g.d, h.saved, l) || Look(Do(a, c, faults).host.at, l) == Look(a.at, l) {
      if Target(c) != Some(l) {
        DoElsewhere(a, c, faults, l);
      }
    }
  }

  lemma {:induction false} RunFramed(a: Host, h: Host, g: Goal, cmds: seq<Cmd>, faults: Faults)
    requires ValidGoal(g) && Framed(a, h, g) && forall c | c in cmds :: Harmless(h, g, c)
    ensures Framed(RunUntil(a, cmds, faults).host, h, g)
    ensures Framed(RunAll(a, cmds, faults), h, g)
    decreases |cmds|
  {
    if cmds != [] {
      assert cmds[0] in cmds && forall c | c in cmds[1..] :: c in cmds;
      DoFramed(a, h, g, cmds[0], faults);
      RunFramed(Do(a, cmds[0], faults).host, h, g, cmds[1..], faults);
    }
  }

  lemma SettleTouches(d: Desired, prior: State, c: Cmd)
    requires Named(d.files)
    requires match c case WriteFile(n, _) => n in WriteSet(d, prior) case RemoveFile(n) => n in RemoveSet(d, prior)
                     case CreateSecret(k, _) => k in CreateSet(d, prior) case RemoveSecret(k) => k in DropSet(d, prior)
                     case _ => false
    ensures Target(c).Some? && Touches(d, prior, Target(c).value)
  {
    if c.WriteFile? || c.RemoveFile? {
      assert FileLoc(c.name).name == c.name;
    }
  }

  lemma PlanHarmless(h: Host, g: Goal, p: Plan, cmds: seq<Cmd>, failed: set<string>)
    requires ValidGoal(g) && Holds(p, g.d, h.saved) && p.daemonReload == Reloads(g.d, h.saved)
    requires Settles(cmds, g, p, failed)
    ensures forall c | c in cmds :: Harmless(h, g, c)
  {
    forall c | c in cmds ensures Harmless(h, g, c) {
      if c.WriteFile? || c.RemoveFile? || c.CreateSecret? || c.RemoveSecret? {
        SettleTouches(g.d, h.saved, c);
      }
    }
  }

  lemma LimitHarmless(h: Host, g: Goal)
    requires ValidGoal(g) && !UidChanged(g, h.saved)
    ensures forall c | c in LimitCmds(g, PassPlan(g, h.saved)) :: Harmless(h, g, c)
  {
  }

  lemma StopHarmless(h: Host, g: Goal, p: Plan, cmds: seq<Cmd>)
    requires ValidGoal(g) && Holds(p, g.d, h.saved) && Halts(cmds, p)
    ensures forall c | c in cmds :: Harmless(h, g, c)
  {
    forall c | c in cmds ensures Harmless(h, g, c) {
      if c.StopUnit? {
        assert StopsService(g.d, h.saved, UnitService(c.unit));
      }
    }
  }

  lemma LifeTouches(d: Desired, prior: State, c: Cmd)
    requires Named(d.files)
    requires match c case StartUnit(u) => u in StartSet(d, prior) case RestartUnit(u) => u in RestartSet(d, prior)
                     case EnableUnit(u) => u in EnableSet(d, prior) case RestartNative(u) => u in RestartSystemdSet(d, prior)
                     case _ => false
    ensures Target(c).Some? && Touches(d, prior, Target(c).value)
  {
    match c
    case StartUnit(u) => assert Launches(d, prior, u) && LaunchesService(d, prior, UnitService(u));
    case RestartUnit(u) => assert Launches(d, prior, u) && LaunchesService(d, prior, UnitService(u));
    case _ =>
  }

  lemma LifeHarmless(h: Host, g: Goal, p: Plan, cmds: seq<Cmd>)
    requires ValidGoal(g) && Holds(p, g.d, h.saved) && Lives(cmds, p)
    ensures forall c | c in cmds :: Harmless(h, g, c)
  {
    forall c | c in cmds ensures Harmless(h, g, c) {
      LifeTouches(g.d, h.saved, c);
    }
  }

  // The units the plan starts or enables are dead, or run with what the goal wants.
  ghost predicate UnitsReady(at: map<Loc, Val>, g: Goal, prior: State) {
    && (forall u | u in StartSet(g.d, prior) :: StartReady(g, prior, at, u))
    && (forall u | u in EnableSet(g.d, prior) :: EnableReady(g, at, u))
  }

  lemma ReadyClears(a: map<Loc, Val>, b: map<Loc, Val>, g: Goal, prior: State)
    requires UnitsReady(a, g, prior)
    requires forall l | IsUnitState(l) :: Look(b, l) == Look(a, l) || Look(b, l) == None
    ensures UnitsReady(b, g, prior)
  {
    forall u | u in StartSet(g.d, prior) ensures StartReady(g, prior, b, u) {
      assert StartReady(g, prior, a, u);
      assert IsUnitState(Service(UnitService(u)));
    }
    forall u | u in EnableSet(g.d, prior) ensures EnableReady(g, b, u) {
      assert EnableReady(g, a, u);
      assert IsUnitState(Native(u));
    }
  }

  lemma {:induction false} RunUntouched(h: Host, cmds: seq<Cmd>, faults: Faults, l: Loc)
    requires forall c | c in cmds :: Target(c) != Some(l)
    ensures Look(RunUntil(h, cmds, faults).host.at, l) == Look(h.at, l)
    decreases |cmds|
  {
    if cmds != [] {
      assert cmds[0] in cmds && forall c | c in cmds[1..] :: c in cmds;
      DoElsewhere(h, cmds[0], faults, l);
      RunUntouched(Do(h, cmds[0], faults).host, cmds[1..], faults, l);
    }
  }

  lemma DoLifeShape(h: Host, c: Cmd, faults: Faults)
    requires !Fixed(c)
    ensures var next, l := Do(h, c, faults).host, Target(c).value;
            IsUnitState(l) && (next == h || next == h.(at := Put(h.at, l, Effect(h, c))) || next == h.(at := Put(h.at, l, None)))
  {
  }

  lemma DoLifeKeeps(h: Host, c: Cmd, faults: Faults, u: string)
    requires !Fixed(c)
    ensures LaunchOf(Do(h, c, faults).host, u) == LaunchOf(h, u) && Do(h, c, faults).host.loaded == h.loaded
  {
    DoLifeShape(h, c, faults);
    var effect := Effect(h, c);
    PutUnitState(h, Target(c).value, effect, u);
    PutUnitState(h, Target(c).value, None, u);
  }

  lemma DoLifeService(h: Host, c: Cmd, faults: Faults, u: string, l: Loc, launch: Launch)
    requires !Fixed(c) && l == Service(UnitService(u)) && LaunchOf(h, u) == launch
    requires Target(c) == Some(l) ==> c == StartUnit(u) || c == RestartUnit(u)
    requires Look(h.at, l) == None || Look(h.at, l) == Some(Running(launch))
    ensures LaunchOf(Do(h, c, faults).host, u) == launch
    ensures var v := Look(Do(h, c, faults).host.at, l); v == None || v == Some(Running(launch))
  {
    DoLifeKeeps(h, c, faults, u);
    LifeStep(h, c, u, l, launch);
    DoLifeShape(h, c, faults);
  }

  lemma {:induction false} LifeKeepsService(h: Host, cmds: seq<Cmd>, faults: Faults, u: string, l: Loc, launch: Launch)
    requires forall c | c in cmds :: !Fixed(c)
    requires l == Service(UnitService(u)) && LaunchOf(h, u) == launch
    requires forall c | c in cmds && Target(c) == Some(l) :: c == StartUnit(u) || c == RestartUnit(u)
    requires Look(h.at, l) == None || Look(h.at, l) == Some(Running(launch))
    ensures var v := Look(RunUntil(h, cmds, faults).host.at, l); v == None || v == Some(Running(launch))
    decreases |cmds|
  {
    if cmds != [] {
      assert cmds[0] in cmds && forall c | c in cmds[1..] :: c in cmds;
      DoLifeService(h, cmds[0], faults, u, l, launch);
      LifeKeepsService(Do(h, cmds[0], faults).host, cmds[1..], faults, u, l, launch);
    }
  }

  lemma {:induction false} LifeKeepsNative(h: Host, cmds: seq<Cmd>, faults: Faults, u: string, own: Option<string>)
    requires forall c | c in cmds :: !Fixed(c)
    requires LoadedAs(h, UserFile(u)) == own
    requires Look(h.at, Native(u)) == None || Look(h.at, Native(u)) == Some(Active(own))
    ensures var v := Look(RunUntil(h, cmds, faults).host.at, Native(u)); v == None || v == Some(Active(own))
    decreases |cmds|
  {
    if cmds != [] {
      assert cmds[0] in cmds && forall c | c in cmds[1..] :: c in cmds;
      DoLifeKeeps(h, cmds[0], faults, u);
      LifeKeepsNative(Do(h, cmds[0], faults).host, cmds[1..], faults, u, own);
    }
  }

  lemma LifeReadyKept(a: Host, h: Host, g: Goal, faults: Faults)
    requires Sound(g, h) && HalfApplied(a, h, g) && UnitsReady(Settled(a, g, faults).at, g, h.saved)
    ensures UnitsReady(RunUntil(Settled(a, g, faults), LifeCmds(PassPlan(g, h.saved)), faults).host.at, g, h.saved)
  {
    var p, settled := PassPlan(g, h.saved), Settled(a, g, faults);
    var cmds := LifeCmds(p);
    PlanMembers(g.d, h.saved);
    LifeMembers(p);
    var at := RunUntil(settled, cmds, faults).host.at;
    forall u | u in StartSet(g.d, h.saved) ensures StartReady(g, h.saved, at, u) {
      if !StopsService(g.d, h.saved, UnitService(u)) {
        SettledLaunch(a, h, g, faults, u);
        LaunchCommands(cmds, p, g, h.saved, u);
        assert StartReady(g, h.saved, settled.at, u);
        LifeKeepsService(settled, cmds, faults, u, Service(UnitService(u)), WantedLaunch(g, u));
      }
    }
    forall u | u in EnableSet(g.d, h.saved) ensures EnableReady(g, at, u) {
      SettledUnit(a, h, g, faults, u);
      assert EnableReady(g, settled.at, u);
      LifeKeepsNative(settled, cmds, faults, u, Some(ContentOf(g, u)));
    }
  }

  lemma LimitKeeps(a: Host, h: Host, g: Goal, faults: Faults)
    requires Sound(g, h) && HalfApplied(a, h, g)
    ensures var limited := RunUntil(a, LimitCmds(g, PassPlan(g, h.saved)), faults).host;
            Framed(limited, h, g) && UnitsReady(limited.at, g, h.saved)
  {
    var cmds := LimitCmds(g, PassPlan(g, h.saved));
    LimitHarmless(h, g);
    RunFramed(a, h, g, cmds, faults);
    forall l | IsUnitState(l) ensures Look(RunUntil(a, cmds, faults).host.at, l) == Look(a.at, l) {
      RunUntouched(a, cmds, faults, l);
    }
    ReadyClears(a.at, RunUntil(a, cmds, faults).host.at, g, h.saved);
  }

  lemma StopKeeps(a: Host, h: Host, g: Goal, faults: Faults)
    requires Sound(g, h) && HalfApplied(a, h, g) && RunUntil(a, LimitCmds(g, PassPlan(g, h.saved)), faults).ok
    ensures Framed(Stopped(a, g, faults), h, g) && UnitsReady(Stopped(a, g, faults).at, g, h.saved)
  {
    var p := PassPlan(g, h.saved);
    var limited := ExecAll(a, LimitCmds(g, p));
    RunUntilOk(a, LimitCmds(g, p), faults);
    LimitKeeps(a, h, g, faults);
    StopMembers(p);
    PlanMembers(g.d, h.saved);
    StopHarmless(h, g, p, StopCmds(p));
    RunFramed(limited, h, g, StopCmds(p), faults);
    forall l | IsUnitState(l)
      ensures Look(Stopped(a, g, faults).at, l) == Look(limited.at, l) || Look(Stopped(a, g, faults).at, l) == None
    {
      StopsOnlyClear(limited, StopCmds(p), faults, l);
    }
    ReadyClears(limited.at, Stopped(a, g, faults).at, g, h.saved);
  }

  lemma SettleSparesUnits(h: Host, cmds: seq<Cmd>, g: Goal, p: Plan, failed: set<string>, faults: Faults)
    requires Settles(cmds, g, p, failed)
    ensures forall l | IsUnitState(l) :: Look(RunUntil(h, cmds, faults).host.at, l) == Look(h.at, l)
  {
    forall l | IsUnitState(l) ensures Look(RunUntil(h, cmds, faults).host.at, l) == Look(h.at, l) {
      RunUntouched(h, cmds, faults, l);
    }
  }

  lemma SettleKeeps(a: Host, h: Host, g: Goal, faults: Faults)
    requires Sound(g, h) && HalfApplied(a, h, g) && RunUntil(a, LimitCmds(g, PassPlan(g, h.saved)), faults).ok
    ensures var r := RunUntil(Stopped(a, g, faults), SettleCmds(g, PassPlan(g, h.saved), Failed(a, g, faults), h.saved), faults).host;
            Framed(r, h, g) && UnitsReady(r.at, g, h.saved)
  {
    var p, failed, stopped := PassPlan(g, h.saved), Failed(a, g, faults), Stopped(a, g, faults);
    var cmds := SettleCmds(g, p, failed, h.saved);
    StopKeeps(a, h, g, faults);
    PlanMembers(g.d, h.saved);
    SettleMembers(g, p, failed, h.saved);
    PlanHarmless(h, g, p, cmds, failed);
    RunFramed(stopped, h, g, cmds, faults);
    SettleSparesUnits(stopped, cmds, g, p, failed, faults);
    ReadyClears(stopped.at, RunUntil(stopped, cmds, faults).host.at, g, h.saved);
  }

  lemma LifeKeeps(a: Host, h: Host, g: Goal, faults: Faults)
    requires Sound(g, h) && HalfApplied(a, h, g)
    requires RunUntil(a, LimitCmds(g, PassPlan(g, h.saved)), faults).ok
    requires RunUntil(Stopped(a, g, faults), SettleCmds(g, PassPlan(g, h.saved), Failed(a, g, faults), h.saved), faults).ok
    ensures var r := RunUntil(Settled(a, g, faults), LifeCmds(PassPlan(g, h.saved)), faults).host;
            Framed(r, h, g) && UnitsReady(r.at, g, h.saved)
  {
    var p := PassPlan(g, h.saved);
    SettleKeeps(a, h, g, faults);
    RunUntilOk(Stopped(a, g, faults), SettleCmds(g, p, Failed(a, g, faults), h.saved), faults);
    PlanMembers(g.d, h.saved);
    LifeMembers(p);
    LifeHarmless(h, g, p, LifeCmds(p));
    RunFramed(Settled(a, g, faults), h, g, LifeCmds(p), faults);
    LifeReadyKept(a, h, g, faults);
  }

  /** However a pass aborts, with whatever commands failing in whatever way, it leaves the host half applied
      and the saved state alone. */
  lemma AbortLeavesHalfApplied(a: Host, h: Host, g: Goal, faults: Faults)
    requires Sound(g, h) && HalfApplied(a, h, g) && !Pass(a, g, faults).ok
    ensures HalfApplied(Pass(a, g, faults).host, h, g)
  {
    var p := PassPlan(g, h.saved);
    var limited := RunUntil(a, LimitCmds(g, p), faults);
    if !limited.ok {
      LimitKeeps(a, h, g, faults);
    } else {
      RunUntilOk(a, LimitCmds(g, p), faults);
      var stopped, settle := Stopped(a, g, faults), SettleCmds(g, p, Failed(a, g, faults), h.saved);
      RunUntilAppend(stopped, settle, LifeCmds(p), faults);
      if RunUntil(stopped, settle, faults).ok {
        RunUntilOk(stopped, settle, faults);
        LifeKeeps(a, h, g, faults);
      } else {
        SettleKeeps(a, h, g, faults);
      }
    }
  }

  // Attempt after attempt, for whatever goals, all aborted.
  ghost predicate AllAbort(a: Host, attempts: seq<Attempt>)
    decreases |attempts|
  {
    attempts == [] ||
    (var t := attempts[0];
     && ValidGoal(t.goal) && !Pass(a, t.goal, t.faults).ok
     && AllAbort(Pass(a, t.goal, t.faults).host, attempts[1..]))
  }

  ghost function AfterAborts(a: Host, attempts: seq<Attempt>): Host
    requires AllAbort(a, attempts)
    decreases |attempts|
  {
    if attempts == [] then a else AfterAborts(Pass(a, attempts[0].goal, attempts[0].faults).host, attempts[1..])
  }

  ghost predicate AllFor(g: Goal, attempts: seq<Attempt>) {
    forall t | t in attempts :: t.goal == g
  }

  lemma {:induction false} AbortsLeaveHalfApplied(a: Host, h: Host, g: Goal, attempts: seq<Attempt>)
    requires Sound(g, h) && HalfApplied(a, h, g) && AllFor(g, attempts) && AllAbort(a, attempts)
    ensures HalfApplied(AfterAborts(a, attempts), h, g)
    decreases |attempts|
  {
    if attempts != [] {
      assert attempts[0] in attempts && forall t | t in attempts[1..] :: t in attempts;
      AbortLeavesHalfApplied(a, h, g, attempts[0].faults);
      AbortsLeaveHalfApplied(Pass(a, g, attempts[0].faults).host, h, g, attempts[1..]);
    }
  }

  /** Retry after abort: from a host that matches its saved state, any number of aborted passes for a goal
      followed by one without faults ends with the host and saved state of one uninterrupted pass. */
  lemma RetryAfterAborts(h: Host, g: Goal, attempts: seq<Attempt>, faults: Faults)
    requires Sound(g, h) && LoginsResolve(g) && AllFor(g, attempts) && AllAbort(h, attempts) && Faultless(faults)
    ensures Pass(AfterAborts(h, attempts), g, faults) == Pass(h, g, faults) && Pass(h, g, faults).ok
  {
    HalfAppliedSelf(h, g);
    AbortsLeaveHalfApplied(h, h, g, attempts);
    RetryReaches(AfterAborts(h, attempts), h, g, faults, faults);
  }
}
