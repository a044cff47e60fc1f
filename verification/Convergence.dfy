/** What a pass without failures reaches, from a host that matches its saved state or that an aborted pass
    for the same goal has left half applied. */
module Convergence {
  import opened Agreement
  import opened Basics
  import opened Fileset
  import opened Host
  import opened Plan
  import opened Quadletref
  import opened Reconcile
  import opened Segments

  // ---- hosts that match their saved state ---------------------------------------------------------

  predicate SecretAgrees(at: map<Loc, Val>, saved: State, k: string) {
    match Look(at, Secret(k))
    case None => k !in saved.secretHashes
    case Some(v) => k in saved.secretHashes && v.Text? && saved.secretHashes[k] == Sha256(v.content)
  }

  function LimitsOn(at: map<Loc, Val>): Resources {
    if Limits in at && at[Limits].Caps? then at[Limits].limits else UNLIMITED
  }

  /** The saved state describes the host exactly, and the manager has read every unit file. */
  ghost predicate Matches(h: Host) {
    && FilesAgree(h) && TypedState(h.saved)
    && (forall k :: SecretAgrees(h.at, h.saved, k))
    && LimitsOn(h.at) == h.saved.resources
    && (forall n | n in h.saved.files && IsUnitFile(n) :: n in h.saved.units)
    && (forall u, v | u in h.saved.units && v in h.saved.units && UnitService(u) == UnitService(v) :: u == v)
    && (forall s :: Service(s) in h.at <==> exists u | u in h.saved.units :: UnitService(u) == s)
    && (forall u :: Native(u) in h.at <==> u in h.saved.systemdUnits)
    && h.loaded == UnitsOn(h.at)
  }

  // No two Quadlet units generate the same service.
  predicate NoSharedService(d: Desired) {
    forall m, n | m in d.files && n in d.files && d.files[m].isUnit && d.files[n].isUnit && UnitService(m) == UnitService(n) :: m == n
  }

  // Every registry login finds its password.
  predicate LoginsResolve(g: Goal) {
    forall i | 0 <= i < |g.logins| :: g.logins[i].passwordKey in g.values
  }

  ghost predicate Faultless(faults: Faults) {
    forall c :: faults(c) == NoFault
  }

  // What a pass may assume of its goal and of the state it starts from.
  ghost predicate Sound(g: Goal, h: Host) {
    ValidGoal(g) && !UidChanged(g, h.saved) && NoSharedService(g.d) && Matches(h)
  }

  // ---- what the goal says of each location ---------------------------------------------------------

  function WantedText(g: Goal, n: string): Option<string> {
    if n in g.d.files then Some(g.d.files[n].content) else None
  }

  function WantedSecret(g: Goal, k: string): Option<string> {
    if k in g.d.secretHashes then Some(ValueOf(g, k)) else None
  }

  function WantedInputs(own: string, refs: Refs, g: Goal): Launch {
    Launch(Some(own),
           map r | r in refs.files && IsSupportFile(r) :: WantedText(g, r),
           map s | s in refs.secrets :: WantedSecret(g, s))
  }

  /** The launch of a unit that has read exactly the goal. */
  function WantedLaunch(g: Goal, u: string): Launch {
    WantedInputs(ContentOf(g, u), Extract(ContentOf(g, u)), g)
  }

  lemma InputsWanted(own: string, refs: Refs, at: map<Loc, Val>, g: Goal)
    requires forall r | r in refs.files && IsSupportFile(r) :: ReadText(at, QuadletFile(r)) == WantedText(g, r)
    requires forall s | s in refs.secrets :: ReadText(at, Secret(s)) == WantedSecret(g, s)
    ensures Inputs(own, refs, at) == WantedInputs(own, refs, g)
  {
  }

  function AsText(t: Option<string>): Option<Val> {
    if t.Some? then Some(Text(t.value)) else None
  }

  predicate StopsService(d: Desired, prior: State, s: string) {
    exists v | v in StopSet(d, prior) :: UnitService(v) == s
  }

  // The locations the goal's plan may change.
  predicate Touches(d: Desired, prior: State, l: Loc)
    requires Named(d.files)
  {
    match l
    case Limits => d.resources != prior.resources
    case QuadletFile(n) => l == FileLoc(n) && (n in WriteSet(d, prior) || n in RemoveSet(d, prior))
    case UserFile(n) => l == FileLoc(n) && (n in WriteSet(d, prior) || n in RemoveSet(d, prior))
    case Secret(k) => k in CreateSet(d, prior) || k in DropSet(d, prior)
    case Service(s) => LaunchesService(d, prior, s) || StopsService(d, prior, s)
    case Native(u) => Arms(d, prior, u) || u in DisableSet(d, prior)
  }

  predicate StartReady(g: Goal, prior: State, at: map<Loc, Val>, u: string) {
    var l := Service(UnitService(u));
    Look(at, l) == None || Look(at, l) == Some(Running(WantedLaunch(g, u))) || StopsService(g.d, prior, l.service)
  }

  predicate EnableReady(g: Goal, at: map<Loc, Val>, u: string) {
    Look(at, Native(u)) == None || Look(at, Native(u)) == Some(Active(Some(ContentOf(g, u))))
  }

  /** A host some aborted passes for this goal may have made of `h`: what the plan does not touch is as it
      was, and a unit the plan starts is dead or already running with the wanted inputs. */
  ghost predicate HalfApplied(a: Host, h: Host, g: Goal)
    requires ValidGoal(g)
  {
    && a.saved == h.saved
    && (forall l {:trigger Touches(g.d, h.saved, l)} :: Touches(g.d, h.saved, l) || Look(a.at, l) == Look(h.at, l))
    && (a.loaded == h.loaded || Reloads(g.d, h.saved))
    && (forall u | u in StartSet(g.d, h.saved) :: StartReady(g, h.saved, a.at, u))
    && (forall u | u in EnableSet(g.d, h.saved) :: EnableReady(g, a.at, u))
  }

  lemma HalfAppliedSelf(h: Host, g: Goal)
    requires Sound(g, h)
    ensures HalfApplied(h, h, g)
  {
    forall u | u in StartSet(g.d, h.saved) ensures StartReady(g, h.saved, h.at, u) {
      if Service(UnitService(u)) in h.at {
        var v :| v in h.saved.units && UnitService(v) == UnitService(u);
        assert v !in g.d.files;
        assert v in StopSet(g.d, h.saved);
      }
    }
  }

  // ---- settling: files, secrets and loaded units become what the goal wants --------------------------

  lemma HalfFile(a: Host, h: Host, g: Goal, n: string)
    requires Sound(g, h) && HalfApplied(a, h, g)
    requires n !in WriteSet(g.d, h.saved) && n !in RemoveSet(g.d, h.saved)
    ensures Look(a.at, FileLoc(n)) == AsText(WantedText(g, n))
  {
    var l := FileLoc(n);
    assert IsFileLoc(l) && l.name == n;
    assert !Touches(g.d, h.saved, l);
    assert AgreesAt(h.at, h.saved, l);
  }

  lemma SettledWanted(a: Host, h: Host, g: Goal, faults: Faults, n: string)
    requires Sound(g, h) && HalfApplied(a, h, g)
    requires n in g.d.files || n !in Failed(a, g, faults)
    ensures Look(Settled(a, g, faults).at, FileLoc(n)) == AsText(WantedText(g, n))
  {
    var p, failed := PassPlan(g, h.saved), Failed(a, g, faults);
    PlanMembers(g.d, h.saved);
    PlanSeparate(g, h.saved);
    SettleMembers(g, p, failed, h.saved);
    SettledFile(Stopped(a, g, faults), SettleCmds(g, p, failed, h.saved), g, p, failed, n);
    StoppedLook(a, g, faults, FileLoc(n));
    if n !in WriteSet(g.d, h.saved) && n !in RemoveSet(g.d, h.saved) {
      HalfFile(a, h, g, n);
    }
  }

  lemma SettledSecretWanted(a: Host, h: Host, g: Goal, faults: Faults, k: string)
    requires Sound(g, h) && HalfApplied(a, h, g)
    ensures Look(Settled(a, g, faults).at, Secret(k)) == AsText(WantedSecret(g, k))
  {
    var p, failed := PassPlan(g, h.saved), Failed(a, g, faults);
    PlanMembers(g.d, h.saved);
    PlanSeparate(g, h.saved);
    SettleMembers(g, p, failed, h.saved);
    SettledSecret(Stopped(a, g, faults), SettleCmds(g, p, failed, h.saved), g, p, failed, k);
    StoppedLook(a, g, faults, Secret(k));
    if k !in CreateSet(g.d, h.saved) && k !in DropSet(g.d, h.saved) {
      assert !Touches(g.d, h.saved, Secret(k));
      assert SecretAgrees(h.at, h.saved, k);
    }
  }

  lemma UnitsOnEqual(a: map<Loc, Val>, b: map<Loc, Val>)
    requires forall l | IsUnitLoc(l) :: Look(a, l) == Look(b, l)
    ensures UnitsOn(a) == UnitsOn(b)
  {
    forall l ensures l in UnitsOn(a) <==> l in UnitsOn(b) {
      if IsUnitLoc(l) { assert Look(a, l) == Look(b, l); }
    }
    forall l | l in UnitsOn(a) ensures UnitsOn(a)[l] == UnitsOn(b)[l] {
      assert Look(a, l) == Look(b, l);
    }
  }

  // Without a reload, no unit file is written or removed.
  lemma QuietUnits(g: Goal, prior: State, l: Loc)
    requires ValidGoal(g) && !Reloads(g.d, prior) && IsUnitLoc(l)
    ensures !Touches(g.d, prior, l) && l.name !in WriteSet(g.d, prior) && l.name !in RemoveSet(g.d, prior)
  {
  }

  lemma QuietSettle(a: Host, h: Host, g: Goal, faults: Faults, l: Loc)
    requires Sound(g, h) && HalfApplied(a, h, g) && !Reloads(g.d, h.saved) && IsUnitLoc(l)
    ensures Look(Settled(a, g, faults).at, l) == Look(h.at, l)
  {
    var p, failed := PassPlan(g, h.saved), Failed(a, g, faults);
    QuietUnits(g, h.saved, l);
    PlanMembers(g.d, h.saved);
    PlanSeparate(g, h.saved);
    SettleMembers(g, p, failed, h.saved);
    SettledFile(Stopped(a, g, faults), SettleCmds(g, p, failed, h.saved), g, p, failed, l.name);
    StoppedLook(a, g, faults, l);
  }

  lemma ReloadLast(from: Host, g: Goal, p: Plan, failed: set<string>, saved: State)
    ensures var settled := ExecAll(from, SettleCmds(g, p, failed, saved));
            if p.daemonReload then settled.loaded == UnitsOn(settled.at) else settled.loaded == from.loaded
  {
    var before := FileCmds(g, p, failed) + SecretCmds(g, p) + LoginCmds(g, p, saved);
    ExecAllAppend(from, before, ReloadCmds(p));
    if p.daemonReload {
      ReloadReads(ExecAll(from, before));
    } else {
      SettleMembers(g, p, failed, saved);
      LoadedKept(from, SettleCmds(g, p, failed, saved));
    }
  }

  lemma ReloadReads(h: Host)
    ensures ExecAll(h, [Reload]) == h.(loaded := UnitsOn(h.at))
  {
    assert [Reload][1..] == [];
  }

  /** Once files are settled, the manager has loaded exactly the unit files on disk. */
  lemma SettledLoaded(a: Host, h: Host, g: Goal, faults: Faults)
    requires Sound(g, h) && HalfApplied(a, h, g)
    ensures Settled(a, g, faults).loaded == UnitsOn(Settled(a, g, faults).at)
  {
    ReloadLast(Stopped(a, g, faults), g, PassPlan(g, h.saved), Failed(a, g, faults), h.saved);
    StoppedLook(a, g, faults, Limits);
    if !Reloads(g.d, h.saved) {
      forall l | IsUnitLoc(l) ensures Look(Settled(a, g, faults).at, l) == Look(h.at, l) {
        QuietSettle(a, h, g, faults, l);
      }
      UnitsOnEqual(Settled(a, g, faults).at, h.at);
    }
  }

  lemma SettledUnit(a: Host, h: Host, g: Goal, faults: Faults, u: string)
    requires Sound(g, h) && HalfApplied(a, h, g)
    requires u in g.d.files && !IsSupportFile(u)
    ensures LoadedAs(Settled(a, g, faults), FileLoc(u)) == Some(ContentOf(g, u))
  {
    SettledLoaded(a, h, g, faults);
    SettledWanted(a, h, g, faults, u);
  }

  lemma SettledSupport(a: Host, h: Host, g: Goal, faults: Faults, r: string)
    requires Sound(g, h) && HalfApplied(a, h, g) && IsSupportFile(r)
    ensures Look(Settled(a, g, faults).at, QuadletFile(r)) == AsText(WantedText(g, r))
  {
    SupportNeverFails(a, h, g, faults, r);
    SettledWanted(a, h, g, faults, r);
    assert FileLoc(r) == QuadletFile(r);
  }

  // A host whose files and secrets are the goal's, and whose manager has read the unit, would launch it as wanted.
  lemma LaunchFromSettled(s: Host, g: Goal, u: string)
    requires LoadedAs(s, QuadletFile(u)) == Some(ContentOf(g, u))
    requires forall r | IsSupportFile(r) :: Look(s.at, QuadletFile(r)) == AsText(WantedText(g, r))
    requires forall k :: Look(s.at, Secret(k)) == AsText(WantedSecret(g, k))
    ensures LaunchOf(s, u) == WantedLaunch(g, u)
  {
    var own := ContentOf(g, u);
    forall r | IsSupportFile(r) ensures ReadText(s.at, QuadletFile(r)) == WantedText(g, r) {
      assert Look(s.at, QuadletFile(r)) == AsText(WantedText(g, r));
    }
    forall k ensures ReadText(s.at, Secret(k)) == WantedSecret(g, k) {
      assert Look(s.at, Secret(k)) == AsText(WantedSecret(g, k));
    }
    InputsWanted(own, Extract(own), s.at, g);
  }

  /** Settled inputs: whatever a Quadlet unit of the goal reads when it is launched now is what the goal says. */
  lemma SettledLaunch(a: Host, h: Host, g: Goal, faults: Faults, u: string)
    requires Sound(g, h) && HalfApplied(a, h, g)
    requires u in g.d.files && g.d.files[u].isUnit
    ensures LaunchOf(Settled(a, g, faults), u) == WantedLaunch(g, u)
  {
    SettledUnit(a, h, g, faults, u);
    forall r | IsSupportFile(r) ensures Look(Settled(a, g, faults).at, QuadletFile(r)) == AsText(WantedText(g, r)) {
      SettledSupport(a, h, g, faults, r);
    }
    forall k ensures Look(Settled(a, g, faults).at, Secret(k)) == AsText(WantedSecret(g, k)) {
      SettledSecretWanted(a, h, g, faults, k);
    }
    LaunchFromSettled(Settled(a, g, faults), g, u);
  }

  lemma SupportNeverFails(a: Host, h: Host, g: Goal, faults: Faults, r: string)
    requires Sound(g, h) && HalfApplied(a, h, g) && IsSupportFile(r)
    ensures r !in Failed(a, g, faults)
  {
    PlanMembers(g.d, h.saved);
  }

  // ---- lifecycle commands on settled inputs -----------------------------------------------------------

  // What a unit would read does not depend on which units run.
  lemma PutUnitState(h: Host, l: Loc, v: Option<Val>, u: string)
    requires IsUnitState(l)
    ensures LaunchOf(h.(at := Put(h.at, l, v)), u) == LaunchOf(h, u)
  {
    match LoadedAs(h, QuadletFile(u))
    case None =>
    case Some(own) => InputsEqual(own, Extract(own), h.at, Put(h.at, l, v));
  }

  lemma LaunchStable(h: Host, c: Cmd, u: string)
    requires !Fixed(c)
    ensures LaunchOf(Exec(h, c), u) == LaunchOf(h, u) && Exec(h, c).loaded == h.loaded
  {
    PutUnitState(h, Target(c).value, Effect(h, c), u);
  }

  lemma LifeStep(h: Host, c: Cmd, u: string, l: Loc, launch: Launch)
    requires !Fixed(c) && l == Service(UnitService(u)) && LaunchOf(h, u) == launch
    requires Target(c) == Some(l) ==> c == StartUnit(u) || c == RestartUnit(u)
    requires c == StartUnit(u) ==> Look(h.at, l) == None || Look(h.at, l) == Some(Running(launch))
    ensures LaunchOf(Exec(h, c), u) == launch
    ensures Look(Exec(h, c).at, l) == if Target(c) == Some(l) then Some(Running(launch)) else Look(h.at, l)
  {
    LaunchStable(h, c, u);
  }

  lemma {:induction false} LifeLaunches(h: Host, cmds: seq<Cmd>, u: string, l: Loc, launch: Launch)
    requires forall c | c in cmds :: !Fixed(c)
    requires l == Service(UnitService(u)) && LaunchOf(h, u) == launch
    requires forall c | c in cmds && Target(c) == Some(l) :: c == StartUnit(u) || c == RestartUnit(u)
    requires Look(h.at, l) == None || Look(h.at, l) == Some(Running(launch)) || StartUnit(u) !in cmds
    requires Look(h.at, l) == Some(Running(launch)) || exists c | c in cmds :: Target(c) == Some(l)
    ensures Look(ExecAll(h, cmds).at, l) == Some(Running(launch))
    decreases |cmds|
  {
    if cmds != [] {
      var c0, rest := cmds[0], cmds[1..];
      assert c0 in cmds && forall c | c in rest :: c in cmds;
      LifeStep(h, c0, u, l, launch);
      var next := Exec(h, c0);
      if Look(next.at, l) != Some(Running(launch)) {
        var c :| c in cmds && Target(c) == Some(l);
        assert c in rest;
      }
      LifeLaunches(next, rest, u, l, launch);
    }
  }

  lemma {:induction false} LifeArms(h: Host, cmds: seq<Cmd>, u: string, own: Option<string>)
    requires forall c | c in cmds :: !Fixed(c)
    requires LoadedAs(h, UserFile(u)) == own
    requires var v := Look(h.at, Native(u)); v == None || v == Some(Active(own)) || EnableUnit(u) !in cmds
    requires Look(h.at, Native(u)) == Some(Active(own)) || exists c | c in cmds :: Target(c) == Some(Native(u))
    ensures Look(ExecAll(h, cmds).at, Native(u)) == Some(Active(own))
    decreases |cmds|
  {
    if cmds != [] {
      var c0, l := cmds[0], Native(u);
      assert c0 in cmds;
      LaunchStable(h, c0, u);
      if Look(h.at, l) != Some(Active(own)) && Target(c0) != Some(l) {
        var c :| c in cmds && Target(c) == Some(l);
        assert c in cmds[1..];
      }
      LifeArms(Exec(h, c0), cmds[1..], u, own);
    }
  }
}
