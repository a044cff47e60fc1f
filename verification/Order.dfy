/** The order of a pass: a step that fails keeps every later one from happening. */
module Order {
  import opened Basics
  import opened Fileset
  import opened Host
  import opened Plan
  import opened Reconcile
  import opened Segments
  import opened Stages

  // The step of a pass that a command belongs to.
  function Step(c: Cmd): nat {
    match c
    case SetLimits(_) => 0
    case StopUnit(_) | DisableUnit(_) => 1
    case MakeDir(user) => if user then 3 else 2
    case WriteFile(_, _) => 4
    case RemoveFile(_) => 5
    case CreateSecret(_, _) => 6
    case RemoveSecret(_) => 7
    case LogIn(_, _, _) => 8
    case Reload => 9
    case StartUnit(_) => 10
    case RestartUnit(_) => 11
    case EnableUnit(_) => 12
    case RestartNative(_) => 13
    case SaveState => 14
  }

  // What a pass owes and cannot do without: all its commands but stops, disables and the save.
  ghost predicate Owed(g: Goal, saved: State, faults: Faults, c: Cmd)
    requires ValidGoal(g)
  {
    match c
    case SetLimits(r) => g.d.resources != saved.resources && r == g.d.resources
    case MakeDir(user) => user ==> exists n | n in WriteSet(g.d, saved) :: IsSystemdUnit(n)
    case WriteFile(n, content) => n in WriteSet(g.d, saved) && content == g.d.files[n].content
    case RemoveFile(n) => n in RemoveSet(g.d, saved) && !StillThere(g, saved, faults, n)
    case CreateSecret(k, value) => k in CreateSet(g.d, saved) && value == g.values[k]
    case RemoveSecret(k) => k in DropSet(g.d, saved)
    case LogIn(i, login, password) =>
      && Due(g, saved) && i < |g.logins| && login == g.logins[i]
      && password == (if login.passwordKey in g.values then Some(g.values[login.passwordKey]) else None)
    case Reload => Reloads(g.d, saved)
    case StartUnit(u) => u in StartSet(g.d, saved)
    case RestartUnit(u) => u in RestartSet(g.d, saved)
    case EnableUnit(u) => u in EnableSet(g.d, saved)
    case RestartNative(u) => u in RestartSystemdSet(g.d, saved)
    case StopUnit(_) | DisableUnit(_) | SaveState => false
  }

  // A unit whose stop or disable fails.
  predicate StillThere(g: Goal, saved: State, faults: Faults, n: string) {
    || (n in StopSet(g.d, saved) && faults(StopUnit(n)) != NoFault)
    || (n in DisableSet(g.d, saved) && faults(DisableUnit(n)) != NoFault)
  }

  // ---- the commands come step by step ------------------------------------------------------------------------------------

  ghost predicate InOrder(cmds: seq<Cmd>) {
    forall i, j | 0 <= i <= j < |cmds| :: Step(cmds[i]) <= Step(cmds[j])
  }

  predicate Between(cmds: seq<Cmd>, from: nat, to: nat) {
    forall c | c in cmds :: from <= Step(c) <= to
  }

  lemma OneStep(cmds: seq<Cmd>, step: nat)
    requires Between(cmds, step, step)
    ensures InOrder(cmds)
  {
    forall i | 0 <= i < |cmds| ensures Step(cmds[i]) == step {
      assert cmds[i] in cmds;
    }
  }

  lemma Appended(a: seq<Cmd>, b: seq<Cmd>, from: nat, mid: nat, next: nat, to: nat)
    requires InOrder(a) && InOrder(b) && Between(a, from, mid) && Between(b, next, to) && from <= mid <= next <= to
    ensures InOrder(a + b) && Between(a + b, from, to)
  {
    forall i, j | 0 <= i <= j < |a + b| ensures Step((a + b)[i]) <= Step((a + b)[j]) {
      if i < |a| <= j {
        assert a[i] in a && b[j - |a|] in b;
      }
    }
  }

  lemma EachStep(names: seq<string>, f: string -> Cmd, step: nat)
    requires forall n :: Step(f(n)) == step
    ensures InOrder(Each(names, f)) && Between(Each(names, f), step, step)
  {
    EachMembers(names, f);
    OneStep(Each(names, f), step);
  }

  lemma FilesInOrder(g: Goal, p: Plan, failed: set<string>)
    ensures InOrder(FileCmds(g, p, failed)) && Between(FileCmds(g, p, failed), 2, 5)
  {
    var own, user := [MakeDir(false)], if exists n | n in p.writeFiles :: IsSystemdUnit(n) then [MakeDir(true)] else [];
    OneStep(own, 2);
    OneStep(user, 3);
    var write, remove := n => WriteFile(n, ContentOf(g, n)), n => RemoveFile(n);
    EachStep(p.writeFiles, write, 4);
    EachStep(Without(p.removeFiles, failed), remove, 5);
    Appended(own, user, 2, 2, 3, 3);
    Appended(own + user, Each(p.writeFiles, write), 2, 3, 4, 4);
    Appended(own + user + Each(p.writeFiles, write), Each(Without(p.removeFiles, failed), remove), 2, 4, 5, 5);
  }

  lemma SecretsInOrder(g: Goal, p: Plan)
    ensures InOrder(SecretCmds(g, p)) && Between(SecretCmds(g, p), 6, 7)
  {
    var create, drop := k => CreateSecret(k, ValueOf(g, k)), k => RemoveSecret(k);
    EachStep(p.createSecrets, create, 6);
    EachStep(p.removeSecrets, drop, 7);
    Appended(Each(p.createSecrets, create), Each(p.removeSecrets, drop), 6, 6, 7, 7);
  }

  lemma LifeInOrder(p: Plan)
    ensures InOrder(LifeCmds(p)) && Between(LifeCmds(p), 10, 13)
  {
    var start, restart, enable, native := u => StartUnit(u), u => RestartUnit(u), u => EnableUnit(u), u => RestartNative(u);
    EachStep(p.startUnits, start, 10);
    EachStep(p.restartUnits, restart, 11);
    EachStep(p.enableUnits, enable, 12);
    EachStep(p.restartSystemdUnits, native, 13);
    var a, b := Each(p.startUnits, start), Each(p.restartUnits, restart);
    var c, d := Each(p.enableUnits, enable), Each(p.restartSystemdUnits, native);
    Appended(a, b, 10, 10, 11, 11);
    Appended(a + b, c, 10, 11, 12, 12);
    Appended(a + b + c, d, 10, 12, 13, 13);
  }

  lemma AllInOrder(g: Goal, p: Plan, failed: set<string>, saved: State)
    ensures InOrder(SettleCmds(g, p, failed, saved) + LifeCmds(p)) && Between(SettleCmds(g, p, failed, saved) + LifeCmds(p), 2, 13)
  {
    var a, b, c, d := FileCmds(g, p, failed), SecretCmds(g, p), LoginCmds(g, p, saved), ReloadCmds(p);
    FilesInOrder(g, p, failed);
    SecretsInOrder(g, p);
    OneStep(c, 8);
    OneStep(d, 9);
    LifeInOrder(p);
    Appended(a, b, 2, 5, 6, 7);
    Appended(a + b, c, 2, 7, 8, 8);
    Appended(a + b + c, d, 2, 8, 9, 9);
    Appended(a + b + c + d, LifeCmds(p), 2, 9, 10, 13);
  }

  // ---- a run that fails at some step -----------------------------------------------------------------------------------

  ghost predicate AgreeTo(faults: Faults, other: Faults, step: nat) {
    forall c | Step(c) <= step :: faults(c) == other(c)
  }

  lemma {:induction false} SameToFailure(h: Host, cmds: seq<Cmd>, faults: Faults, other: Faults, c: Cmd)
    requires InOrder(cmds) && c in cmds && !Answers(c, faults) && AgreeTo(faults, other, Step(c))
    ensures RunUntil(h, cmds, faults) == RunUntil(h, cmds, other) && !RunUntil(h, cmds, faults).ok
    decreases |cmds|
  {
    var j :| 0 <= j < |cmds| && cmds[j] == c;
    assert Step(cmds[0]) <= Step(cmds[j]);
    assert faults(cmds[0]) == other(cmds[0]);
    if Do(h, cmds[0], faults).ok {
      assert cmds[1..][j - 1] == c;
      SameToFailure(Do(h, cmds[0], faults).host, cmds[1..], faults, other, c);
    }
  }

  lemma {:induction false} SameAll(h: Host, cmds: seq<Cmd>, faults: Faults, other: Faults)
    requires forall c | c in cmds :: faults(c) == other(c)
    ensures RunAll(h, cmds, faults) == RunAll(h, cmds, other)
    decreases |cmds|
  {
    if cmds != [] {
      assert cmds[0] in cmds;
      SameAll(Do(h, cmds[0], faults).host, cmds[1..], faults, other);
    }
  }

  lemma InFiles(g: Goal, saved: State, p: Plan, faults: Faults, c: Cmd)
    requires ValidGoal(g) && Holds(p, g.d, saved) && Owed(g, saved, faults, c) && 2 <= Step(c) <= 5
    ensures c in FileCmds(g, p, StopFailed(p, faults))
  {
    var failed := StopFailed(p, faults);
    FileMembers(g, p, failed);
    NativeDir(g, p, failed);
    if c == MakeDir(false) {
      assert FileCmds(g, p, failed)[0] == c;
    }
  }

  lemma InSecrets(g: Goal, saved: State, p: Plan, faults: Faults, c: Cmd)
    requires ValidGoal(g) && Holds(p, g.d, saved) && Owed(g, saved, faults, c) && 6 <= Step(c) <= 7
    ensures c in SecretCmds(g, p)
  {
    SecretMembers(g, p);
  }

  lemma InLogins(g: Goal, saved: State, faults: Faults, c: Cmd)
    requires ValidGoal(g) && Owed(g, saved, faults, c) && c.LogIn?
    ensures c in LoginCmds(g, PassPlan(g, saved), saved)
  {
    NothingIsEmpty(PassPlan(g, saved));
    assert LoginCmds(g, PassPlan(g, saved), saved)[c.index] == c;
  }

  lemma InLife(g: Goal, saved: State, p: Plan, faults: Faults, c: Cmd)
    requires ValidGoal(g) && Holds(p, g.d, saved) && Owed(g, saved, faults, c) && 10 <= Step(c)
    ensures c in LifeCmds(p)
  {
    LifeMembers(p);
  }

  lemma InPass(g: Goal, saved: State, faults: Faults, c: Cmd)
    requires ValidGoal(g) && !UidChanged(g, saved) && Owed(g, saved, faults, c) && !c.SetLimits?
    ensures var p := PassPlan(g, saved);
            c in SettleCmds(g, p, StopFailed(p, faults), saved) + LifeCmds(p)
  {
    var p := PassPlan(g, saved);
    PlanMembers(g.d, saved);
    if Step(c) <= 5 {
      InFiles(g, saved, p, faults, c);
    } else if Step(c) <= 7 {
      InSecrets(g, saved, p, faults, c);
    } else if c.LogIn? {
      InLogins(g, saved, faults, c);
    } else if c == Reload {
      assert ReloadCmds(p)[0] == c;
    } else {
      InLife(g, saved, p, faults, c);
    }
  }

  lemma SameStops(h: Host, p: Plan, faults: Faults, other: Faults)
    requires AgreeTo(faults, other, 1)
    ensures RunAll(h, StopCmds(p), faults) == RunAll(h, StopCmds(p), other) && StopFailed(p, faults) == StopFailed(p, other)
  {
    var stop, disable := u => StopUnit(u), u => DisableUnit(u);
    EachStep(p.stopUnits, stop, 1);
    EachStep(p.disableUnits, disable, 1);
    assert StopCmds(p) == Each(p.stopUnits, stop) + Each(p.disableUnits, disable);
    forall c | c in StopCmds(p) ensures faults(c) == other(c) {
      assert Step(c) <= 1;
    }
    SameAll(h, StopCmds(p), faults, other);
    assert forall u :: Step(StopUnit(u)) == Step(DisableUnit(u)) == 1;
  }

  lemma FailedLimits(h: Host, g: Goal, p: Plan, faults: Faults, other: Faults, c: Cmd)
    requires p.setResources && c == SetLimits(g.d.resources) && faults(c) == other(c) != NoFault
    ensures RunUntil(h, LimitCmds(g, p), faults) == RunUntil(h, LimitCmds(g, p), other)
    ensures !RunUntil(h, LimitCmds(g, p), faults).ok
  {
    assert LimitCmds(g, p) == [c];
  }

  lemma SameLimits(h: Host, g: Goal, p: Plan, faults: Faults, other: Faults)
    requires AgreeTo(faults, other, 0)
    ensures RunUntil(h, LimitCmds(g, p), faults) == RunUntil(h, LimitCmds(g, p), other)
  {
    var c := SetLimits(g.d.resources);
    assert Step(c) <= 0;
    if p.setResources {
      assert LimitCmds(g, p) == [c] && [c][1..] == [];
    }
  }

  /** A pass goes limits, stops and disables, directories, writes, removals, secrets made, secrets dropped, logins, reload,
      starts, restarts, enables, native restarts, save; and when something it owes fails, how the later steps would have
      fared makes no difference. */
  lemma FailureStops(h: Host, g: Goal, faults: Faults, other: Faults, c: Cmd)
    requires ValidGoal(g) && !UidChanged(g, h.saved) && Owed(g, h.saved, faults, c) && !Answers(c, faults)
    requires AgreeTo(faults, other, Step(c))
    ensures Pass(h, g, faults) == Pass(h, g, other) && !Pass(h, g, faults).ok
  {
    var p := PassPlan(g, h.saved);
    if c.SetLimits? {
      FailedLimits(h, g, p, faults, other, c);
    } else {
      SameLimits(h, g, p, faults, other);
      var limited := RunUntil(h, LimitCmds(g, p), faults);
      if limited.ok {
        SameStops(limited.host, p, faults, other);
        InPass(g, h.saved, faults, c);
        AllInOrder(g, p, StopFailed(p, faults), h.saved);
        SameToFailure(RunAll(limited.host, StopCmds(p), faults), SettleCmds(g, p, StopFailed(p, faults), h.saved) + LifeCmds(p),
                      faults, other, c);
      }
    }
  }

  // ---- what such a failure spares --------------------------------------------------------------------------------------

  // None of these commands has an effect here.
  ghost predicate Spared(cmds: seq<Cmd>, faults: Faults, l: Loc) {
    forall c | c in cmds && Target(c) == Some(l) :: faults(c) == NoEffect
  }

  lemma DoSpares(h: Host, c: Cmd, faults: Faults, l: Loc)
    requires Target(c) != Some(l) || faults(c) == NoEffect
    ensures Look(Do(h, c, faults).host.at, l) == Look(h.at, l)
  {
  }

  lemma {:induction false} RunSpares(h: Host, cmds: seq<Cmd>, faults: Faults, l: Loc)
    requires Spared(cmds, faults, l)
    ensures Look(RunUntil(h, cmds, faults).host.at, l) == Look(h.at, l)
    ensures Look(RunAll(h, cmds, faults).at, l) == Look(h.at, l)
    decreases |cmds|
  {
    if cmds != [] {
      assert cmds[0] in cmds;
      DoSpares(h, cmds[0], faults, l);
      RunSpares(Do(h, cmds[0], faults).host, cmds[1..], faults, l);
    }
  }

  function NothingAfter(faults: Faults, step: nat): Faults {
    c => if Step(c) <= step then faults(c) else NoEffect
  }

  lemma FailedPassSpares(h: Host, g: Goal, faults: Faults, l: Loc)
    requires ValidGoal(g) && !Pass(h, g, faults).ok
    requires var p := PassPlan(g, h.saved);
             Spared(LimitCmds(g, p), faults, l) && Spared(StopCmds(p), faults, l)
             && Spared(SettleCmds(g, p, StopFailed(p, faults), h.saved) + LifeCmds(p), faults, l)
    ensures Look(Pass(h, g, faults).host.at, l) == Look(h.at, l)
  {
    var p := PassPlan(g, h.saved);
    var limited := RunUntil(h, LimitCmds(g, p), faults);
    RunSpares(h, LimitCmds(g, p), faults, l);
    RunSpares(limited.host, StopCmds(p), faults, l);
    RunSpares(RunAll(limited.host, StopCmds(p), faults), SettleCmds(g, p, StopFailed(p, faults), h.saved) + LifeCmds(p), faults, l);
  }

  lemma LaterSpared(g: Goal, p: Plan, failed: set<string>, saved: State, faults: Faults, step: nat, l: Loc)
    requires forall x | Target(x) == Some(l) && Step(x) <= step :: x.StopUnit? || x.DisableUnit?
    ensures Spared(LimitCmds(g, p), NothingAfter(faults, step), l)
    ensures Spared(SettleCmds(g, p, failed, saved) + LifeCmds(p), NothingAfter(faults, step), l)
  {
    AllInOrder(g, p, failed, saved);
  }

  lemma StopsSpared(g: Goal, saved: State, p: Plan, faults: Faults, l: Loc)
    requires Named(g.d.files) && Holds(p, g.d, saved)
    requires l.Service? ==> forall u | u in StopSet(g.d, saved) :: UnitService(u) != l.service
    requires l.Native? ==> l.unit !in DisableSet(g.d, saved)
    ensures Spared(StopCmds(p), faults, l)
  {
    EachMembers(p.stopUnits, u => StopUnit(u));
    EachMembers(p.disableUnits, u => DisableUnit(u));
  }

  /** So a failure leaves alone whatever only later steps would change: a failed write every secret, and any failure up to the
      reload every enabled unit and running service that no stop or disable is after. */
  lemma LaterStepsSpared(h: Host, g: Goal, faults: Faults, c: Cmd, l: Loc)
    requires ValidGoal(g) && !UidChanged(g, h.saved) && Owed(g, h.saved, faults, c) && !Answers(c, faults)
    requires forall x | Target(x) == Some(l) && Step(x) <= Step(c) :: x.StopUnit? || x.DisableUnit?
    requires l.Service? ==> forall u | u in StopSet(g.d, h.saved) :: UnitService(u) != l.service
    requires l.Native? ==> l.unit !in DisableSet(g.d, h.saved)
    ensures Look(Pass(h, g, faults).host.at, l) == Look(h.at, l)
  {
    var p, other := PassPlan(g, h.saved), NothingAfter(faults, Step(c));
    FailureStops(h, g, faults, other, c);
    PlanMembers(g.d, h.saved);
    StopsSpared(g, h.saved, p, other, l);
    LaterSpared(g, p, StopFailed(p, other), h.saved, faults, Step(c), l);
    FailedPassSpares(h, g, other, l);
  }
}
