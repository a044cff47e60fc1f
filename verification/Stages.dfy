/** What a pass sends: exactly when it reaches its save, and what a failure on the way leaves undone. */
module Stages {
  import opened Agreement
  import opened Basics
  import opened Convergence
  import opened Fileset
  import opened Host
  import opened Plan
  import opened Reconcile
  import opened Retry
  import opened Segments

  // ---- logins -----------------------------------------------------------------------------------------------------------

  // What a login finds as its password, or nothing.
  function Found(g: Goal, l: Login): string {
    if l.passwordKey in g.values then g.values[l.passwordKey] else ""
  }

  /** Two saved states agree on the registries exactly when their goals had the same logins with the same passwords. */
  lemma RegistriesTell(g: Goal, g': Goal)
    ensures NextState(g).registries == NextState(g').registries <==>
              g.logins == g'.logins && forall i | 0 <= i < |g.logins| :: Found(g, g.logins[i]) == Found(g', g.logins[i])
  {
    if g.logins == g'.logins && g.logins != [] {
      var a, b := NextState(g).registries.passwords, NextState(g').registries.passwords;
      forall i | 0 <= i < |g.logins| ensures a[i] == Sha256(Found(g, g.logins[i])) && b[i] == Sha256(Found(g', g.logins[i])) {
      }
      if forall i | 0 <= i < |g.logins| :: Found(g, g.logins[i]) == Found(g', g.logins[i]) {
        assert a == b;
      }
    }
  }

  const NOTHING := Plan([], [], [], [], false, false, [], [], [], [], [], [])

  /** The logins are due: something is planned, or they are not those the state was saved for. */
  ghost predicate Due(g: Goal, saved: State)
    requires ValidGoal(g)
  {
    PassPlan(g, saved) != NOTHING || saved.registries != NextState(g).registries
  }

  // Each login finds its password and succeeds with it.
  ghost predicate LogsIn(g: Goal, faults: Faults) {
    forall i: nat | i < |g.logins| :: OneLogsIn(g, faults, i)
  }

  ghost predicate OneLogsIn(g: Goal, faults: Faults, i: nat)
    requires i < |g.logins|
  {
    g.logins[i].passwordKey in g.values && faults(LogIn(i, g.logins[i], Some(g.values[g.logins[i].passwordKey]))) == NoFault
  }

  // A command can succeed at all.
  predicate Answers(c: Cmd, faults: Faults) {
    faults(c) == NoFault && (c.LogIn? ==> c.password.Some?)
  }

  lemma LoginsDue(g: Goal, saved: State, faults: Faults)
    requires ValidGoal(g)
    ensures (forall c | c in LoginCmds(g, PassPlan(g, saved), saved) :: Answers(c, faults)) <==> (Due(g, saved) ==> LogsIn(g, faults))
  {
    var cmds := LoginCmds(g, PassPlan(g, saved), saved);
    NothingIsEmpty(PassPlan(g, saved));
    if Due(g, saved) {
      AllLogins(g, cmds, faults);
    }
  }

  lemma NothingIsEmpty(p: Plan)
    ensures p.Empty() <==> p == NOTHING
  {
  }

  lemma AllLogins(g: Goal, cmds: seq<Cmd>, faults: Faults)
    requires |cmds| == |g.logins| && forall i: nat | i < |cmds| :: cmds[i] == LogIn(i, g.logins[i], PasswordOf(g, g.logins[i]))
    ensures (forall c | c in cmds :: Answers(c, faults)) <==> LogsIn(g, faults)
  {
    if LogsIn(g, faults) {
      forall c | c in cmds ensures Answers(c, faults) {
        var i: nat :| i < |cmds| && cmds[i] == c;
        assert OneLogsIn(g, faults, i);
      }
    }
    if forall c | c in cmds :: Answers(c, faults) {
      forall i: nat | i < |g.logins| ensures OneLogsIn(g, faults, i) {
        assert cmds[i] in cmds;
      }
    }
  }

  // ---- exactly when a pass reaches its save -------------------------------------------------------------------------------

  // The files are written, or removed unless a stop or disable failed, with their directories made first.
  ghost predicate FilesWork(g: Goal, prior: State, failed: set<string>, faults: Faults)
    requires ValidGoal(g)
  {
    && faults(MakeDir(false)) == NoFault
    && ((exists n | n in WriteSet(g.d, prior) :: IsSystemdUnit(n)) ==> faults(MakeDir(true)) == NoFault)
    && (forall n | n in WriteSet(g.d, prior) :: faults(WriteFile(n, g.d.files[n].content)) == NoFault)
    && (forall n | n in RemoveSet(g.d, prior) && n !in failed :: faults(RemoveFile(n)) == NoFault)
  }

  ghost predicate SecretsWork(g: Goal, prior: State, faults: Faults)
    requires ValidGoal(g)
  {
    && (forall k | k in CreateSet(g.d, prior) :: faults(CreateSecret(k, g.values[k])) == NoFault)
    && (forall k | k in DropSet(g.d, prior) :: faults(RemoveSecret(k)) == NoFault)
  }

  ghost predicate UnitsWork(g: Goal, prior: State, faults: Faults)
    requires ValidGoal(g)
  {
    && (forall u | u in StartSet(g.d, prior) :: faults(StartUnit(u)) == NoFault)
    && (forall u | u in RestartSet(g.d, prior) :: faults(RestartUnit(u)) == NoFault)
    && (forall u | u in EnableSet(g.d, prior) :: faults(EnableUnit(u)) == NoFault)
    && (forall u | u in RestartSystemdSet(g.d, prior) :: faults(RestartNative(u)) == NoFault)
  }

  /** Every command but a stop or disable works, among them the logins that are due. */
  ghost predicate AllWork(g: Goal, prior: State, failed: set<string>, faults: Faults)
    requires ValidGoal(g)
  {
    && (g.d.resources != prior.resources ==> faults(SetLimits(g.d.resources)) == NoFault)
    && FilesWork(g, prior, failed, faults) && SecretsWork(g, prior, faults)
    && (Due(g, prior) ==> LogsIn(g, faults))
    && (Reloads(g.d, prior) ==> faults(Reload) == NoFault)
    && UnitsWork(g, prior, faults) && faults(SaveState) == NoFault
  }

  lemma {:induction false} OkAnswers(h: Host, cmds: seq<Cmd>, faults: Faults)
    requires RunUntil(h, cmds, faults).ok
    ensures forall c | c in cmds :: Answers(c, faults)
    decreases |cmds|
  {
    if cmds != [] {
      OkAnswers(Do(h, cmds[0], faults).host, cmds[1..], faults);
      assert forall c :: c in cmds <==> c == cmds[0] || c in cmds[1..];
    }
  }

  lemma FilesAnswer(g: Goal, prior: State, p: Plan, failed: set<string>, faults: Faults)
    requires ValidGoal(g) && Holds(p, g.d, prior)
    ensures (forall c | c in FileCmds(g, p, failed) :: Answers(c, faults)) <==> FilesWork(g, prior, failed, faults)
  {
    FileMembers(g, p, failed);
    assert FileCmds(g, p, failed)[0] == MakeDir(false);
    NativeDir(g, p, failed);
    NativeSet(p, g.d, prior);
    FilesByKind(FileCmds(g, p, failed), g, prior, p, failed, faults);
  }

  lemma NativeSet(p: Plan, d: Desired, prior: State)
    requires Named(d.files) && Holds(p, d, prior)
    ensures (exists n | n in p.writeFiles :: IsSystemdUnit(n)) <==> exists n | n in WriteSet(d, prior) :: IsSystemdUnit(n)
  {
  }

  lemma FilesByKind(cmds: seq<Cmd>, g: Goal, prior: State, p: Plan, failed: set<string>, faults: Faults)
    requires ValidGoal(g) && Holds(p, g.d, prior) && MakeDir(false) in cmds
    requires MakeDir(true) in cmds <==> exists n | n in WriteSet(g.d, prior) :: IsSystemdUnit(n)
    requires forall c | c in cmds ::
               || c.MakeDir?
               || (c.WriteFile? && c.name in p.writeFiles && c.content == ContentOf(g, c.name))
               || (c.RemoveFile? && c.name in p.removeFiles && c.name !in failed)
    requires forall n | n in p.writeFiles :: WriteFile(n, ContentOf(g, n)) in cmds
    requires forall n | n in p.removeFiles && n !in failed :: RemoveFile(n) in cmds
    ensures (forall c | c in cmds :: Answers(c, faults)) <==> FilesWork(g, prior, failed, faults)
  {
    if forall c | c in cmds :: Answers(c, faults) {
      forall n | n in WriteSet(g.d, prior) ensures faults(WriteFile(n, g.d.files[n].content)) == NoFault {
        assert WriteFile(n, ContentOf(g, n)) in cmds;
      }
      forall n | n in RemoveSet(g.d, prior) && n !in failed ensures faults(RemoveFile(n)) == NoFault {
        assert RemoveFile(n) in cmds;
      }
    }
    if FilesWork(g, prior, failed, faults) {
      forall c | c in cmds ensures Answers(c, faults) {
        if c.MakeDir? {
          assert c == MakeDir(false) || c == MakeDir(true);
        }
      }
    }
  }

  // The second directory is made exactly for a native unit.
  lemma NativeDir(g: Goal, p: Plan, failed: set<string>)
    ensures MakeDir(true) in FileCmds(g, p, failed) <==> exists n | n in p.writeFiles :: IsSystemdUnit(n)
  {
    var cmds := FileCmds(g, p, failed);
    EachMembers(p.writeFiles, n => WriteFile(n, ContentOf(g, n)));
    EachMembers(Without(p.removeFiles, failed), n => RemoveFile(n));
    if exists n | n in p.writeFiles :: IsSystemdUnit(n) {
      assert cmds[1] == MakeDir(true);
    }
  }

  lemma SecretsAnswer(g: Goal, prior: State, p: Plan, faults: Faults)
    requires ValidGoal(g) && Holds(p, g.d, prior)
    ensures (forall c | c in SecretCmds(g, p) :: Answers(c, faults)) <==> SecretsWork(g, prior, faults)
  {
    SecretMembers(g, p);
  }

  lemma LifeAnswers(g: Goal, prior: State, p: Plan, faults: Faults)
    requires ValidGoal(g) && Holds(p, g.d, prior)
    ensures (forall c | c in LifeCmds(p) :: Answers(c, faults)) <==> UnitsWork(g, prior, faults)
  {
    LifeMembers(p);
  }

  lemma ReloadAnswers(p: Plan, faults: Faults)
    ensures (forall c | c in ReloadCmds(p) :: Answers(c, faults)) <==> (p.daemonReload ==> faults(Reload) == NoFault)
  {
    OneAnswers(ReloadCmds(p), Reload, p.daemonReload, faults);
  }

  lemma LimitAnswers(g: Goal, p: Plan, faults: Faults)
    ensures (forall c | c in LimitCmds(g, p) :: Answers(c, faults)) <==> (p.setResources ==> faults(SetLimits(g.d.resources)) == NoFault)
  {
    OneAnswers(LimitCmds(g, p), SetLimits(g.d.resources), p.setResources, faults);
  }

  lemma OneAnswers(cmds: seq<Cmd>, c: Cmd, there: bool, faults: Faults)
    requires cmds == (if there then [c] else []) && !c.LogIn?
    ensures (forall x | x in cmds :: Answers(x, faults)) <==> (there ==> faults(c) == NoFault)
  {
    if there {
      assert cmds[0] == c && c in cmds;
    }
  }

  lemma SettleAnswers(g: Goal, saved: State, failed: set<string>, faults: Faults)
    requires ValidGoal(g) && !UidChanged(g, saved)
    ensures (forall c | c in SettleCmds(g, PassPlan(g, saved), failed, saved) :: Answers(c, faults)) <==>
              && FilesWork(g, saved, failed, faults) && SecretsWork(g, saved, faults)
              && (Due(g, saved) ==> LogsIn(g, faults)) && (Reloads(g.d, saved) ==> faults(Reload) == NoFault)
  {
    var p := PassPlan(g, saved);
    PlanMembers(g.d, saved);
    FilesAnswer(g, saved, p, failed, faults);
    SecretsAnswer(g, saved, p, faults);
    LoginsDue(g, saved, faults);
    ReloadAnswers(p, faults);
    FourParts(FileCmds(g, p, failed), SecretCmds(g, p), LoginCmds(g, p, saved), ReloadCmds(p), faults);
  }

  lemma FourParts(a: seq<Cmd>, b: seq<Cmd>, c: seq<Cmd>, d: seq<Cmd>, faults: Faults)
    ensures (forall x | x in a + b + c + d :: Answers(x, faults)) <==>
              && (forall x | x in a :: Answers(x, faults)) && (forall x | x in b :: Answers(x, faults))
              && (forall x | x in c :: Answers(x, faults)) && (forall x | x in d :: Answers(x, faults))
  {
    assert forall x :: x in a + b + c + d <==> x in a || x in b || x in c || x in d;
  }

  lemma TwoParts(a: seq<Cmd>, b: seq<Cmd>, faults: Faults)
    ensures (forall x | x in a + b :: Answers(x, faults)) <==>
              (forall x | x in a :: Answers(x, faults)) && (forall x | x in b :: Answers(x, faults))
  {
    assert forall x :: x in a + b <==> x in a || x in b;
  }

  lemma SettleRuns(h: Host, g: Goal, p: Plan, failed: set<string>, saved: State, faults: Faults)
    requires forall c | c in SettleCmds(g, p, failed, saved) :: Answers(c, faults)
    ensures var r := RunUntil(h, SettleCmds(g, p, failed, saved), faults);
            r.ok && r.host == ExecAll(h, SettleCmds(g, p, failed, saved))
  {
    SettleMembers(g, p, failed, saved);
    FixedOk(h, SettleCmds(g, p, failed, saved), faults);
    RunUntilOk(h, SettleCmds(g, p, failed, saved), faults);
  }

  lemma LimitsRun(h: Host, g: Goal, p: Plan, faults: Faults)
    requires forall c | c in LimitCmds(g, p) :: Answers(c, faults)
    ensures var r := RunUntil(h, LimitCmds(g, p), faults); r.ok && r.host == ExecAll(h, LimitCmds(g, p))
  {
    FixedOk(h, LimitCmds(g, p), faults);
    RunUntilOk(h, LimitCmds(g, p), faults);
  }

  lemma OkWorks(a: Host, h: Host, g: Goal, faults: Faults)
    requires ValidGoal(g) && !UidChanged(g, a.saved) && a.saved == h.saved && Pass(a, g, faults).ok
    ensures AllWork(g, h.saved, Failed(a, g, faults), faults)
  {
    var p, failed := PassPlan(g, h.saved), Failed(a, g, faults);
    var settle := SettleCmds(g, p, failed, h.saved);
    PlanMembers(g.d, h.saved);
    RunUntilOk(a, LimitCmds(g, p), faults);
    OkAnswers(a, LimitCmds(g, p), faults);
    LimitAnswers(g, p, faults);
    OkAnswers(Stopped(a, g, faults), settle + LifeCmds(p), faults);
    TwoParts(settle, LifeCmds(p), faults);
    SettleAnswers(g, h.saved, failed, faults);
    LifeAnswers(g, h.saved, p, faults);
  }

  lemma WorksOk(a: Host, h: Host, g: Goal, faults: Faults)
    requires Sound(g, h) && HalfApplied(a, h, g) && AllWork(g, h.saved, Failed(a, g, faults), faults)
    ensures Pass(a, g, faults).ok
  {
    var p, failed := PassPlan(g, h.saved), Failed(a, g, faults);
    PlanMembers(g.d, h.saved);
    LimitAnswers(g, p, faults);
    LimitsRun(a, g, p, faults);
    SettleAnswers(g, h.saved, failed, faults);
    SettleRuns(Stopped(a, g, faults), g, p, failed, h.saved, faults);
    LifeAnswers(g, h.saved, p, faults);
    forall c | c in LifeCmds(p) ensures !Fixed(c) && Ready(Settled(a, g, faults), c) && faults(c) == NoFault {
      LifeReady(a, h, g, faults, c);
    }
    LifeOk(Settled(a, g, faults), LifeCmds(p), faults);
    RunUntilAppend(Stopped(a, g, faults), SettleCmds(g, p, failed, h.saved), LifeCmds(p), faults);
  }

  /** From a matching host, or one that aborted passes for the goal left half applied, a pass reaches its save exactly when
      everything it plans works but stops and disables: limits, directories, each file, each secret, each login if they are
      due, the reload, each unit it starts, restarts or enables, and the save. */
  lemma PassOkExactly(a: Host, h: Host, g: Goal, faults: Faults)
    requires Sound(g, h) && HalfApplied(a, h, g)
    ensures Pass(a, g, faults).ok <==> AllWork(g, h.saved, Failed(a, g, faults), faults)
  {
    if Pass(a, g, faults).ok {
      OkWorks(a, h, g, faults);
    }
    if AllWork(g, h.saved, Failed(a, g, faults), faults) {
      WorksOk(a, h, g, faults);
    }
  }

  lemma LoginsDecide(g: Goal, prior: State, failed: set<string>, faults: Faults)
    requires ValidGoal(g) && Faultless(faults)
    ensures AllWork(g, prior, failed, faults) <==> (Due(g, prior) ==> LogsIn(g, faults))
  {
    assert FilesWork(g, prior, failed, faults);
    assert SecretsWork(g, prior, faults);
    assert UnitsWork(g, prior, faults);
  }

  lemma KeysDecide(g: Goal, faults: Faults)
    requires Faultless(faults)
    ensures LogsIn(g, faults) <==> forall i | 0 <= i < |g.logins| :: g.logins[i].passwordKey in g.values
  {
    if forall i | 0 <= i < |g.logins| :: g.logins[i].passwordKey in g.values {
      forall i: nat | i < |g.logins| ensures OneLogsIn(g, faults, i) {
      }
    }
    if LogsIn(g, faults) {
      forall i | 0 <= i < |g.logins| ensures g.logins[i].passwordKey in g.values {
        assert OneLogsIn(g, faults, i);
      }
    }
  }

  /** So a pass without faults reaches its save exactly when every login finds its password, or nothing is planned and the
      saved state was saved for the same logins and passwords. */
  lemma LoginsGate(a: Host, h: Host, g: Goal, faults: Faults)
    requires Sound(g, h) && HalfApplied(a, h, g) && Faultless(faults)
    ensures Pass(a, g, faults).ok <==>
              || (forall i | 0 <= i < |g.logins| :: g.logins[i].passwordKey in g.values)
              || (PassPlan(g, h.saved) == NOTHING && h.saved.registries == NextState(g).registries)
  {
    PassOkExactly(a, h, g, faults);
    LoginsDecide(g, h.saved, Failed(a, g, faults), faults);
    KeysDecide(g, faults);
  }

  /** And from any host, a pass that reaches its save with the logins due has sent each, with its password, and each worked. */
  lemma DueLoginsSent(h: Host, g: Goal, faults: Faults, i: nat)
    requires ValidGoal(g) && !UidChanged(g, h.saved) && Pass(h, g, faults).ok && i < |g.logins|
    requires PassPlan(g, h.saved) != NOTHING || h.saved.registries != NextState(g).registries
    ensures g.logins[i].passwordKey in g.values
    ensures faults(LogIn(i, g.logins[i], Some(g.values[g.logins[i].passwordKey]))) == NoFault
  {
    OkWorks(h, h, g, faults);
    assert OneLogsIn(g, faults, i);
  }
}
