/** Whole runs of passes that reach their save, whatever stops and disables fail: exactly when the saved files are
    still the disk, and exactly what runs. */
module Ledger {
  import opened Agreement
  import opened Basics
  import opened Fileset
  import opened Host
  import opened Plan
  import opened Reconcile
  import opened Segments

  // A pass that reaches its save, at one uid.
  ghost predicate Saves(b: Host, e: Attempt, after: Host) {
    && ValidGoal(e.goal) && !UidChanged(e.goal, b.saved)
    && Pass(b, e.goal, e.faults).ok && after == Pass(b, e.goal, e.faults).host
  }

  // A run of such passes, with the hosts before and after each.
  ghost predicate SavedRun(hosts: seq<Host>, run: seq<Attempt>) {
    |hosts| == |run| + 1 && forall i: nat | i < |run| :: Saves(hosts[i], run[i], hosts[i + 1])
  }

  ghost predicate BreaksAt(b: Host, e: Attempt, n: string) {
    ValidGoal(e.goal) && Breaks(e.goal, Failed(b, e.goal, e.faults), b.saved, n)
  }

  ghost predicate MendsAt(b: Host, e: Attempt, n: string) {
    ValidGoal(e.goal) && Mends(e.goal, Failed(b, e.goal, e.faults), b.saved, n)
  }

  // Whatever a pass of the run broke, a later one mended.
  ghost predicate Mended(hosts: seq<Host>, run: seq<Attempt>, n: string)
    requires |hosts| == |run| + 1
  {
    forall k: nat | k < |run| && BreaksAt(hosts[k], run[k], n) ::
      exists j: nat :: k < j < |run| && MendsAt(hosts[j], run[j], n)
  }

  lemma StepAgrees(b: Host, e: Attempt, after: Host, n: string)
    requires Saves(b, e, after)
    ensures AgreesAt(after.at, after.saved, FileLoc(n)) <==>
            MendsAt(b, e, n) || (!BreaksAt(b, e, n) && AgreesAt(b.at, b.saved, FileLoc(n)))
    ensures !(MendsAt(b, e, n) && BreaksAt(b, e, n))
  {
    PassFileAgrees(b, e.goal, e.faults, n);
    KeptOrBroken(e.goal, Failed(b, e.goal, e.faults), b.saved, n);
  }

  // A fact that steps break or mend holds at the end exactly when every break was mended later.
  lemma {:induction false} LastMended(a: seq<bool>, broken: seq<bool>, mended: seq<bool>, m: nat)
    requires |a| == |broken| + 1 == |mended| + 1 && m <= |broken| && a[0]
    requires forall i: nat | i < |broken| :: a[i + 1] == (mended[i] || (!broken[i] && a[i])) && !(mended[i] && broken[i])
    ensures a[m] <==> forall k: nat | k < m && broken[k] :: exists j: nat :: k < j < m && mended[j]
  {
    if m > 0 {
      LastMended(a, broken, mended, m - 1);
      assert a[m - 1 + 1] == (mended[m - 1] || (!broken[m - 1] && a[m - 1]));
      if mended[m - 1] {
        forall k: nat | k < m && broken[k] ensures exists j: nat :: k < j < m && mended[j] {
          assert k < m - 1 < m;
        }
      } else if a[m] {
        forall k: nat | k < m && broken[k] ensures exists j: nat :: k < j < m && mended[j] {
          var j: nat :| k < j < m - 1 && mended[j];
        }
      } else if !broken[m - 1] {
        var k: nat :| k < m - 1 && broken[k] && forall j: nat | k < j < m - 1 :: !mended[j];
        assert forall j: nat | k < j < m :: !mended[j];
      }
    }
  }

  ghost predicate NameSteps(hosts: seq<Host>, run: seq<Attempt>, n: string)
    requires |hosts| == |run| + 1
  {
    forall i: nat | i < |run| ::
      && (AgreesAt(hosts[i + 1].at, hosts[i + 1].saved, FileLoc(n)) <==>
          MendsAt(hosts[i], run[i], n) || (!BreaksAt(hosts[i], run[i], n) && AgreesAt(hosts[i].at, hosts[i].saved, FileLoc(n))))
      && !(MendsAt(hosts[i], run[i], n) && BreaksAt(hosts[i], run[i], n))
  }

  lemma RunNameSteps(hosts: seq<Host>, run: seq<Attempt>, n: string)
    requires SavedRun(hosts, run)
    ensures NameSteps(hosts, run, n)
  {
    forall i: nat | i < |run|
      ensures AgreesAt(hosts[i + 1].at, hosts[i + 1].saved, FileLoc(n)) <==>
              MendsAt(hosts[i], run[i], n) || (!BreaksAt(hosts[i], run[i], n) && AgreesAt(hosts[i].at, hosts[i].saved, FileLoc(n)))
      ensures !(MendsAt(hosts[i], run[i], n) && BreaksAt(hosts[i], run[i], n))
    {
      StepAgrees(hosts[i], run[i], hosts[i + 1], n);
    }
  }

  lemma NameOverRun(hosts: seq<Host>, run: seq<Attempt>, n: string)
    requires |hosts| == |run| + 1 && NameSteps(hosts, run, n) && AgreesAt(hosts[0].at, hosts[0].saved, FileLoc(n))
    ensures AgreesAt(hosts[|run|].at, hosts[|run|].saved, FileLoc(n)) <==> Mended(hosts, run, n)
  {
    var a := seq(|run| + 1, i requires 0 <= i < |hosts| => AgreesAt(hosts[i].at, hosts[i].saved, FileLoc(n)));
    var broken := seq(|run|, i requires 0 <= i < |run| => BreaksAt(hosts[i], run[i], n));
    var mended := seq(|run|, i requires 0 <= i < |run| => MendsAt(hosts[i], run[i], n));
    LastMended(a, broken, mended, |run|);
    MendedAsTold(hosts, run, n, broken, mended);
  }

  lemma MendedAsTold(hosts: seq<Host>, run: seq<Attempt>, n: string, broken: seq<bool>, mended: seq<bool>)
    requires |hosts| == |run| + 1 == |broken| + 1 == |mended| + 1
    requires forall i: nat | i < |run| :: broken[i] == BreaksAt(hosts[i], run[i], n) && mended[i] == MendsAt(hosts[i], run[i], n)
    ensures Mended(hosts, run, n) <==>
            forall k: nat | k < |run| && broken[k] :: exists j: nat :: k < j < |run| && mended[j]
  {
    if Mended(hosts, run, n) {
      forall k: nat | k < |run| && broken[k] ensures exists j: nat :: k < j < |run| && mended[j] {
        var j: nat :| k < j < |run| && MendsAt(hosts[j], run[j], n);
        assert mended[j];
      }
    }
    if forall k: nat | k < |run| && broken[k] :: exists j: nat :: k < j < |run| && mended[j] {
      forall k: nat | k < |run| && BreaksAt(hosts[k], run[k], n)
        ensures exists j: nat :: k < j < |run| && MendsAt(hosts[j], run[j], n)
      {
        assert broken[k];
        var j: nat :| k < j < |run| && mended[j];
        assert MendsAt(hosts[j], run[j], n);
      }
    }
  }

  // What every pass keeps, a run keeps.
  ghost predicate Told(h: Host) {
    && TypedState(h.saved) && UnitsNamed(h)
    && forall l | Misplaced(l) :: AgreesAt(h.at, h.saved, l)
  }

  lemma StepTold(b: Host, e: Attempt, after: Host)
    requires Saves(b, e, after) && Told(b)
    ensures Told(after)
  {
    PassTyped(b, e.goal, e.faults);
    PassNamed(b, e.goal, e.faults);
    forall l | Misplaced(l) ensures AgreesAt(after.at, after.saved, l) {
      PassMisplacedAgrees(b, e.goal, e.faults, l);
    }
  }

  lemma {:induction false} AllTrue(a: seq<bool>, m: nat)
    requires m < |a| && a[0] && forall i: nat | i + 1 < |a| && a[i] :: a[i + 1]
    ensures a[m]
  {
    if m > 0 {
      AllTrue(a, m - 1);
      assert a[m - 1] && a[m - 1 + 1];
    }
  }

  lemma ToldOverRun(hosts: seq<Host>, run: seq<Attempt>)
    requires SavedRun(hosts, run) && Told(hosts[0])
    ensures Told(hosts[|run|])
  {
    var a := seq(|run| + 1, i requires 0 <= i < |hosts| => Told(hosts[i]));
    forall i: nat | i + 1 < |a| && a[i] ensures a[i + 1] {
      StepTold(hosts[i], run[i], hosts[i + 1]);
    }
    AllTrue(a, |run|);
  }

  /** Whole-run agreement: after any run of saved passes over any desired states, from a fresh host, whatever stops
      and disables fail and however, what runs is named in the state and its lists are typed; and the disk is the
      saved file map exactly when every unit whose disable failed under a rewritten file was mended later. */
  lemma RunsAgree(hosts: seq<Host>, run: seq<Attempt>)
    requires SavedRun(hosts, run) && hosts[0] == FRESH
    ensures TypedState(hosts[|run|].saved) && UnitsNamed(hosts[|run|])
    ensures FilesAgree(hosts[|run|]) <==> forall n :: Mended(hosts, run, n)
  {
    ToldOverRun(hosts, run);
    forall n ensures AgreesAt(hosts[|run|].at, hosts[|run|].saved, FileLoc(n)) <==> Mended(hosts, run, n) {
      RunNameSteps(hosts, run, n);
      NameOverRun(hosts, run, n);
    }
    FilesByName(hosts[|run|]);
  }

  // ---- what runs, over whole runs ------------------------------------------------------------------------

  // Some unit of this service leaves, and its stop takes effect, reported or not.
  predicate Quits(d: Desired, prior: State, faults: Faults, s: string) {
    exists v | v in StopSet(d, prior) :: UnitService(v) == s && faults(StopUnit(v)) != NoEffect
  }

  lemma QuitIssued(p: Plan, d: Desired, prior: State, faults: Faults, s: string)
    requires Named(d.files) && Holds(p, d, prior)
    ensures Quits(d, prior, faults, s) <==> Clears(StopCmds(p), faults, Service(s))
  {
    StopMembers(p);
    if v :| v in StopSet(d, prior) && UnitService(v) == s && faults(StopUnit(v)) != NoEffect {
      assert StopUnit(v) in StopCmds(p) && Target(StopUnit(v)) == Some(Service(s));
    }
  }

  /** After a saved pass, from any host, a service runs exactly when the pass launched it, or it ran and no unit of
      it that left was stopped in effect. */
  lemma PassServes(h: Host, g: Goal, faults: Faults, s: string)
    requires ValidGoal(g) && !UidChanged(g, h.saved) && Pass(h, g, faults).ok
    ensures Service(s) in Pass(h, g, faults).host.at <==>
            LaunchesService(g.d, h.saved, s) || (Service(s) in h.at && !Quits(g.d, h.saved, faults, s))
  {
    PassUnit(h, g, faults, Service(s));
    PlanMembers(g.d, h.saved);
    QuitIssued(PassPlan(g, h.saved), g.d, h.saved, faults, s);
    StoppedLook(h, g, faults, Service(s));
  }

  // The native unit is disabled, and that takes effect, reported or not.
  predicate Disarms(d: Desired, prior: State, faults: Faults, u: string) {
    u in DisableSet(d, prior) && faults(DisableUnit(u)) != NoEffect
  }

  lemma DisarmIssued(p: Plan, d: Desired, prior: State, faults: Faults, u: string)
    requires Named(d.files) && Holds(p, d, prior)
    ensures Disarms(d, prior, faults, u) <==> Clears(StopCmds(p), faults, Native(u))
  {
    StopMembers(p);
    if u in DisableSet(d, prior) {
      assert DisableUnit(u) in StopCmds(p) && Target(DisableUnit(u)) == Some(Native(u));
    }
  }

  /** The same of an enabled native unit: exactly when the pass enabled or restarted it, or it was enabled and the pass
      did not disable it in effect. */
  lemma PassEnables(h: Host, g: Goal, faults: Faults, u: string)
    requires ValidGoal(g) && !UidChanged(g, h.saved) && Pass(h, g, faults).ok
    ensures Native(u) in Pass(h, g, faults).host.at <==>
            Arms(g.d, h.saved, u) || (Native(u) in h.at && !Disarms(g.d, h.saved, faults, u))
  {
    PassUnit(h, g, faults, Native(u));
    PlanMembers(g.d, h.saved);
    DisarmIssued(PassPlan(g, h.saved), g.d, h.saved, faults, u);
    StoppedLook(h, g, faults, Native(u));
  }

  // The pass launches the service, or enables or restarts the native unit.
  ghost predicate RaisesAt(b: Host, e: Attempt, l: Loc)
    requires IsUnitState(l)
  {
    && ValidGoal(e.goal)
    && if l.Service? then LaunchesService(e.goal.d, b.saved, l.service) else Arms(e.goal.d, b.saved, l.unit)
  }

  // The pass stops or disables it in effect.
  ghost predicate LowersAt(b: Host, e: Attempt, l: Loc)
    requires IsUnitState(l)
  {
    if l.Service? then Quits(e.goal.d, b.saved, e.faults, l.service) else Disarms(e.goal.d, b.saved, e.faults, l.unit)
  }

  // Pass i raised it, and no later one lowered it.
  ghost predicate HeldSince(hosts: seq<Host>, run: seq<Attempt>, i: nat, l: Loc)
    requires |hosts| == |run| + 1 && i < |run| && IsUnitState(l)
  {
    RaisesAt(hosts[i], run[i], l) && forall j: nat | i < j < |run| :: !LowersAt(hosts[j], run[j], l)
  }

  lemma StepHolds(b: Host, e: Attempt, after: Host, l: Loc)
    requires Saves(b, e, after) && IsUnitState(l)
    ensures l in after.at <==> RaisesAt(b, e, l) || (l in b.at && !LowersAt(b, e, l))
  {
    if l.Service? {
      PassServes(b, e.goal, e.faults, l.service);
    } else {
      PassEnables(b, e.goal, e.faults, l.unit);
    }
  }

  ghost predicate UpSince(raised: seq<bool>, dropped: seq<bool>, i: nat, m: nat)
    requires m <= |raised| == |dropped|
  {
    i < m && raised[i] && forall j: nat | i < j < m :: !dropped[j]
  }

  lemma UpStep(raised: seq<bool>, dropped: seq<bool>, i: nat, m: nat)
    requires m < |raised| == |dropped|
    ensures UpSince(raised, dropped, i, m + 1) <==>
            (i == m && raised[m]) || (UpSince(raised, dropped, i, m) && !dropped[m])
  {
  }

  // A fact that steps raise or drop, drops first, holds at the end exactly when it was raised and not dropped since.
  lemma {:induction false} LastRaised(a: seq<bool>, raised: seq<bool>, dropped: seq<bool>, m: nat)
    requires |a| == |raised| + 1 == |dropped| + 1 && m <= |raised| && !a[0]
    requires forall i: nat | i < |raised| :: a[i + 1] == (raised[i] || (a[i] && !dropped[i]))
    ensures a[m] <==> exists i: nat :: UpSince(raised, dropped, i, m)
  {
    if m > 0 {
      LastRaised(a, raised, dropped, m - 1);
      assert a[m - 1 + 1] == (raised[m - 1] || (a[m - 1] && !dropped[m - 1]));
      forall i: nat
        ensures UpSince(raised, dropped, i, m) <==>
                (i == m - 1 && raised[m - 1]) || (UpSince(raised, dropped, i, m - 1) && !dropped[m - 1])
      {
        UpStep(raised, dropped, i, m - 1);
      }
      if raised[m - 1] {
        assert UpSince(raised, dropped, m - 1, m);
      } else if a[m] {
        var i: nat :| UpSince(raised, dropped, i, m - 1);
        assert UpSince(raised, dropped, i, m);
      }
    }
  }

  /** Over any run of saved passes from a fresh host, with stops and disables failing in any way, a service or native unit
      is up at the end exactly when some pass launched or enabled it and no later pass stopped or disabled it in effect. */
  lemma RunsHold(hosts: seq<Host>, run: seq<Attempt>, l: Loc)
    requires SavedRun(hosts, run) && hosts[0] == FRESH && IsUnitState(l)
    ensures l in hosts[|run|].at <==> exists i: nat :: i < |run| && HeldSince(hosts, run, i, l)
  {
    var raised := seq(|run|, i requires 0 <= i < |run| => RaisesAt(hosts[i], run[i], l));
    var dropped := seq(|run|, i requires 0 <= i < |run| => LowersAt(hosts[i], run[i], l));
    UpAtEnd(hosts, run, l, raised, dropped);
    HeldAsTold(hosts, run, l, raised, dropped);
  }

  lemma UpAtEnd(hosts: seq<Host>, run: seq<Attempt>, l: Loc, raised: seq<bool>, dropped: seq<bool>)
    requires SavedRun(hosts, run) && l !in hosts[0].at && IsUnitState(l) && |raised| == |dropped| == |run|
    requires forall i: nat | i < |run| :: raised[i] == RaisesAt(hosts[i], run[i], l) && dropped[i] == LowersAt(hosts[i], run[i], l)
    ensures l in hosts[|run|].at <==> exists i: nat :: UpSince(raised, dropped, i, |run|)
  {
    var a := seq(|run| + 1, i requires 0 <= i < |hosts| => l in hosts[i].at);
    forall i: nat | i < |run| ensures a[i + 1] == (raised[i] || (a[i] && !dropped[i])) {
      StepHolds(hosts[i], run[i], hosts[i + 1], l);
    }
    LastRaised(a, raised, dropped, |run|);
  }

  lemma HeldAsTold(hosts: seq<Host>, run: seq<Attempt>, l: Loc, raised: seq<bool>, dropped: seq<bool>)
    requires |hosts| == |run| + 1 == |raised| + 1 == |dropped| + 1 && IsUnitState(l)
    requires forall i: nat | i < |run| :: raised[i] == RaisesAt(hosts[i], run[i], l) && dropped[i] == LowersAt(hosts[i], run[i], l)
    ensures (exists i: nat :: i < |run| && HeldSince(hosts, run, i, l)) <==> exists i: nat :: UpSince(raised, dropped, i, |run|)
  {
    forall i: nat | i < |run| ensures HeldSince(hosts, run, i, l) <==> UpSince(raised, dropped, i, |run|) {
    }
  }

  /** A native unit that is wanted, recorded as enabled and unchanged, with no support file changed that no unit mentions,
      is enabled after a saved pass exactly when it was before. */
  lemma WantedAgainEnabled(h: Host, g: Goal, faults: Faults, u: string)
    requires ValidGoal(g) && !UidChanged(g, h.saved) && Pass(h, g, faults).ok
    requires u in g.d.files && Enabled(g.d.files[u]) && u in h.saved.systemdUnits
    requires !Changed(g.d, h.saved, u) && !Orphaned(g.d, h.saved)
    ensures Native(u) in Pass(h, g, faults).host.at <==> Native(u) in h.at
  {
    PassEnables(h, g, faults, u);
  }

  /** A unit that is wanted, recorded and unchanged is not launched, so it runs after a saved pass exactly when its
      service ran before, kept alive by nothing that left. */
  lemma WantedAgainRuns(h: Host, g: Goal, faults: Faults, u: string)
    requires ValidGoal(g) && !UidChanged(g, h.saved) && Pass(h, g, faults).ok
    requires u in g.d.files && g.d.files[u].isUnit && u in h.saved.units && !Stale(g.d, h.saved, g.d.files[u])
    requires forall v | v in g.d.files && g.d.files[v].isUnit && UnitService(v) == UnitService(u) :: v == u
    ensures Service(UnitService(u)) in Pass(h, g, faults).host.at <==>
            Service(UnitService(u)) in h.at && !Quits(g.d, h.saved, faults, UnitService(u))
  {
    PassServes(h, g, faults, UnitService(u));
    OnlyLauncher(g.d, h.saved, u);
  }

  lemma OnlyLauncher(d: Desired, prior: State, u: string)
    requires Named(d.files) && u in d.files && d.files[u].isUnit && u in prior.units && !Stale(d, prior, d.files[u])
    requires forall v | v in d.files && d.files[v].isUnit && UnitService(v) == UnitService(u) :: v == u
    ensures !LaunchesService(d, prior, UnitService(u))
  {
    forall v | v in d.files && Launches(d, prior, v) ensures UnitService(v) != UnitService(u) {
      assert d.files[v].isUnit;
      assert !Launches(d, prior, u);
    }
  }
}
