/** One cadre over a history of node passes that place it or not: exactly what still runs once it is placed no more. */
module Stranded {
  import opened Agreement
  import opened Basics
  import opened Convergence
  import opened Fileset
  import opened Host
  import opened Ledger
  import opened NewGoal
  import opened Plan
  import opened Reconcile
  import opened Retry
  import opened Rollout
  import opened Segments
  import opened SharedServices

  /** What a node pass does with the cadre: applies a goal, fails before it has one, or does not place it; then the cadre
      is removed if it is listed as managed and its state can be read. */
  datatype Turn = Placed(try: Attempt) | NoGoal | Unplaced(removes: bool, luck: Removal.Luck)

  ghost predicate Takes(b: Host, t: Turn, after: Host) {
    match t
    case Placed(try) => Fine(try.goal) && !UidChanged(try.goal, b.saved) && after == Pass(b, try.goal, try.faults).host
    case NoGoal => after == b
    case Unplaced(removes, luck) => if IsManaged(b) && removes then Removal.Removed(b, after, luck) else after == b
  }

  ghost predicate History(hosts: seq<Host>, turns: seq<Turn>) {
    |hosts| == |turns| + 1 && forall i: nat | i < |turns| :: Takes(hosts[i], turns[i], hosts[i + 1])
  }

  // ---- what runs without being recorded --------------------------------------------------------------------------

  ghost predicate Records(s: State, l: Loc)
    requires IsUnitState(l)
  {
    if l.Service? then exists u | u in s.units :: UnitService(u) == l.service else l.unit in s.systemdUnits
  }

  /** It runs, or is enabled, and no recorded unit accounts for it. */
  ghost predicate Stray(h: Host, l: Loc)
    requires IsUnitState(l)
  {
    l in h.at && !Records(h.saved, l)
  }

  // The goal has a unit for it.
  ghost predicate Wants(d: Desired, l: Loc)
    requires IsUnitState(l)
  {
    if l.Service? then exists u | u in d.files && d.files[u].isUnit :: UnitService(u) == l.service
    else l.unit in d.files && Enabled(d.files[l.unit])
  }

  ghost predicate Completes(b: Host, t: Turn) {
    t.Placed? && ValidGoal(t.try.goal) && Pass(b, t.try.goal, t.try.faults).ok
  }

  // An aborted pass or a removal leaves it running and unrecorded.
  ghost predicate Strands(b: Host, t: Turn, after: Host, l: Loc)
    requires IsUnitState(l)
  {
    !Completes(b, t) && Stray(after, l)
  }

  // A completed pass wants it, and so records it; or it was brought down.
  ghost predicate Adopts(b: Host, t: Turn, after: Host, l: Loc)
    requires IsUnitState(l)
  {
    if Completes(b, t) then Wants(t.try.goal.d, l) else l !in after.at
  }

  lemma WantedRecorded(g: Goal, failed: set<string>, prior: State, l: Loc)
    requires ValidGoal(g) && IsUnitState(l) && Wants(g.d, l)
    ensures Records(Retain(NextState(g), failed, prior), l)
  {
    if l.Service? {
      var u :| u in g.d.files && g.d.files[u].isUnit && UnitService(u) == l.service;
      assert u in QuadletNames(g.d.files, g.d.files.Keys);
    } else {
      EnabledNotUnit(g.d.files[l.unit]);
      assert l.unit in EnabledNames(g.d.files, g.d.files.Keys);
    }
  }

  lemma EnabledNotUnit(f: File)
    requires FlagsFollow(f) && Enabled(f)
    ensures !f.isUnit
  {
  }

  lemma RaisedIsWanted(d: Desired, prior: State, l: Loc)
    requires Named(d.files) && IsUnitState(l)
    requires if l.Service? then LaunchesService(d, prior, l.service) else Arms(d, prior, l.unit)
    ensures Wants(d, l)
  {
  }

  // ---- one completed pass -------------------------------------------------------------------------------------

  // A recorded unit that leaves and is not brought down has failed to stop, and stays recorded.
  lemma KeptService(b: Host, g: Goal, faults: Faults, u: string)
    requires ValidGoal(g) && !UidChanged(g, b.saved) && TypedState(b.saved) && Pass(b, g, faults).ok
    requires u in b.saved.units && (u in StopSet(g.d, b.saved) ==> faults(StopUnit(u)) == NoEffect)
    ensures u in Pass(b, g, faults).host.saved.units
  {
    PassTyped(b, g, faults);
    PlanMembers(g.d, b.saved);
    assert IsUnitFile(u) && !IsSystemdUnit(u);
    if u in g.d.files {
      assert FlagsFollow(g.d.files[u]);
    }
  }

  lemma KeptNative(b: Host, g: Goal, faults: Faults, u: string)
    requires ValidGoal(g) && !UidChanged(g, b.saved) && TypedState(b.saved) && Pass(b, g, faults).ok
    requires u in b.saved.systemdUnits && (u in DisableSet(g.d, b.saved) ==> faults(DisableUnit(u)) == NoEffect)
    ensures u in Pass(b, g, faults).host.saved.systemdUnits
  {
    PassTyped(b, g, faults);
    PlanMembers(g.d, b.saved);
  }

  lemma StillRecorded(b: Host, g: Goal, faults: Faults, l: Loc)
    requires ValidGoal(g) && !UidChanged(g, b.saved) && TypedState(b.saved) && Pass(b, g, faults).ok
    requires IsUnitState(l) && Records(b.saved, l)
    requires if l.Service? then !Quits(g.d, b.saved, faults, l.service) else !Disarms(g.d, b.saved, faults, l.unit)
    ensures Records(Pass(b, g, faults).host.saved, l)
  {
    if l.Service? {
      var u :| u in b.saved.units && UnitService(u) == l.service;
      KeptService(b, g, faults, u);
    } else {
      KeptNative(b, g, faults, l.unit);
    }
  }

  // Whatever a completed pass records was recorded or is wanted.
  lemma NewlyRecorded(b: Host, g: Goal, faults: Faults, l: Loc)
    requires ValidGoal(g) && !UidChanged(g, b.saved) && TypedState(b.saved) && Pass(b, g, faults).ok
    requires IsUnitState(l) && Records(Pass(b, g, faults).host.saved, l)
    ensures Records(b.saved, l) || Wants(g.d, l)
  {
    PassTyped(b, g, faults);
    if l.Service? {
      var u :| u in Pass(b, g, faults).host.saved.units && UnitService(u) == l.service;
      if u in Failed(b, g, faults) {
        FailedMembers(b, g, faults, u);
      }
    } else if l.unit in Failed(b, g, faults) {
      FailedMembers(b, g, faults, l.unit);
    }
  }

  lemma UpAfter(b: Host, g: Goal, faults: Faults, l: Loc)
    requires ValidGoal(g) && !UidChanged(g, b.saved) && Pass(b, g, faults).ok && IsUnitState(l)
    ensures var up := if l.Service? then LaunchesService(g.d, b.saved, l.service) else Arms(g.d, b.saved, l.unit);
            var down := if l.Service? then Quits(g.d, b.saved, faults, l.service) else Disarms(g.d, b.saved, faults, l.unit);
            l in Pass(b, g, faults).host.at <==> up || (l in b.at && !down)
  {
    if l.Service? {
      PassServes(b, g, faults, l.service);
    } else {
      PassEnables(b, g, faults, l.unit);
    }
  }

  // What is not recorded is not brought down.
  lemma OnlyRecordedDown(d: Desired, prior: State, faults: Faults, l: Loc)
    requires IsUnitState(l)
    requires if l.Service? then Quits(d, prior, faults, l.service) else Disarms(d, prior, faults, l.unit)
    ensures Records(prior, l)
  {
  }

  /** A completed pass leaves running and unrecorded exactly what did so before and its goal does not want. */
  lemma PassStrays(b: Host, g: Goal, faults: Faults, l: Loc)
    requires ValidGoal(g) && !UidChanged(g, b.saved) && TypedState(b.saved) && Pass(b, g, faults).ok && IsUnitState(l)
    ensures Stray(Pass(b, g, faults).host, l) <==> Stray(b, l) && !Wants(g.d, l)
  {
    var after := Pass(b, g, faults).host;
    UpAfter(b, g, faults, l);
    PassStages(b, g, faults);
    if Wants(g.d, l) {
      WantedRecorded(g, Failed(b, g, faults), b.saved, l);
    } else {
      assert !(if l.Service? then LaunchesService(g.d, b.saved, l.service) else Arms(g.d, b.saved, l.unit)) by {
        if if l.Service? then LaunchesService(g.d, b.saved, l.service) else Arms(g.d, b.saved, l.unit) {
          RaisedIsWanted(g.d, b.saved, l);
        }
      }
      if Records(after.saved, l) {
        NewlyRecorded(b, g, faults, l);
      }
      if Records(b.saved, l) && l in after.at {
        StillRecorded(b, g, faults, l);
      }
      if !Records(b.saved, l) && l in b.at && l !in after.at {
        OnlyRecordedDown(g.d, b.saved, faults, l);
      }
    }
  }

  // ---- whole histories ------------------------------------------------------------------------------------------

  // The state is typed, and where no state was ever saved it records nothing.
  ghost predicate Kept(h: Host) {
    TypedState(h.saved) && (h.saved.uid == 0 ==> h.saved == EMPTY_STATE)
  }

  lemma TurnSaves(b: Host, t: Turn, after: Host)
    requires Takes(b, t, after) && !Completes(b, t)
    ensures after.saved == b.saved || after.saved == EMPTY_STATE
  {
    if t.Placed? {
      PassFramed(b, t.try.goal, t.try.faults);
    }
  }

  lemma TurnKept(b: Host, t: Turn, after: Host)
    requires Takes(b, t, after) && Kept(b)
    ensures Kept(after)
  {
    if Completes(b, t) {
      PassTyped(b, t.try.goal, t.try.faults);
      SavedByPass(b, t.try.goal, t.try.faults);
    } else {
      TurnSaves(b, t, after);
    }
  }

  lemma TurnStrays(b: Host, t: Turn, after: Host, l: Loc)
    requires Takes(b, t, after) && Kept(b) && IsUnitState(l)
    ensures Stray(after, l) <==> Strands(b, t, after, l) || (Stray(b, l) && !Adopts(b, t, after, l))
  {
    if Completes(b, t) {
      PassStrays(b, t.try.goal, t.try.faults, l);
    } else {
      TurnSaves(b, t, after);
    }
  }

  lemma HistoryStep(hosts: seq<Host>, turns: seq<Turn>, i: nat)
    requires History(hosts, turns) && i < |turns|
    ensures Takes(hosts[i], turns[i], hosts[i + 1])
  {
  }

  lemma FreshKept()
    ensures Kept(FRESH)
  {
  }

  lemma AlwaysKept(hosts: seq<Host>, turns: seq<Turn>, i: nat)
    requires History(hosts, turns) && hosts[0] == FRESH && i <= |turns|
    ensures Kept(hosts[i])
  {
    var a := seq(|turns| + 1, j requires 0 <= j < |hosts| => Kept(hosts[j]));
    FreshKept();
    forall j: nat | j + 1 < |a| && a[j] ensures a[j + 1] {
      HistoryStep(hosts, turns, j);
      TurnKept(hosts[j], turns[j], hosts[j + 1]);
    }
    AllTrue(a, i);
  }

  // Turn k stranded it, and no later turn up to `m` adopted it or brought it down.
  ghost predicate StrandedSince(hosts: seq<Host>, turns: seq<Turn>, k: nat, m: nat, l: Loc)
    requires |hosts| == |turns| + 1 && k < m <= |turns| && IsUnitState(l)
  {
    && Strands(hosts[k], turns[k], hosts[k + 1], l)
    && forall j: nat | k < j < m :: !Adopts(hosts[j], turns[j], hosts[j + 1], l)
  }

  ghost predicate StrandedBy(hosts: seq<Host>, turns: seq<Turn>, m: nat, l: Loc)
    requires |hosts| == |turns| + 1 && m <= |turns| && IsUnitState(l)
  {
    exists k: nat :: k < m && StrandedSince(hosts, turns, k, m, l)
  }

  /** What runs unrecorded is exactly what some aborted pass or removal stranded, and no completed pass has wanted, nor
      anything brought down, since. */
  lemma StraysAreStranded(hosts: seq<Host>, turns: seq<Turn>, m: nat, l: Loc)
    requires History(hosts, turns) && hosts[0] == FRESH && m <= |turns| && IsUnitState(l)
    ensures Stray(hosts[m], l) <==> StrandedBy(hosts, turns, m, l)
  {
    var raised := StrandBits(hosts, turns, l);
    var dropped := AdoptBits(hosts, turns, l);
    StrayLedger(hosts, turns, m, l, raised, dropped);
    StrandedAsTold(hosts, turns, m, l, raised, dropped);
  }

  lemma StrandBits(hosts: seq<Host>, turns: seq<Turn>, l: Loc) returns (raised: seq<bool>)
    requires |hosts| == |turns| + 1 && IsUnitState(l)
    ensures |raised| == |turns| && forall i: nat | i < |turns| :: raised[i] == Strands(hosts[i], turns[i], hosts[i + 1], l)
  {
    raised := seq(|turns|, i requires 0 <= i < |turns| => Strands(hosts[i], turns[i], hosts[i + 1], l));
  }

  lemma AdoptBits(hosts: seq<Host>, turns: seq<Turn>, l: Loc) returns (dropped: seq<bool>)
    requires |hosts| == |turns| + 1 && IsUnitState(l)
    ensures |dropped| == |turns| && forall i: nat | i < |turns| :: dropped[i] == Adopts(hosts[i], turns[i], hosts[i + 1], l)
  {
    dropped := seq(|turns|, i requires 0 <= i < |turns| => Adopts(hosts[i], turns[i], hosts[i + 1], l));
  }

  lemma StrayLedger(hosts: seq<Host>, turns: seq<Turn>, m: nat, l: Loc, raised: seq<bool>, dropped: seq<bool>)
    requires History(hosts, turns) && hosts[0] == FRESH && m <= |turns| && IsUnitState(l) && |raised| == |dropped| == |turns|
    requires forall i: nat | i < |turns| ::
               && raised[i] == Strands(hosts[i], turns[i], hosts[i + 1], l)
               && dropped[i] == Adopts(hosts[i], turns[i], hosts[i + 1], l)
    ensures Stray(hosts[m], l) <==> exists i: nat :: UpSince(raised, dropped, i, m)
  {
    var a := seq(|turns| + 1, i requires 0 <= i < |hosts| => Stray(hosts[i], l));
    forall i: nat | i < |turns| ensures a[i + 1] == (raised[i] || (a[i] && !dropped[i])) {
      AlwaysKept(hosts, turns, i);
      assert Takes(hosts[i], turns[i], hosts[i + 1]);
      TurnStrays(hosts[i], turns[i], hosts[i + 1], l);
    }
    LastRaised(a, raised, dropped, m);
  }

  lemma StrandedAsTold(hosts: seq<Host>, turns: seq<Turn>, m: nat, l: Loc, raised: seq<bool>, dropped: seq<bool>)
    requires |hosts| == |turns| + 1 == |raised| + 1 == |dropped| + 1 && m <= |turns| && IsUnitState(l)
    requires forall i: nat | i < |turns| ::
               && raised[i] == Strands(hosts[i], turns[i], hosts[i + 1], l)
               && dropped[i] == Adopts(hosts[i], turns[i], hosts[i + 1], l)
    ensures StrandedBy(hosts, turns, m, l) <==> exists i: nat :: UpSince(raised, dropped, i, m)
  {
    forall i: nat | i < m ensures StrandedSince(hosts, turns, i, m, l) <==> UpSince(raised, dropped, i, m) {
      if UpSince(raised, dropped, i, m) {
        forall j: nat | i < j < m ensures !Adopts(hosts[j], turns[j], hosts[j + 1], l) {
          assert !dropped[j];
        }
      }
      if StrandedSince(hosts, turns, i, m, l) {
        forall j: nat | i < j < m ensures !dropped[j] {
          assert !Adopts(hosts[j], turns[j], hosts[j + 1], l);
        }
      }
    }
  }

  // A removal whose stops and disables all take effect.
  ghost predicate StopsAll(luck: Removal.Luck) {
    !luck.stateKept && forall c: Cmd | c.StopUnit? || c.DisableUnit? :: Removal.Works(luck.faults, c)
  }

  lemma RemovalStops(b: Host, t: Turn, after: Host, l: Loc)
    requires Takes(b, t, after) && Kept(b) && IsUnitState(l)
    requires t.Unplaced? && t.removes && StopsAll(t.luck)
    ensures l in after.at <==> Stray(b, l)
  {
    if IsManaged(b) {
      assert Look(after.at, l) == if Removal.Goes(b.saved, t.luck, l) then None else Look(b.at, l);
    }
  }

  /** Once a cadre is placed no more and its removal works, nothing of it runs exactly when every unit that an aborted
      pass or an earlier removal left running and unrecorded was wanted by a completed pass, or brought down, since. */
  lemma UnplacedRunsNothing(hosts: seq<Host>, turns: seq<Turn>)
    requires History(hosts, turns) && hosts[0] == FRESH && turns != []
    requires var t := turns[|turns| - 1]; t.Unplaced? && t.removes && StopsAll(t.luck)
    ensures (forall l | IsUnitState(l) :: l !in hosts[|turns|].at)
       <==> (forall l | IsUnitState(l) :: !StrandedBy(hosts, turns, |turns| - 1, l))
  {
    var m := |turns| - 1;
    AlwaysKept(hosts, turns, m);
    assert Takes(hosts[m], turns[m], hosts[m + 1]);
    forall l | IsUnitState(l)
      ensures l in hosts[m + 1].at <==> StrandedBy(hosts, turns, m, l)
    {
      RemovalStops(hosts[m], turns[m], hosts[m + 1], l);
      StraysAreStranded(hosts, turns, m, l);
    }
  }

  /** The run: the first pass starts the cadre's units and fails to save; placed no more, the cadre is not managed, nothing
      is stopped, and its units run on. */
  lemma FirstPassAbandoned(g: Goal, u: string, luck: Removal.Luck)
    requires Fine(g) && LoginsResolve(g) && u in g.d.files && g.d.files[u].isUnit
    ensures var once := Pass(FRESH, g, UNSAVED).host;
            && History([FRESH, once, once], [Placed(Attempt(g, UNSAVED)), Unplaced(true, luck)])
            && !IsManaged(once) && Service(UnitService(u)) in once.at
  {
    var once := Pass(FRESH, g, UNSAVED).host;
    FirstPassOk(g, c => NoFault);
    FirstPassServes(g, c => NoFault, u);
    SaveFails(FRESH, g, c => NoFault);
    TwoTurns(FRESH, Placed(Attempt(g, UNSAVED)), once, Unplaced(true, luck), once);
  }

  lemma TwoTurns(a: Host, s: Turn, b: Host, t: Turn, c: Host)
    requires Takes(a, s, b) && Takes(b, t, c)
    ensures History([a, b, c], [s, t])
  {
  }
}
