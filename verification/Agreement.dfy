/** Whole-run agreement: what the saved state says is what is on the host, even when stops fail. */
module Agreement {
  import opened Basics
  import opened Fileset
  import opened Host
  import opened Plan
  import opened Reconcile
  import opened Segments

  // ---- the stages of a pass that reaches its save -------------------------------------------------

  ghost function Stopped(h: Host, g: Goal, faults: Faults): Host
    requires ValidGoal(g)
  {
    var p := PassPlan(g, h.saved);
    RunAll(ExecAll(h, LimitCmds(g, p)), StopCmds(p), faults)
  }

  ghost function Failed(h: Host, g: Goal, faults: Faults): set<string>
    requires ValidGoal(g)
  {
    StopFailed(PassPlan(g, h.saved), faults)
  }

  ghost function Settled(h: Host, g: Goal, faults: Faults): Host
    requires ValidGoal(g)
  {
    var p := PassPlan(g, h.saved);
    ExecAll(Stopped(h, g, faults), SettleCmds(g, p, Failed(h, g, faults), h.saved))
  }

  lemma PassStages(h: Host, g: Goal, faults: Faults)
    requires ValidGoal(g) && Pass(h, g, faults).ok
    ensures Pass(h, g, faults).host ==
            ExecAll(Settled(h, g, faults), LifeCmds(PassPlan(g, h.saved)))
            .(saved := Retain(NextState(g), Failed(h, g, faults), h.saved))
  {
    var p := PassPlan(g, h.saved);
    RunUntilOk(h, LimitCmds(g, p), faults);
    var stopped := Stopped(h, g, faults);
    var settle := SettleCmds(g, p, Failed(h, g, faults), h.saved);
    RunUntilOk(stopped, settle + LifeCmds(p), faults);
    ExecAllAppend(stopped, settle, LifeCmds(p));
  }

  lemma StoppedLook(h: Host, g: Goal, faults: Faults, l: Loc)
    requires ValidGoal(g)
    ensures var p := PassPlan(g, h.saved);
            var after := Look(Stopped(h, g, faults).at, l);
            && (IsFileLoc(l) || l.Secret? ==> after == Look(h.at, l))
            && (l.Limits? ==> after == if p.setResources then Some(Caps(g.d.resources)) else Look(h.at, l))
            && (IsUnitState(l) ==> after == Look(h.at, l) || after == None)
            && (IsUnitState(l) && (exists c | c in StopCmds(p) :: Target(c) == Some(l) && faults(c) == NoFault) ==> after == None)
            && (IsUnitState(l) && (forall c | c in StopCmds(p) :: Target(c) != Some(l)) ==> after == Look(h.at, l))
            && (IsUnitState(l) ==> after == if Clears(StopCmds(p), faults, l) then None else Look(h.at, l))
    ensures Stopped(h, g, faults).loaded == h.loaded
  {
    var p := PassPlan(g, h.saved);
    StopMembers(p);
    LimitLook(h, g, p, l);
    StopsOnlyClear(ExecAll(h, LimitCmds(g, p)), StopCmds(p), faults, l);
  }

  lemma LimitLook(h: Host, g: Goal, p: Plan, l: Loc)
    ensures var limited := ExecAll(h, LimitCmds(g, p));
            && limited.loaded == h.loaded
            && Look(limited.at, l) == if l.Limits? && p.setResources then Some(Caps(g.d.resources)) else Look(h.at, l)
  {
    if p.setResources {
      assert LimitCmds(g, p)[1..] == [];
    }
  }

  // ---- files ----------------------------------------------------------------------------------------

  predicate AgreesAt(at: map<Loc, Val>, saved: State, l: Loc)
    requires IsFileLoc(l)
  {
    var recorded := l == FileLoc(l.name) && l.name in saved.files;
    match Look(at, l)
    case None => !recorded
    case Some(v) => recorded && v.Text? && saved.files[l.name] == Sha256(v.content)
  }

  /** Name, directory and content: the saved file map is exactly the disk. */
  ghost predicate FilesAgree(h: Host) {
    forall l | IsFileLoc(l) :: AgreesAt(h.at, h.saved, l)
  }

  /** The unit lists are duplicate-free, of the right kind, and among the saved files. */
  ghost predicate TypedState(s: State) {
    && (forall u :: s.units[u] <= 1 && s.systemdUnits[u] <= 1)
    && (forall u | u in s.units :: IsUnitFile(u) && u in s.files)
    && (forall u | u in s.systemdUnits :: IsSystemdUnit(u) && u in s.files)
  }

  /** Whatever runs or is enabled is named in the saved state. */
  ghost predicate UnitsNamed(h: Host) {
    && (forall s | Service(s) in h.at :: exists u | u in h.saved.units :: UnitService(u) == s)
    && (forall u | Native(u) in h.at :: u in h.saved.systemdUnits)
  }

  // A failed in-place disable keeps the old hash of a file that was just rewritten.
  predicate KeepsHash(g: Goal, failed: set<string>, prior: State, n: string) {
    n in failed && n in g.d.files && n in prior.files ==> prior.files[n] == g.d.files[n].hash
  }

  lemma PlanSeparate(g: Goal, saved: State)
    requires ValidGoal(g)
    ensures Separate(PassPlan(g, saved))
  {
    PlanMembers(g.d, saved);
    PlanMembers(g.d, EMPTY_STATE);
  }

  // Before the lifecycle commands, each file is as the plan settles it.
  lemma SettledPassFile(h: Host, g: Goal, faults: Faults, n: string)
    requires ValidGoal(g)
    ensures Look(Settled(h, g, faults).at, FileLoc(n)) == SettledText(g, PassPlan(g, h.saved), Failed(h, g, faults), h, n)
  {
    var p, failed := PassPlan(g, h.saved), Failed(h, g, faults);
    PlanSeparate(g, h.saved);
    SettleMembers(g, p, failed, h.saved);
    SettledFile(Stopped(h, g, faults), SettleCmds(g, p, failed, h.saved), g, p, failed, n);
    StoppedLook(h, g, faults, FileLoc(n));
  }

  lemma FileLocKind(n: string)
    ensures IsFileLoc(FileLoc(n)) && !IsUnitState(FileLoc(n))
  {
  }

  // After its save a pass has moved no location but unit state since it settled.
  lemma PassKeepsSettled(h: Host, g: Goal, faults: Faults, l: Loc)
    requires ValidGoal(g) && Pass(h, g, faults).ok && !IsUnitState(l)
    ensures Look(Pass(h, g, faults).host.at, l) == Look(Settled(h, g, faults).at, l)
  {
    PassStages(h, g, faults);
    LifeLeaves(Settled(h, g, faults), PassPlan(g, h.saved), l);
  }

  lemma PassFile(h: Host, g: Goal, faults: Faults, n: string)
    requires ValidGoal(g) && Pass(h, g, faults).ok
    ensures Look(Pass(h, g, faults).host.at, FileLoc(n)) ==
            SettledText(g, PassPlan(g, h.saved), Failed(h, g, faults), h, n)
  {
    FileLocKind(n);
    SettledPassFile(h, g, faults, n);
    PassKeepsSettled(h, g, faults, FileLoc(n));
  }

  lemma MisplacedKind(l: Loc)
    requires Misplaced(l)
    ensures IsFileLoc(l) && !IsUnitState(l)
  {
  }

  lemma SettledMisplaced(h: Host, g: Goal, faults: Faults, l: Loc)
    requires ValidGoal(g) && Misplaced(l)
    ensures Look(Settled(h, g, faults).at, l) == Look(h.at, l)
  {
    var p, failed := PassPlan(g, h.saved), Failed(h, g, faults);
    SettleMembers(g, p, failed, h.saved);
    SettleLeaves(Stopped(h, g, faults), SettleCmds(g, p, failed, h.saved), g, p, failed, l);
    StoppedLook(h, g, faults, l);
  }

  lemma PassMisplaced(h: Host, g: Goal, faults: Faults, l: Loc)
    requires ValidGoal(g) && Pass(h, g, faults).ok && Misplaced(l)
    ensures Look(Pass(h, g, faults).host.at, l) == Look(h.at, l)
  {
    MisplacedKind(l);
    SettledMisplaced(h, g, faults, l);
    PassKeepsSettled(h, g, faults, l);
  }

  lemma SavedRecord(g: Goal, failed: set<string>, prior: State, n: string)
    ensures var files := Retain(NextState(g), failed, prior).files;
            && (n in files <==> n in g.d.files || (n in failed && n in prior.files))
            && (n in files ==> files[n] == if n in failed && n in prior.files then prior.files[n] else g.d.files[n].hash)
  {
  }

  // The pass writes a rewritten file and keeps its old hash.
  predicate Breaks(g: Goal, failed: set<string>, prior: State, n: string) {
    n in WriteSet(g.d, prior) && !KeepsHash(g, failed, prior, n)
  }

  // The pass writes the file and its hash, or removes both.
  predicate Mends(g: Goal, failed: set<string>, prior: State, n: string) {
    (n in WriteSet(g.d, prior) && KeepsHash(g, failed, prior, n)) || (n in RemoveSet(g.d, prior) && n !in failed)
  }

  // The case analysis of one name, away from the hosts it came from.
  lemma NameAfter(g: Goal, prior: State, failed: set<string>, at: map<Loc, Val>, after: map<Loc, Val>, saved: State, n: string)
    requires ValidGoal(g)
    requires Look(after, FileLoc(n)) ==
             if n in WriteSet(g.d, prior) then Some(Text(ContentOf(g, n)))
             else if n in RemoveSet(g.d, prior) && n !in failed then None
             else Look(at, FileLoc(n))
    requires n in saved.files <==> n in g.d.files || (n in failed && n in prior.files)
    requires n in saved.files ==> saved.files[n] == if n in failed && n in prior.files then prior.files[n] else g.d.files[n].hash
    ensures AgreesAt(after, saved, FileLoc(n)) <==>
            Mends(g, failed, prior, n) || (!Breaks(g, failed, prior, n) && AgreesAt(at, prior, FileLoc(n)))
  {
    var l := FileLoc(n);
    assert IsFileLoc(l) && l.name == n;
    if n in g.d.files {
      assert g.d.files[n].hash == Sha256(ContentOf(g, n));
      if n !in WriteSet(g.d, prior) {
        assert Recorded(prior.files, n) == g.d.files[n].hash;
      }
    }
  }

  /** After a pass that reaches its save, from any host, a name agrees with the disk exactly when the pass mended
      it, or left it alone and it agreed before. */
  lemma PassFileAgrees(h: Host, g: Goal, faults: Faults, n: string)
    requires ValidGoal(g) && !UidChanged(g, h.saved) && Pass(h, g, faults).ok
    ensures var after, failed := Pass(h, g, faults).host, Failed(h, g, faults);
            AgreesAt(after.at, after.saved, FileLoc(n)) <==>
            Mends(g, failed, h.saved, n) || (!Breaks(g, failed, h.saved, n) && AgreesAt(h.at, h.saved, FileLoc(n)))
  {
    var failed, after := Failed(h, g, faults), Pass(h, g, faults).host;
    PassFile(h, g, faults, n);
    PassStages(h, g, faults);
    PlanMembers(g.d, h.saved);
    SavedRecord(g, failed, h.saved, n);
    NameAfter(g, h.saved, failed, h.at, after.at, after.saved, n);
  }

  // Nothing in a pass aims at a file in the wrong directory.
  lemma PassMisplacedAgrees(h: Host, g: Goal, faults: Faults, l: Loc)
    requires ValidGoal(g) && Pass(h, g, faults).ok && Misplaced(l)
    ensures AgreesAt(Pass(h, g, faults).host.at, Pass(h, g, faults).host.saved, l) <==> AgreesAt(h.at, h.saved, l)
  {
    PassMisplaced(h, g, faults, l);
  }

  lemma KeptOrBroken(g: Goal, failed: set<string>, prior: State, n: string)
    requires ValidGoal(g)
    ensures KeepsHash(g, failed, prior, n) <==> !Breaks(g, failed, prior, n)
    ensures Mends(g, failed, prior, n) ==> !Breaks(g, failed, prior, n)
  {
  }

  /** After a pass that reaches its save, the saved files are the disk exactly when no unit whose disable
      failed in place had its file rewritten with a new content. */
  lemma PassFilesAgree(h: Host, g: Goal, faults: Faults)
    requires ValidGoal(g) && !UidChanged(g, h.saved) && FilesAgree(h)
    requires Pass(h, g, faults).ok
    ensures FilesAgree(Pass(h, g, faults).host) <==> forall n :: KeepsHash(g, Failed(h, g, faults), h.saved, n)
  {
    var after := Pass(h, g, faults).host;
    forall n ensures AgreesAt(after.at, after.saved, FileLoc(n)) <==> KeepsHash(g, Failed(h, g, faults), h.saved, n) {
      PassFileAgrees(h, g, faults, n);
      KeptOrBroken(g, Failed(h, g, faults), h.saved, n);
      assert IsFileLoc(FileLoc(n));
    }
    forall l | Misplaced(l) ensures AgreesAt(after.at, after.saved, l) {
      PassMisplacedAgrees(h, g, faults, l);
    }
    FilesByName(after);
  }

  // All files are in place and agree by name, or agree where they are misplaced.
  lemma FilesByName(after: Host)
    requires forall l | Misplaced(l) :: AgreesAt(after.at, after.saved, l)
    ensures FilesAgree(after) <==> forall n :: AgreesAt(after.at, after.saved, FileLoc(n))
  {
    if forall n :: AgreesAt(after.at, after.saved, FileLoc(n)) {
      forall l | IsFileLoc(l) ensures AgreesAt(after.at, after.saved, l) {
        assert Misplaced(l) || (l == FileLoc(l.name) && AgreesAt(after.at, after.saved, FileLoc(l.name)));
      }
    }
    if FilesAgree(after) {
      forall n ensures AgreesAt(after.at, after.saved, FileLoc(n)) {
        assert IsFileLoc(FileLoc(n));
      }
    }
  }

  /** Where a failed in-place disable left a unit whose saved hash is not its file's, the next saved pass mends it
      exactly when it does not want the recorded old content back and its own stop or disable does not fail. */
  lemma MismatchMended(h: Host, g: Goal, faults: Faults, n: string)
    requires ValidGoal(g) && !UidChanged(g, h.saved) && Pass(h, g, faults).ok
    requires n in h.saved.systemdUnits && n in h.saved.files && !AgreesAt(h.at, h.saved, FileLoc(n))
    ensures AgreesAt(Pass(h, g, faults).host.at, Pass(h, g, faults).host.saved, FileLoc(n)) <==>
            !(n in g.d.files && g.d.files[n].hash == h.saved.files[n]) && n !in Failed(h, g, faults)
  {
    PassFileAgrees(h, g, faults, n);
    MendsMismatch(g, Failed(h, g, faults), h.saved, n);
  }

  lemma MendsMismatch(g: Goal, failed: set<string>, prior: State, n: string)
    requires ValidGoal(g) && n in prior.systemdUnits && n in prior.files
    ensures Mends(g, failed, prior, n) <==> !(n in g.d.files && g.d.files[n].hash == prior.files[n]) && n !in failed
  {
    if n in g.d.files {
      assert Recorded(prior.files, n) == prior.files[n];
    }
  }

  // ---- unit lists -----------------------------------------------------------------------------------

  lemma FailedMembers(h: Host, g: Goal, faults: Faults, u: string)
    requires ValidGoal(g) && TypedState(h.saved)
    requires u in Failed(h, g, faults)
    ensures if IsSystemdUnit(u) then u in DisableSet(g.d, h.saved) else u in StopSet(g.d, h.saved)
  {
    PlanMembers(g.d, h.saved);
  }

  lemma MultisetOfSet(s: set<string>, t: set<string>, u: string)
    requires s !! t
    ensures (multiset(s) + multiset(t))[u] <= 1
    ensures u in multiset(s) + multiset(t) <==> u in s || u in t
  {
    assert multiset(s)[u] <= 1 && multiset(t)[u] <= 1;
    assert (multiset(s) + multiset(t))[u] == multiset(s)[u] + multiset(t)[u];
    assert !(u in s && u in t);
  }

  /** The saved unit lists stay duplicate-free, correctly typed and among the saved files, whatever stops fail. */
  lemma PassTyped(h: Host, g: Goal, faults: Faults)
    requires ValidGoal(g) && TypedState(h.saved)
    requires Pass(h, g, faults).ok
    ensures TypedState(Pass(h, g, faults).host.saved)
    ensures var s := Pass(h, g, faults).host.saved;
            && (forall u :: u in s.units <==>
                  (u in g.d.files && g.d.files[u].isUnit) || (u in Failed(h, g, faults) && !IsSystemdUnit(u)))
            && (forall u :: u in s.systemdUnits <==>
                  (u in g.d.files && Enabled(g.d.files[u])) || (u in Failed(h, g, faults) && IsSystemdUnit(u)))
  {
    PassStages(h, g, faults);
    var failed, s := Failed(h, g, faults), Pass(h, g, faults).host.saved;
    var quadlets, enabled := QuadletNames(g.d.files, g.d.files.Keys), EnabledNames(g.d.files, g.d.files.Keys);
    forall u | u in failed
      ensures if IsSystemdUnit(u) then u !in enabled && u in h.saved.files else u !in quadlets && u in h.saved.files
    {
      FailedMembers(h, g, faults, u);
    }
    forall u
      ensures s.units[u] <= 1 && s.systemdUnits[u] <= 1
      ensures u in s.units <==> u in quadlets || u in OfKind(failed, false)
      ensures u in s.systemdUnits <==> u in enabled || u in OfKind(failed, true)
    {
      MultisetOfSet(quadlets, OfKind(failed, false), u);
      MultisetOfSet(enabled, OfKind(failed, true), u);
    }
    forall u | u in s.units ensures IsUnitFile(u) && u in s.files {
      SavedRecord(g, failed, h.saved, u);
      if u !in quadlets { FailedMembers(h, g, faults, u); }
    }
    forall u | u in s.systemdUnits ensures IsSystemdUnit(u) && u in s.files {
      SavedRecord(g, failed, h.saved, u);
    }
  }

  // What still runs after the stops is a unit that stays, or one whose stop failed.
  lemma StoppedService(h: Host, g: Goal, faults: Faults, s: string)
    requires ValidGoal(g) && !UidChanged(g, h.saved) && TypedState(h.saved) && UnitsNamed(h)
    requires Service(s) in Stopped(h, g, faults).at
    ensures exists u | u in h.saved.units :: UnitService(u) == s && (u in g.d.files || u in Failed(h, g, faults))
  {
    var p := PassPlan(g, h.saved);
    StoppedLook(h, g, faults, Service(s));
    assert Service(s) in h.at;
    var u :| u in h.saved.units && UnitService(u) == s;
    if u !in g.d.files {
      PlanMembers(g.d, h.saved);
      assert u in p.stopUnits;
      StopMembers(p);
      assert StopUnit(u) in StopCmds(p) && Target(StopUnit(u)) == Some(Service(s));
    }
  }

  lemma StoppedNative(h: Host, g: Goal, faults: Faults, u: string)
    requires ValidGoal(g) && !UidChanged(g, h.saved) && TypedState(h.saved) && UnitsNamed(h)
    requires Native(u) in Stopped(h, g, faults).at
    ensures u in h.saved.systemdUnits && ((u in g.d.files && Enabled(g.d.files[u])) || u in Failed(h, g, faults))
  {
    var p := PassPlan(g, h.saved);
    StoppedLook(h, g, faults, Native(u));
    assert Native(u) in h.at;
    if !(u in g.d.files && Enabled(g.d.files[u])) {
      PlanMembers(g.d, h.saved);
      assert u in p.disableUnits;
      StopMembers(p);
      assert DisableUnit(u) in StopCmds(p) && Target(DisableUnit(u)) == Some(Native(u));
    }
  }

  predicate Launches(d: Desired, prior: State, u: string)
    requires Named(d.files)
  {
    u in StartSet(d, prior) || u in RestartSet(d, prior)
  }

  predicate Arms(d: Desired, prior: State, u: string) {
    u in EnableSet(d, prior) || u in RestartSystemdSet(d, prior)
  }

  predicate LaunchesService(d: Desired, prior: State, s: string)
    requires Named(d.files)
  {
    exists u | u in d.files :: Launches(d, prior, u) && UnitService(u) == s
  }

  lemma LifeService(cmds: seq<Cmd>, p: Plan, s: string)
    requires Lives(cmds, p)
    ensures (exists c | c in cmds :: Target(c) == Some(Service(s))) <==>
            exists u | u in p.startUnits || u in p.restartUnits :: UnitService(u) == s
  {
    if u :| (u in p.startUnits || u in p.restartUnits) && UnitService(u) == s {
      var c := if u in p.startUnits then StartUnit(u) else RestartUnit(u);
      assert c in cmds && Target(c) == Some(Service(s));
    }
  }

  lemma LifeNative(cmds: seq<Cmd>, p: Plan, u: string)
    requires Lives(cmds, p)
    ensures (exists c | c in cmds :: Target(c) == Some(Native(u))) <==> u in p.enableUnits || u in p.restartSystemdUnits
  {
    if u in p.enableUnits || u in p.restartSystemdUnits {
      var c := if u in p.enableUnits then EnableUnit(u) else RestartNative(u);
      assert c in cmds && Target(c) == Some(Native(u));
    }
  }

  lemma LaunchSets(p: Plan, d: Desired, prior: State, s: string)
    requires Named(d.files) && Holds(p, d, prior)
    ensures (exists u | u in p.startUnits || u in p.restartUnits :: UnitService(u) == s) <==> LaunchesService(d, prior, s)
  {
  }

  lemma PassUnit(h: Host, g: Goal, faults: Faults, l: Loc)
    requires ValidGoal(g) && !UidChanged(g, h.saved) && IsUnitState(l)
    requires Pass(h, g, faults).ok
    ensures l in Pass(h, g, faults).host.at <==>
            l in Stopped(h, g, faults).at ||
            if l.Service? then LaunchesService(g.d, h.saved, l.service) else Arms(g.d, h.saved, l.unit)
  {
    var p, failed := PassPlan(g, h.saved), Failed(h, g, faults);
    PassStages(h, g, faults);
    SettleMembers(g, p, failed, h.saved);
    SettleLeaves(Stopped(h, g, faults), SettleCmds(g, p, failed, h.saved), g, p, failed, l);
    LifeMembers(p);
    LifeOnlyAdds(Settled(h, g, faults), LifeCmds(p), l);
    PlanMembers(g.d, h.saved);
    if l.Service? {
      LifeService(LifeCmds(p), p, l.service);
      LaunchSets(p, g.d, h.saved, l.service);
    } else {
      LifeNative(LifeCmds(p), p, l.unit);
    }
  }

  // A unit that stays, is launched, or whose stop failed is named in the saved state.
  lemma NamedAfter(h: Host, g: Goal, faults: Faults, u: string)
    requires ValidGoal(g) && !UidChanged(g, h.saved) && TypedState(h.saved) && Pass(h, g, faults).ok
    requires (u in h.saved.units && (u in g.d.files || u in Failed(h, g, faults))) || (u in g.d.files && g.d.files[u].isUnit)
    ensures u in Pass(h, g, faults).host.saved.units
  {
    PassTyped(h, g, faults);
    if u in h.saved.units {
      assert IsUnitFile(u) && !IsSystemdUnit(u);
    }
  }

  // Whoever runs a service after a saved pass: a unit that stayed, failed to stop, or was launched.
  lemma ServiceOwner(h: Host, g: Goal, faults: Faults, s: string)
    requires ValidGoal(g) && !UidChanged(g, h.saved) && TypedState(h.saved) && UnitsNamed(h)
    requires Pass(h, g, faults).ok && Service(s) in Pass(h, g, faults).host.at
    ensures exists u :: UnitService(u) == s
                     && ((u in h.saved.units && (u in g.d.files || u in Failed(h, g, faults))) || (u in g.d.files && g.d.files[u].isUnit))
  {
    PassUnit(h, g, faults, Service(s));
    if Service(s) in Stopped(h, g, faults).at {
      StoppedService(h, g, faults, s);
    } else {
      LaunchedUnit(g, h.saved, s);
    }
  }

  lemma LaunchedUnit(g: Goal, prior: State, s: string)
    requires ValidGoal(g) && LaunchesService(g.d, prior, s)
    ensures exists u | u in g.d.files :: g.d.files[u].isUnit && UnitService(u) == s
  {
    var u :| u in g.d.files && Launches(g.d, prior, u) && UnitService(u) == s;
  }

  lemma ServiceNamed(h: Host, g: Goal, faults: Faults, s: string)
    requires ValidGoal(g) && !UidChanged(g, h.saved) && TypedState(h.saved) && UnitsNamed(h)
    requires Pass(h, g, faults).ok && Service(s) in Pass(h, g, faults).host.at
    ensures exists u | u in Pass(h, g, faults).host.saved.units :: UnitService(u) == s
  {
    ServiceOwner(h, g, faults, s);
    var u :| UnitService(u) == s
          && ((u in h.saved.units && (u in g.d.files || u in Failed(h, g, faults))) || (u in g.d.files && g.d.files[u].isUnit));
    NamedAfter(h, g, faults, u);
  }

  lemma NativeNamed(h: Host, g: Goal, faults: Faults, u: string)
    requires ValidGoal(g) && !UidChanged(g, h.saved) && TypedState(h.saved) && UnitsNamed(h)
    requires Pass(h, g, faults).ok && Native(u) in Pass(h, g, faults).host.at
    ensures u in Pass(h, g, faults).host.saved.systemdUnits
  {
    PassTyped(h, g, faults);
    PassUnit(h, g, faults, Native(u));
    if Native(u) in Stopped(h, g, faults).at {
      StoppedNative(h, g, faults, u);
    }
  }

  /** Whatever runs or is enabled after a saved pass is named in the state it saved. */
  lemma PassNamed(h: Host, g: Goal, faults: Faults)
    requires ValidGoal(g) && !UidChanged(g, h.saved) && TypedState(h.saved) && UnitsNamed(h)
    requires Pass(h, g, faults).ok
    ensures UnitsNamed(Pass(h, g, faults).host)
  {
    var after := Pass(h, g, faults).host;
    forall s | Service(s) in after.at ensures exists u | u in after.saved.units :: UnitService(u) == s {
      ServiceNamed(h, g, faults, s);
    }
    forall u | Native(u) in after.at ensures u in after.saved.systemdUnits {
      NativeNamed(h, g, faults, u);
    }
  }

  ghost predicate Agrees(h: Host) {
    FilesAgree(h) && TypedState(h.saved) && UnitsNamed(h)
  }
}
