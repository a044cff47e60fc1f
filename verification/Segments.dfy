/** What each stretch of a pass's command sequence contains, and so what it does to each location. */
module Segments {
  import opened Basics
  import opened Host
  import opened Ordering
  import opened Plan
  import opened Reconcile

  // The plan's lists hold exactly the plan's sets.
  ghost predicate Holds(p: Plan, d: Desired, prior: State)
    requires Named(d.files)
  {
    && (forall n :: n in p.writeFiles <==> n in WriteSet(d, prior))
    && (forall n :: n in p.removeFiles <==> n in RemoveSet(d, prior))
    && (forall k :: k in p.createSecrets <==> k in CreateSet(d, prior))
    && (forall k :: k in p.removeSecrets <==> k in DropSet(d, prior))
    && (forall n :: n in p.startUnits <==> n in StartSet(d, prior))
    && (forall n :: n in p.restartUnits <==> n in RestartSet(d, prior))
    && (forall n :: n in p.stopUnits <==> n in StopSet(d, prior))
    && (forall n :: n in p.enableUnits <==> n in EnableSet(d, prior))
    && (forall n :: n in p.restartSystemdUnits <==> n in RestartSystemdSet(d, prior))
    && (forall n :: n in p.disableUnits <==> n in DisableSet(d, prior))
  }

  lemma PlanMembers(d: Desired, prior: State)
    requires Named(d.files)
    ensures Holds(PlanOf(d, prior), d, prior)
  {
    ListingLists(WriteSet(d, prior));
    ListingLists(RemoveSet(d, prior));
    ListingLists(CreateSet(d, prior));
    ListingLists(DropSet(d, prior));
    ListingLists(StartSet(d, prior));
    ListingLists(RestartSet(d, prior));
    ListingLists(StopSet(d, prior));
    ListingLists(EnableSet(d, prior));
    ListingLists(RestartSystemdSet(d, prior));
    ListingLists(DisableSet(d, prior));
  }

  lemma {:induction false} WithoutMembers(names: seq<string>, skip: set<string>)
    ensures forall n :: n in Without(names, skip) <==> n in names && n !in skip
  {
    if names != [] {
      WithoutMembers(names[1..], skip);
      assert forall n :: n in names <==> n == names[0] || n in names[1..];
    }
  }

  lemma EachMembers(names: seq<string>, f: string -> Cmd)
    ensures forall n | n in names :: f(n) in Each(names, f)
    ensures forall c | c in Each(names, f) :: exists n | n in names :: c == f(n)
  {
    var cmds := Each(names, f);
    forall n | n in names ensures f(n) in cmds {
      var i :| 0 <= i < |names| && names[i] == n;
      assert cmds[i] == f(n);
    }
    forall c | c in cmds ensures exists n | n in names :: c == f(n) {
      var i :| 0 <= i < |cmds| && cmds[i] == c;
      assert names[i] in names && c == f(names[i]);
    }
  }

  ghost predicate Halts(cmds: seq<Cmd>, p: Plan) {
    && (forall c | c in cmds :: (c.StopUnit? && c.unit in p.stopUnits) || (c.DisableUnit? && c.unit in p.disableUnits))
    && (forall u | u in p.stopUnits :: StopUnit(u) in cmds)
    && (forall u | u in p.disableUnits :: DisableUnit(u) in cmds)
  }

  lemma StopMembers(p: Plan)
    ensures Halts(StopCmds(p), p)
  {
    EachMembers(p.stopUnits, u => StopUnit(u));
    EachMembers(p.disableUnits, u => DisableUnit(u));
  }

  lemma FileMembers(g: Goal, p: Plan, failed: set<string>)
    ensures forall c | c in FileCmds(g, p, failed) ::
              || c.MakeDir?
              || (c.WriteFile? && c.name in p.writeFiles && c.content == ContentOf(g, c.name))
              || (c.RemoveFile? && c.name in p.removeFiles && c.name !in failed)
    ensures forall n | n in p.writeFiles :: WriteFile(n, ContentOf(g, n)) in FileCmds(g, p, failed)
    ensures forall n | n in p.removeFiles && n !in failed :: RemoveFile(n) in FileCmds(g, p, failed)
  {
    EachMembers(p.writeFiles, n => WriteFile(n, ContentOf(g, n)));
    EachMembers(Without(p.removeFiles, failed), n => RemoveFile(n));
    WithoutMembers(p.removeFiles, failed);
  }

  lemma SecretMembers(g: Goal, p: Plan)
    ensures forall c | c in SecretCmds(g, p) ::
              || (c.CreateSecret? && c.key in p.createSecrets && c.value == ValueOf(g, c.key))
              || (c.RemoveSecret? && c.key in p.removeSecrets)
    ensures forall k | k in p.createSecrets :: CreateSecret(k, ValueOf(g, k)) in SecretCmds(g, p)
    ensures forall k | k in p.removeSecrets :: RemoveSecret(k) in SecretCmds(g, p)
  {
    EachMembers(p.createSecrets, k => CreateSecret(k, ValueOf(g, k)));
    EachMembers(p.removeSecrets, k => RemoveSecret(k));
  }

  ghost predicate Lives(cmds: seq<Cmd>, p: Plan) {
    && (forall c | c in cmds ::
          || (c.StartUnit? && c.unit in p.startUnits) || (c.RestartUnit? && c.unit in p.restartUnits)
          || (c.EnableUnit? && c.unit in p.enableUnits) || (c.RestartNative? && c.unit in p.restartSystemdUnits))
    && (forall u | u in p.startUnits :: StartUnit(u) in cmds)
    && (forall u | u in p.restartUnits :: RestartUnit(u) in cmds)
    && (forall u | u in p.enableUnits :: EnableUnit(u) in cmds)
    && (forall u | u in p.restartSystemdUnits :: RestartNative(u) in cmds)
  }

  lemma LifeMembers(p: Plan)
    ensures Lives(LifeCmds(p), p)
  {
    EachMembers(p.startUnits, u => StartUnit(u));
    EachMembers(p.restartUnits, u => RestartUnit(u));
    EachMembers(p.enableUnits, u => EnableUnit(u));
    EachMembers(p.restartSystemdUnits, u => RestartNative(u));
  }

  // Everything between the stops and the lifecycle commands.
  ghost predicate Settles(cmds: seq<Cmd>, g: Goal, p: Plan, failed: set<string>) {
    && (forall c | c in cmds ::
          || c.MakeDir? || c.LogIn? || (c.Reload? && p.daemonReload)
          || (c.WriteFile? && c.name in p.writeFiles && c.content == ContentOf(g, c.name))
          || (c.RemoveFile? && c.name in p.removeFiles && c.name !in failed)
          || (c.CreateSecret? && c.key in p.createSecrets && c.value == ValueOf(g, c.key))
          || (c.RemoveSecret? && c.key in p.removeSecrets))
    && (forall n | n in p.writeFiles :: WriteFile(n, ContentOf(g, n)) in cmds)
    && (forall n | n in p.removeFiles && n !in failed :: RemoveFile(n) in cmds)
    && (forall k | k in p.createSecrets :: CreateSecret(k, ValueOf(g, k)) in cmds)
    && (forall k | k in p.removeSecrets :: RemoveSecret(k) in cmds)
  }

  lemma SettleMembers(g: Goal, p: Plan, failed: set<string>, saved: State)
    ensures Settles(SettleCmds(g, p, failed, saved), g, p, failed)
  {
    FileMembers(g, p, failed);
    SecretMembers(g, p);
  }

  // Writes and removals, creations and deletions never meet.
  predicate Separate(p: Plan) {
    && (forall n | n in p.writeFiles :: n !in p.removeFiles)
    && (forall k | k in p.createSecrets :: k !in p.removeSecrets)
  }

  function SettledText(g: Goal, p: Plan, failed: set<string>, h: Host, n: string): Option<Val> {
    if n in p.writeFiles then Some(Text(ContentOf(g, n)))
    else if n in p.removeFiles && n !in failed then None
    else Look(h.at, FileLoc(n))
  }

  lemma FileLocInjective(m: string, n: string)
    requires FileLoc(m) == FileLoc(n)
    ensures m == n
  {
  }

  lemma FileCmdsOn(cmds: seq<Cmd>, g: Goal, p: Plan, failed: set<string>, n: string)
    requires Settles(cmds, g, p, failed)
    ensures forall c | c in cmds && Target(c) == Some(FileLoc(n)) ::
              || (c == WriteFile(n, ContentOf(g, n)) && n in p.writeFiles)
              || (c == RemoveFile(n) && n in p.removeFiles && n !in failed)
  {
    forall c | c in cmds && Target(c) == Some(FileLoc(n))
      ensures (c.WriteFile? || c.RemoveFile?) && c.name == n
    {
      FileLocInjective(c.name, n);
    }
  }

  lemma SettledFile(h: Host, cmds: seq<Cmd>, g: Goal, p: Plan, failed: set<string>, n: string)
    requires Separate(p) && Settles(cmds, g, p, failed)
    ensures Look(ExecAll(h, cmds).at, FileLoc(n)) == SettledText(g, p, failed, h, n)
  {
    FileCmdsOn(cmds, g, p, failed, n);
    if n in p.writeFiles {
      assert WriteFile(n, ContentOf(g, n)) in cmds;
      Assigned(h, cmds, FileLoc(n), Some(Text(ContentOf(g, n))));
    } else if n in p.removeFiles && n !in failed {
      assert RemoveFile(n) in cmds;
      Assigned(h, cmds, FileLoc(n), None);
    } else {
      Untouched(h, cmds, FileLoc(n));
    }
  }

  lemma SecretCmdsOn(cmds: seq<Cmd>, g: Goal, p: Plan, failed: set<string>, k: string)
    requires Settles(cmds, g, p, failed)
    ensures forall c | c in cmds && Target(c) == Some(Secret(k)) ::
              || (c == CreateSecret(k, ValueOf(g, k)) && k in p.createSecrets)
              || (c == RemoveSecret(k) && k in p.removeSecrets)
  {
  }

  lemma SettledSecret(h: Host, cmds: seq<Cmd>, g: Goal, p: Plan, failed: set<string>, k: string)
    requires Separate(p) && Settles(cmds, g, p, failed)
    ensures Look(ExecAll(h, cmds).at, Secret(k)) ==
            if k in p.createSecrets then Some(Text(ValueOf(g, k)))
            else if k in p.removeSecrets then None
            else Look(h.at, Secret(k))
  {
    SecretCmdsOn(cmds, g, p, failed, k);
    if k in p.createSecrets {
      assert CreateSecret(k, ValueOf(g, k)) in cmds;
      Assigned(h, cmds, Secret(k), Some(Text(ValueOf(g, k))));
    } else if k in p.removeSecrets {
      assert RemoveSecret(k) in cmds;
      Assigned(h, cmds, Secret(k), None);
    } else {
      Untouched(h, cmds, Secret(k));
    }
  }

  predicate IsFileLoc(l: Loc) {
    l.QuadletFile? || l.UserFile?
  }

  // A file in the wrong directory: nothing in a pass aims at it.
  predicate Misplaced(l: Loc) {
    IsFileLoc(l) && l != FileLoc(l.name)
  }

  predicate IsUnitState(l: Loc) {
    l.Service? || l.Native?
  }

  lemma SettleAimsAt(c: Cmd, l: Loc)
    requires Target(c) == Some(l)
    requires c.WriteFile? || c.RemoveFile? || c.CreateSecret? || c.RemoveSecret?
    ensures !Misplaced(l) && !IsUnitState(l) && !l.Limits?
  {
  }

  lemma SettleLeaves(h: Host, cmds: seq<Cmd>, g: Goal, p: Plan, failed: set<string>, l: Loc)
    requires Settles(cmds, g, p, failed)
    requires Misplaced(l) || IsUnitState(l) || l.Limits?
    ensures Look(ExecAll(h, cmds).at, l) == Look(h.at, l)
  {
    forall c | c in cmds ensures Target(c) != Some(l) {
      if Target(c) == Some(l) {
        SettleAimsAt(c, l);
      }
    }
    Untouched(h, cmds, l);
  }

  lemma LivesLeaves(h: Host, cmds: seq<Cmd>, p: Plan, l: Loc)
    requires Lives(cmds, p) && !IsUnitState(l)
    ensures Look(ExecAll(h, cmds).at, l) == Look(h.at, l)
  {
    Untouched(h, cmds, l);
  }

  lemma LifeLeaves(h: Host, p: Plan, l: Loc)
    requires !IsUnitState(l)
    ensures Look(ExecAll(h, LifeCmds(p)).at, l) == Look(h.at, l)
  {
    LifeMembers(p);
    LivesLeaves(h, LifeCmds(p), p, l);
  }

  // Some command on this location takes effect, whether or not it then reports success.
  ghost predicate Clears(cmds: seq<Cmd>, faults: Faults, l: Loc) {
    exists c | c in cmds :: Target(c) == Some(l) && faults(c) != NoEffect
  }

  // Stops and disables only ever take unit state away, and take it exactly where one takes effect.
  lemma ClearsFirst(cmds: seq<Cmd>, faults: Faults, l: Loc)
    requires cmds != []
    ensures Clears(cmds, faults, l) <==> (Target(cmds[0]) == Some(l) && faults(cmds[0]) != NoEffect) || Clears(cmds[1..], faults, l)
  {
    assert forall c :: c in cmds <==> c == cmds[0] || c in cmds[1..];
  }

  lemma StopKinds(h: Host, c: Cmd, residue: Option<string>)
    requires c.StopUnit? || c.DisableUnit?
    ensures Target(c).Some? && Effect(h, c) == TornValue(h, c, residue) == None && !Refused(h, c) && c != Reload
  {
  }

  lemma DoClears(h: Host, c: Cmd, faults: Faults, l: Loc)
    requires Target(c).Some? && Effect(h, c) == None && !Refused(h, c) && c != Reload
    requires forall residue :: TornValue(h, c, residue) == None
    ensures Do(h, c, faults).host.loaded == h.loaded
    ensures Look(Do(h, c, faults).host.at, l) == if Target(c) == Some(l) && faults(c) != NoEffect then None else Look(h.at, l)
  {
  }

  lemma DoStop(h: Host, c: Cmd, faults: Faults, l: Loc)
    requires c.StopUnit? || c.DisableUnit?
    ensures Do(h, c, faults).host.loaded == h.loaded
    ensures Look(Do(h, c, faults).host.at, l) == if Target(c) == Some(l) && faults(c) != NoEffect then None else Look(h.at, l)
  {
    forall residue ensures Effect(h, c) == TornValue(h, c, residue) == None && Target(c).Some? && !Refused(h, c) {
      StopKinds(h, c, residue);
    }
    DoClears(h, c, faults, l);
  }

  // Stops and disables take unit state away exactly where one of them takes effect.
  lemma {:induction false} StopsClear(h: Host, cmds: seq<Cmd>, faults: Faults, l: Loc)
    requires forall c | c in cmds :: c.StopUnit? || c.DisableUnit?
    ensures Look(RunAll(h, cmds, faults).at, l) == if Clears(cmds, faults, l) then None else Look(h.at, l)
    ensures RunAll(h, cmds, faults).loaded == h.loaded
    decreases |cmds|
  {
    if cmds != [] {
      assert cmds[0] in cmds && forall c | c in cmds[1..] :: c in cmds;
      DoStop(h, cmds[0], faults, l);
      ClearsFirst(cmds, faults, l);
      StopsClear(Do(h, cmds[0], faults).host, cmds[1..], faults, l);
    }
  }

  lemma StopsOnlyClear(h: Host, cmds: seq<Cmd>, faults: Faults, l: Loc)
    requires forall c | c in cmds :: c.StopUnit? || c.DisableUnit?
    ensures var after := Look(RunAll(h, cmds, faults).at, l);
            && (after == Look(h.at, l) || after == None)
            && (!IsUnitState(l) ==> after == Look(h.at, l))
            && ((exists c | c in cmds :: Target(c) == Some(l) && faults(c) == NoFault) ==> after == None)
            && ((forall c | c in cmds :: Target(c) != Some(l)) ==> after == Look(h.at, l))
            && after == if Clears(cmds, faults, l) then None else Look(h.at, l)
    ensures RunAll(h, cmds, faults).loaded == h.loaded
  {
    StopsClear(h, cmds, faults, l);
  }

  // Lifecycle commands only ever add unit state.
  lemma {:induction false} LifeOnlyAdds(h: Host, cmds: seq<Cmd>, l: Loc)
    requires forall c | c in cmds :: !Fixed(c)
    ensures Look(ExecAll(h, cmds).at, l).Some? <==> Look(h.at, l).Some? || exists c | c in cmds :: Target(c) == Some(l)
    decreases |cmds|
  {
    if cmds != [] {
      assert cmds[0] in cmds;
      LifeOnlyAdds(Exec(h, cmds[0]), cmds[1..], l);
      assert forall c :: c in cmds <==> c == cmds[0] || c in cmds[1..];
    }
  }
}
