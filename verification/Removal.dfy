/** reconcile.Remove without purge: best-effort stops, both unit directories wiped, the state dropped. */
module Removal {
  import opened Agreement
  import opened Basics
  import opened Fileset
  import opened Host
  import opened Plan
  import opened Reconcile
  import opened Segments

  /** What goes wrong: commands that fail, files an `rm -rf` leaves behind, the state file kept. */
  datatype Luck = Luck(faults: Faults, survivors: set<Loc>, stateKept: bool)

  // rm -rf of the Quadlet directory or of the user unit directory
  function Wiped(at: map<Loc, Val>, user: bool, survivors: set<Loc>): map<Loc, Val> {
    map l | l in at && ((if user then l.UserFile? else l.QuadletFile?) ==> l in survivors) :: at[l]
  }

  // A stop or disable takes effect, whether or not it then reports success.
  predicate Works(faults: Faults, c: Cmd) {
    faults(c) != NoEffect
  }

  ghost predicate Hit(sent: set<Cmd>, faults: Faults, l: Loc) {
    exists c | c in sent :: Target(c) == Some(l) && Works(faults, c)
  }

  // Exactly the targets of the commands that took effect are gone.
  ghost predicate Cleared(before: Host, after: Host, sent: set<Cmd>, faults: Faults) {
    && after.loaded == before.loaded && after.saved == before.saved
    && forall l :: Look(after.at, l) == if Hit(sent, faults, l) then None else Look(before.at, l)
  }

  lemma StopEffect(h: Host, c: Cmd, faults: Faults, l: Loc)
    requires c.StopUnit? || c.DisableUnit?
    ensures var next := Do(h, c, faults).host;
            && next.loaded == h.loaded && next.saved == h.saved
            && Look(next.at, l) == if Target(c) == Some(l) && Works(faults, c) then None else Look(h.at, l)
  {
  }

  lemma HitGrows(sent: set<Cmd>, faults: Faults, c: Cmd, l: Loc)
    ensures Hit(sent + {c}, faults, l) <==> Hit(sent, faults, l) || (Target(c) == Some(l) && Works(faults, c))
  {
    if Target(c) == Some(l) && Works(faults, c) {
      assert c in sent + {c};
    }
  }

  lemma ClearedStep(start: Host, before: Host, sent: set<Cmd>, faults: Faults, c: Cmd)
    requires Cleared(start, before, sent, faults) && (c.StopUnit? || c.DisableUnit?)
    ensures Cleared(start, Do(before, c, faults).host, sent + {c}, faults)
  {
    var after := Do(before, c, faults).host;
    StopEffect(before, c, faults, Limits);
    forall l ensures Look(after.at, l) == if Hit(sent + {c}, faults, l) then None else Look(start.at, l) {
      StopEffect(before, c, faults, l);
      HitGrows(sent, faults, c, l);
    }
  }

  function Sent(units: set<string>, stop: string -> Cmd): set<Cmd> {
    set u | u in units :: stop(u)
  }

  function Members(units: multiset<string>): set<string> {
    set u | u in units
  }

  lemma SentGrows(sent: set<Cmd>, units: set<string>, stop: string -> Cmd, u: string)
    ensures sent + Sent(units + {u}, stop) == sent + Sent(units, stop) + {stop(u)}
  {
  }

  // One of the two best-effort loops, over its list in any order.
  method SendEvery(node: Node, units: multiset<string>, stop: string -> Cmd, faults: Faults, ghost start: Host, ghost sent: set<Cmd>)
    requires forall u :: stop(u).StopUnit? || stop(u).DisableUnit?
    requires Cleared(start, node.host, sent, faults)
    modifies node
    ensures Cleared(start, node.host, sent + Sent(Members(units), stop), faults)
  {
    var todo := units;
    ghost var done := {};
    assert sent + Sent({}, stop) == sent;
    while todo != multiset{}
      invariant forall u :: u in units <==> u in done || u in todo
      invariant Cleared(start, node.host, sent + Sent(done, stop), faults)
      decreases todo
    {
      var u :| u in todo;
      ClearedStep(start, node.host, sent + Sent(done, stop), faults, stop(u));
      SentGrows(sent, done, stop, u);
      var ok := node.Send(stop(u), faults);
      done, todo := done + {u}, todo - multiset{u};
    }
    assert done == Members(units);
  }

  // The unit state a removal takes away: every service with a recorded unit whose stop takes effect, every
  // recorded native unit whose disable does.
  predicate Halts(saved: State, faults: Faults, l: Loc) {
    match l
    case Service(s) => exists u | u in saved.units :: UnitService(u) == s && Works(faults, StopUnit(u))
    case Native(u) => u in saved.systemdUnits && Works(faults, DisableUnit(u))
    case _ => false
  }

  // The two loops together.
  ghost predicate Halted(before: Host, after: Host, faults: Faults) {
    && after.loaded == before.loaded && after.saved == before.saved
    && forall l :: Look(after.at, l) == if Halts(before.saved, faults, l) then None else Look(before.at, l)
  }

  function Stops(saved: State): set<Cmd> {
    (set u | u in saved.units :: StopUnit(u)) + (set u | u in saved.systemdUnits :: DisableUnit(u))
  }

  lemma HitHalts(saved: State, faults: Faults, l: Loc)
    ensures Hit(Stops(saved), faults, l) <==> Halts(saved, faults, l)
  {
    if Halts(saved, faults, l) {
      if l.Service? {
        var u :| u in saved.units && UnitService(u) == l.service && Works(faults, StopUnit(u));
        assert StopUnit(u) in Stops(saved);
      } else {
        assert DisableUnit(l.unit) in Stops(saved);
      }
    }
  }

  lemma SentAll(saved: State, stop: string -> Cmd, disable: string -> Cmd)
    requires forall u :: stop(u) == StopUnit(u) && disable(u) == DisableUnit(u)
    ensures {} + Sent(Members(saved.units), stop) + Sent(Members(saved.systemdUnits), disable) == Stops(saved)
  {
    forall u | u in saved.units ensures StopUnit(u) in Sent(Members(saved.units), stop) {
      assert stop(u) == StopUnit(u) && u in Members(saved.units);
    }
    forall u | u in saved.systemdUnits ensures DisableUnit(u) in Sent(Members(saved.systemdUnits), disable) {
      assert disable(u) == DisableUnit(u) && u in Members(saved.systemdUnits);
    }
    assert Sent(Members(saved.units), stop) == set u | u in saved.units :: StopUnit(u);
    assert Sent(Members(saved.systemdUnits), disable) == set u | u in saved.systemdUnits :: DisableUnit(u);
  }

  method HaltAll(node: Node, faults: Faults)
    modifies node
    ensures Halted(old(node.host), node.host, faults)
  {
    ghost var start := node.host;
    var prior := node.host.saved;
    var stop, disable: string -> Cmd := u => StopUnit(u), u => DisableUnit(u);
    SendEvery(node, prior.units, stop, faults, start, {});
    ghost var stops := {} + Sent(Members(prior.units), stop);
    SendEvery(node, prior.systemdUnits, disable, faults, start, stops);
    SentAll(prior, stop, disable);
    forall l ensures Hit(Stops(prior), faults, l) <==> Halts(prior, faults, l) {
      HitHalts(prior, faults, l);
    }
  }

  /** What a removal leaves of a cadre that was applied once, at every location. */
  ghost predicate Removed(before: Host, after: Host, luck: Luck) {
    && after.saved == (if luck.stateKept then before.saved else EMPTY_STATE)
    && after.loaded == (if luck.faults(Reload) in {NoFault, FullEffect} then UnitsOn(after.at) else before.loaded)
    && forall l :: Look(after.at, l) == if Goes(before.saved, luck, l) then None else Look(before.at, l)
  }

  predicate Goes(saved: State, luck: Luck, l: Loc) {
    (IsFileLoc(l) && l !in luck.survivors) || Halts(saved, luck.faults, l)
  }

  lemma RemovedFromHalted(before: Host, halted: Host, after: Host, luck: Luck)
    requires Halted(before, halted, luck.faults)
    requires after.at == Wiped(Wiped(halted.at, false, luck.survivors), true, luck.survivors)
    requires after.loaded == if luck.faults(Reload) in {NoFault, FullEffect} then UnitsOn(after.at) else before.loaded
    requires after.saved == if luck.stateKept then before.saved else EMPTY_STATE
    ensures Removed(before, after, luck)
  {
    forall l ensures Look(after.at, l) == if Goes(before.saved, luck, l) then None else Look(before.at, l) {
      assert Look(halted.at, l) == if Halts(before.saved, luck.faults, l) then None else Look(before.at, l);
    }
  }

  lemma ReloadEffect(h: Host, faults: Faults)
    ensures var r := Do(h, Reload, faults).host;
            && r.at == h.at && r.saved == h.saved
            && r.loaded == if faults(Reload) in {NoFault, FullEffect} then UnitsOn(h.at) else h.loaded
  {
  }

  /** Remove, without purge.  A state file that does not load ends it; of a cadre never applied here, only the state file
      is dropped. */
  method Remove(node: Node, legible: bool, luck: Luck) returns (ok: bool)
    modifies node
    ensures ok == legible
    ensures !legible ==> node.host == old(node.host)
    ensures legible && old(node.host).saved.uid == 0 ==>
              node.host == old(node.host).(saved := if luck.stateKept then old(node.host).saved else EMPTY_STATE)
    ensures legible && old(node.host).saved.uid != 0 ==> Removed(old(node.host), node.host, luck)
  {
    if !legible {
      return false;
    }
    var prior := node.host.saved;
    ghost var start := node.host;
    if prior.uid != 0 {
      HaltAll(node, luck.faults);
      ghost var halted := node.host;
      node.host := node.host.(at := Wiped(node.host.at, false, luck.survivors));
      node.host := node.host.(at := Wiped(node.host.at, true, luck.survivors));
      ReloadEffect(node.host, luck.faults);
      var reloaded := node.Send(Reload, luck.faults);
      RemovedFromHalted(start, halted, node.host.(saved := if luck.stateKept then prior else EMPTY_STATE), luck);
    }
    if !luck.stateKept {
      node.host := node.host.(saved := EMPTY_STATE);
    }
    return true;
  }

  // ---- what the record is worth afterwards --------------------------------------------------------------

  /** Nothing the removal should take away is kept: no surviving file was there, every running service has a recorded
      unit whose stop takes effect, every enabled unit is recorded and its disable takes effect. */
  ghost predicate TakesAll(before: Host, luck: Luck) {
    && (forall l | l in luck.survivors && IsFileLoc(l) :: l !in before.at)
    && (forall s | Service(s) in before.at :: exists u | u in before.saved.units :: UnitService(u) == s && Works(luck.faults, StopUnit(u)))
    && (forall u | Native(u) in before.at :: u in before.saved.systemdUnits && Works(luck.faults, DisableUnit(u)))
  }

  lemma TakesEach(before: Host, luck: Luck)
    ensures TakesAll(before, luck) <==> forall l | l in before.at && (IsFileLoc(l) || IsUnitState(l)) :: Goes(before.saved, luck, l)
  {
    if TakesAll(before, luck) {
      forall l | l in before.at && (IsFileLoc(l) || IsUnitState(l)) ensures Goes(before.saved, luck, l) {
        if l.Service? {
          assert Service(l.service) in before.at;
        } else if l.Native? {
          assert Native(l.unit) in before.at;
        }
      }
    }
    if forall l | l in before.at && (IsFileLoc(l) || IsUnitState(l)) :: Goes(before.saved, luck, l) {
      forall s | Service(s) in before.at
        ensures exists u | u in before.saved.units :: UnitService(u) == s && Works(luck.faults, StopUnit(u))
      {
        assert Goes(before.saved, luck, Service(s));
      }
      forall u | Native(u) in before.at ensures u in before.saved.systemdUnits && Works(luck.faults, DisableUnit(u)) {
        assert Goes(before.saved, luck, Native(u));
      }
    }
  }

  lemma NothingLeft(after: Host)
    requires after.saved == EMPTY_STATE
    ensures Agrees(after) <==> forall l | IsFileLoc(l) || IsUnitState(l) :: l !in after.at
  {
    if Agrees(after) {
      forall l | IsFileLoc(l) || IsUnitState(l) ensures l !in after.at {
        if IsFileLoc(l) {
          assert AgreesAt(after.at, after.saved, l);
        } else if l.Service? {
          assert l == Service(l.service);
        } else {
          assert l == Native(l.unit);
        }
      }
    }
    if forall l | IsFileLoc(l) || IsUnitState(l) :: l !in after.at {
      forall l | IsFileLoc(l) ensures AgreesAt(after.at, after.saved, l) {
        assert l !in after.at;
      }
    }
  }

  lemma LeftInPlace(before: Host, after: Host, luck: Luck, l: Loc)
    requires Removed(before, after, luck)
    ensures l in after.at <==> l in before.at && !Goes(before.saved, luck, l)
  {
    assert Look(after.at, l) == if Goes(before.saved, luck, l) then None else Look(before.at, l);
  }

  /** Dropping the state leaves a true record exactly when the removal takes all there was: otherwise it forgets a file
      that stayed, or a unit that still runs, where a pass would have kept the unit and tried again. */
  lemma DroppedStateForgets(before: Host, after: Host, luck: Luck)
    requires Removed(before, after, luck) && !luck.stateKept
    ensures Agrees(after) <==> TakesAll(before, luck)
  {
    NothingLeft(after);
    TakesEach(before, luck);
    forall l ensures l in after.at <==> l in before.at && !Goes(before.saved, luck, l) {
      LeftInPlace(before, after, luck, l);
    }
  }

  /** From any host, a removal that takes all leaves the secrets and the limits, and nothing else. */
  lemma RemovalLeavesKeptThings(before: Host, after: Host, luck: Luck)
    requires Removed(before, after, luck) && TakesAll(before, luck)
    ensures forall l: Loc :: Look(after.at, l) == if l.Secret? || l.Limits? then Look(before.at, l) else None
    ensures luck.faults(Reload) in {NoFault, FullEffect} ==> after.loaded == map[]
  {
    TakesEach(before, luck);
    forall l: Loc ensures Look(after.at, l) == if l.Secret? || l.Limits? then Look(before.at, l) else None {
      LeftInPlace(before, after, luck, l);
      assert Look(after.at, l) == if Goes(before.saved, luck, l) then None else Look(before.at, l);
    }
    forall l | IsUnitLoc(l) ensures l !in UnitsOn(after.at) {
      assert Look(after.at, l) == None;
    }
  }

  /** A removal of a recorded, running host takes all exactly when every survivor is no file of the cadre and every
      recorded unit's stop and disable takes effect. */
  lemma RecordedTakesAll(before: Host, luck: Luck)
    requires Agrees(before) && (forall u | u in before.saved.units :: Service(UnitService(u)) in before.at)
    requires forall u | u in before.saved.systemdUnits :: Native(u) in before.at
    requires forall u, v | u in before.saved.units && v in before.saved.units && UnitService(u) == UnitService(v) :: u == v
    ensures TakesAll(before, luck) <==>
            && (forall n | n in before.saved.files :: FileLoc(n) !in luck.survivors)
            && (forall u | u in before.saved.units :: Works(luck.faults, StopUnit(u)))
            && (forall u | u in before.saved.systemdUnits :: Works(luck.faults, DisableUnit(u)))
  {
    forall l | IsFileLoc(l) ensures l in before.at <==> l == FileLoc(l.name) && l.name in before.saved.files {
      assert AgreesAt(before.at, before.saved, l);
    }
    forall n | n in before.saved.files ensures FileLoc(n) in before.at {
      assert IsFileLoc(FileLoc(n)) && FileLoc(n).name == n;
    }
  }

  // ---- a removal that forgets --------------------------------------------------------------------------------

  // One Quadlet unit, applied for the user 1000 and running.
  function RunningUnit(n: string, content: string): Host {
    var at := map[FileLoc(n) := Text(content), Service(UnitService(n)) := Running(Launch(Some(content), map[], map[]))];
    Host(at, UnitsOn(at), State(1000, map[n := Sha256(content)], map[], multiset{n}, multiset{}, UNLIMITED, NoLogins))
  }

  function StopFails(n: string): Luck {
    Luck(c => if c == StopUnit(n) then NoEffect else NoFault, {}, false)
  }

  lemma RunningAgrees(n: string, content: string)
    requires IsUnitFile(n) && !IsSystemdUnit(n)
    ensures Agrees(RunningUnit(n, content))
  {
    var h := RunningUnit(n, content);
    assert FileLoc(n) == QuadletFile(n);
    forall l | IsFileLoc(l) ensures AgreesAt(h.at, h.saved, l) {
      assert l in h.at <==> l == QuadletFile(n);
      assert l.name == n ==> FileLoc(l.name) == QuadletFile(n);
    }
  }

  /** The record was true; the one stop fails with no effect; the service runs on and nothing records it. */
  lemma StopFailsAndIsForgotten(n: string, content: string, after: Host)
    requires IsUnitFile(n) && !IsSystemdUnit(n) && Removed(RunningUnit(n, content), after, StopFails(n))
    ensures Agrees(RunningUnit(n, content))
    ensures Service(UnitService(n)) in after.at && after.saved == EMPTY_STATE && !Agrees(after)
  {
    var before := RunningUnit(n, content);
    RunningAgrees(n, content);
    LeftInPlace(before, after, StopFails(n), Service(UnitService(n)));
    NothingLeft(after);
  }

  /** web.container is such a unit. */
  lemma WebContainer()
    ensures IsUnitFile("web" + "." + "container") && !IsSystemdUnit("web" + "." + "container")
  {
    ExtOf("web", "container");
    assert "." + "container" == ".container";
  }
}
