/** A node's pass on the hosts of its cadres: internal/agent over internal/reconcile. */
module Rollout {
  import Agent
  import Removal
  import opened Agreement
  import opened Basics
  import opened Convergence
  import opened Freshness
  import opened Host
  import opened Plan
  import opened Reconcile

  type Hosts = map<string, Host>

  /** What a pass meets: the goal each placed cadre resolves to, if it does, and what goes wrong in each apply, in the
      listing of the managed cadres, in reading the state to remove by, and in each removal. */
  datatype Lot = Lot(goals: string -> Option<Goal>, faults: string -> Faults,
                     listed: bool, legible: string -> bool, removals: string -> Removal.Luck)
  {
    predicate Removes(name: string) {
      listed && legible(name)
    }
  }

  // A state file is there: it holds the user's uid, which is never 0.
  predicate IsManaged(h: Host) {
    h.saved.uid != 0
  }

  function Managed(hosts: Hosts): set<string> {
    set n | n in hosts && IsManaged(hosts[n])
  }

  ghost predicate Fine(g: Goal) {
    ValidGoal(g) && g.uid != 0
  }

  // What becomes of one cadre's host.
  ghost predicate Turns(before: Host, after: Host, name: string, placed: bool, lot: Lot) {
    if placed then
      match lot.goals(name)
      case None => after == before
      case Some(g) => Fine(g) && after == Pass(before, g, lot.faults(name)).host
    else if IsManaged(before) && lot.Removes(name) then Removal.Removed(before, after, lot.removals(name))
    else after == before
  }

  ghost predicate NodePass(before: Hosts, after: Hosts, placed: set<string>, lot: Lot) {
    && before.Keys == after.Keys && placed <= before.Keys
    && forall n | n in before :: Turns(before[n], after[n], n, n in placed, lot)
  }

  ghost predicate Applied(h: Host, name: string, lot: Lot) {
    match lot.goals(name)
    case None => false
    case Some(g) => Fine(g) && Pass(h, g, lot.faults(name)).ok
  }

  lemma SavedByPass(h: Host, g: Goal, faults: Faults)
    requires Fine(g)
    ensures var r := Pass(h, g, faults);
            r.host.saved == if r.ok then Retain(NextState(g), Failed(h, g, faults), h.saved) else h.saved
  {
    var p := PassPlan(g, h.saved);
    SavedKept(h, LimitCmds(g, p), faults);
    var limited := RunUntil(h, LimitCmds(g, p), faults);
    SavedKept(limited.host, StopCmds(p), faults);
    SavedKept(RunAll(limited.host, StopCmds(p), faults), SettleCmds(g, p, StopFailed(p, faults), h.saved) + LifeCmds(p), faults);
  }

  lemma TurnManaged(before: Host, after: Host, name: string, placed: bool, lot: Lot)
    requires Turns(before, after, name, placed, lot)
    ensures IsManaged(after) <==>
            if placed then IsManaged(before) || Applied(before, name, lot)
            else IsManaged(before) && (!lot.Removes(name) || lot.removals(name).stateKept)
  {
    if placed && lot.goals(name).Some? {
      SavedByPass(before, lot.goals(name).value, lot.faults(name));
    }
  }

  /** The managed set of the pass over names is that of the hosts: a cadre is applied when its pass reaches its save,
      and stays managed against the placement when its state file cannot be read or is kept. */
  lemma ManagedFollows(before: Hosts, after: Hosts, placed: set<string>, lot: Lot, luck: Agent.Luck)
    requires NodePass(before, after, placed, lot)
    requires forall n :: n in luck.applies <==> n in placed && Applied(before[n], n, lot)
    requires luck.listed == lot.listed
    requires forall n | n in before :: n in luck.refuses <==> !lot.legible(n) || lot.removals(n).stateKept
    ensures Managed(after) == Agent.PassManaged(Managed(before), placed, luck)
  {
    forall n | n in before
      ensures IsManaged(after[n]) <==> if n in placed then IsManaged(before[n]) || Applied(before[n], n, lot)
                                       else IsManaged(before[n]) && (!lot.Removes(n) || lot.removals(n).stateKept)
    {
      TurnManaged(before[n], after[n], n, n in placed, lot);
    }
  }

  /** End to end: in a pass whose goals resolve and whose commands work, from hosts that match their state, every placed
      cadre's host ends converged, and every other managed one keeps its secrets and its limits and nothing else. */
  lemma PassRollsOut(before: Hosts, after: Hosts, placed: set<string>, lot: Lot)
    requires NodePass(before, after, placed, lot)
    requires forall n | n in placed :: lot.goals(n).Some? && Sound(lot.goals(n).value, before[n])
                                    && LoginsResolve(lot.goals(n).value) && Faultless(lot.faults(n))
    requires forall n | n in before && n !in placed && IsManaged(before[n]) ::
               lot.Removes(n) && Removal.TakesAll(before[n], lot.removals(n)) && !lot.removals(n).stateKept
    ensures forall n | n in placed ::
              Reached(after[n], lot.goals(n).value) && Matches(after[n]) && PlanOf(lot.goals(n).value.d, after[n].saved).Empty()
    ensures forall n, l: Loc | n in before && n !in placed && IsManaged(before[n]) ::
              Look(after[n].at, l) == if l.Secret? || l.Limits? then Look(before[n].at, l) else None
    ensures forall n | n in before && n !in placed :: !IsManaged(after[n])
  {
    forall n | n in placed
      ensures Reached(after[n], lot.goals(n).value) && Matches(after[n]) && PlanOf(lot.goals(n).value.d, after[n].saved).Empty()
    {
      PassConverges(before[n], lot.goals(n).value, lot.faults(n));
    }
    forall n, l: Loc | n in before && n !in placed && IsManaged(before[n])
      ensures Look(after[n].at, l) == if l.Secret? || l.Limits? then Look(before[n].at, l) else None
    {
      Removal.RemovalLeavesKeptThings(before[n], after[n], lot.removals(n));
    }
    forall n | n in before && n !in placed ensures !IsManaged(after[n]) {
      TurnManaged(before[n], after[n], n, false, lot);
    }
  }
}
