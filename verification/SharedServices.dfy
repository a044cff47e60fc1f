/** Nothing rejects two Quadlet units that generate one service (web.container and web.kube both give
    web.service).  This is exactly when a pass then still leaves the wanted services running. */
module SharedServices {
  import opened Agreement
  import opened Convergence
  import opened Fileset
  import opened Freshness
  import opened Host
  import opened Ledger
  import opened Plan
  import opened Reconcile
  import opened Retry
  import opened Segments

  // Every running service is some saved unit's, and every saved unit's service runs.
  ghost predicate ServicesExact(h: Host) {
    forall s :: Service(s) in h.at <==> exists u | u in h.saved.units :: UnitService(u) == s
  }

  // A service that one unit leaves while another still wants it is launched again in this pass.
  predicate HandedOver(d: Desired, prior: State, s: string)
    requires Named(d.files)
  {
    StopsService(d, prior, s) && WantsService(d, s) ==> LaunchesService(d, prior, s)
  }

  lemma ServiceAfterStops(h: Host, g: Goal, faults: Faults, s: string)
    requires ValidGoal(g) && !UidChanged(g, h.saved) && Faultless(faults)
    ensures Service(s) in Stopped(h, g, faults).at <==> Service(s) in h.at && !StopsService(g.d, h.saved, s)
  {
    PlanMembers(g.d, h.saved);
    StopIssued(PassPlan(g, h.saved), g.d, h.saved, s);
    StoppedLook(h, g, faults, Service(s));
    assert forall c :: faults(c) == NoFault;
  }

  // What runs after the pass is what ran and was not stopped, and what was launched.
  lemma HandOverCase(d: Desired, prior: State, s: string, before: bool, after: bool)
    requires Named(d.files) && (forall v | v in prior.units && v in d.files :: d.files[v].isUnit)
    requires before <==> exists u | u in prior.units :: UnitService(u) == s
    requires after <==> (before && !StopsService(d, prior, s)) || LaunchesService(d, prior, s)
    ensures (after <==> WantsService(d, s)) <==> HandedOver(d, prior, s)
  {
    if u :| u in d.files && Launches(d, prior, u) && UnitService(u) == s {
      assert d.files[u].isUnit;
    } else if before && !StopsService(d, prior, s) {
      var v :| v in prior.units && UnitService(v) == s;
      assert v in d.files || v in StopSet(d, prior);
    } else if WantsService(d, s) {
      var u :| u in d.files && d.files[u].isUnit && UnitService(u) == s;
      assert u in StartSet(d, prior) || u in prior.units;
    }
  }

  lemma ServiceAfterPass(h: Host, g: Goal, faults: Faults, s: string)
    requires ValidGoal(g) && !UidChanged(g, h.saved) && Faultless(faults) && TypedState(h.saved) && ServicesExact(h)
    requires Pass(h, g, faults).ok
    ensures (Service(s) in Pass(h, g, faults).host.at <==> WantsService(g.d, s)) <==> HandedOver(g.d, h.saved, s)
  {
    ServiceAfterStops(h, g, faults, s);
    PassUnit(h, g, faults, Service(s));
    HandOverCase(g.d, h.saved, s, Service(s) in h.at, Service(s) in Pass(h, g, faults).host.at);
  }

  /** After a pass without faults the running services are the wanted ones exactly when every service that is
      both left and still wanted is launched again in that pass. */
  lemma RunningExactlyWhenHandedOver(h: Host, g: Goal, faults: Faults)
    requires ValidGoal(g) && !UidChanged(g, h.saved) && Faultless(faults) && TypedState(h.saved) && ServicesExact(h)
    requires Pass(h, g, faults).ok
    ensures (forall s :: Service(s) in Pass(h, g, faults).host.at <==> WantsService(g.d, s))
       <==> (forall s :: HandedOver(g.d, h.saved, s))
  {
    forall s ensures (Service(s) in Pass(h, g, faults).host.at <==> WantsService(g.d, s)) <==> HandedOver(g.d, h.saved, s) {
      ServiceAfterPass(h, g, faults, s);
    }
  }

  /** With no shared services, in the goal and in the saved units, every service is handed over. */
  lemma DistinctServicesHandOver(g: Goal, prior: State, s: string)
    requires ValidGoal(g) && NoSharedService(g.d)
    requires forall u, v | u in prior.units && v in prior.units && UnitService(u) == UnitService(v) :: u == v
    ensures HandedOver(g.d, prior, s)
  {
    if StopsService(g.d, prior, s) && WantsService(g.d, s) {
      var u :| u in g.d.files && g.d.files[u].isUnit && UnitService(u) == s;
      var v :| v in StopSet(g.d, prior) && UnitService(v) == s;
      assert u !in prior.units;
      assert Launches(g.d, prior, u);
    }
  }

  /** The hand-over fails for any unit that leaves while the one other unit of its service stays and is not launched
      for a reason of its own. */
  lemma KeptUnitLosesService(d: Desired, prior: State, u: string, v: string)
    requires Named(d.files) && LeftAlive(d, prior, u, v)
    ensures !HandedOver(d, prior, UnitService(v))
  {
    LeftBehind(d, prior, u, UnitService(v));
    StillWanted(d, v);
    OnlyLauncher(d, prior, v);
  }

  lemma LeftBehind(d: Desired, prior: State, u: string, s: string)
    requires u in prior.units && u !in d.files && UnitService(u) == s
    ensures StopsService(d, prior, s)
  {
    assert u in StopSet(d, prior);
  }

  lemma StillWanted(d: Desired, v: string)
    requires v in d.files && d.files[v].isUnit
    ensures WantsService(d, UnitService(v))
  {
  }

  // ---- a run that loses a wanted service -----------------------------------------------------------------

  // The goal without one of its files.
  function Less(g: Goal, u: string): Goal {
    g.(d := g.d.(files := g.d.files - {u}))
  }

  // Against the state saved for the whole, the rest has nothing to write, launch or enable.
  lemma RestIsQuiet(g: Goal, u: string)
    requires ValidGoal(g) && u in g.d.files && (g.d.files[u].isUnit || Enabled(g.d.files[u]))
    ensures ValidGoal(Less(g, u))
    ensures var d, s := Less(g, u).d, NextState(g);
            && StartSet(d, s) == {} && EnableSet(d, s) == {} && CreateSet(d, s) == {}
            && ChangedSupport(d, s) == {} && RemovedSupport(d, s) == {} && (forall n | n in d.files :: !Changed(d, s, n))
  {
    var d, s := Less(g, u).d, NextState(g);
    NextUnits(g);
    forall n | n in d.files && Enabled(d.files[n]) ensures !d.files[n].isUnit {
      EnabledIsNative(d.files[n]);
    }
    forall n | n in d.files ensures !Changed(d, s, n) {
      assert Recorded(s.files, n) == g.d.files[n].hash;
    }
    forall n | n in s.files && n !in d.files ensures n == u {
    }
  }

  // Where nothing a unit could read changed, none is stale.
  lemma NothingStale(d: Desired, s: State)
    requires Named(d.files) && (forall n | n in d.files :: !Changed(d, s, n))
    requires CreateSet(d, s) == {} && ChangedSupport(d, s) == {} && RemovedSupport(d, s) == {}
    ensures RestartSet(d, s) == {} && RestartSystemdSet(d, s) == {} && forall n | n in d.files :: !Stale(d, s, d.files[n])
  {
  }

  lemma RestPassOk(h: Host, g: Goal, u: string, faults: Faults)
    requires ValidGoal(g) && LoginsResolve(g) && Faultless(faults) && h.saved == NextState(g)
    requires u in g.d.files && g.d.files[u].isUnit
    ensures ValidGoal(Less(g, u)) && !UidChanged(Less(g, u), h.saved) && Pass(h, Less(g, u), faults).ok
    ensures forall n | n in Less(g, u).d.files :: !Stale(Less(g, u).d, h.saved, g.d.files[n])
  {
    RestIsQuiet(g, u);
    NothingStale(Less(g, u).d, h.saved);
    QuietPassOk(h, Less(g, u), faults);
  }

  lemma FirstPassSaves(g: Goal, faults: Faults)
    requires ValidGoal(g) && LoginsResolve(g) && Faultless(faults)
    ensures Pass(FRESH, g, faults).ok && Pass(FRESH, g, faults).host.saved == NextState(g)
  {
    FirstPassOk(g, faults);
    PassStages(FRESH, g, faults);
    NothingFails(FRESH, g, faults);
    RetainNothing(NextState(g), EMPTY_STATE);
  }

  lemma FirstPassServes(g: Goal, faults: Faults, v: string)
    requires ValidGoal(g) && Pass(FRESH, g, faults).ok && v in g.d.files && g.d.files[v].isUnit
    ensures Service(UnitService(v)) in Pass(FRESH, g, faults).host.at
  {
    PassServes(FRESH, g, faults, UnitService(v));
    assert Launches(g.d, EMPTY_STATE, v);
  }

  // Two Quadlet units of one service, which no third one shares.
  predicate Share(d: Desired, u: string, v: string) {
    && u in d.files && v in d.files && u != v && d.files[u].isUnit && d.files[v].isUnit && UnitService(u) == UnitService(v)
    && forall w | w in d.files && d.files[w].isUnit && UnitService(w) == UnitService(v) :: w == u || w == v
  }

  // Its only unit, recorded and unchanged, with one that has left: the service is stopped and not launched.
  ghost predicate LeftAlive(d: Desired, prior: State, u: string, v: string)
    requires Named(d.files)
  {
    && v in d.files && d.files[v].isUnit && v in prior.units && !Stale(d, prior, d.files[v])
    && (forall w | w in d.files && d.files[w].isUnit && UnitService(w) == UnitService(v) :: w == v)
    && u in prior.units && u !in d.files && UnitService(u) == UnitService(v)
  }

  lemma ShareLess(g: Goal, u: string, v: string)
    requires ValidGoal(g) && ValidGoal(Less(g, u)) && Share(g.d, u, v)
    requires forall n | n in Less(g, u).d.files :: !Stale(Less(g, u).d, NextState(g), g.d.files[n])
    ensures LeftAlive(Less(g, u).d, NextState(g), u, v)
  {
    NextUnits(g);
  }

  lemma NotServedAgain(d: Desired, prior: State, faults: Faults, u: string, v: string)
    requires Named(d.files) && LeftAlive(d, prior, u, v) && faults(StopUnit(u)) != NoEffect
    ensures !LaunchesService(d, prior, UnitService(v)) && Quits(d, prior, faults, UnitService(v))
  {
    OnlyLauncher(d, prior, v);
    LeftQuits(d, prior, faults, u, UnitService(v));
  }

  lemma RestLosesService(h: Host, g: Goal, u: string, v: string, faults: Faults)
    requires ValidGoal(g) && LoginsResolve(g) && Faultless(faults) && h.saved == NextState(g) && Share(g.d, u, v)
    ensures ValidGoal(Less(g, u)) && Pass(h, Less(g, u), faults).ok
    ensures Service(UnitService(v)) !in Pass(h, Less(g, u), faults).host.at
  {
    RestPassOk(h, g, u, faults);
    ShareLess(g, u, v);
    PassServes(h, Less(g, u), faults, UnitService(v));
    NotServedAgain(Less(g, u).d, h.saved, faults, u, v);
  }

  lemma LeftQuits(d: Desired, prior: State, faults: Faults, u: string, s: string)
    requires u in prior.units && u !in d.files && UnitService(u) == s && faults(StopUnit(u)) != NoEffect
    ensures Quits(d, prior, faults, s)
  {
    assert u in StopSet(d, prior);
  }

  lemma OtherStillWanted(g: Goal, u: string, v: string)
    requires Share(g.d, u, v)
    ensures v in g.d.files && g.d.files[v].isUnit && WantsService(Less(g, u).d, UnitService(v))
  {
    StillWanted(Less(g, u).d, v);
  }

  /** Two faultless passes, the second for the same goal without one of two units of a service: the service ran after
      the first, is still wanted, and does not run after the second. */
  lemma DroppingOneLosesBoth(g: Goal, u: string, v: string, faults: Faults, once: Host)
    requires ValidGoal(g) && LoginsResolve(g) && Faultless(faults) && Share(g.d, u, v) && once == Pass(FRESH, g, faults).host
    ensures Pass(FRESH, g, faults).ok && Service(UnitService(v)) in once.at
    ensures ValidGoal(Less(g, u)) && WantsService(Less(g, u).d, UnitService(v))
    ensures Pass(once, Less(g, u), faults).ok && Service(UnitService(v)) !in Pass(once, Less(g, u), faults).host.at
  {
    OtherStillWanted(g, u, v);
    FirstPassSaves(g, faults);
    FirstPassServes(g, faults, v);
    RestLosesService(once, g, u, v, faults);
  }

  /** Any container and kube unit of one name share a service. */
  lemma ContainerAndKube(stem: string)
    ensures UnitService(stem + "." + "container") == UnitService(stem + "." + "kube") == stem + ".service"
  {
    LastDotAt(stem, "container");
    LastDotAt(stem, "kube");
    CutExt(stem, "container");
    CutExt(stem, "kube");
  }
}
