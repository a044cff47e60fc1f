/** A disable that fails under a file that stays: the run that leaves the saved files other than the disk, the passes
    that keep it so, and the one that mends it. */
module InPlace {
  import opened Agreement
  import opened Convergence
  import opened Fileset
  import opened Freshness
  import opened Host
  import opened Ledger
  import opened Plan
  import opened Reconcile
  import opened Retry
  import opened Segments
  import opened Text

  const CLEAN: Faults := c => NoFault

  function FailingDisable(n: string): Faults {
    c => if c == DisableUnit(n) then NoEffect else NoFault
  }

  // A cadre of one file, for the user 1000.
  function Only(n: string, content: string): Goal {
    Goal(Desired(map[n := File(n, content, Sha256(content), IsUnitFile(n), IsSystemdUnit(n))], map[], UNLIMITED), map[], [], 1000)
  }

  lemma OnlyValid(n: string, content: string)
    requires IsSystemdUnit(n)
    ensures var g := Only(n, content);
            ValidGoal(g) && NoSharedService(g.d) && LoginsResolve(g) && !g.d.files[n].isUnit
  {
  }

  lemma FirstPass(n: string, content: string)
    requires IsSystemdUnit(n)
    ensures ValidGoal(Only(n, content))
    ensures var r := Pass(FRESH, Only(n, content), CLEAN);
            r.ok && Matches(r.host) && r.host.saved == NextState(Only(n, content))
  {
    var g := Only(n, content);
    OnlyValid(n, content);
    FreshHostMatches();
    PassConverges(FRESH, g, CLEAN);
    HalfAppliedSelf(FRESH, g);
    FinalLoaded(FRESH, FRESH, g, CLEAN);
  }

  // The state of a one-file cadre.
  lemma OnlyState(n: string, content: string)
    requires IsSystemdUnit(n) && ShouldEnable(n, content)
    ensures ValidGoal(Only(n, content))
    ensures var s := NextState(Only(n, content));
            && s.files == map[n := Sha256(content)] && s.units == multiset{} && s.systemdUnits == multiset{n}
            && s.resources == UNLIMITED && s.uid == 1000
  {
    OnlyValid(n, content);
    var d := Only(n, content).d;
    assert QuadletNames(d.files, d.files.Keys) == {};
    assert EnabledNames(d.files, d.files.Keys) == {n};
  }

  lemma DropsInstall(n: string, was: string, now: string)
    requires IsSystemdUnit(n) && ShouldEnable(n, was) && !ShouldEnable(n, now) && was != now
    ensures ValidGoal(Only(n, was)) && ValidGoal(Only(n, now))
    ensures var d, prior := Only(n, now).d, NextState(Only(n, was));
            && WriteSet(d, prior) == {n} && DisableSet(d, prior) == {n}
            && StartSet(d, prior) == {} && RestartSet(d, prior) == {} && EnableSet(d, prior) == {} && RestartSystemdSet(d, prior) == {}
  {
    OnlyValid(n, now);
    OnlyState(n, was);
  }

  lemma DisableFailed(h: Host, g: Goal, faults: Faults, n: string)
    requires ValidGoal(g) && !UidChanged(g, h.saved) && n in DisableSet(g.d, h.saved)
    ensures n in Failed(h, g, faults) <==>
            faults(DisableUnit(n)) != NoFault || (n in StopSet(g.d, h.saved) && faults(StopUnit(n)) != NoFault)
  {
    PlanMembers(g.d, h.saved);
  }

  // No lifecycle command is due, and nothing but the disable fails.
  lemma FailingPassSaves(h: Host, n: string, was: string, now: string)
    requires IsSystemdUnit(n) && ShouldEnable(n, was) && !ShouldEnable(n, now) && was != now
    requires ValidGoal(Only(n, was)) && h.saved == NextState(Only(n, was))
    ensures ValidGoal(Only(n, now)) && !UidChanged(Only(n, now), h.saved)
    ensures Pass(h, Only(n, now), FailingDisable(n)).ok && n in Failed(h, Only(n, now), FailingDisable(n))
  {
    OnlyValid(n, now);
    OnlyState(n, was);
    DropsInstall(n, was, now);
    QuietPassOk(h, Only(n, now), FailingDisable(n));
    DisableFailed(h, Only(n, now), FailingDisable(n), n);
  }

  // The file is new, its recorded hash is old, and the unit is still recorded as enabled.
  lemma AfterFailure(h: Host, n: string, was: string, now: string)
    requires IsSystemdUnit(n) && ShouldEnable(n, was) && !ShouldEnable(n, now) && was != now
    requires ValidGoal(Only(n, was)) && h.saved == NextState(Only(n, was))
    ensures ValidGoal(Only(n, now))
    ensures var after := Pass(h, Only(n, now), FailingDisable(n)).host;
            && n in after.saved.systemdUnits && n in after.saved.files && after.saved.files[n] == Sha256(was)
            && after.saved.uid == 1000 && !AgreesAt(after.at, after.saved, FileLoc(n))
  {
    var g, faults := Only(n, now), FailingDisable(n);
    FailingPassSaves(h, n, was, now);
    OnlyState(n, was);
    DropsInstall(n, was, now);
    var failed := Failed(h, g, faults);
    PassStages(h, g, faults);
    SavedRecord(g, failed, h.saved, n);
    PassFileAgrees(h, g, faults, n);
    RetainedNative(NextState(g), failed, h.saved, n);
  }

  lemma RetainedNative(s: State, failed: set<string>, prior: State, n: string)
    requires n in failed && IsSystemdUnit(n)
    ensures n in Retain(s, failed, prior).systemdUnits && Retain(s, failed, prior).uid == s.uid
  {
    assert n in OfKind(failed, true);
  }

  // Wanting the recorded old content writes nothing.
  lemma BackKeeps(h: Host, n: string, was: string, faults: Faults)
    requires IsSystemdUnit(n) && ValidGoal(Only(n, was)) && h.saved.uid == 1000
    requires n in h.saved.systemdUnits && n in h.saved.files && h.saved.files[n] == Sha256(was)
    requires !AgreesAt(h.at, h.saved, FileLoc(n))
    ensures var back := Pass(h, Only(n, was), faults);
            back.ok ==> !AgreesAt(back.host.at, back.host.saved, FileLoc(n))
  {
    if Pass(h, Only(n, was), faults).ok {
      MismatchMended(h, Only(n, was), faults, n);
    }
  }

  // Wanting the new content writes it again, and its hash with it if the disable works.
  lemma OnMends(h: Host, n: string, was: string, now: string, faults: Faults)
    requires IsSystemdUnit(n) && ValidGoal(Only(n, now)) && !ShouldEnable(n, now) && h.saved.uid == 1000 && was != now
    requires n in h.saved.systemdUnits && n in h.saved.files && h.saved.files[n] == Sha256(was)
    requires !AgreesAt(h.at, h.saved, FileLoc(n))
    ensures var on := Pass(h, Only(n, now), faults);
            on.ok ==> (AgreesAt(on.host.at, on.host.saved, FileLoc(n)) <==> faults(DisableUnit(n)) == NoFault)
  {
    var g := Only(n, now);
    if Pass(h, g, faults).ok {
      MismatchMended(h, g, faults, n);
      assert n in DisableSet(g.d, h.saved) && n !in StopSet(g.d, h.saved);
      DisableFailed(h, g, faults, n);
    }
  }

  /** From a fresh host, a unit is enabled; then it loses its [Install] section and the disable fails.  The pass is
      saved, and the saved hash is not the file's.  A pass that wants the old content back keeps it so, whatever else
      happens in it; one that wants the new content mends it exactly when the disable works. */
  lemma DisableFailsInPlace(n: string, was: string, now: string, faults: Faults)
    requires IsSystemdUnit(n) && ShouldEnable(n, was) && !ShouldEnable(n, now) && was != now
    ensures ValidGoal(Only(n, was)) && ValidGoal(Only(n, now))
    ensures var first, second := Attempt(Only(n, was), CLEAN), Attempt(Only(n, now), FailingDisable(n));
            var once := Pass(FRESH, first.goal, first.faults).host;
            var twice := Pass(once, second.goal, second.faults).host;
            var back, on := Pass(twice, first.goal, faults), Pass(twice, second.goal, faults);
            && Saves(FRESH, first, once) && Saves(once, second, twice)
            && FilesAgree(once) && !AgreesAt(twice.at, twice.saved, FileLoc(n))
            && (back.ok ==> !AgreesAt(back.host.at, back.host.saved, FileLoc(n)))
            && (on.ok ==> (AgreesAt(on.host.at, on.host.saved, FileLoc(n)) <==> faults(DisableUnit(n)) == NoFault))
  {
    FirstPass(n, was);
    var once := Pass(FRESH, Only(n, was), CLEAN).host;
    FailingPassSaves(once, n, was, now);
    AfterFailure(once, n, was, now);
    var twice := Pass(once, Only(n, now), FailingDisable(n)).host;
    BackKeeps(twice, n, was, faults);
    OnMends(twice, n, was, now, faults);
  }

  // A one-line file has the section its line opens.
  lemma OneLine(line: string, name: string)
    requires Lacks(line, '\n') && |line| < MAX_LINE
    ensures HasSection(line, name) <==> Trim(line) == "[" + name + "]"
  {
    SplitLacking(line, '\n');
    assert [line][1..] == [];
    assert SectionIn([line], "[" + name + "]") <==> Trim(line) == "[" + name + "]";
  }

  lemma ServiceEnables(n: string, line: string)
    requires Ext(n) == ".service" && Lacks(line, '\n') && |line| < MAX_LINE
    ensures IsSystemdUnit(n) && (ShouldEnable(n, line) <==> Trim(line) == "[" + "Install" + "]")
  {
    OneLine(line, "Install");
  }

  lemma TrimBrackets(name: string)
    requires name != ""
    ensures Trim("[" + name + "]") == "[" + name + "]"
  {
  }

  /** Such a unit: job.service, with and without its [Install] section. */
  lemma JobService()
    ensures var n := "job" + "." + "service";
            IsSystemdUnit(n) && ShouldEnable(n, "[" + "Install" + "]") && !ShouldEnable(n, "[" + "Unit" + "]")
  {
    var n := "job" + "." + "service";
    ExtOf("job", "service");
    assert Ext(n) == ".service";
    TrimBrackets("Install");
    TrimBrackets("Unit");
    ServiceEnables(n, "[" + "Install" + "]");
    ServiceEnables(n, "[" + "Unit" + "]");
  }
}
