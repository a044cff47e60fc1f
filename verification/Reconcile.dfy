/** internal/reconcile: `Apply`, one pass of plan, commands and saved state.  `Pass` is what it computes. */
module Reconcile {
  import opened Basics
  import opened Fileset
  import opened Host
  import opened Plan
  import opened Text

  // manifest.Prune with Enabled resolved; the default schedule and age stand in for empty strings
  datatype Prune = Prune(enabled: bool, schedule: string, until: string)

  datatype Cadre = Cadre(files: seq<File>, resources: Resources, create: seq<string>, logins: seq<Login>, prune: Prune)

  /** The secrets file: absent, undecryptable, or its decrypted key/value map. */
  datatype SecretsFile = NoSecrets | Undecryptable | Decrypted(values: map<string, string>)

  // ---- what the pass wants ----------------------------------------------------------------------

  function PruneUnit(name: string, body: string): File {
    File(name, body, Sha256(body), false, true)
  }

  const ABOUT_PRUNE := "Description=rucher: " + "prune unused podman images"
  const ABOUT_TIMER := "Description=rucher: " + "schedule podman image pruning"
  const PRUNE_IMAGES := "ExecStart=/usr/bin/podman " + "image prune --all --force --filter " + "until="

  function PruneServiceLines(until: string): seq<string> {
    ["[Unit]", ABOUT_PRUNE, "", "[Service]", "Type=oneshot", PRUNE_IMAGES + until]
  }

  function PruneTimerLines(schedule: string): seq<string> {
    ["[Unit]", ABOUT_TIMER, "", "[Timer]", "OnCalendar=" + schedule,
     "RandomizedDelaySec=15m", "Persistent=true", "", "[Install]", "WantedBy=timers.target"]
  }

  function PrunePair(service: string, timer: string): seq<File> {
    [PruneUnit(PRUNE_SERVICE, service), PruneUnit(PRUNE_TIMER, timer)]
  }

  function PruneFiles(p: Prune): seq<File> {
    if !p.enabled then []
    else
      PrunePair(Lined(PruneServiceLines(if p.until == "" then "168h" else p.until)),
                Lined(PruneTimerLines(if p.schedule == "" then "daily" else p.schedule)))
  }

  // What the pair says is hardly ever looked into: mostly only its names matter.
  lemma NoneOrPair(p: Prune)
    ensures !p.enabled ==> PruneFiles(p) == []
    ensures p.enabled ==> exists service, timer :: PruneFiles(p) == PrunePair(service, timer)
  {
    if p.enabled {
      var service := Lined(PruneServiceLines(if p.until == "" then "168h" else p.until));
      var timer := Lined(PruneTimerLines(if p.schedule == "" then "daily" else p.schedule));
      assert PruneFiles(p) == PrunePair(service, timer);
    }
  }

  // cadre.Load: names from one directory, flags from the extension, hash from the content; Validate
  // rejects the reserved names.
  predicate LoadedFile(f: File) {
    FlagsFollow(f) && f.hash == Sha256(f.content)
  }

  predicate LoadedCadre(c: Cadre) {
    DistinctNames(c.files) && forall f | f in c.files :: LoadedFile(f) && !IsReserved(f.name)
  }

  // Which decrypted keys become podman secrets: the allowlist, or everything that is not empty.
  function ForCreate(create: seq<string>, values: map<string, string>): Option<map<string, string>> {
    if create == [] then Some(map k | k in values && values[k] != "" :: values[k])
    else if exists k | k in create :: k !in values then None
    else Some(map k | k in create && k in values :: values[k])
  }

  function Hashes(values: map<string, string>): map<string, Digest> {
    map k | k in values :: Sha256(values[k])
  }

  // registriesHash: the login block and the hash of every password it resolves to
  function RegistriesHash(logins: seq<Login>, values: map<string, string>): LoginDigest {
    if logins == [] then NoLogins
    else LoginDigest(logins, seq(|logins|, i requires 0 <= i < |logins| =>
      Sha256(if logins[i].passwordKey in values then values[logins[i].passwordKey] else "")))
  }

  /** Everything a pass has resolved before it touches the host. */
  datatype Goal = Goal(d: Desired, values: map<string, string>, logins: seq<Login>, uid: int)

  predicate ValidGoal(g: Goal) {
    && Named(g.d.files)
    && (forall n | n in g.d.files :: g.d.files[n].hash == Sha256(g.d.files[n].content))
    && (forall k | k in g.d.secretHashes :: k in g.values && g.d.secretHashes[k] == Sha256(g.values[k]))
  }

  function AllFiles(c: Cadre): seq<File> {
    c.files + PruneFiles(c.prune)
  }

  function GoalOf(c: Cadre, s: SecretsFile, uid: int): Option<Goal> {
    match s
    case NoSecrets => Some(Goal(Desired(ByName(AllFiles(c)), map[], c.resources), map[], c.logins, uid))
    case Undecryptable => None
    case Decrypted(values) =>
      match ForCreate(c.create, values)
      case None => None
      case Some(created) => Some(Goal(Desired(ByName(AllFiles(c)), Hashes(created), c.resources), values, c.logins, uid))
  }

  predicate ValidFiles(fs: seq<File>) {
    DistinctNames(fs) && forall f | f in fs :: LoadedFile(f)
  }

  lemma AppendFits(fs: seq<File>, ps: seq<File>)
    requires ValidFiles(fs) && ValidFiles(ps)
    requires (forall f | f in fs :: !IsReserved(f.name)) && forall f | f in ps :: IsReserved(f.name)
    ensures ValidFiles(fs + ps)
  {
    forall i, j | 0 <= i < j < |fs + ps| ensures (fs + ps)[i].name != (fs + ps)[j].name {
      if i < |fs| <= j {
        assert fs[i] in fs && ps[j - |fs|] in ps;
      }
    }
  }

  lemma PairShape(service: string, timer: string)
    ensures ValidFiles(PrunePair(service, timer)) && forall f | f in PrunePair(service, timer) :: IsReserved(f.name)
  {
    PruneKinds();
  }

  lemma PruneShape(p: Prune)
    ensures ValidFiles(PruneFiles(p)) && forall f | f in PruneFiles(p) :: IsReserved(f.name)
  {
    NoneOrPair(p);
    if service, timer :| PruneFiles(p) == PrunePair(service, timer) {
      PairShape(service, timer);
    }
  }

  // The synthesized prune units slot into a loaded cadre without a clash.
  lemma PruneFits(c: Cadre)
    requires LoadedCadre(c)
    ensures ValidFiles(AllFiles(c))
  {
    PruneShape(c.prune);
    AppendFits(c.files, PruneFiles(c.prune));
  }

  lemma PruneKinds()
    ensures PRUNE_SERVICE != PRUNE_TIMER
    ensures IsSystemdUnit(PRUNE_SERVICE) && !IsUnitFile(PRUNE_SERVICE)
    ensures IsSystemdUnit(PRUNE_TIMER) && !IsUnitFile(PRUNE_TIMER)
  {
    assert PRUNE_SERVICE == "rucher-prune" + "." + "service";
    assert PRUNE_TIMER == "rucher-prune" + "." + "timer";
    NativeKind("rucher-prune", "service");
    NativeKind("rucher-prune", "timer");
  }

  lemma NativeKind(stem: string, ext: string)
    requires ext == "service" || ext == "timer"
    ensures IsSystemdUnit(stem + "." + ext) && !IsUnitFile(stem + "." + ext)
  {
    ExtOf(stem, ext);
    if ext == "service" {
      ServiceKind(stem + "." + ext);
    } else {
      TimerKind(stem + "." + ext);
    }
  }

  lemma ServiceKind(name: string)
    requires Ext(name) == "." + "service"
    ensures IsSystemdUnit(name) && !IsUnitFile(name)
  {
    assert "." + "service" == ".service";
  }

  lemma TimerKind(name: string)
    requires Ext(name) == "." + "timer"
    ensures IsSystemdUnit(name) && !IsUnitFile(name)
  {
    assert "." + "timer" == ".timer";
  }

  lemma ValidByName(fs: seq<File>)
    requires ValidFiles(fs)
    ensures Named(ByName(fs))
    ensures forall n | n in ByName(fs) :: ByName(fs)[n].hash == Sha256(ByName(fs)[n].content)
  {
    ByNameHolds(fs);
  }

  lemma GoalIsValid(c: Cadre, s: SecretsFile, uid: int)
    requires LoadedCadre(c) && GoalOf(c, s, uid).Some?
    ensures ValidGoal(GoalOf(c, s, uid).value)
    ensures GoalOf(c, s, uid).value.d.files == ByName(AllFiles(c))
  {
    PruneFits(c);
    ValidByName(AllFiles(c));
  }

  // ---- the commands of a pass, in order -----------------------------------------------------------

  predicate UidChanged(g: Goal, saved: State) {
    saved.uid != 0 && g.uid != saved.uid
  }

  /** The plan a pass follows.  After a uid change everything is planned afresh, but stops, disables and
      removals still come from the real saved state. */
  ghost function PassPlan(g: Goal, saved: State): Plan
    requires ValidGoal(g)
  {
    if UidChanged(g, saved) then
      var rem := PlanOf(g.d, saved);
      var p := PlanOf(g.d, EMPTY_STATE);
      p.(stopUnits := rem.stopUnits, disableUnits := rem.disableUnits, removeFiles := rem.removeFiles,
         daemonReload := p.daemonReload || rem.daemonReload)
    else PlanOf(g.d, saved)
  }

  function Each(names: seq<string>, f: string -> Cmd): seq<Cmd> {
    seq(|names|, i requires 0 <= i < |names| => f(names[i]))
  }

  function ContentOf(g: Goal, n: string): string {
    if n in g.d.files then g.d.files[n].content else ""
  }

  function ValueOf(g: Goal, k: string): string {
    if k in g.values then g.values[k] else ""
  }

  function LimitCmds(g: Goal, p: Plan): seq<Cmd> {
    if p.setResources then [SetLimits(g.d.resources)] else []
  }

  function StopCmds(p: Plan): seq<Cmd> {
    Each(p.stopUnits, u => StopUnit(u)) + Each(p.disableUnits, u => DisableUnit(u))
  }

  // The units whose stop or disable fails.
  function StopFailed(p: Plan, faults: Faults): set<string> {
    (set u | u in p.stopUnits && faults(StopUnit(u)) != NoFault)
    + (set u | u in p.disableUnits && faults(DisableUnit(u)) != NoFault)
  }

  function Without(names: seq<string>, skip: set<string>): seq<string> {
    if names == [] then []
    else if names[0] in skip then Without(names[1..], skip)
    else [names[0]] + Without(names[1..], skip)
  }

  function FileCmds(g: Goal, p: Plan, failed: set<string>): seq<Cmd> {
    [MakeDir(false)]
    + (if exists n | n in p.writeFiles :: IsSystemdUnit(n) then [MakeDir(true)] else [])
    + Each(p.writeFiles, n => WriteFile(n, ContentOf(g, n)))
    + Each(Without(p.removeFiles, failed), n => RemoveFile(n))
  }

  function SecretCmds(g: Goal, p: Plan): seq<Cmd> {
    Each(p.createSecrets, k => CreateSecret(k, ValueOf(g, k))) + Each(p.removeSecrets, k => RemoveSecret(k))
  }

  // Registry logins run when the plan is not empty, or the login block or a password it uses changed.
  function LoginCmds(g: Goal, p: Plan, saved: State): seq<Cmd> {
    if p.Empty() && RegistriesHash(g.logins, g.values) == saved.registries then []
    else seq(|g.logins|, i requires 0 <= i < |g.logins| => LogIn(i, g.logins[i], PasswordOf(g, g.logins[i])))
  }

  function PasswordOf(g: Goal, l: Login): Option<string> {
    if l.passwordKey in g.values then Some(g.values[l.passwordKey]) else None
  }

  function ReloadCmds(p: Plan): seq<Cmd> {
    if p.daemonReload then [Reload] else []
  }

  function LifeCmds(p: Plan): seq<Cmd> {
    Each(p.startUnits, u => StartUnit(u)) + Each(p.restartUnits, u => RestartUnit(u))
    + Each(p.enableUnits, u => EnableUnit(u)) + Each(p.restartSystemdUnits, u => RestartNative(u))
  }

  function SettleCmds(g: Goal, p: Plan, failed: set<string>, saved: State): seq<Cmd> {
    FileCmds(g, p, failed) + SecretCmds(g, p) + LoginCmds(g, p, saved) + ReloadCmds(p)
  }

  // ---- the state a pass saves -----------------------------------------------------------------------

  function HashesOf(files: map<string, File>, among: set<string>): map<string, Digest> {
    map n | n in among && n in files :: files[n].hash
  }

  function QuadletNames(files: map<string, File>, among: set<string>): set<string> {
    set n | n in among && n in files && files[n].isUnit
  }

  function EnabledNames(files: map<string, File>, among: set<string>): set<string> {
    set n | n in among && n in files && !files[n].isUnit && Enabled(files[n])
  }

  // nextState
  function NextState(g: Goal): State {
    State(g.uid, HashesOf(g.d.files, g.d.files.Keys), g.d.secretHashes,
          multiset(QuadletNames(g.d.files, g.d.files.Keys)), multiset(EnabledNames(g.d.files, g.d.files.Keys)),
          g.d.resources, RegistriesHash(g.logins, g.values))
  }

  // Units whose stop failed are kept, with their old hash, so that the next pass retries.
  function Retain(s: State, failed: set<string>, prior: State): State {
    s.(files := WithOld(s.files, failed, prior),
       units := s.units + multiset(OfKind(failed, false)),
       systemdUnits := s.systemdUnits + multiset(OfKind(failed, true)))
  }

  function WithOld(files: map<string, Digest>, kept: set<string>, prior: State): map<string, Digest> {
    files + Kept(kept, prior)
  }

  function Kept(kept: set<string>, prior: State): map<string, Digest> {
    map u | u in kept && u in prior.files :: prior.files[u]
  }

  function OfKind(units: set<string>, systemd: bool): set<string> {
    set u | u in units && IsSystemdUnit(u) == systemd
  }

  // ---- one pass ---------------------------------------------------------------------------------------

  /** A pass as it was tried: what it wants and which of its commands fail. */
  datatype Attempt = Attempt(goal: Goal, faults: Faults)

  ghost function Pass(h: Host, g: Goal, faults: Faults): Outcome
    requires ValidGoal(g)
  {
    var p := PassPlan(g, h.saved);
    var limited := RunUntil(h, LimitCmds(g, p), faults);
    if !limited.ok then limited
    else
      var stopped := RunAll(limited.host, StopCmds(p), faults);
      var failed := StopFailed(p, faults);
      var r := RunUntil(stopped, SettleCmds(g, p, failed, h.saved) + LifeCmds(p), faults);
      if !r.ok || faults(SaveState) != NoFault then Outcome(r.host, false)
      else Outcome(r.host.(saved := Retain(NextState(g), failed, h.saved)), true)
  }

  // ---- the imperative pass ----------------------------------------------------------------------------

  class Node {
    var host: Host

    method Send(c: Cmd, faults: Faults) returns (ok: bool)
      modifies this
      ensures Outcome(host, ok) == Do(old(host), c, faults)
    {
      var r := Do(host, c, faults);
      host, ok := r.host, r.ok;
    }

    // A loop that returns at its first error.
    method SendEach(cmds: seq<Cmd>, faults: Faults) returns (ok: bool)
      modifies this
      ensures Outcome(host, ok) == RunUntil(old(host), cmds, faults)
    {
      for i := 0 to |cmds|
        invariant RunUntil(host, cmds[i..], faults) == RunUntil(old(host), cmds, faults)
      {
        assert cmds[i..][1..] == cmds[i + 1..];
        var done := Send(cmds[i], faults);
        if !done {
          return false;
        }
      }
      return true;
    }

    // The stop and disable loops note a failure and go on.
    method StopEach(units: seq<string>, stop: string -> Cmd, faults: Faults) returns (failed: set<string>)
      requires forall u :: stop(u).StopUnit? || stop(u).DisableUnit?
      modifies this
      ensures host == RunAll(old(host), Each(units, stop), faults)
      ensures failed == set u | u in units && faults(stop(u)) != NoFault
    {
      failed := {};
      var cmds := Each(units, stop);
      for i := 0 to |units|
        invariant RunAll(host, cmds[i..], faults) == RunAll(old(host), cmds, faults)
        invariant forall u :: u in failed <==> u in units[..i] && faults(stop(u)) != NoFault
      {
        assert cmds[i..][1..] == cmds[i + 1..];
        assert units[..i + 1] == units[..i] + [units[i]];
        var ok := Send(stop(units[i]), faults);
        if !ok {
          failed := failed + {units[i]};
        }
      }
      assert units[..|units|] == units;
    }

    method StopRemoved(p: Plan, faults: Faults) returns (failed: set<string>)
      modifies this
      ensures host == RunAll(old(host), StopCmds(p), faults)
      ensures failed == StopFailed(p, faults)
    {
      failed := StopEach(p.stopUnits, u => StopUnit(u), faults);
      var more := StopEach(p.disableUnits, u => DisableUnit(u), faults);
      failed := failed + more;
      RunAllAppend(old(host), Each(p.stopUnits, u => StopUnit(u)), Each(p.disableUnits, u => DisableUnit(u)), faults);
    }

    method RunPass(fs: seq<File>, g: Goal, faults: Faults) returns (ok: bool)
      requires DistinctNames(fs) && ByName(fs) == g.d.files && ValidGoal(g)
      modifies this
      ensures Outcome(host, ok) == Pass(old(host), g, faults)
    {
      var prior := host.saved;
      var p := PlanPass(fs, g, prior);
      ok := SendEach(LimitCmds(g, p), faults);
      if !ok {
        return;
      }
      var failed := StopRemoved(p, faults);
      ghost var stopped := host;
      ok := SendEach(SettleCmds(g, p, failed, prior), faults);
      RunUntilAppend(stopped, SettleCmds(g, p, failed, prior), LifeCmds(p), faults);
      if !ok {
        return;
      }
      ok := SendEach(LifeCmds(p), faults);
      if !ok {
        return;
      }
      var next := BuildNextState(fs, g);
      next := RetainFailed(next, failed, prior);
      if faults(SaveState) != NoFault {
        return false;
      }
      host := host.(saved := next);
    }

    /** One reconcile pass.  `uid` is what provisioning the user gave, `readable` whether the saved state loads, and
        `faults` decides which commands fail, and how. */
    method Apply(c: Cadre, s: SecretsFile, uid: Option<int>, readable: bool, faults: Faults) returns (ok: bool)
      requires LoadedCadre(c)
      modifies this
      ensures uid.None? || !readable || GoalOf(c, s, uid.value).None? ==> !ok && host == old(host)
      ensures uid.Some? && readable && GoalOf(c, s, uid.value).Some? ==>
                && ValidGoal(GoalOf(c, s, uid.value).value)
                && Outcome(host, ok) == Pass(old(host), GoalOf(c, s, uid.value).value, faults)
    {
      if uid.None? {
        return false;
      }
      var wanted := GoalOf(c, s, uid.value);
      if wanted.None? || !readable {
        return false;
      }
      GoalIsValid(c, s, uid.value);
      PruneFits(c);
      ok := RunPass(AllFiles(c), wanted.value, faults);
    }
  }

  lemma {:induction false} RunAllAppend(h: Host, a: seq<Cmd>, b: seq<Cmd>, faults: Faults)
    ensures RunAll(h, a + b, faults) == RunAll(RunAll(h, a, faults), b, faults)
    decreases |a|
  {
    if a == [] {
      assert a + b == b;
    } else {
      assert (a + b)[1..] == a[1..] + b;
      RunAllAppend(Do(h, a[0], faults).host, a[1..], b, faults);
    }
  }

  method PlanPass(fs: seq<File>, g: Goal, prior: State) returns (p: Plan)
    requires DistinctNames(fs) && ByName(fs) == g.d.files && ValidGoal(g)
    ensures p == PassPlan(g, prior)
  {
    var uidChanged := prior.uid != 0 && g.uid != prior.uid;
    p := Compute(fs, g.d.secretHashes, g.d.resources, if uidChanged then EMPTY_STATE else prior);
    if uidChanged {
      var rem := Compute(fs, g.d.secretHashes, g.d.resources, prior);
      p := p.(stopUnits := rem.stopUnits, disableUnits := rem.disableUnits, removeFiles := rem.removeFiles,
              daemonReload := p.daemonReload || rem.daemonReload);
    }
  }

  lemma NamesGrow(files: map<string, File>, among: set<string>, n: string)
    requires n in files && n !in among
    ensures HashesOf(files, among + {n}) == HashesOf(files, among)[n := files[n].hash]
    ensures multiset(QuadletNames(files, among + {n}))
         == multiset(QuadletNames(files, among)) + if files[n].isUnit then multiset{n} else multiset{}
    ensures multiset(EnabledNames(files, among + {n}))
         == multiset(EnabledNames(files, among)) + if !files[n].isUnit && Enabled(files[n]) then multiset{n} else multiset{}
  {
    assert QuadletNames(files, among + {n}) == QuadletNames(files, among) + if files[n].isUnit then {n} else {};
    assert EnabledNames(files, among + {n}) == EnabledNames(files, among) + if !files[n].isUnit && Enabled(files[n]) then {n} else {};
  }

  method BuildNextState(fs: seq<File>, g: Goal) returns (s: State)
    requires DistinctNames(fs) && ByName(fs) == g.d.files && ValidGoal(g)
    ensures s == NextState(g)
  {
    var files: map<string, Digest>, units: multiset<string>, systemd: multiset<string> := map[], multiset{}, multiset{};
    ghost var done := {};
    ByNameHolds(fs);
    for i := 0 to |fs|
      invariant Walked(fs, i, done) && done <= g.d.files.Keys
      invariant files == HashesOf(g.d.files, done)
      invariant units == multiset(QuadletNames(g.d.files, done))
      invariant systemd == multiset(EnabledNames(g.d.files, done))
    {
      var f := fs[i];
      WalkStep(fs, i, done);
      NamesGrow(g.d.files, done, f.name);
      done := done + {f.name};
      files := files[f.name := f.hash];
      if f.isUnit {
        units := units + multiset{f.name};
      } else if ShouldEnable(f.name, f.content) {
        systemd := systemd + multiset{f.name};
      }
    }
    WalkEnd(fs, done);
    s := State(g.uid, files, g.d.secretHashes, units, systemd, g.d.resources, RegistriesHash(g.logins, g.values));
  }

  lemma KeptGrow(files: map<string, Digest>, among: set<string>, prior: State, u: string)
    ensures WithOld(files, among + {u}, prior)
         == if u in prior.files then WithOld(files, among, prior)[u := prior.files[u]] else WithOld(files, among, prior)
  {
    assert Kept(among + {u}, prior) == if u in prior.files then Kept(among, prior)[u := prior.files[u]] else Kept(among, prior);
  }

  lemma KindsGrow(among: set<string>, u: string)
    requires u !in among
    ensures multiset(OfKind(among + {u}, false)) == multiset(OfKind(among, false)) + if IsSystemdUnit(u) then multiset{} else multiset{u}
    ensures multiset(OfKind(among + {u}, true)) == multiset(OfKind(among, true)) + if IsSystemdUnit(u) then multiset{u} else multiset{}
  {
    assert OfKind(among + {u}, false) == OfKind(among, false) + if IsSystemdUnit(u) then {} else {u};
    assert OfKind(among + {u}, true) == OfKind(among, true) + if IsSystemdUnit(u) then {u} else {};
  }

  function Keep(s: State, prior: State, u: string): State {
    s.(files := if u in prior.files then s.files[u := prior.files[u]] else s.files,
       units := if IsSystemdUnit(u) then s.units else s.units + multiset{u},
       systemdUnits := if IsSystemdUnit(u) then s.systemdUnits + multiset{u} else s.systemdUnits)
  }

  // One more failed unit.
  lemma RetainGrow(next: State, among: set<string>, prior: State, u: string)
    requires u !in among
    ensures Retain(next, among + {u}, prior) == Keep(Retain(next, among, prior), prior, u)
  {
    KeptGrow(next.files, among, prior, u);
    KindsGrow(among, u);
  }

  lemma RetainNone(next: State, prior: State)
    ensures Retain(next, {}, prior) == next
  {
  }

  // One turn of the loop.
  method KeepFailed(s: State, prior: State, u: string) returns (t: State)
    ensures t == Keep(s, prior, u)
  {
    t := s;
    if u in prior.files {
      t := t.(files := t.files[u := prior.files[u]]);
    }
    if IsSystemdUnit(u) {
      t := t.(systemdUnits := t.systemdUnits + multiset{u});
    } else {
      t := t.(units := t.units + multiset{u});
    }
  }

  method RetainFailed(next: State, failed: set<string>, prior: State) returns (s: State)
    ensures s == Retain(next, failed, prior)
  {
    s := next;
    RetainNone(next, prior);
    var todo := failed;
    ghost var done := {};
    while todo != {}
      invariant done + todo == failed && done !! todo
      invariant s == Retain(next, done, prior)
      decreases todo
    {
      var u :| u in todo;
      RetainGrow(next, done, prior, u);
      s := KeepFailed(s, prior, u);
      todo, done := todo - {u}, done + {u};
    }
    assert done == failed;
  }
}
