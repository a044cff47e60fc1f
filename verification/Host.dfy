/** The machine a cadre lives on, and the commands a reconcile pass sends to it (internal/ops,
    internal/provision and the file writes of internal/reconcile).  Any command may fail. */
module Host {
  import opened Basics
  import opened Fileset
  import opened Plan
  import opened Quadletref

  /** Everything a pass can change, by location. */
  datatype Loc = Limits
               | QuadletFile(name: string)     // ~/.config/containers/systemd
               | UserFile(name: string)        // ~/.config/systemd/user
               | Secret(key: string)           // podman secret
               | Service(service: string)      // running service generated from a Quadlet unit
               | Native(unit: string)          // enabled native unit

  /** What a Quadlet unit read when it was last (re)started. */
  datatype Launch = Launch(own: Option<string>, files: map<string, Option<string>>, secrets: map<string, Option<string>>)

  datatype Val = Text(content: string) | Caps(limits: Resources) | Running(launch: Launch) | Active(own: Option<string>)

  /** `loaded` is the unit files as the user manager read them at its last daemon-reload. */
  datatype Host = Host(at: map<Loc, Val>, loaded: map<Loc, string>, saved: State)

  const FRESH := Host(map[], map[], EMPTY_STATE)

  function Look(at: map<Loc, Val>, l: Loc): Option<Val> {
    if l in at then Some(at[l]) else None
  }

  function Put(at: map<Loc, Val>, l: Loc, v: Option<Val>): map<Loc, Val> {
    match v
    case Some(x) => at[l := x]
    case None => at - {l}
  }

  function ReadText(at: map<Loc, Val>, l: Loc): Option<string> {
    if l in at && at[l].Text? then Some(at[l].content) else None
  }

  function FileLoc(name: string): Loc {
    if IsSystemdUnit(name) then UserFile(name) else QuadletFile(name)
  }

  predicate IsUnitLoc(l: Loc) {
    || (l.QuadletFile? && IsUnitFile(l.name))
    || (l.UserFile? && IsSystemdUnit(l.name))
  }

  // What a daemon-reload makes the manager know.
  function UnitsOn(at: map<Loc, Val>): map<Loc, string> {
    map l | l in at && IsUnitLoc(l) && at[l].Text? :: at[l].content
  }

  function LoadedAs(h: Host, l: Loc): Option<string> {
    if l in h.loaded then Some(h.loaded[l]) else None
  }

  function Inputs(own: string, refs: Refs, at: map<Loc, Val>): Launch {
    Launch(Some(own),
           map r | r in refs.files && IsSupportFile(r) :: ReadText(at, QuadletFile(r)),
           map s | s in refs.secrets :: ReadText(at, Secret(s)))
  }

  // The inputs a start or restart of this Quadlet unit would read now.
  function LaunchOf(h: Host, unit: string): Launch {
    match LoadedAs(h, QuadletFile(unit))
    case None => Launch(None, map[], map[])
    case Some(own) => Inputs(own, Extract(own), h.at)
  }

  lemma InputsEqual(own: string, refs: Refs, a: map<Loc, Val>, b: map<Loc, Val>)
    requires forall r | r in refs.files && IsSupportFile(r) :: ReadText(a, QuadletFile(r)) == ReadText(b, QuadletFile(r))
    requires forall s | s in refs.secrets :: ReadText(a, Secret(s)) == ReadText(b, Secret(s))
    ensures Inputs(own, refs, a) == Inputs(own, refs, b)
  {
  }

  // ---- commands -------------------------------------------------------------------------------

  datatype Cmd = SetLimits(limits: Resources)
               | StopUnit(unit: string) | DisableUnit(unit: string)
               | MakeDir(user: bool) | WriteFile(name: string, content: string) | RemoveFile(name: string)
               | CreateSecret(key: string, value: string) | RemoveSecret(key: string)
               | LogIn(index: nat, login: Login, password: Option<string>)
               | Reload
               | StartUnit(unit: string) | RestartUnit(unit: string)
               | EnableUnit(unit: string) | RestartNative(unit: string)
               | SaveState

  function Target(c: Cmd): Option<Loc> {
    match c
    case SetLimits(_) => Some(Limits)
    case StopUnit(u) => Some(Service(UnitService(u)))
    case DisableUnit(u) => Some(Native(u))
    case WriteFile(n, _) => Some(FileLoc(n))
    case RemoveFile(n) => Some(FileLoc(n))
    case CreateSecret(k, _) => Some(Secret(k))
    case RemoveSecret(k) => Some(Secret(k))
    case StartUnit(u) => Some(Service(UnitService(u)))
    case RestartUnit(u) => Some(Service(UnitService(u)))
    case EnableUnit(u) => Some(Native(u))
    case RestartNative(u) => Some(Native(u))
    case _ => None
  }

  // The value a command gives its target.  `start` and `enable --now` leave a running unit alone.
  function Effect(h: Host, c: Cmd): Option<Val> {
    match c
    case SetLimits(r) => Some(Caps(r))
    case WriteFile(_, content) => Some(Text(content))
    case CreateSecret(_, value) => Some(Text(value))
    case StartUnit(u) =>
      var l := Service(UnitService(u));
      if l in h.at then Some(h.at[l]) else Some(Running(LaunchOf(h, u)))
    case RestartUnit(u) => Some(Running(LaunchOf(h, u)))
    case EnableUnit(u) => if Native(u) in h.at then Some(h.at[Native(u)]) else Some(Active(LoadedAs(h, UserFile(u))))
    case RestartNative(u) => Some(Active(LoadedAs(h, UserFile(u))))
    case _ => None
  }

  function Exec(h: Host, c: Cmd): Host {
    if c == Reload then h.(loaded := UnitsOn(h.at))
    else match Target(c)
      case None => h
      case Some(l) => h.(at := Put(h.at, l, Effect(h, c)))
  }

  // What the host refuses by itself: a unit the manager has not loaded, a login without a password.
  predicate Refused(h: Host, c: Cmd) {
    match c
    case StartUnit(u) => QuadletFile(u) !in h.loaded
    case RestartUnit(u) => QuadletFile(u) !in h.loaded
    case EnableUnit(u) => UserFile(u) !in h.loaded
    case RestartNative(u) => UserFile(u) !in h.loaded
    case LogIn(_, _, password) => password.None?
    case _ => false
  }

  /** A command can fail with no effect, after its full effect, or torn: the file or secret is then left with
      any content or none, though a removal makes none where there was none, and a unit is left dead. */
  datatype Fault = NoFault | NoEffect | FullEffect | Torn(residue: Option<string>)

  type Faults = Cmd -> Fault

  function TornValue(h: Host, c: Cmd, residue: Option<string>): Option<Val> {
    match c
    case WriteFile(_, _) | CreateSecret(_, _) => if residue.Some? then Some(Text(residue.value)) else None
    case RemoveFile(n) => if FileLoc(n) in h.at && residue.Some? then Some(Text(residue.value)) else None
    case RemoveSecret(k) => if Secret(k) in h.at && residue.Some? then Some(Text(residue.value)) else None
    case _ => None
  }

  datatype Outcome = Outcome(host: Host, ok: bool)

  function Do(h: Host, c: Cmd, faults: Faults): Outcome {
    if Refused(h, c) then Outcome(h, false)
    else match faults(c)
      case NoFault => Outcome(Exec(h, c), true)
      case NoEffect => Outcome(h, false)
      case FullEffect => Outcome(Exec(h, c), false)
      case Torn(residue) =>
        Outcome(if Target(c).Some? then h.(at := Put(h.at, Target(c).value, TornValue(h, c, residue))) else h, false)
  }

  // Run on, whatever fails.
  function RunAll(h: Host, cmds: seq<Cmd>, faults: Faults): Host
    decreases |cmds|
  {
    if cmds == [] then h else RunAll(Do(h, cmds[0], faults).host, cmds[1..], faults)
  }

  // Run up to the first failure.
  function RunUntil(h: Host, cmds: seq<Cmd>, faults: Faults): Outcome
    decreases |cmds|
  {
    if cmds == [] then Outcome(h, true)
    else
      var r := Do(h, cmds[0], faults);
      if r.ok then RunUntil(r.host, cmds[1..], faults) else r
  }

  // Run with nothing failing.
  function ExecAll(h: Host, cmds: seq<Cmd>): Host
    decreases |cmds|
  {
    if cmds == [] then h else ExecAll(Exec(h, cmds[0]), cmds[1..])
  }

  // ---- frame lemmas ---------------------------------------------------------------------------

  lemma LookExtensional(a: map<Loc, Val>, b: map<Loc, Val>)
    requires forall l :: Look(a, l) == Look(b, l)
    ensures a == b
  {
    forall l ensures l in a <==> l in b {
      assert Look(a, l) == Look(b, l);
    }
    forall l | l in a ensures a[l] == b[l] {
      assert Look(a, l) == Look(b, l);
    }
  }

  lemma {:induction false} RunUntilAppend(h: Host, a: seq<Cmd>, b: seq<Cmd>, faults: Faults)
    ensures var r := RunUntil(h, a, faults);
            RunUntil(h, a + b, faults) == if r.ok then RunUntil(r.host, b, faults) else r
    decreases |a|
  {
    if a == [] {
      assert a + b == b;
    } else {
      assert (a + b)[1..] == a[1..] + b;
      RunUntilAppend(Do(h, a[0], faults).host, a[1..], b, faults);
    }
  }

  lemma {:induction false} ExecAllAppend(h: Host, a: seq<Cmd>, b: seq<Cmd>)
    ensures ExecAll(h, a + b) == ExecAll(ExecAll(h, a), b)
    decreases |a|
  {
    if a == [] {
      assert a + b == b;
    } else {
      assert (a + b)[1..] == a[1..] + b;
      ExecAllAppend(Exec(h, a[0]), a[1..], b);
    }
  }

  lemma {:induction false} RunUntilOk(h: Host, cmds: seq<Cmd>, faults: Faults)
    requires RunUntil(h, cmds, faults).ok
    ensures RunUntil(h, cmds, faults).host == ExecAll(h, cmds)
    decreases |cmds|
  {
    if cmds != [] {
      RunUntilOk(Exec(h, cmds[0]), cmds[1..], faults);
    }
  }

  lemma {:induction false} Untouched(h: Host, cmds: seq<Cmd>, l: Loc)
    requires forall c | c in cmds :: Target(c) != Some(l)
    ensures Look(ExecAll(h, cmds).at, l) == Look(h.at, l)
    decreases |cmds|
  {
    if cmds != [] {
      assert cmds[0] in cmds;
      Untouched(Exec(h, cmds[0]), cmds[1..], l);
    }
  }

  // A command whose effect does not depend on the host.
  predicate Fixed(c: Cmd) {
    !c.StartUnit? && !c.RestartUnit? && !c.EnableUnit? && !c.RestartNative?
  }

  // If all the commands that aim at a location give it the same value, that is the value it ends with.
  lemma {:induction false} Assigned(h: Host, cmds: seq<Cmd>, l: Loc, v: Option<Val>)
    requires forall c | c in cmds && Target(c) == Some(l) :: Fixed(c) && Effect(FRESH, c) == v
    requires Look(h.at, l) == v || exists c | c in cmds :: Target(c) == Some(l)
    ensures Look(ExecAll(h, cmds).at, l) == v
    decreases |cmds|
  {
    if cmds != [] {
      var c0 := cmds[0];
      assert c0 in cmds;
      if Look(h.at, l) != v && Target(c0) != Some(l) {
        var c :| c in cmds && Target(c) == Some(l);
        assert c in cmds[1..];
      }
      Assigned(Exec(h, c0), cmds[1..], l, v);
    }
  }

  lemma {:induction false} LoadedKept(h: Host, cmds: seq<Cmd>)
    requires Reload !in cmds
    ensures ExecAll(h, cmds).loaded == h.loaded
    decreases |cmds|
  {
    if cmds != [] {
      assert cmds[0] in cmds;
      LoadedKept(Exec(h, cmds[0]), cmds[1..]);
    }
  }

  lemma SavedStep(h: Host, c: Cmd, faults: Faults)
    ensures Do(h, c, faults).host.saved == h.saved && Exec(h, c).saved == h.saved
  {
  }

  lemma {:induction false} SavedKept(h: Host, cmds: seq<Cmd>, faults: Faults)
    ensures RunUntil(h, cmds, faults).host.saved == h.saved
    ensures RunAll(h, cmds, faults).saved == h.saved
    ensures ExecAll(h, cmds).saved == h.saved
    decreases |cmds|
  {
    if cmds != [] {
      SavedStep(h, cmds[0], faults);
      SavedKept(Do(h, cmds[0], faults).host, cmds[1..], faults);
      SavedKept(Exec(h, cmds[0]), cmds[1..], faults);
    }
  }
}
