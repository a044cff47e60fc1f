/** What a cadre's directory becomes on its node: from the entries, the manifest and the secrets to the files, secrets,
    services and enabled units of a host that has reached the goal. */
module Deployment {
  import opened Basics
  import opened Cadres
  import opened Convergence
  import opened Fileset
  import opened Freshness
  import opened Host
  import opened Plan
  import opened Reconcile
  import opened Segments
  import opened Stages
  import opened Text

  // ---- the files of a directory -----------------------------------------------------------------------------------------

  /** An entry that goes to the node: any regular file but the manifest, the secrets file, a SOPS file or a sealed age
      identity. */
  ghost predicate Ships(e: Entry, from: string) {
    && e.kind.Regular? && e.name != "rucher.yml" && e.name != from
    && (forall x :: e.name != x + ".sops.yaml")
    && e.name != "identity.age" && (forall x :: e.name != "identity." + x + ".age")
  }

  lemma EndsIn(s: string, suffix: string)
    ensures HasSuffix(s, suffix) <==> exists x :: s == x + suffix
  {
    if HasSuffix(s, suffix) {
      assert s == s[..|s| - |suffix|] + suffix;
    }
    if x :| s == x + suffix {
      assert (x + suffix)[|x|..] == suffix;
    }
  }

  lemma Enclosed(s: string, front: string, back: string)
    requires front <= s && HasSuffix(s, back) && |s| >= |front| + |back|
    ensures s == front + s[|front|..|s| - |back|] + back
  {
  }

  lemma IdentityName(s: string)
    ensures "identity." <= s && HasSuffix(s, ".age") <==> s == "identity.age" || exists x :: s == "identity." + x + ".age"
  {
    if "identity." <= s && HasSuffix(s, ".age") {
      if |s| >= 13 {
        Enclosed(s, "identity.", ".age");
      } else {
        assert s[|s| - 4] == '.';
        assert |s| == 12;
        assert s == s[..8] + s[8..];
      }
    }
    if x :| s == "identity." + x + ".age" {
      EndsIn("identity." + x + ".age", ".age");
    }
  }

  lemma ShipsExactly(e: Entry, from: string)
    ensures Shipped(e, from) <==> Ships(e, from)
  {
    EndsIn(e.name, ".sops.yaml");
    IdentityName(e.name);
  }

  /** A directory fails to load exactly when it holds something that is neither a file nor a directory, or a file that
      should ship and cannot be read; and its secrets are there exactly when the file the manifest names is. */
  lemma DirectoryMeaning(entries: seq<Entry>, from: string)
    ensures NoneFails(entries, from) <==>
            forall e | e in entries :: !e.kind.Irregular? && (e.kind.Unreadable? ==> !Ships(e.(kind := Regular), from))
    ensures HasSops(entries, from) <==> exists e | e in entries :: e.name == from && !e.kind.Directory? && !e.kind.Irregular?
  {
    forall e | e in entries
      ensures Fails(e, from) <==> e.kind.Irregular? || (e.kind.Unreadable? && Ships(e.(kind := Regular), from))
    {
      ShipsExactly(e.(kind := Regular), from);
    }
  }

  lemma ShippedFiles(entries: seq<Entry>, from: string)
    requires DistinctEntries(entries)
    ensures DistinctNames(FilesOf(entries, from))
    ensures forall e | e in entries && Ships(e, from) :: FileOf(e) in FilesOf(entries, from)
    ensures forall f | f in FilesOf(entries, from) :: exists e | e in entries :: Ships(e, from) && f == FileOf(e)
  {
    FilesOfDistinct(entries, from);
    FilesOfMembers(entries, from);
    forall e ensures Shipped(e, from) <==> Ships(e, from) {
      ShipsExactly(e, from);
    }
  }

  /** The entry a file of the goal comes from. */
  ghost predicate From(entries: seq<Entry>, from: string, n: string, content: string) {
    exists e | e in entries :: Ships(e, from) && e.name == n && e.content == content
  }

  lemma FileFrom(entries: seq<Entry>, fs: seq<File>, from: string, f: File)
    requires DistinctEntries(entries) && fs == FilesOf(entries, from) && f in fs
    ensures From(entries, from, f.name, f.content)
  {
    ShippedFiles(entries, from);
    var e :| e in entries && Ships(e, from) && f == FileOf(e);
    assert e.name == f.name && e.content == f.content;
  }

  /** The files of a goal are those of the directory that ship, and the synthesized ones. */
  ghost predicate Sourced(entries: seq<Entry>, from: string, more: seq<File>, files: map<string, File>) {
    && Named(files)
    && (forall n | n in files :: From(entries, from, n, files[n].content) || files[n] in more)
    && (forall e | e in entries && Ships(e, from) :: e.name in files && files[e.name].content == e.content)
    && (forall f | f in more :: f.name in files && files[f.name] == f)
  }

  lemma AllSourced(entries: seq<Entry>, from: string, fs: seq<File>, more: seq<File>)
    requires DistinctEntries(entries) && fs == FilesOf(entries, from) && ValidFiles(fs + more)
    ensures Sourced(entries, from, more, ByName(fs + more))
  {
    var files := ByName(fs + more);
    ByNameHolds(fs + more);
    forall n | n in files ensures From(entries, from, n, files[n].content) || files[n] in more {
      if files[n] in fs {
        FileFrom(entries, fs, from, files[n]);
      }
    }
    forall e | e in entries && Ships(e, from) ensures e.name in files && files[e.name].content == e.content {
      ShippedFiles(entries, from);
      assert FileOf(e) in fs + more;
    }
    forall f | f in more ensures f.name in files && files[f.name] == f {
      assert f in fs + more;
    }
  }

  // ---- on the host -------------------------------------------------------------------------------------------------------

  function CadreOf(entries: seq<Entry>, m: Manifest): Cadre {
    Shipping(m, FilesOf(entries, m.from))
  }

  /** What is taken for granted: the directory was accepted, its secrets file gives a goal, and the host has reached it. */
  ghost predicate Deployed(entries: seq<Entry>, m: Manifest, s: SecretsFile, uid: int, h: Host) {
    && DistinctEntries(entries) && Acceptable(FilesOf(entries, m.from), m, HasSops(entries, m.from))
    && GoalOf(CadreOf(entries, m), s, uid).Some? && Reached(h, GoalOf(CadreOf(entries, m), s, uid).value)
  }

  lemma GoalOfDirectory(entries: seq<Entry>, m: Manifest, s: SecretsFile, uid: int, h: Host) returns (g: Goal)
    requires Deployed(entries, m, s, uid, h)
    ensures Reached(h, g) && Sourced(entries, m.from, PruneFiles(m.prune), g.d.files)
  {
    var c := CadreOf(entries, m);
    AcceptedIsLoaded(entries, m, HasSops(entries, m.from), c);
    GoalIsValid(c, s, uid);
    PruneFits(c);
    AllSourced(entries, m.from, c.files, PruneFiles(m.prune));
    g := GoalOf(c, s, uid).value;
  }

  // A name among these files.
  predicate NameOf(fs: seq<File>, n: string) {
    exists f | f in fs :: f.name == n
  }

  ghost predicate FilesFrom(entries: seq<Entry>, from: string, more: seq<File>, h: Host) {
    && (forall e | e in entries && Ships(e, from) :: Look(h.at, FileLoc(e.name)) == Some(Text(e.content)))
    && (forall f | f in more :: Look(h.at, FileLoc(f.name)) == Some(Text(f.content)))
    && (forall l | IsFileLoc(l) && l in h.at ::
          && l == FileLoc(l.name) && h.at[l].Text?
          && (From(entries, from, l.name, h.at[l].content) || NameOf(more, l.name)))
  }

  lemma FilesReached(entries: seq<Entry>, from: string, more: seq<File>, g: Goal, h: Host)
    requires Reached(h, g) && Sourced(entries, from, more, g.d.files)
    ensures FilesFrom(entries, from, more, h)
  {
    forall n ensures Look(h.at, FileLoc(n)) == AsText(WantedText(g, n)) {
      assert IsFileLoc(FileLoc(n)) && FileLoc(n).name == n;
    }
    forall l | IsFileLoc(l) && l in h.at
      ensures l == FileLoc(l.name) && h.at[l].Text? && (From(entries, from, l.name, h.at[l].content) || NameOf(more, l.name))
    {
      assert Look(h.at, l) == if l == FileLoc(l.name) then AsText(WantedText(g, l.name)) else None;
    }
  }

  /** The files on the node are those of the directory that ship, with their contents, and the prune units if enabled;
      nothing else of the directory gets there, above all no SOPS file and no identity. */
  lemma FilesOnHost(entries: seq<Entry>, m: Manifest, s: SecretsFile, uid: int, h: Host)
    requires Deployed(entries, m, s, uid, h)
    ensures FilesFrom(entries, m.from, PruneFiles(m.prune), h)
  {
    var g := GoalOfDirectory(entries, m, s, uid, h);
    FilesReached(entries, m.from, PruneFiles(m.prune), g, h);
  }

  ghost predicate RunsFor(entries: seq<Entry>, from: string, service: string) {
    exists e | e in entries :: Ships(e, from) && IsUnitFile(e.name) && UnitService(e.name) == service
  }

  lemma ServicesReached(entries: seq<Entry>, from: string, more: seq<File>, g: Goal, h: Host, service: string)
    requires Reached(h, g) && Sourced(entries, from, more, g.d.files) && forall f | f in more :: !f.isUnit
    ensures Service(service) in h.at <==> RunsFor(entries, from, service)
  {
    var files := g.d.files;
    if WantsService(g.d, service) {
      var n :| n in files && files[n].isUnit && UnitService(n) == service;
      assert From(entries, from, n, files[n].content);
    }
    if RunsFor(entries, from, service) {
      var e :| e in entries && Ships(e, from) && IsUnitFile(e.name) && UnitService(e.name) == service;
      assert files[e.name].isUnit;
    }
  }

  /** The services that run are those of the shipped Quadlet files. */
  lemma ServicesOnHost(entries: seq<Entry>, m: Manifest, s: SecretsFile, uid: int, h: Host, service: string)
    requires Deployed(entries, m, s, uid, h)
    ensures Service(service) in h.at <==> RunsFor(entries, m.from, service)
  {
    var g := GoalOfDirectory(entries, m, s, uid, h);
    forall f | f in PruneFiles(m.prune) ensures !f.isUnit {
      PruneNames(m.prune, f);
    }
    ServicesReached(entries, m.from, PruneFiles(m.prune), g, h, service);
  }

  ghost predicate EnabledFor(entries: seq<Entry>, from: string, more: seq<File>, u: string) {
    || (exists e | e in entries :: Ships(e, from) && e.name == u && ShouldEnable(e.name, e.content))
    || (exists f | f in more :: f.name == u && ShouldEnable(f.name, f.content))
  }

  lemma NativesReached(entries: seq<Entry>, from: string, more: seq<File>, g: Goal, h: Host, u: string)
    requires Reached(h, g) && Sourced(entries, from, more, g.d.files)
    ensures Native(u) in h.at <==> EnabledFor(entries, from, more, u)
  {
    var files := g.d.files;
    if u in files && Enabled(files[u]) && files[u] !in more {
      assert From(entries, from, u, files[u].content);
      var e :| e in entries && Ships(e, from) && e.name == u && e.content == files[u].content;
      assert ShouldEnable(e.name, e.content);
    }
  }

  // ---- the prune units ---------------------------------------------------------------------------------------------------

  // A line that opens with neither a space nor a bracket heads no section.
  lemma {:induction false} OpensPlainly(line: string, header: string)
    requires line != "" && !IsSpace(line[0]) && line[0] != '[' && "[" <= header
    ensures Trim(line) != header
  {
    FirstStays(line);
  }

  lemma {:induction false} FirstStays(s: string)
    requires s != "" && !IsSpace(s[0])
    ensures TrimRight(s) != "" && TrimRight(s)[0] == s[0]
  {
    if IsSpace(s[|s| - 1]) {
      FirstStays(s[..|s| - 1]);
    }
  }

  lemma Heads(name: string)
    requires name != ""
    ensures Trim("[" + name + "]") == "[" + name + "]"
  {
  }

  lemma LacksBoth(a: string, b: string, c: char)
    requires Lacks(a, c) && Lacks(b, c)
    ensures Lacks(a + b, c)
  {
  }

  lemma PruneLiterals()
    ensures Lacks(ABOUT_PRUNE, '\n') && ABOUT_PRUNE[..1] == "D" && Lacks(ABOUT_TIMER, '\n')
  {
    LacksBoth("Description=rucher: ", "prune unused podman images", '\n');
    LacksBoth("Description=rucher: ", "schedule podman image pruning", '\n');
  }

  lemma PruneCommand()
    ensures Lacks(PRUNE_IMAGES, '\n') && PRUNE_IMAGES[..1] == "E"
  {
    LacksBoth("ExecStart=/usr/bin/podman ", "image prune --all --force --filter ", '\n');
    LacksBoth("ExecStart=/usr/bin/podman " + "image prune --all --force --filter ", "until=", '\n');
  }

  // One line, and not the header of an install section.
  predicate PlainLine(line: string) {
    Lacks(line, '\n') && Trim(line) != "[Install]"
  }

  lemma PlainHeader(name: string)
    requires name == "Unit" || name == "Service"
    ensures PlainLine("[" + name + "]")
  {
    Heads(name);
    assert ("[" + name + "]")[1] == name[0] && "[Install]"[1] == 'I';
  }

  lemma PlainWords(line: string)
    requires Lacks(line, '\n') && line != "" && 'A' <= line[0] <= 'Z'
    ensures PlainLine(line)
  {
    OpensPlainly(line, "[Install]");
  }

  lemma SixPlain(a: string, b: string, c: string, d: string, e: string)
    requires PlainLine(a) && PlainLine(b) && PlainLine(c) && PlainLine(d) && PlainLine(e)
    ensures forall line | line in [a, b, "", c, d, e] :: PlainLine(line)
  {
  }

  lemma ServiceLinesHold(until: string)
    requires Lacks(until, '\n')
    ensures forall line | line in PruneServiceLines(until) :: PlainLine(line)
  {
    PruneLiterals();
    PruneCommand();
    PlainHeader("Unit");
    PlainHeader("Service");
    assert "[Unit]" == "[" + "Unit" + "]" && "[Service]" == "[" + "Service" + "]";
    PlainWords(ABOUT_PRUNE);
    PlainWords("Type=oneshot");
    PlainWords(PRUNE_IMAGES + until);
    SixPlain("[Unit]", ABOUT_PRUNE, "[Service]", "Type=oneshot", PRUNE_IMAGES + until);
  }

  lemma TimerLinesHold(schedule: string)
    requires Lacks(schedule, '\n')
    ensures forall line | line in PruneTimerLines(schedule) :: Lacks(line, '\n')
  {
    PruneLiterals();
    LacksBoth("OnCalendar=", schedule, '\n');
  }

  predicate Prunes(lines: seq<string>, until: string) {
    "ExecStart=/usr/bin/podman " + "image prune --all --force --filter " + "until=" + until in lines
  }

  lemma TimerText(schedule: string)
    requires Lacks(schedule, '\n')
    ensures var lines := Split(Lined(PruneTimerLines(schedule)), '\n'); "OnCalendar=" + schedule in lines
  {
    var lines := PruneTimerLines(schedule);
    TimerLinesHold(schedule);
    SplitLined(lines);
    assert lines[4] in lines;
  }

  lemma PlainText(lines: seq<string>)
    requires forall line | line in lines :: PlainLine(line)
    ensures Split(Lined(lines), '\n') == lines + [""] && !Installs(lines + [""])
  {
    forall i | 0 <= i < |lines| ensures Lacks(lines[i], '\n') {
      assert PlainLine(lines[i]);
    }
    SplitLined(lines);
    assert forall line | line in lines + [""] :: Trim(line) != "[Install]";
  }

  lemma ServiceText(until: string)
    requires Lacks(until, '\n')
    ensures var lines := Split(Lined(PruneServiceLines(until)), '\n'); !Installs(lines) && Prunes(lines, until)
  {
    ServiceLinesHold(until);
    PlainText(PruneServiceLines(until));
    LastIn(PruneServiceLines(until)[..5], PRUNE_IMAGES + until);
  }

  lemma LastIn(front: seq<string>, line: string)
    ensures line in front + [line] + [""]
  {
    assert (front + [line] + [""])[|front|] == line;
  }

  /** The synthesized service prunes images unused for as long as asked, a week by default, and has no install section; the
      timer says when, daily by default. */
  lemma PruneUnitsSay(p: Prune, f: File)
    requires f in PruneFiles(p) && Lacks(p.until, '\n') && Lacks(p.schedule, '\n')
    ensures p.enabled && (f.name == "rucher-prune.service" || f.name == "rucher-prune.timer")
    ensures var lines := Split(f.content, '\n');
            && (f.name == "rucher-prune.timer" ==> "OnCalendar=" + (if p.schedule == "" then "daily" else p.schedule) in lines)
            && (f.name == "rucher-prune.service" ==> !Installs(lines) && Prunes(lines, if p.until == "" then "168h" else p.until))
  {
    if f.name == PRUNE_TIMER {
      TimerText(if p.schedule == "" then "daily" else p.schedule);
    } else {
      ServiceText(if p.until == "" then "168h" else p.until);
    }
  }

  lemma PruneEnabled(f: File)
    requires f.name == PRUNE_TIMER || (f.name == PRUNE_SERVICE && !Installs(Split(f.content, '\n')))
    ensures ShouldEnable(f.name, f.content) <==> f.name == PRUNE_TIMER
  {
    assert PRUNE_SERVICE == "rucher-prune" + "." + "service" && PRUNE_TIMER == "rucher-prune" + "." + "timer";
    EnabledByName("rucher-prune", if f.name == PRUNE_TIMER then "timer" else "service", f.content);
  }

  lemma PruneEnables(p: Prune, u: string)
    requires Lacks(p.until, '\n') && Lacks(p.schedule, '\n')
    ensures (exists f | f in PruneFiles(p) :: f.name == u && ShouldEnable(f.name, f.content)) <==> p.enabled && u == "rucher-prune.timer"
  {
    forall f | f in PruneFiles(p) ensures ShouldEnable(f.name, f.content) <==> f.name == PRUNE_TIMER {
      PruneUnitsSay(p, f);
      PruneEnabled(f);
    }
    NoneOrPair(p);
    if p.enabled {
      var service, timer :| PruneFiles(p) == PrunePair(service, timer);
      assert PruneFiles(p)[1].name == PRUNE_TIMER;
    }
  }

  /** The native units enabled are the shipped ones that are to be, and the prune timer if pruning is on; never the service
      it fires. */
  lemma NativesOnHost(entries: seq<Entry>, m: Manifest, s: SecretsFile, uid: int, h: Host, u: string)
    requires Deployed(entries, m, s, uid, h) && Lacks(m.prune.until, '\n') && Lacks(m.prune.schedule, '\n')
    ensures Native(u) in h.at <==>
              || (exists e | e in entries :: Ships(e, m.from) && e.name == u && ShouldEnable(e.name, e.content))
              || (m.prune.enabled && u == "rucher-prune.timer")
  {
    var g := GoalOfDirectory(entries, m, s, uid, h);
    NativesReached(entries, m.from, PruneFiles(m.prune), g, h, u);
    PruneEnables(m.prune, u);
  }

  // ---- the secrets -------------------------------------------------------------------------------------------------------

  /** A directory gives no goal exactly when its secrets file does not decrypt or lacks a key the manifest lists. */
  lemma GoalGiven(c: Cadre, s: SecretsFile, uid: int)
    ensures GoalOf(c, s, uid).None? <==>
              s.Undecryptable? || (s.Decrypted? && exists i | 0 <= i < |c.create| :: c.create[i] !in s.values)
  {
    if s.Decrypted? {
      if k :| k in c.create && k !in s.values {
        var i :| 0 <= i < |c.create| && c.create[i] == k;
      }
      if i :| 0 <= i < |c.create| && c.create[i] !in s.values {
        assert c.create[i] in c.create;
      }
    }
  }

  /** Without a list every value that is not empty becomes a secret, with one exactly the keys it lists; each with the value
      that was decrypted. */
  lemma SecretsOnHost(entries: seq<Entry>, m: Manifest, values: map<string, string>, uid: int, h: Host, k: string)
    requires Deployed(entries, m, Decrypted(values), uid, h)
    ensures Look(h.at, Secret(k)) ==
              if k in values && (if m.create == [] then values[k] != "" else k in m.create) then Some(Text(values[k])) else None
  {
    var g := GoalOf(CadreOf(entries, m), Decrypted(values), uid).value;
    SecretsGiven(CadreOf(entries, m), values, uid, k);
    assert Look(h.at, Secret(k)) == AsText(WantedSecret(g, k));
  }

  lemma SecretsGiven(c: Cadre, values: map<string, string>, uid: int, k: string)
    requires GoalOf(c, Decrypted(values), uid).Some?
    ensures var g := GoalOf(c, Decrypted(values), uid).value;
            && g.values == values
            && (k in g.d.secretHashes <==> k in values && if c.create == [] then values[k] != "" else k in c.create)
  {
  }

  /** Without a secrets file there are no secrets, nor is a login possible. */
  lemma NoSecretsOnHost(entries: seq<Entry>, m: Manifest, uid: int, h: Host, k: string)
    requires Deployed(entries, m, NoSecrets, uid, h)
    ensures Secret(k) !in h.at
  {
    var g := GoalOf(CadreOf(entries, m), NoSecrets, uid).value;
    assert Look(h.at, Secret(k)) == AsText(WantedSecret(g, k));
  }

  /** And a faultless pass from any matching host does reach the goal of an accepted directory. */
  lemma PassDeploys(entries: seq<Entry>, m: Manifest, s: SecretsFile, uid: int, h: Host, g: Goal, faults: Faults)
    requires DistinctEntries(entries) && Acceptable(FilesOf(entries, m.from), m, HasSops(entries, m.from))
    requires GoalOf(CadreOf(entries, m), s, uid) == Some(g)
    requires Sound(g, h) && LoginsResolve(g) && Faultless(faults)
    ensures Deployed(entries, m, s, uid, Pass(h, g, faults).host) && LimitsOn(Pass(h, g, faults).host.at) == m.resources
  {
    PassConverges(h, g, faults);
  }

  // What a directory and its secrets give.
  predicate Gives(entries: seq<Entry>, m: Manifest, s: SecretsFile, uid: int, g: Goal) {
    GoalOf(CadreOf(entries, m), s, uid) == Some(g)
  }

  predicate HavePasswords(logins: seq<Login>, s: SecretsFile) {
    forall i | 0 <= i < |logins| :: s.Decrypted? && logins[i].passwordKey in s.values
  }

  lemma LoginsGiven(c: Cadre, s: SecretsFile, uid: int)
    requires GoalOf(c, s, uid).Some?
    ensures var g := GoalOf(c, s, uid).value;
            g.logins == c.logins && g.uid == uid && g.values == if s.Decrypted? then s.values else map[]
  {
  }

  lemma GoalLogins(entries: seq<Entry>, m: Manifest, s: SecretsFile, uid: int, g: Goal)
    requires Gives(entries, m, s, uid, g)
    ensures LoginsResolve(g) <==> HavePasswords(m.logins, s)
  {
    LoginsGiven(CadreOf(entries, m), s, uid);
    assert g.logins == m.logins;
    if s.Decrypted? {
      assert g.values == s.values;
    } else {
      assert g.values == map[];
      assert LoginsResolve(g) <==> m.logins == [] by {
        if m.logins != [] {
          assert g.logins[0].passwordKey !in g.values;
        }
      }
      assert HavePasswords(m.logins, s) <==> m.logins == [];
    }
  }

  lemma NothingSaved(g: Goal)
    ensures NextState(g).registries == EMPTY_STATE.registries <==> g.logins == []
  {
  }

  lemma FirstPassGate(g: Goal, faults: Faults)
    requires Sound(g, FRESH) && Faultless(faults)
    ensures Pass(FRESH, g, faults).ok <==> LoginsResolve(g)
  {
    HalfAppliedSelf(FRESH, g);
    LoginsGate(FRESH, FRESH, g, faults);
    NothingSaved(g);
  }

  /** A faultless first pass for a directory reaches its save exactly when every login the manifest lists has its password
      among the decrypted secrets. */
  lemma FirstPassLogsIn(entries: seq<Entry>, m: Manifest, s: SecretsFile, uid: int, g: Goal, faults: Faults)
    requires Gives(entries, m, s, uid, g) && Sound(g, FRESH) && Faultless(faults)
    ensures Pass(FRESH, g, faults).ok <==> HavePasswords(m.logins, s)
  {
    GoalLogins(entries, m, s, uid, g);
    FirstPassGate(g, faults);
  }
}
