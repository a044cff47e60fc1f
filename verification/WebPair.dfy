/** web.container and web.kube: two accepted files of one cadre that share web.service, and what dropping one does. */
module WebPair {
  import opened Basics
  import opened Cadres
  import opened Convergence
  import opened Fileset
  import opened Freshness
  import opened Host
  import opened InPlace
  import opened Plan
  import opened Reconcile
  import opened SharedServices
  import opened Text

  // A unit file whose one line opens its required section.
  function UnitNamed(name: string, section: string): File {
    FileOf(Entry(name, Regular, "[" + section + "]"))
  }

  predicate Ordinary(name: string) {
    !IsReserved(name) && !("-" <= name) && IsUnitFile(name) && !IsSystemdUnit(name) && !IsReserved(UnitService(name))
  }

  predicate PlainSection(section: string) {
    section != "" && Lacks(section, '\n') && Lacks(section, '=') && |section| < 100
  }

  lemma BracketLine(section: string)
    requires PlainSection(section)
    ensures var line := "[" + section + "]";
            && Split(line, '\n') == [line] && |line| < MAX_LINE && Trim(line) == line
            && OpensSection(line) && NamesSection(line, section) && EnvRef(line) == None
  {
    var line := "[" + section + "]";
    assert Lacks(line, '\n') && Lacks(line, '=');
    SplitLacking(line, '\n');
    TrimBrackets(section);
    assert Trim(line) == line;
    assert "[" <= line;
  }

  lemma ValidNamed(name: string, section: string, have: set<string>)
    requires PlainSection(section) && RequiredSection(name) == Some(section)
    ensures ValidUnit(UnitNamed(name, section), have)
  {
    var line := "[" + section + "]";
    BracketLine(section);
    assert line in [line] && forall l | l in [line] :: l == line;
  }

  lemma PairAccepted(fs: seq<File>, m: Manifest)
    requires m.create == [] && m.logins == []
    requires forall f | f in fs :: Ordinary(f.name) && FlagsFollow(f) && ValidUnit(f, Names(fs))
    ensures Acceptable(fs, m, false)
  {
    forall f | f in fs ensures Ext(f.name) != ".service" {
      OrdinaryExt(f.name);
    }
  }

  lemma OrdinaryExt(name: string)
    requires Ordinary(name)
    ensures Ext(name) != ".service"
  {
  }

  lemma ByNameMembers(fs: seq<File>)
    requires DistinctNames(fs)
    ensures forall f | f in fs :: f.name in ByName(fs) && ByName(fs)[f.name] == f
    ensures forall n | n in ByName(fs) :: ByName(fs)[n] in fs && ByName(fs)[n].name == n
  {
    ByNameHolds(fs);
  }

  // Maps that list files under their names, one without a file the other has.
  lemma OneLess(some: map<string, File>, all: map<string, File>, fs: set<File>, b: File)
    requires forall f :: f in fs <==> f.name in all && all[f.name] == f
    requires forall n | n in all :: all[n].name == n
    requires forall f :: f in fs - {b} <==> f.name in some && some[f.name] == f
    requires forall n | n in some :: some[n].name == n
    requires b in fs
    ensures some == all - {b.name}
  {
    forall n ensures n in some <==> n in all && n != b.name
             ensures n in some ==> n in all && some[n] == all[n]
    {
      if n in some {
        assert some[n] in fs - {b};
      }
      if n in all && n != b.name {
        assert all[n] in fs - {b};
      }
    }
  }

  lemma DropSecond(a: File, b: File, ps: seq<File>)
    requires DistinctNames([a, b] + ps)
    ensures DistinctNames([a] + ps) && b in [a, b] + ps
    ensures forall f :: f in [a] + ps <==> f in [a, b] + ps && f != b
  {
    var fs, rest := [a, b] + ps, [a] + ps;
    assert fs[1] == b;
    assert forall i | 0 <= i < |rest| :: rest[i] == fs[if i == 0 then 0 else i + 1];
    assert forall i | 0 <= i < |fs| && i != 1 :: fs[i] == rest[if i == 0 then 0 else i - 1];
  }

  lemma WithoutSecond(a: File, b: File, ps: seq<File>)
    requires DistinctNames([a, b] + ps)
    ensures DistinctNames([a] + ps) && ByName([a] + ps) == ByName([a, b] + ps) - {b.name}
  {
    DropSecond(a, b, ps);
    ByNameMembers([a, b] + ps);
    ByNameMembers([a] + ps);
    var all := set f | f in [a, b] + ps;
    OneLess(ByName([a] + ps), ByName([a, b] + ps), all, b);
  }

  lemma SharedByTwo(a: File, b: File, ps: seq<File>, hashes: map<string, Digest>, r: Resources)
    requires DistinctNames([a, b] + ps) && a.isUnit && b.isUnit && UnitService(a.name) == UnitService(b.name)
    requires forall f | f in ps :: !f.isUnit
    ensures Share(Desired(ByName([a, b] + ps), hashes, r), b.name, a.name)
  {
    var fs := [a, b] + ps;
    ByNameHolds(fs);
    assert fs[0] == a && fs[1] == b;
    forall w | w in ByName(fs) && ByName(fs)[w].isUnit ensures w == a.name || w == b.name {
      assert ByName(fs)[w] in fs;
    }
  }

  lemma PruneIsNative(p: Prune)
    ensures forall f | f in PruneFiles(p) :: !f.isUnit
  {
    forall f | f in PruneFiles(p) ensures !f.isUnit {
      PruneNames(p, f);
    }
  }

  lemma FirstLoaded(c: Cadre, a: File, b: File)
    requires LoadedCadre(c) && c.files == [a, b]
    ensures LoadedCadre(c.(files := [a])) && DistinctNames([a, b] + PruneFiles(c.prune))
  {
    PruneFits(c);
    assert forall f | f in [a] :: f in c.files;
  }

  // The goals of a cadre with two files, and with the first alone.
  lemma PairGoals(c: Cadre, a: File, b: File, uid: int)
    requires LoadedCadre(c) && c.files == [a, b] && c.logins == [] && a.isUnit && b.isUnit && UnitService(a.name) == UnitService(b.name)
    ensures GoalOf(c, NoSecrets, uid).Some? && GoalOf(c.(files := [a]), NoSecrets, uid).Some?
    ensures var g := GoalOf(c, NoSecrets, uid).value;
            && ValidGoal(g) && LoginsResolve(g) && Share(g.d, b.name, a.name)
            && GoalOf(c.(files := [a]), NoSecrets, uid).value == Less(g, b.name)
  {
    FirstLoaded(c, a, b);
    GoalIsValid(c, NoSecrets, uid);
    PruneIsNative(c.prune);
    WithoutSecond(a, b, PruneFiles(c.prune));
    SharedByTwo(a, b, PruneFiles(c.prune), map[], c.resources);
  }

  lemma PairLoaded(c: Cadre, m: Manifest, a: File, b: File)
    requires c.files == [a, b] && a.name != b.name && Acceptable(c.files, m, false)
    requires LoadedFile(a) && LoadedFile(b)
    ensures LoadedCadre(c)
  {
    assert forall f | f in c.files :: NameAllowed(f);
  }

  /** Any two ordinary units of one service in one cadre, valid by themselves, are accepted, with the synthesized prune
      units or without; and dropping the second loses the service the first still wants. */
  lemma AcceptedPairLosesService(c: Cadre, m: Manifest, a: File, b: File, uid: int, faults: Faults, once: Host)
    requires c.files == [a, b] && a.name != b.name && UnitService(a.name) == UnitService(b.name)
    requires c.logins == m.logins == [] && m.create == [] && Faultless(faults)
    requires Ordinary(a.name) && Ordinary(b.name) && LoadedFile(a) && LoadedFile(b)
    requires ValidUnit(a, {}) && ValidUnit(b, {})
    ensures Acceptable([a, b], m, false) && Acceptable([a], m, false) && LoadedCadre(c) && LoadedCadre(c.(files := [a]))
    ensures GoalOf(c, NoSecrets, uid).Some? && GoalOf(c.(files := [a]), NoSecrets, uid).Some?
    ensures var both, one := GoalOf(c, NoSecrets, uid).value, GoalOf(c.(files := [a]), NoSecrets, uid).value;
            && ValidGoal(both) && ValidGoal(one) && WantsService(one.d, UnitService(a.name))
            && (once == Pass(FRESH, both, faults).host ==>
                  && Pass(FRESH, both, faults).ok && Service(UnitService(a.name)) in once.at
                  && Pass(once, one, faults).ok && Service(UnitService(a.name)) !in Pass(once, one, faults).host.at)
  {
    HaveGrows(a, Names([a, b]));
    HaveGrows(b, Names([a, b]));
    HaveGrows(a, Names([a]));
    PairAccepted([a, b], m);
    PairAccepted([a], m);
    PairLoaded(c, m, a, b);
    FirstLoaded(c, a, b);
    PairGoals(c, a, b, uid);
    var both := GoalOf(c, NoSecrets, uid).value;
    DroppingOneLosesBoth(both, b.name, a.name, faults, Pass(FRESH, both, faults).host);
  }

  // A unit valid on its own is valid among others.
  lemma HaveGrows(f: File, have: set<string>)
    requires ValidUnit(f, {})
    ensures ValidUnit(f, have)
  {
    forall l | l in Split(f.content, '\n') ensures LineOk(l, have) {
      assert LineOk(l, {});
    }
  }

  lemma WebUnit(ext: string, section: string)
    requires (ext == "container" && section == "Container") || (ext == "kube" && section == "Kube")
    ensures var name := "web" + "." + ext;
            Ordinary(name) && RequiredSection(name) == Some(section) && UnitService(name) == "web" + ".service"
  {
    var name := "web" + "." + ext;
    ExtOf("web", ext);
    LastDotAt("web", ext);
    CutExt("web", ext);
    assert name[0] == 'w' && |UnitService(name)| == 11;
  }

  lemma WebSections()
    ensures PlainSection("Container") && PlainSection("Kube")
  {
  }

  lemma OrdinaryFile(name: string, section: string)
    requires Ordinary(name) && RequiredSection(name) == Some(section) && PlainSection(section)
    ensures var f := UnitNamed(name, section); f.name == name && LoadedFile(f) && ValidUnit(f, {})
  {
    ValidNamed(name, section, {});
  }

  /** The concrete pair: web.container and web.kube are such units. */
  lemma WebContainerAndKube()
    ensures var a, b := UnitNamed("web" + "." + "container", "Container"), UnitNamed("web" + "." + "kube", "Kube");
            && a.name != b.name && UnitService(a.name) == UnitService(b.name)
            && Ordinary(a.name) && Ordinary(b.name) && LoadedFile(a) && LoadedFile(b) && ValidUnit(a, {}) && ValidUnit(b, {})
  {
    WebSections();
    WebUnit("container", "Container");
    WebUnit("kube", "Kube");
    OrdinaryFile("web" + "." + "container", "Container");
    OrdinaryFile("web" + "." + "kube", "Kube");
  }

  /** A cadre of web.container and web.kube is accepted, with prune units or without; web.service runs after its first
      pass; and without web.kube, still wanted by web.container, it does not run after the second. */
  lemma WebServiceLost(c: Cadre, m: Manifest, uid: int, faults: Faults, once: Host)
    requires c.files == [UnitNamed("web" + "." + "container", "Container"), UnitNamed("web" + "." + "kube", "Kube")]
    requires c.logins == m.logins == [] && m.create == [] && Faultless(faults)
    ensures Acceptable(c.files, m, false) && Acceptable([c.files[0]], m, false)
    ensures var one := c.(files := [c.files[0]]);
            && GoalOf(c, NoSecrets, uid).Some? && GoalOf(one, NoSecrets, uid).Some?
            && (var g, g1 := GoalOf(c, NoSecrets, uid).value, GoalOf(one, NoSecrets, uid).value;
                var s := Service(UnitService(c.files[0].name));
                && ValidGoal(g) && ValidGoal(g1) && WantsService(g1.d, s.service)
                && (once == Pass(FRESH, g, faults).host ==>
                      && Pass(FRESH, g, faults).ok && s in once.at
                      && Pass(once, g1, faults).ok && s !in Pass(once, g1, faults).host.at))
  {
    var a, b := c.files[0], c.files[1];
    WebContainerAndKube();
    AcceptedPairLosesService(c, m, a, b, uid, faults, once);
  }
}
