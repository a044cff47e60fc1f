/** What `Validate` accepts, said of the written lines and names: the lines name no section table and no parsed reference. */
module Acceptance {
  import opened Basics
  import opened Cadres
  import opened Fileset
  import opened Plan
  import opened References
  import opened Text

  // ---- environment files -------------------------------------------------------------------------------------------------

  /** The file of the cadre that such a value asks for: one in the unit directory, or a bare name; an optional value, or a
      path elsewhere, asks for none. */
  ghost predicate AsksFor(val: string, n: string) {
    && val != "" && val[0] != '-'
    && ((exists rest :: val == "%h/.config/containers/systemd/" + rest && Base(rest) == n) || (Lacks(val, '/') && val == n))
  }

  lemma DirHasSlash(rest: string)
    ensures '/' in UNIT_DIR + rest && (UNIT_DIR + rest)[0] == '%' && (UNIT_DIR + rest)[|UNIT_DIR|..] == rest
  {
    assert (UNIT_DIR + rest)[2] == '/';
  }

  lemma LocalMeaning(val: string, n: string)
    ensures LocalEnvFile(val) == Some(n) <==> AsksFor(val, n)
  {
    if UNIT_DIR <= val {
      var rest := val[|UNIT_DIR|..];
      assert val == UNIT_DIR + rest;
      DirHasSlash(rest);
      forall other | val == UNIT_DIR + other ensures other == rest {
        DirHasSlash(other);
      }
    }
  }

  lemma {:induction false} Partition(s: string, sep: char)
    requires sep in s
    ensures Lacks(Before(s, sep), sep) && s == Before(s, sep) + [sep] + After(s, sep)
  {
    if s[0] != sep {
      Partition(s[1..], sep);
    }
  }

  lemma ReferenceMeaning(line: string, n: string)
    ensures EnvRef(line) == Some(n) <==> exists val :: Says(line, "EnvironmentFile", val) && AsksFor(val, n)
  {
    var l := Trim(line);
    if '=' in l {
      Partition(l, '=');
      assert l == Before(l, '=') + "=" + After(l, '=');
      LocalMeaning(Trim(After(l, '=')), n);
      if EnvRef(line) == Some(n) {
        assert Says(line, "EnvironmentFile", Trim(After(l, '=')));
      }
    }
    if val :| Says(line, "EnvironmentFile", val) && AsksFor(val, n) {
      LineParts(line, "EnvironmentFile", val);
      TrimTwice(line);
      LocalMeaning(val, n);
    }
  }

  // ---- sections ----------------------------------------------------------------------------------------------------------

  // The section a Quadlet file must have: its extension with a capital.
  function Capital(ext: string): string {
    if ext != "" && 'a' <= ext[0] <= 'z' then [(ext[0] as int - 32) as char] + ext[1..] else ext
  }

  lemma Capitals()
    ensures Capital("container") == "Container" && Capital("volume") == "Volume" && Capital("network") == "Network"
    ensures Capital("pod") == "Pod" && Capital("kube") == "Kube" && Capital("image") == "Image" && Capital("build") == "Build"
  {
  }

  lemma SectionMeaning(stem: string, ext: string)
    requires '.' !in ext && '/' !in ext
    ensures RequiredSection(stem + "." + ext) == if ext in QUADLET then Some(Capital(ext)) else None
  {
    ExtOf(stem, ext);
    Capitals();
    QuadletDotted(ext);
  }

  /** One of the names some text says of a file. */
  ghost predicate Named(name: string, stem: string, ext: string) {
    name == stem + "." + ext && '.' !in ext && '/' !in ext
  }

  lemma SectionHasDot(name: string)
    requires RequiredSection(name).Some?
    ensures DotIndex(name) >= 0
  {
  }

  lemma SectionNamed(name: string, section: string)
    requires RequiredSection(name) == Some(section)
    ensures exists stem, ext :: Named(name, stem, ext) && ext in QUADLET && section == Capital(ext)
  {
    SectionHasDot(name);
    var stem, ext := ByDot(name);
    SectionMeaning(stem, ext);
    assert Named(name, stem, ext);
  }

  lemma NeedsSection(name: string, section: string)
    ensures RequiredSection(name) == Some(section) <==>
            exists stem, ext :: Named(name, stem, ext) && ext in QUADLET && section == Capital(ext)
  {
    if RequiredSection(name) == Some(section) {
      SectionNamed(name, section);
    }
    if stem, ext :| Named(name, stem, ext) && ext in QUADLET && section == Capital(ext) {
      SectionMeaning(stem, ext);
    }
  }

  ghost predicate Opened(lines: seq<string>) {
    exists l | l in lines :: "[" <= Trim(l)
  }

  ghost predicate Headed(lines: seq<string>, section: string) {
    exists l | l in lines :: Trim(l) == "[" + section + "]"
  }

  // A line the scanner takes, asking for no file that is not there.
  ghost predicate Readable(line: string, have: set<string>) {
    |line| < 0x10_0000 && forall val, n :: Says(line, "EnvironmentFile", val) && AsksFor(val, n) ==> n in have
  }

  /** A well-formed unit: every line readable, some section opened, and for a Quadlet file its own. */
  ghost predicate WellFormed(f: File, have: set<string>) {
    var lines := Split(f.content, '\n');
    && (forall l | l in lines :: Readable(l, have)) && Opened(lines)
    && forall stem, ext :: Named(f.name, stem, ext) && ext in QUADLET ==> Headed(lines, Capital(ext))
  }

  lemma LineMeaning(line: string, have: set<string>)
    ensures LineOk(line, have) <==> Readable(line, have)
  {
    if EnvRef(line).Some? {
      ReferenceMeaning(line, EnvRef(line).value);
    }
    forall val, n | Says(line, "EnvironmentFile", val) && AsksFor(val, n) ensures EnvRef(line) == Some(n) {
      ReferenceMeaning(line, n);
    }
  }

  lemma UnitMeaning(f: File, have: set<string>)
    ensures ValidUnit(f, have) <==> WellFormed(f, have)
  {
    var lines, need := Split(f.content, '\n'), RequiredSection(f.name);
    forall l ensures LineOk(l, have) <==> Readable(l, have) {
      LineMeaning(l, have);
    }
    forall section ensures SomeNames(lines, section) <==> Headed(lines, section) {
    }
    if need.Some? {
      NeedsSection(f.name, need.value);
    }
    forall stem, ext | Named(f.name, stem, ext) && ext in QUADLET ensures need == Some(Capital(ext)) {
      NeedsSection(f.name, Capital(ext));
    }
  }

  // ---- names -------------------------------------------------------------------------------------------------------------

  predicate TakenName(name: string) {
    name == "rucher-prune.service" || name == "rucher-prune.timer"
  }

  // No service Quadlet generates has the name of a shipped file or of a synthesized one.
  ghost predicate NoMask(fs: seq<File>) {
    forall u | u in fs && IsUnitFile(u.name) :: !TakenName(UnitService(u.name)) && forall f | f in fs :: UnitService(u.name) != f.name
  }

  lemma NamesMeaning(fs: seq<File>)
    requires forall f | f in fs :: FlagsFollow(f)
    ensures (forall f | f in fs :: NameAllowed(f)) && Unshadowed(fs) <==>
            NoMask(fs) && forall f | f in fs :: !TakenName(f.name) && (f.name == "" || f.name[0] != '-')
  {
    forall u | u in fs && IsUnitFile(u.name) ensures Ext(UnitService(u.name)) == ".service" {
      ServiceExt(u.name);
    }
  }

  /** A cadre is accepted exactly when a secrets file is there if the manifest needs one; no name is taken by the prune units
      or looks like an option; no generated service masks a shipped or synthesized unit; and every unit is well formed. */
  lemma AcceptedExactly(fs: seq<File>, m: Manifest, sops: bool)
    requires forall f | f in fs :: FlagsFollow(f)
    ensures Acceptable(fs, m, sops) <==>
            && (m.create != [] || m.logins != [] ==> sops)
            && (forall f | f in fs :: !TakenName(f.name) && (f.name == "" || f.name[0] != '-'))
            && NoMask(fs)
            && (forall f | f in fs && (IsUnitFile(f.name) || IsSystemdUnit(f.name)) :: WellFormed(f, Names(fs)))
  {
    NamesMeaning(fs);
    forall f ensures ValidUnit(f, Names(fs)) <==> WellFormed(f, Names(fs)) {
      UnitMeaning(f, Names(fs));
    }
  }
}
