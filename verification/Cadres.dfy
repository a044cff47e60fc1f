/** internal/cadre: loading a cadre's directory and what its validation guarantees the reconciler. */
module Cadres {
  import opened Basics
  import opened Fileset
  import opened Plan
  import opened Reconcile
  import opened Text

  // Regular or not, and whether a regular file can be read.
  datatype EntryKind = Directory | Regular | Unreadable | Irregular

  datatype Entry = Entry(name: string, kind: EntryKind, content: string)

  /** What the manifest says. */
  datatype Manifest = Manifest(from: string, resources: Resources, create: seq<string>, logins: seq<Login>, prune: Prune)

  // ---- names ----------------------------------------------------------------------------------------------------

  predicate HasSuffix(s: string, suffix: string) {
    |suffix| <= |s| && s[|s| - |suffix|..] == suffix
  }

  predicate IsServiceFile(name: string, from: string) {
    || name == "rucher.yml" || name == from
    || HasSuffix(name, ".sops.yaml") || ("identity." <= name && HasSuffix(name, ".age"))
  }

  const UNIT_DIR := "%h/.config/containers/systemd/"

  // localEnvFile
  function LocalEnvFile(val: string): Option<string> {
    if val == "" || "-" <= val then None
    else if UNIT_DIR <= val then Some(Base(val[|UNIT_DIR|..]))
    else if '/' !in val then Some(val)
    else None
  }

  // ---- one unit file ----------------------------------------------------------------------------------------------

  function EnvRef(line: string): Option<string> {
    var l := Trim(line);
    if '=' in l && Trim(Before(l, '=')) == "EnvironmentFile" then LocalEnvFile(Trim(After(l, '='))) else None
  }

  predicate OpensSection(line: string) {
    "[" <= Trim(line)
  }

  predicate NamesSection(line: string, name: string) {
    Trim(line) == "[" + name + "]"
  }

  function RequiredSection(name: string): Option<string> {
    match KindOf(name)
    case Container => Some("Container")
    case Volume => Some("Volume")
    case Network => Some("Network")
    case Pod => Some("Pod")
    case Kube => Some("Kube")
    case Image => Some("Image")
    case Build => Some("Build")
    case _ => None
  }

  predicate LineOk(line: string, have: set<string>) {
    |line| < MAX_LINE && (EnvRef(line).Some? ==> EnvRef(line).value in have)
  }

  predicate AllOk(lines: seq<string>, have: set<string>) {
    forall l | l in lines :: LineOk(l, have)
  }

  predicate SomeOpens(lines: seq<string>) {
    exists l | l in lines :: OpensSection(l)
  }

  predicate SomeNames(lines: seq<string>, name: string) {
    exists l | l in lines :: NamesSection(l, name)
  }

  // Every line fits the scanner, local references resolve, a section is opened, the required one is there.
  predicate ValidLines(lines: seq<string>, need: Option<string>, have: set<string>) {
    AllOk(lines, have) && SomeOpens(lines) && (need.Some? ==> SomeNames(lines, need.value))
  }

  predicate ValidUnit(f: File, have: set<string>) {
    ValidLines(Split(f.content, '\n'), RequiredSection(f.name), have)
  }

  method ValidateUnit(f: File, have: set<string>) returns (ok: bool)
    ensures ok == ValidUnit(f, have)
  {
    ok := ScanUnit(Split(f.content, '\n'), RequiredSection(f.name), have);
  }

  lemma OneMore(lines: seq<string>, l: string, name: string, have: set<string>)
    ensures AllOk(lines + [l], have) <==> AllOk(lines, have) && LineOk(l, have)
    ensures SomeOpens(lines + [l]) <==> SomeOpens(lines) || OpensSection(l)
    ensures SomeNames(lines + [l], name) <==> SomeNames(lines, name) || NamesSection(l, name)
  {
    assert forall x :: x in lines + [l] <==> x in lines || x == l;
  }

  lemma NotAllOk(lines: seq<string>, i: nat, have: set<string>)
    requires i < |lines|
    ensures AllOk(lines, have) ==> LineOk(lines[i], have)
  {
  }

  method ScanUnit(lines: seq<string>, need: Option<string>, have: set<string>) returns (ok: bool)
    ensures ok == ValidLines(lines, need, have)
  {
    var name := if need.Some? then need.value else "";
    var opens, named := false, false;
    for i := 0 to |lines|
      invariant AllOk(lines[..i], have)
      invariant opens == SomeOpens(lines[..i]) && named == SomeNames(lines[..i], name)
    {
      var line := lines[i];
      OneMore(lines[..i], line, name, have);
      NotAllOk(lines, i, have);
      assert lines[..i + 1] == lines[..i] + [line];
      if |line| >= MAX_LINE {
        return false;
      }
      opens, named := opens || OpensSection(line), named || NamesSection(line, name);
      var ref := EnvRef(line);
      if ref.Some? && ref.value !in have {
        return false;
      }
    }
    assert lines[..|lines|] == lines;
    return opens && (need.None? || named);
  }

  // ---- the whole cadre -----------------------------------------------------------------------------------------------

  function Names(fs: seq<File>): set<string> {
    set f | f in fs :: f.name
  }

  predicate NameAllowed(f: File) {
    && !IsReserved(f.name) && !("-" <= f.name)
    && (f.isUnit ==> !IsReserved(UnitService(f.name)))
  }

  // No shipped .service stands in front of one that Quadlet generates.
  predicate Unshadowed(fs: seq<File>) {
    forall f, u | f in fs && u in fs && Ext(f.name) == ".service" && u.isUnit :: UnitService(u.name) != f.name
  }

  /** Cadre.Validate. */
  predicate Acceptable(fs: seq<File>, m: Manifest, sops: bool) {
    && (sops || (m.create == [] && m.logins == []))
    && (forall f | f in fs :: NameAllowed(f))
    && Unshadowed(fs)
    && (forall f | f in fs && (f.isUnit || f.isSystemdUnit) :: ValidUnit(f, Names(fs)))
  }

  method Validate(fs: seq<File>, m: Manifest, sops: bool) returns (ok: bool)
    ensures ok == Acceptable(fs, m, sops)
  {
    if !sops && (m.create != [] || m.logins != []) {
      return false;
    }
    var have, generated;
    ok, have, generated := CheckNames(fs);
    if !ok {
      return false;
    }
    ok := CheckShadows(fs, generated);
    if !ok {
      return false;
    }
    ok := CheckUnits(fs, have);
  }

  function Generated(fs: seq<File>): set<string> {
    set u | u in fs && u.isUnit :: UnitService(u.name)
  }

  // The first loop: the names, and on the way what is there and what Quadlet will generate.
  method CheckNames(fs: seq<File>) returns (ok: bool, have: set<string>, generated: set<string>)
    ensures ok == forall f | f in fs :: NameAllowed(f)
    ensures ok ==> have == Names(fs) && generated == Generated(fs)
  {
    have, generated := {}, {};
    for i := 0 to |fs|
      invariant forall f | f in fs[..i] :: NameAllowed(f)
      invariant have == Names(fs[..i]) && generated == Generated(fs[..i])
    {
      var f := fs[i];
      assert fs[..i + 1] == fs[..i] + [f];
      if !NameAllowed(f) {
        return false, have, generated;
      }
      have := have + {f.name};
      if f.isUnit {
        generated := generated + {UnitService(f.name)};
      }
    }
    assert fs[..|fs|] == fs;
    ok := true;
  }

  // The second.
  method CheckShadows(fs: seq<File>, generated: set<string>) returns (ok: bool)
    requires generated == Generated(fs)
    ensures ok == Unshadowed(fs)
  {
    for i := 0 to |fs|
      invariant forall f | f in fs[..i] && Ext(f.name) == ".service" :: f.name !in generated
    {
      assert fs[..i + 1] == fs[..i] + [fs[i]];
      if Ext(fs[i].name) == ".service" && fs[i].name in generated {
        return false;
      }
    }
    ok := true;
  }

  // The third.
  method CheckUnits(fs: seq<File>, have: set<string>) returns (ok: bool)
    ensures ok == forall f | f in fs && (f.isUnit || f.isSystemdUnit) :: ValidUnit(f, have)
  {
    for i := 0 to |fs|
      invariant forall f | f in fs[..i] && (f.isUnit || f.isSystemdUnit) :: ValidUnit(f, have)
    {
      assert fs[..i + 1] == fs[..i] + [fs[i]];
      if fs[i].isUnit || fs[i].isSystemdUnit {
        var fine := ValidateUnit(fs[i], have);
        if !fine {
          return false;
        }
      }
    }
    ok := true;
  }

  // ---- Load ------------------------------------------------------------------------------------------------------------

  function FileOf(e: Entry): File {
    File(e.name, e.content, Sha256(e.content), IsUnitFile(e.name), IsSystemdUnit(e.name))
  }

  predicate Shipped(e: Entry, from: string) {
    e.kind.Regular? && !IsServiceFile(e.name, from)
  }

  function OfEntry(e: Entry, from: string): seq<File> {
    if Shipped(e, from) then [FileOf(e)] else []
  }

  function FilesOf(entries: seq<Entry>, from: string): seq<File> {
    if entries == [] then []
    else OfEntry(entries[0], from) + FilesOf(entries[1..], from)
  }

  predicate DistinctEntries(entries: seq<Entry>) {
    forall i, j | 0 <= i < j < |entries| :: entries[i].name != entries[j].name
  }

  // The entry fails the load: not a regular file, or one to ship that cannot be read.
  predicate Fails(e: Entry, from: string) {
    e.kind.Irregular? || (e.kind.Unreadable? && !IsServiceFile(e.name, from))
  }

  predicate NoneFails(entries: seq<Entry>, from: string) {
    forall e | e in entries :: !Fails(e, from)
  }

  predicate IsSops(e: Entry, from: string) {
    e.name == from && (e.kind.Regular? || e.kind.Unreadable?)
  }

  predicate HasSops(entries: seq<Entry>, from: string) {
    exists e | e in entries :: IsSops(e, from)
  }

  lemma {:induction false} FilesOfMembers(entries: seq<Entry>, from: string)
    ensures forall f :: f in FilesOf(entries, from) <==> exists e | e in entries :: Shipped(e, from) && f == FileOf(e)
  {
    if entries != [] {
      FilesOfMembers(entries[1..], from);
      assert forall e :: e in entries <==> e == entries[0] || e in entries[1..];
    }
  }

  lemma {:induction false} FilesOfDistinct(entries: seq<Entry>, from: string)
    requires DistinctEntries(entries)
    ensures DistinctNames(FilesOf(entries, from))
  {
    if entries != [] {
      var rest := FilesOf(entries[1..], from);
      FilesOfDistinct(entries[1..], from);
      FilesOfMembers(entries[1..], from);
      forall f | f in rest ensures f.name != entries[0].name {
        var e :| e in entries[1..] && Shipped(e, from) && f == FileOf(e);
        var i :| 0 <= i < |entries[1..]| && entries[1..][i] == e;
        assert entries[i + 1] == e;
      }
    }
  }

  lemma AcceptedIsLoaded(entries: seq<Entry>, m: Manifest, sops: bool, c: Cadre)
    requires DistinctEntries(entries) && c.files == FilesOf(entries, m.from) && Acceptable(c.files, m, sops)
    ensures LoadedCadre(c)
  {
    FilesOfDistinct(entries, m.from);
    FilesOfMembers(entries, m.from);
    assert forall f | f in c.files :: NameAllowed(f);
  }

  /** `manifest` is None when rucher.yml is missing or not a regular file, does not decode, or fails its own checks;
      `listing` is None when the directory cannot be read. */
  method Load(manifest: Option<Manifest>, listing: Option<seq<Entry>>) returns (c: Option<Cadre>)
    requires listing.Some? ==> DistinctEntries(listing.value)
    ensures c.Some? <==>
            && manifest.Some? && listing.Some? && NoneFails(listing.value, manifest.value.from)
            && Acceptable(FilesOf(listing.value, manifest.value.from), manifest.value, HasSops(listing.value, manifest.value.from))
    ensures c.Some? ==> c.value == Shipping(manifest.value, FilesOf(listing.value, manifest.value.from)) && LoadedCadre(c.value)
  {
    if manifest.None? || listing.None? {
      return None;
    }
    var m, entries := manifest.value, listing.value;
    var read, files, sops := ReadFiles(entries, m.from);
    if !read {
      return None;
    }
    var ok := Validate(files, m, sops);
    if !ok {
      return None;
    }
    c := Some(Shipping(m, files));
    AcceptedIsLoaded(entries, m, sops, c.value);
  }

  // One entry: whether it fails the load, the file it ships, if any, and whether it is the secrets file.
  method ReadEntry(e: Entry, from: string) returns (ok: bool, file: seq<File>, sops: bool)
    ensures ok == !Fails(e, from)
    ensures ok ==> file == OfEntry(e, from) && sops == IsSops(e, from)
  {
    if e.kind.Directory? {
      return true, [], false;
    }
    if e.kind.Irregular? {
      return false, [], false;
    }
    if IsServiceFile(e.name, from) {
      return true, [], e.name == from;
    }
    if e.kind.Unreadable? {
      return false, [], false;
    }
    return true, [FileOf(e)], false;
  }

  // The first entries are read.
  ghost predicate ReadSoFar(entries: seq<Entry>, from: string, i: nat, files: seq<File>, sops: bool) {
    && i <= |entries| && NoneFails(entries[..i], from)
    && FilesOf(entries, from) == files + FilesOf(entries[i..], from) && sops == HasSops(entries[..i], from)
  }

  lemma ReadNone(entries: seq<Entry>, from: string)
    ensures ReadSoFar(entries, from, 0, [], false)
  {
    assert entries[0..] == entries;
  }

  lemma ReadAll(entries: seq<Entry>, from: string, files: seq<File>, sops: bool)
    requires ReadSoFar(entries, from, |entries|, files, sops)
    ensures NoneFails(entries, from) && files == FilesOf(entries, from) && sops == HasSops(entries, from)
  {
    assert entries[..|entries|] == entries;
    assert files + [] == files;
  }

  lemma Regrouped(all: seq<File>, files: seq<File>, file: seq<File>, rest: seq<File>, more: seq<File>)
    requires all == files + more && more == file + rest
    ensures all == files + file + rest
  {
  }

  lemma ReadOne(entries: seq<Entry>, from: string, i: nat, files: seq<File>, sops: bool)
    requires i < |entries| && ReadSoFar(entries, from, i, files, sops) && !Fails(entries[i], from)
    ensures ReadSoFar(entries, from, i + 1, files + OfEntry(entries[i], from), sops || IsSops(entries[i], from))
  {
    LoadStep(entries, from, i);
    Regrouped(FilesOf(entries, from), files, OfEntry(entries[i], from), FilesOf(entries[i + 1..], from), FilesOf(entries[i..], from));
  }

  // One turn of the loop.
  method ReadNext(entries: seq<Entry>, from: string, i: nat, files0: seq<File>, sops0: bool)
    returns (ok: bool, files: seq<File>, sops: bool)
    requires i < |entries| && ReadSoFar(entries, from, i, files0, sops0)
    ensures if ok then ReadSoFar(entries, from, i + 1, files, sops) else !NoneFails(entries, from)
  {
    files, sops := files0, sops0;
    var file, found;
    ok, file, found := ReadEntry(entries[i], from);
    if ok {
      ReadOne(entries, from, i, files, sops);
      files, sops := files + file, sops || found;
    }
  }

  // The loop over the directory.
  method ReadFiles(entries: seq<Entry>, from: string) returns (ok: bool, files: seq<File>, sops: bool)
    ensures ok == NoneFails(entries, from)
    ensures ok ==> files == FilesOf(entries, from) && sops == HasSops(entries, from)
  {
    files, sops := [], false;
    ReadNone(entries, from);
    for i := 0 to |entries|
      invariant ReadSoFar(entries, from, i, files, sops)
    {
      ok, files, sops := ReadNext(entries, from, i, files, sops);
      if !ok {
        return;
      }
    }
    ReadAll(entries, from, files, sops);
    ok := true;
  }

  function Shipping(m: Manifest, files: seq<File>): Cadre {
    Cadre(files, m.resources, m.create, m.logins, m.prune)
  }

  lemma LoadStep(entries: seq<Entry>, from: string, i: nat)
    requires i < |entries|
    ensures FilesOf(entries[i..], from) == OfEntry(entries[i], from) + FilesOf(entries[i + 1..], from)
    ensures HasSops(entries[..i + 1], from) <==> HasSops(entries[..i], from) || IsSops(entries[i], from)
    ensures NoneFails(entries[..i + 1], from) <==> NoneFails(entries[..i], from) && !Fails(entries[i], from)
    ensures NoneFails(entries, from) ==> !Fails(entries[i], from)
  {
    assert entries[i..][1..] == entries[i + 1..];
    assert entries[..i + 1] == entries[..i] + [entries[i]];
  }

  // ---- what the reconciler gets ------------------------------------------------------------------------------------------

  lemma PruneNames(p: Prune, f: File)
    requires f in PruneFiles(p)
    ensures IsReserved(f.name) && f.isSystemdUnit && !f.isUnit
  {
    NoneOrPair(p);
    var service, timer :| PruneFiles(p) == PrunePair(service, timer);
    PairNames(service, timer, f);
  }

  lemma PairNames(service: string, timer: string, f: File)
    requires f in PrunePair(service, timer)
    ensures IsReserved(f.name) && f.isSystemdUnit && !f.isUnit
  {
  }

  lemma ServiceExt(unit: string)
    requires IsUnitFile(unit)
    ensures Ext(UnitService(unit)) == ".service"
  {
    HasDot(unit);
    var stem, ext := ByDot(unit);
    ServiceByName(stem, ext);
    EndsInService(stem);
    EndsInService(stem + "-" + ext);
  }

  lemma EndsInService(stem: string)
    ensures Ext(stem + ".service") == ".service"
  {
    ExtOf(stem, "service");
    assert "." + "service" == ".service";
    assert stem + "." + "service" == stem + ".service";
  }

  // Against the synthesized pair, and against another shipped file.
  lemma NotReserved(fs: seq<File>, m: Manifest, sops: bool, u: File, name: string)
    requires Acceptable(fs, m, sops) && u in fs && u.isUnit && IsReserved(name)
    ensures UnitService(u.name) != name
  {
    assert NameAllowed(u);
  }

  lemma NotShipped(fs: seq<File>, m: Manifest, sops: bool, u: File, f: File)
    requires Acceptable(fs, m, sops) && u in fs && f in fs && u.isUnit && Ext(UnitService(u.name)) == ".service"
    ensures UnitService(u.name) != f.name
  {
  }

  /** In an accepted cadre, with its synthesized prune units, no native unit has the name of a service that
      Quadlet generates, so none masks another in the manager's load path. */
  lemma NoServiceIsMasked(c: Cadre, m: Manifest, sops: bool, f: File, u: File)
    requires LoadedCadre(c) && Acceptable(c.files, m, sops)
    requires f in AllFiles(c) && u in AllFiles(c) && u.isUnit
    ensures UnitService(u.name) != f.name
  {
    if u in PruneFiles(c.prune) {
      PruneNames(c.prune, u);
    }
    assert u in c.files && LoadedFile(u);
    if f in c.files {
      ServiceExt(u.name);
      NotShipped(c.files, m, sops, u, f);
    } else {
      PruneNames(c.prune, f);
      NotReserved(c.files, m, sops, u, f.name);
    }
  }
}
