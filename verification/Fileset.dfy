/** internal/fileset: unit classification, generated service names, ideal content hashes. */
module Fileset {
  import opened Text

  /** SHA-256 as an ideal hash: collision-free, and never the empty string.  `NoDigest` is that empty
      string, which is also what Go reads from a map at a missing key. */
  datatype Digest = NoDigest | Sha256(preimage: string)

  function Recorded(hashes: map<string, Digest>, key: string): Digest {
    if key in hashes then hashes[key] else NoDigest
  }

  // Position of the dot that starts the extension, or -1.
  function DotIndex(name: string): (i: int)
    ensures -1 <= i < |name|
  {
    if name == "" || name[|name| - 1] == '/' then -1
    else if name[|name| - 1] == '.' then |name| - 1
    else DotIndex(name[..|name| - 1])
  }

  // filepath.Ext
  function Ext(name: string): string {
    var i := DotIndex(name);
    if i < 0 then "" else name[i..]
  }

  datatype Kind = Container | Volume | Network | Pod | Kube | Image | Build
                | Timer | Socket | PathUnit | ServiceUnit | Support

  function KindOf(name: string): Kind {
    var ext := Ext(name);
    if ext == ".container" then Container
    else if ext == ".volume" then Volume
    else if ext == ".network" then Network
    else if ext == ".pod" then Pod
    else if ext == ".kube" then Kube
    else if ext == ".image" then Image
    else if ext == ".build" then Build
    else if ext == ".timer" then Timer
    else if ext == ".socket" then Socket
    else if ext == ".path" then PathUnit
    else if ext == ".service" then ServiceUnit
    else Support
  }

  predicate IsUnitFile(name: string) {
    match KindOf(name)
    case Container | Volume | Network | Pod | Kube | Image | Build => true
    case _ => false
  }

  predicate IsSystemdUnit(name: string) {
    match KindOf(name)
    case Timer | Socket | PathUnit | ServiceUnit => true
    case _ => false
  }

  predicate IsSupportFile(name: string) {
    !IsUnitFile(name) && !IsSystemdUnit(name)
  }

  // bufio.Scanner gives up at a line that does not fit its 1 MiB buffer.
  const MAX_LINE: nat := 0x10_0000

  predicate SectionIn(lines: seq<string>, header: string) {
    lines != [] && |lines[0]| < MAX_LINE && (Trim(lines[0]) == header || SectionIn(lines[1..], header))
  }

  predicate HasSection(content: string, name: string) {
    SectionIn(Split(content, '\n'), "[" + name + "]")
  }

  method ScanForSection(content: string, name: string) returns (found: bool)
    ensures found == HasSection(content, name)
  {
    var lines := Split(content, '\n');
    var i := 0;
    while i < |lines| && |lines[i]| < MAX_LINE
      invariant 0 <= i <= |lines|
      invariant HasSection(content, name) == SectionIn(lines[i..], "[" + name + "]")
    {
      if Trim(lines[i]) == "[" + name + "]" {
        return true;
      }
      assert lines[i..][1..] == lines[i + 1..];
      i := i + 1;
    }
    return false;
  }

  // A section is found exactly when some line is its header and no overlong line comes first.
  lemma {:induction false} SectionInMeaning(lines: seq<string>, header: string)
    ensures SectionIn(lines, header) <==>
            exists i | 0 <= i < |lines| :: Trim(lines[i]) == header && forall j | 0 <= j <= i :: |lines[j]| < MAX_LINE
  {
    if lines != [] {
      SectionInMeaning(lines[1..], header);
      if SectionIn(lines, header) && Trim(lines[0]) != header {
        var i :| 0 <= i < |lines[1..]| && Trim(lines[1..][i]) == header && forall j | 0 <= j <= i :: |lines[1..][j]| < MAX_LINE;
        assert Trim(lines[i + 1]) == header;
        assert forall j | 0 <= j <= i + 1 :: j == 0 || lines[j] == lines[1..][j - 1];
      }
      if i :| 0 <= i < |lines| && Trim(lines[i]) == header && forall j | 0 <= j <= i :: |lines[j]| < MAX_LINE {
        if i > 0 {
          assert Trim(lines[1..][i - 1]) == header;
          assert forall j | 0 <= j <= i - 1 :: lines[1..][j] == lines[j + 1];
        }
      }
    }
  }

  predicate ShouldEnable(name: string, content: string) {
    match KindOf(name)
    case Timer | Socket | PathUnit => true
    case ServiceUnit => HasSection(content, "Install")
    case _ => false
  }

  // strings.LastIndex(name, ".")
  function LastDot(name: string): (i: int)
    ensures -1 <= i < |name|
  {
    if name == "" then -1
    else if name[|name| - 1] == '.' then |name| - 1
    else LastDot(name[..|name| - 1])
  }

  function UnitService(unit: string): string {
    var dot := LastDot(unit);
    if dot < 0 then unit
    else
      var stem, ext := unit[..dot], unit[dot + 1..];
      if ext == "container" || ext == "kube" then stem + ".service" else stem + "-" + ext + ".service"
  }

  const PRUNE_TIMER := "rucher-prune.timer"
  const PRUNE_SERVICE := "rucher-prune.service"

  predicate IsReserved(name: string) {
    name == PRUNE_TIMER || name == PRUNE_SERVICE
  }

  // ---- a name by its extension ----------------------------------------------------------------------------------------

  lemma {:induction false} DotAt(stem: string, ext: string)
    requires '.' !in ext && '/' !in ext
    ensures DotIndex(stem + "." + ext) == |stem|
    decreases |ext|
  {
    var name := stem + "." + ext;
    if ext != "" {
      assert name[..|name| - 1] == stem + "." + ext[..|ext| - 1];
      assert name[|name| - 1] == ext[|ext| - 1];
      assert name[|name| - 1] in ext;
      DotAt(stem, ext[..|ext| - 1]);
    }
  }

  lemma ExtOf(stem: string, ext: string)
    requires '.' !in ext && '/' !in ext
    ensures Ext(stem + "." + ext) == "." + ext
  {
    DotAt(stem, ext);
    assert (stem + "." + ext)[|stem|..] == "." + ext;
  }

  lemma {:induction false} LastDotAt(stem: string, ext: string)
    requires '.' !in ext
    ensures LastDot(stem + "." + ext) == |stem|
    decreases |ext|
  {
    var name := stem + "." + ext;
    if ext != "" {
      var short := ext[..|ext| - 1];
      assert name[..|name| - 1] == stem + "." + short;
      assert name[|name| - 1] == ext[|ext| - 1] && ext[|ext| - 1] in ext;
      LastDotAt(stem, short);
    }
  }

  lemma CutExt(stem: string, ext: string)
    ensures (stem + "." + ext)[..|stem|] == stem && (stem + "." + ext)[|stem| + 1..] == ext
  {
  }

  lemma Dotted(ext: string, lit: string, whole: string)
    requires whole == "." + lit
    ensures "." + ext == whole <==> ext == lit
  {
    assert ("." + ext)[1..] == ext && whole[1..] == lit;
  }

  const QUADLET := {"container", "volume", "network", "pod", "kube", "image", "build"}
  const ACTIVATORS := {"timer", "socket", "path"}

  lemma QuadletDotted(ext: string)
    ensures "." + ext in {".container", ".volume", ".network", ".pod", ".kube", ".image", ".build"} <==> ext in QUADLET
  {
    Dotted(ext, "container", ".container");
    Dotted(ext, "volume", ".volume");
    Dotted(ext, "network", ".network");
    Dotted(ext, "pod", ".pod");
    Dotted(ext, "kube", ".kube");
    Dotted(ext, "image", ".image");
    Dotted(ext, "build", ".build");
  }

  lemma NativeDotted(ext: string)
    ensures "." + ext in {".timer", ".socket", ".path"} <==> ext in ACTIVATORS
    ensures "." + ext == ".service" <==> ext == "service"
  {
    Dotted(ext, "timer", ".timer");
    Dotted(ext, "socket", ".socket");
    Dotted(ext, "path", ".path");
    Dotted(ext, "service", ".service");
  }

  lemma KindsByExt(name: string)
    ensures IsUnitFile(name) <==> Ext(name) in {".container", ".volume", ".network", ".pod", ".kube", ".image", ".build"}
    ensures IsSystemdUnit(name) <==> Ext(name) in {".timer", ".socket", ".path"} || Ext(name) == ".service"
    ensures Ext(name) in {".timer", ".socket", ".path"} ==> KindOf(name) in {Timer, Socket, PathUnit}
    ensures Ext(name) == ".service" <==> KindOf(name) == ServiceUnit
  {
  }

  /** The extension alone says where a file goes: one of the seven Quadlet kinds, a native unit, or a support file. */
  lemma KindsByName(stem: string, ext: string)
    requires '.' !in ext && '/' !in ext
    ensures IsUnitFile(stem + "." + ext) <==> ext in QUADLET
    ensures IsSystemdUnit(stem + "." + ext) <==> ext in ACTIVATORS || ext == "service"
  {
    ExtOf(stem, ext);
    KindsByExt(stem + "." + ext);
    QuadletDotted(ext);
    NativeDotted(ext);
  }

  /** A timer, socket or path unit is enabled whatever it holds; a service exactly when a line of it is the header of an
      install section, with no line up to it too long to read; and nothing else. */
  lemma EnabledByName(stem: string, ext: string, content: string)
    requires '.' !in ext && '/' !in ext
    ensures ShouldEnable(stem + "." + ext, content) <==>
              || ext == "timer" || ext == "socket" || ext == "path"
              || (ext == "service" && Installs(Split(content, '\n')))
  {
    ExtOf(stem, ext);
    KindsByExt(stem + "." + ext);
    NativeDotted(ext);
    SectionInMeaning(Split(content, '\n'), "[" + "Install" + "]");
    assert "[" + "Install" + "]" == "[Install]";
  }

  predicate Installs(lines: seq<string>) {
    exists i | 0 <= i < |lines| :: Trim(lines[i]) == "[Install]" && forall j | 0 <= j <= i :: |lines[j]| < 0x10_0000
  }

  lemma {:induction false} Undotted(name: string)
    requires '.' !in name
    ensures DotIndex(name) == LastDot(name) == -1
  {
    if name != "" {
      assert name[|name| - 1] in name;
      Undotted(name[..|name| - 1]);
    }
  }

  lemma {:induction false} ByDot(name: string) returns (stem: string, ext: string)
    requires DotIndex(name) >= 0
    ensures name == stem + "." + ext && '.' !in ext && '/' !in ext
  {
    var front, c := name[..|name| - 1], name[|name| - 1];
    assert name == front + [c];
    if c == '.' {
      stem, ext := front, "";
    } else {
      stem, ext := ByDot(front);
      assert front + [c] == stem + "." + (ext + [c]);
      ext := ext + [c];
    }
  }

  lemma HasDot(name: string)
    requires !IsSupportFile(name)
    ensures DotIndex(name) >= 0
  {
  }

  /** A name without an extension is a support file's. */
  lemma PlainName(name: string)
    requires '.' !in name
    ensures IsSupportFile(name) && UnitService(name) == name
  {
    Undotted(name);
  }

  /** A container or kube unit runs as the service of its stem, any other kind as a service that names the kind too. */
  lemma ServiceByName(stem: string, ext: string)
    requires '.' !in ext
    ensures UnitService(stem + "." + ext)
         == if ext == "container" || ext == "kube" then stem + ".service" else stem + "-" + ext + ".service"
  {
    LastDotAt(stem, ext);
    CutExt(stem, ext);
  }
}
