/** What quadletref finds: a secret or file named behind a flag, in any quoting and any layout of the unit, and no other. */
module References {
  import opened Quadletref
  import opened Text

  // ---- argument lists ---------------------------------------------------------------------------------------------

  /** Word i is the value of the flag in front of it: that is one of these flags and not itself a value. */
  predicate IsValue(words: seq<string>, i: nat, flags: set<string>)
    requires i <= |words|
  {
    i > 0 && words[i - 1] in flags && !IsValue(words, i - 1, flags)
  }

  // The text up to its first comma, if there is one.
  predicate CutsTo(arg: string, name: string) {
    Lacks(name, ',') && (arg == name || name + "," <= arg)
  }

  const SECRET_FLAG := {"--secret"}

  // The one word of flag and name.
  predicate JoinsSecret(word: string, name: string) {
    "--secret=" <= word && CutsTo(word[9..], name)
  }

  /** Word i names the secret: as the value of a --secret, or behind --secret=, up to the first comma. */
  predicate NamesSecret(words: seq<string>, i: nat, name: string)
    requires i < |words|
  {
    && name != ""
    && if IsValue(words, i, SECRET_FLAG) then CutsTo(words[i], name)
       else JoinsSecret(words[i], name)
  }

  // The flags of podman that take a path.
  const FILE_FLAGS := {"-v", "--volume", "--mount", "--env-file"}

  /** Word i names the path: as the value of such a flag, or behind one with its equals sign. */
  predicate NamesPath(words: seq<string>, i: nat, path: string)
    requires i < |words|
  {
    if IsValue(words, i, FILE_FLAGS) then path == words[i] else exists flag | flag in FILE_FLAGS :: words[i] == flag + "=" + path
  }

  lemma {:induction false} BeforeCuts(arg: string, name: string)
    ensures Before(arg, ',') == name <==> CutsTo(arg, name)
  {
    if arg != "" && arg[0] != ',' && name != "" && name[0] == arg[0] {
      BeforeCuts(arg[1..], name[1..]);
      assert arg == [arg[0]] + arg[1..] && name == [name[0]] + name[1..];
      assert (name + ",")[1..] == name[1..] + ",";
      assert name + "," <= arg <==> name[1..] + "," <= arg[1..];
      assert Lacks(name, ',') <==> Lacks(name[1..], ',');
    } else if arg != "" && arg[0] != ',' && name != "" {
      assert (name + ",")[0] == name[0];
    } else if arg != "" && arg[0] != ',' {
      assert "" + "," == ",";
    } else if name == "" {
      assert "" + "," == ",";
    } else {
      assert (name + ",")[0] == name[0];
    }
  }

  lemma NameCuts(arg: string, name: string)
    ensures name in SecretName(arg) <==> name != "" && CutsTo(arg, name)
  {
    BeforeCuts(arg, name);
  }

  lemma FlagIsNoValue(tok: string)
    ensures IsSecretFlag(tok) <==> tok in SECRET_FLAG
    ensures IsSecretFlag(tok) ==> !("--secret=" <= tok)
    ensures IsFileFlag(tok) <==> tok in FILE_FLAGS
    ensures IsFileFlag(tok) ==> FileFlag(tok) == []
  {
    assert "--volume="[2] == 'v' && "--mount="[2] == 'm' && "-v="[1] == 'v';
    assert "--volume"[1] == '-' && "--mount"[1] == '-' && "--env-file"[1] == '-';
    assert "--volume"[2] == 'v' && "--env-file"[2] == 'e';
  }

  lemma SecretAt(words: seq<string>, i: nat, name: string)
    requires i < |words|
    ensures IsValue(words, i, SECRET_FLAG) ==> (NamesSecret(words, i, name) <==> name in SecretName(words[i]))
    ensures !IsValue(words, i, SECRET_FLAG) ==> (NamesSecret(words, i, name) <==> name in SecretFlag(words[i]))
  {
    NameCuts(words[i], name);
    if "--secret=" <= words[i] {
      NameCuts(words[i][9..], name);
    }
  }

  lemma {:induction false} SecretArgsFrom(words: seq<string>, k: nat, name: string)
    requires k <= |words| && !IsValue(words, k, SECRET_FLAG)
    ensures name in SecretArgs(words[k..]) <==> exists i :: k <= i < |words| && NamesSecret(words, i, name)
    decreases |words| - k
  {
    if k < |words| {
      SecretArgsStep(words, k);
      FlagIsNoValue(words[k]);
      SecretAt(words, k, name);
      if IsSecretFlag(words[k]) && k + 1 < |words| {
        assert IsValue(words, k + 1, SECRET_FLAG) && !IsValue(words, k + 2, SECRET_FLAG);
        SecretAt(words, k + 1, name);
        SecretArgsFrom(words, k + 2, name);
      } else if k + 1 < |words| {
        assert !IsValue(words, k + 1, SECRET_FLAG);
        SecretArgsFrom(words, k + 1, name);
      } else {
        assert words[k + 1..] == [];
      }
    }
  }

  /** The secrets of an argument list: exactly the words behind a --secret that are not themselves flags with a value, and
      the words that start with --secret=, each up to its first comma, if anything is left. */
  lemma SecretArgsMeaning(words: seq<string>, name: string)
    ensures name in SecretArgs(words) <==> exists i :: 0 <= i < |words| && NamesSecret(words, i, name)
  {
    assert words[0..] == words;
    SecretArgsFrom(words, 0, name);
  }

  lemma WithEquals(tok: string, flag: string, path: string)
    ensures tok == flag + "=" + path <==> flag + "=" <= tok && path == tok[|flag| + 1..]
  {
  }

  // The four prefixes rule each other out.
  lemma FileFlagWords(tok: string, path: string)
    ensures path in FileFlag(tok) <==> exists flag | flag in FILE_FLAGS :: tok == flag + "=" + path
  {
    assert "--volume="[2] == 'v' && "--mount="[2] == 'm' && "--env-file="[2] == 'e' && "-v="[1] == 'v';
    assert "--volume="[1] == '-' && "--mount="[1] == '-' && "--env-file="[1] == '-';
    WithEquals(tok, "--volume", path);
    WithEquals(tok, "--mount", path);
    WithEquals(tok, "--env-file", path);
    WithEquals(tok, "-v", path);
    assert "--volume" + "=" == "--volume=" && "--mount" + "=" == "--mount=";
    assert "--env-file" + "=" == "--env-file=" && "-v" + "=" == "-v=";
  }

  lemma PathAt(words: seq<string>, i: nat, path: string)
    requires i < |words|
    ensures NamesPath(words, i, path) <==> if IsValue(words, i, FILE_FLAGS) then path == words[i] else path in FileFlag(words[i])
  {
    FileFlagWords(words[i], path);
  }

  lemma FileArgsCut(words: seq<string>, k: nat)
    requires k < |words|
    ensures FileArgs(words[k..]) ==
            if IsFileFlag(words[k]) then (if k + 1 < |words| then [words[k + 1]] + FileArgs(words[k + 2..]) else [])
            else FileFlag(words[k]) + FileArgs(words[k + 1..])
  {
    FileArgsStep([], words, k);
    assert [] + [words[k]] == [words[k]] && forall t: seq<string> :: [] + t == t;
  }

  lemma {:induction false} FileArgsFrom(words: seq<string>, k: nat, path: string)
    requires k <= |words| && !IsValue(words, k, FILE_FLAGS)
    ensures path in FileArgs(words[k..]) <==> exists i :: k <= i < |words| && NamesPath(words, i, path)
    decreases |words| - k
  {
    if k < |words| {
      FileArgsCut(words, k);
      FlagIsNoValue(words[k]);
      PathAt(words, k, path);
      if IsFileFlag(words[k]) && k + 1 < |words| {
        assert IsValue(words, k + 1, FILE_FLAGS) && !IsValue(words, k + 2, FILE_FLAGS);
        PathAt(words, k + 1, path);
        FileArgsFrom(words, k + 2, path);
      } else if k + 1 < |words| {
        assert !IsValue(words, k + 1, FILE_FLAGS);
        FileArgsFrom(words, k + 1, path);
      } else {
        assert words[k + 1..] == [];
      }
    }
  }

  /** The paths of an argument list: exactly the words behind -v, --volume, --mount or --env-file, and what stands behind
      one of these with its equals sign. */
  lemma FileArgsMeaning(words: seq<string>, path: string)
    ensures path in FileArgs(words) <==> exists i :: 0 <= i < |words| && NamesPath(words, i, path)
  {
    assert words[0..] == words;
    FileArgsFrom(words, 0, path);
  }

  // ---- one line ----------------------------------------------------------------------------------------------------

  lemma {:induction false} CutKey(key: string, val: string)
    requires Lacks(key, '=')
    ensures Before(key + "=" + val, '=') == key && After(key + "=" + val, '=') == val && '=' in key + "=" + val
  {
    var line := key + "=" + val;
    if key == "" {
      assert line[1..] == val;
    } else {
      assert line[1..] == key[1..] + "=" + val;
      CutKey(key[1..], val);
      assert [key[0]] + key[1..] == key;
    }
  }

  lemma {:induction false} TrimLeftFront(s: string)
    ensures TrimLeft(s) == "" || !IsSpace(TrimLeft(s)[0])
  {
    if s != "" && IsSpace(s[0]) {
      TrimLeftFront(s[1..]);
    }
  }

  lemma {:induction false} TrimRightBack(s: string)
    ensures TrimRight(s) <= s && (TrimRight(s) == "" || !IsSpace(TrimRight(s)[|TrimRight(s)| - 1]))
  {
    if s != "" && IsSpace(s[|s| - 1]) {
      TrimRightBack(s[..|s| - 1]);
    }
  }

  lemma TrimTwice(s: string)
    ensures Trim(Trim(s)) == Trim(s)
  {
    TrimLeftFront(s);
    TrimRightBack(TrimLeft(s));
  }

  // A logical line and what its key and its value are.
  ghost predicate Says(text: string, key: string, val: string) {
    exists k, v :: Trim(text) == k + "=" + v && Lacks(k, '=') && Trim(k) == key && Trim(v) == val
  }

  lemma LineParts(text: string, key: string, val: string)
    requires Says(text, key, val)
    ensures var l := Trim(Trim(text));
            '=' in l && Trim(Before(l, '=')) == key && Trim(After(l, '=')) == val
  {
    TrimTwice(text);
    var k, v :| Trim(text) == k + "=" + v && Lacks(k, '=') && Trim(k) == key && Trim(v) == val;
    CutKey(k, v);
  }

  // A PodmanArgs= line whose words are written in any quoting.
  lemma PodmanLine(text: string, ws: seq<Spaced>)
    requires Says(text, "PodmanArgs", WriteLine(ws)) && WellWritten(ws)
    ensures LineSecrets(Trim(text)) == SecretArgs(Words(ws)) && LineFiles(Trim(text)) == Sources(FileArgs(Words(ws)))
  {
    LineParts(text, "PodmanArgs", WriteLine(ws));
    TokenizerRoundTrip(ws, "");
    assert WriteLine(ws) + "" == WriteLine(ws);
  }

  lemma {:induction false} SourcesMember(raws: seq<string>, raw: string)
    requires raw in raws
    ensures VolumeSource(raw) in Sources(raws)
  {
    if raw != raws[0] {
      SourcesMember(raws[1..], raw);
    }
  }

  // ---- the whole unit ------------------------------------------------------------------------------------------------

  lemma {:induction false} TrimmedAt(ls: seq<Layout>, k: nat)
    requires k < |ls|
    ensures |Trimmed(ls)| == |ls| && Trimmed(ls)[k] == Trim(LogicalText(ls[k]))
  {
    if k > 0 {
      TrimmedAt(ls[1..], k - 1);
    } else if |ls| > 1 {
      TrimmedAt(ls[1..], 0);
    }
  }

  predicate WellLaidOut(ls: seq<Layout>) {
    ls != [] && forall i | 0 <= i < |ls| :: WellCut(ls[i], true)
  }

  lemma LineInUnit(ls: seq<Layout>, k: nat)
    requires WellLaidOut(ls) && k < |ls|
    ensures forall s | s in LineSecrets(Trim(LogicalText(ls[k]))) :: s in Extract(UnitText(ls)).secrets
    ensures forall p | p in LineFiles(Trim(LogicalText(ls[k]))) && p != "" && IsFileRef(Base(p)) ::
              Base(p) in Extract(UnitText(ls)).files
  {
    FoldedUnit(ls);
    TrimmedAt(ls, k);
    ExtractMeaning(UnitText(ls));
    assert Trim(LogicalText(ls[k])) in Trimmed(ls);
  }

  /** A secret named behind --secret, in either spelling, among the words of a PodmanArgs= line, is found, however the words
      are quoted and however the lines of the unit are cut. */
  lemma SecretFlagFound(ls: seq<Layout>, k: nat, ws: seq<Spaced>, i: nat, name: string)
    requires WellLaidOut(ls) && k < |ls| && WellWritten(ws) && Says(LogicalText(ls[k]), "PodmanArgs", WriteLine(ws))
    requires i < |Words(ws)| && NamesSecret(Words(ws), i, name)
    ensures name in Extract(UnitText(ls)).secrets
  {
    PodmanLine(LogicalText(ls[k]), ws);
    SecretArgsMeaning(Words(ws), name);
    LineInUnit(ls, k);
  }

  /** In the words themselves: a --secret that is no value, and behind it the name, with or without options; or the one
      word of flag and name, with or without options. */
  lemma SecretWordsFound(ls: seq<Layout>, k: nat, ws: seq<Spaced>, i: nat, name: string, options: string)
    requires WellLaidOut(ls) && k < |ls| && WellWritten(ws) && Says(LogicalText(ls[k]), "PodmanArgs", WriteLine(ws))
    requires i < |Words(ws)| && !IsValue(Words(ws), i, SECRET_FLAG) && name != "" && Lacks(name, ',')
    requires var words := Words(ws);
             || (i + 1 < |words| && words[i] == "--secret" && (words[i + 1] == name || words[i + 1] == name + "," + options))
             || words[i] == "--secret=" + name || words[i] == "--secret=" + name + "," + options
    ensures name in Extract(UnitText(ls)).secrets
  {
    var at := WordNames(Words(ws), i, name, options);
    SecretFlagFound(ls, k, ws, at, name);
  }

  lemma WithOptions(arg: string, name: string, options: string)
    requires Lacks(name, ',') && (arg == name || arg == name + "," + options)
    ensures CutsTo(arg, name)
  {
  }

  lemma WordNames(words: seq<string>, i: nat, name: string, options: string) returns (at: nat)
    requires i < |words| && !IsValue(words, i, SECRET_FLAG) && name != "" && Lacks(name, ',')
    requires || (i + 1 < |words| && words[i] == "--secret" && (words[i + 1] == name || words[i + 1] == name + "," + options))
             || words[i] == "--secret=" + name || words[i] == "--secret=" + name + "," + options
    ensures at < |words| && NamesSecret(words, at, name)
  {
    if i + 1 < |words| && words[i] == "--secret" && (words[i + 1] == name || words[i + 1] == name + "," + options) {
      at := i + 1;
      assert IsValue(words, at, SECRET_FLAG);
      WithOptions(words[at], name, options);
    } else {
      at := i;
      assert words[i][9..] == name || words[i][9..] == name + "," + options;
      WithOptions(words[i][9..], name, options);
    }
  }

  /** And no secret that a PodmanArgs= line names holds a comma, or is empty. */
  lemma SecretsAreCut(text: string, ws: seq<Spaced>, name: string)
    requires Says(text, "PodmanArgs", WriteLine(ws)) && WellWritten(ws) && name in LineSecrets(Trim(text))
    ensures name != "" && Lacks(name, ',') && exists i :: 0 <= i < |Words(ws)| && NamesSecret(Words(ws), i, name)
  {
    PodmanLine(text, ws);
    SecretArgsMeaning(Words(ws), name);
  }

  /** The same of a path behind -v, --volume, --mount or --env-file: the base name of its source is found. */
  lemma FileFlagFound(ls: seq<Layout>, k: nat, ws: seq<Spaced>, i: nat, arg: string)
    requires WellLaidOut(ls) && k < |ls| && WellWritten(ws) && Says(LogicalText(ls[k]), "PodmanArgs", WriteLine(ws))
    requires i < |Words(ws)| && NamesPath(Words(ws), i, arg)
    requires VolumeSource(arg) != "" && Base(VolumeSource(arg)) != "." && Base(VolumeSource(arg)) != "/"
    ensures Base(VolumeSource(arg)) in Extract(UnitText(ls)).files
  {
    PodmanLine(LogicalText(ls[k]), ws);
    FileArgsMeaning(Words(ws), arg);
    SourcesMember(FileArgs(Words(ws)), arg);
    LineInUnit(ls, k);
  }

  const COLON_KEYS := {"Volume", "Mount", "AddDevice"}
  const PATH_KEYS := {"EnvironmentFile", "Rootfs", "ContainersConfModule", "Yaml", "File", "SetWorkingDirectory"}

  lemma KeyTables(key: string)
    ensures (IsColonKey(key) <==> key in COLON_KEYS) && (IsPlainKey(key) <==> key in PATH_KEYS)
    ensures !(key in COLON_KEYS && key in PATH_KEYS)
    ensures key == "PodmanArgs" || key == "Secret" ==> key !in COLON_KEYS && key !in PATH_KEYS
  {
  }

  /** What a line with a key says of files: the source of a volume, a path as it stands, or nothing. */
  lemma FilesByKey(text: string, key: string, val: string)
    requires Says(text, key, val) && key != "PodmanArgs"
    ensures LineFiles(Trim(text)) == if key in COLON_KEYS then [VolumeSource(val)] else if key in PATH_KEYS then [val] else []
  {
    LineParts(text, key, val);
    KeyTables(key);
  }

  /** And of secrets: only a Secret= line names one, up to its first comma. */
  lemma SecretsByKey(text: string, key: string, val: string)
    requires Says(text, key, val) && key != "PodmanArgs"
    ensures LineSecrets(Trim(text)) == if key == "Secret" then [Trim(Before(val, ','))] else []
  {
    LineParts(text, key, val);
  }

  /** A line without an equals sign says nothing. */
  lemma SilentLine(text: string)
    requires '=' !in Trim(text)
    ensures LineFiles(Trim(text)) == [] && LineSecrets(Trim(text)) == []
  {
    TrimTwice(text);
  }

  /** And of what a Secret= line, a Volume=, Mount= or AddDevice= line, or a line with a plain path names. */
  lemma KeyFound(ls: seq<Layout>, k: nat, key: string, val: string)
    requires WellLaidOut(ls) && k < |ls| && Says(LogicalText(ls[k]), key, val) && key != "PodmanArgs"
    ensures key == "Secret" ==> Trim(Before(val, ',')) in Extract(UnitText(ls)).secrets
    ensures var path := if key in COLON_KEYS then VolumeSource(val) else if key in PATH_KEYS then val else "";
            path != "" && Base(path) != "." && Base(path) != "/" ==> Base(path) in Extract(UnitText(ls)).files
  {
    FilesByKey(LogicalText(ls[k]), key, val);
    SecretsByKey(LogicalText(ls[k]), key, val);
    LineInUnit(ls, k);
  }

  // ---- what an argument names ------------------------------------------------------------------------------------------

  predicate IsSource(part: string) {
    "source=" <= Trim(part) || "src=" <= Trim(part)
  }

  lemma {:induction false} FirstSource(parts: seq<string>, i: nat)
    requires i < |parts| && IsSource(parts[i]) && forall j | 0 <= j < i :: !IsSource(parts[j])
    ensures var part := Trim(parts[i]);
            MountSourceOf(parts) == if "source=" <= part then part[|"source="|..] else part[|"src="|..]
  {
    if i > 0 {
      FirstSource(parts[1..], i - 1);
    }
  }

  lemma {:induction false} NoSource(parts: seq<string>)
    requires forall j | 0 <= j < |parts| :: !IsSource(parts[j])
    ensures MountSourceOf(parts) == ""
  {
    if parts != [] {
      NoSource(parts[1..]);
    }
  }

  /** A mount names the path of its first source= or src= option. */
  lemma MountNames(raw: string, options: seq<string>, i: nat, path: string)
    requires Trim(raw) == Join(options, ',') && forall j | 0 <= j < |options| :: Lacks(options[j], ',')
    requires i < |options| && forall j | 0 <= j < i :: !IsSource(options[j])
    requires path != "" && (Trim(options[i]) == "source=" + path || Trim(options[i]) == "src=" + path)
    ensures VolumeSource(raw) == path
  {
    SplitJoin(options, ',');
    assert "source="[1] == 'o' && "src="[1] == 'r';
    FirstSource(options, i);
  }

  lemma {:induction false} BeforeFirst(head: string, rest: string, sep: char)
    requires Lacks(head, sep)
    ensures Before(head + [sep] + rest, sep) == head && Before(head, sep) == head
  {
    var s := head + [sep] + rest;
    if head != "" {
      assert s[1..] == head[1..] + [sep] + rest;
      BeforeFirst(head[1..], rest, sep);
    }
  }

  /** A volume without such an option names what stands before its first colon. */
  lemma VolumeNames(raw: string, host: string, rest: string)
    requires (Trim(raw) == host + [':'] + rest || Trim(raw) == host) && Lacks(host, ':')
    requires forall j | 0 <= j < |Split(Trim(raw), ',')| :: !IsSource(Split(Trim(raw), ',')[j])
    ensures VolumeSource(raw) == host
  {
    NoSource(Split(Trim(raw), ','));
    BeforeFirst(host, rest, ':');
  }

  lemma {:induction false} LastOf(dir: string, name: string)
    requires Lacks(name, '/')
    ensures LastElement(dir + "/" + name) == name
    decreases |name|
  {
    var path := dir + "/" + name;
    if name != "" {
      assert path[..|path| - 1] == dir + "/" + name[..|name| - 1];
      LastOf(dir, name[..|name| - 1]);
      assert name[..|name| - 1] + [name[|name| - 1]] == name;
    }
  }

  function Slashes(n: nat): string {
    seq(n, i => '/')
  }

  lemma {:induction false} SlashesStripped(p: string, n: nat)
    ensures StripSlashes(p + Slashes(n)) == StripSlashes(p)
    decreases n
  {
    if n == 0 {
      assert p + Slashes(0) == p;
    } else {
      assert (p + Slashes(n))[..|p| + n - 1] == p + Slashes(n - 1);
      SlashesStripped(p, n - 1);
    }
  }

  /** The base name of a path is its last element, whatever slashes stand behind it; slashes alone are the root, and nothing
      is the directory itself. */
  lemma PathNames(dir: string, name: string, n: nat)
    requires name != "" && Lacks(name, '/')
    ensures Base(dir + "/" + name + Slashes(n)) == name
    ensures Base(name + Slashes(n)) == name
    ensures Base(Slashes(n)) == if n == 0 then "." else "/"
  {
    LastOf(dir, name);
    SlashesStripped(dir + "/" + name, n);
    SlashesStripped(name, n);
    SlashesStripped("", n);
    assert "" + Slashes(n) == Slashes(n);
    OnlyElement(name);
  }

  lemma {:induction false} OnlyElement(name: string)
    requires Lacks(name, '/')
    ensures LastElement(name) == name
  {
    if name != "" {
      OnlyElement(name[..|name| - 1]);
      assert name[..|name| - 1] + [name[|name| - 1]] == name;
    }
  }
}
