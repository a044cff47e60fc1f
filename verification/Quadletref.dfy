/** internal/quadletref: which support files and secrets a unit refers to. */
module Quadletref {
  import opened Text

  // ---- splitQuoted: a character-level state machine -----------------------------------------

  datatype Quote = Unquoted | SingleQuoted | DoubleQuoted

  datatype Lexer = Lexer(out: seq<string>, cur: string, inWord: bool, escaped: bool, quote: Quote)

  const START := Lexer([], "", false, false, Unquoted)

  function Flush(l: Lexer): Lexer {
    if l.inWord then l.(out := l.out + [l.cur], cur := "", inWord := false) else l
  }

  function Step(l: Lexer, r: char): Lexer {
    if l.escaped then l.(cur := l.cur + [r], escaped := false)
    else if l.quote == SingleQuoted then
      if r == '\'' then l.(quote := Unquoted) else l.(cur := l.cur + [r])
    else if l.quote == DoubleQuoted then
      if r == '\\' then l.(escaped := true)
      else if r == '"' then l.(quote := Unquoted)
      else l.(cur := l.cur + [r])
    else if r == '\\' then l.(escaped := true, inWord := true)
    else if r == '\'' then l.(quote := SingleQuoted, inWord := true)
    else if r == '"' then l.(quote := DoubleQuoted, inWord := true)
    else if IsSpace(r) then Flush(l)
    else l.(cur := l.cur + [r], inWord := true)
  }

  function Run(l: Lexer, v: string): Lexer
    decreases |v|
  {
    if v == "" then l else Run(Step(l, v[0]), v[1..])
  }

  function SplitQuoted(v: string): seq<string> {
    Flush(Run(START, v)).out
  }

  method ScanQuoted(v: string) returns (out: seq<string>)
    ensures out == SplitQuoted(v)
  {
    out := [];
    var cur, inWord, escaped, quote := "", false, false, Unquoted;
    for i := 0 to |v|
      invariant Run(START, v) == Run(Lexer(out, cur, inWord, escaped, quote), v[i..])
    {
      var r := v[i];
      assert v[i..][1..] == v[i + 1..];
      if escaped {
        cur, escaped := cur + [r], false;
      } else if quote == SingleQuoted {
        if r == '\'' { quote := Unquoted; } else { cur := cur + [r]; }
      } else if quote == DoubleQuoted {
        if r == '\\' { escaped := true; }
        else if r == '"' { quote := Unquoted; }
        else { cur := cur + [r]; }
      } else if r == '\\' {
        escaped, inWord := true, true;
      } else if r == '\'' || r == '"' {
        quote, inWord := if r == '"' then DoubleQuoted else SingleQuoted, true;
      } else if IsSpace(r) {
        if inWord {
          out, cur, inWord := out + [cur], "", false;
        }
      } else {
        cur, inWord := cur + [r], true;
      }
    }
    assert v[|v|..] == "";
    if inWord {
      out := out + [cur];
    }
  }

  // ---- what the tokenizer inverts: words written piecewise with any shell quoting -----------

  /** One stretch of a written word: a quoted text, or one character bare or behind a backslash. */
  datatype Piece = Dq(text: string) | Sq(text: string) | Escaped(c: char) | Bare(c: char)

  predicate IsSpecial(c: char) {
    c == '\\' || c == '\'' || c == '"' || IsSpace(c)
  }

  predicate Writable(p: Piece) {
    match p
    case Sq(t) => Lacks(t, '\'')
    case Bare(c) => !IsSpecial(c)
    case _ => true
  }

  function EscapeDq(t: string): string {
    if t == "" then ""
    else EscapeChar(t[0]) + EscapeDq(t[1..])
  }

  function WritePiece(p: Piece): string {
    match p
    case Dq(t) => "\"" + EscapeDq(t) + "\""
    case Sq(t) => "'" + t + "'"
    case Escaped(c) => ['\\', c]
    case Bare(c) => [c]
  }

  function PieceText(p: Piece): string {
    match p
    case Dq(t) => t
    case Sq(t) => t
    case Escaped(c) => [c]
    case Bare(c) => [c]
  }

  function WriteWord(w: seq<Piece>): string {
    if w == [] then "" else WritePiece(w[0]) + WriteWord(w[1..])
  }

  function WordText(w: seq<Piece>): string {
    if w == [] then "" else PieceText(w[0]) + WordText(w[1..])
  }

  /** A written word with the white space in front of it. */
  datatype Spaced = Spaced(gap: string, word: seq<Piece>)

  predicate WellWritten(ws: seq<Spaced>) {
    forall i | 0 <= i < |ws| ::
      && AllSpace(ws[i].gap) && (i > 0 ==> ws[i].gap != "")
      && ws[i].word != [] && forall k | 0 <= k < |ws[i].word| :: Writable(ws[i].word[k])
  }

  function WriteLine(ws: seq<Spaced>): string {
    if ws == [] then "" else ws[0].gap + WriteWord(ws[0].word) + WriteLine(ws[1..])
  }

  function Words(ws: seq<Spaced>): seq<string> {
    if ws == [] then [] else [WordText(ws[0].word)] + Words(ws[1..])
  }

  lemma {:induction false} RunAppend(l: Lexer, a: string, b: string)
    ensures Run(l, a + b) == Run(Run(l, a), b)
    decreases |a|
  {
    if a == "" {
      assert a + b == b;
    } else {
      assert (a + b)[1..] == a[1..] + b;
      RunAppend(Step(l, a[0]), a[1..], b);
    }
  }

  function EscapeChar(c: char): string {
    if c == '\\' || c == '"' then ['\\', c] else [c]
  }

  lemma RunEscaped(l: Lexer, c: char)
    requires !l.escaped && l.quote == DoubleQuoted
    ensures Run(l, EscapeChar(c)) == l.(cur := l.cur + [c])
  {
    if |EscapeChar(c)| == 2 {
      assert EscapeChar(c)[1..] == [c];
      RunOne(Step(l, '\\'), c);
    } else {
      RunOne(l, c);
    }
  }

  lemma {:induction false} RunDq(l: Lexer, t: string)
    requires !l.escaped && l.quote == DoubleQuoted
    ensures Run(l, EscapeDq(t)) == l.(cur := l.cur + t)
    decreases |t|
  {
    if t == "" {
      assert l.cur + t == l.cur;
    } else {
      var next := l.(cur := l.cur + [t[0]]);
      RunEscaped(l, t[0]);
      RunAppend(l, EscapeChar(t[0]), EscapeDq(t[1..]));
      RunDq(next, t[1..]);
      assert next.cur + t[1..] == l.cur + t;
    }
  }

  lemma {:induction false} RunSq(l: Lexer, t: string)
    requires !l.escaped && l.quote == SingleQuoted && Lacks(t, '\'')
    ensures Run(l, t) == l.(cur := l.cur + t)
    decreases |t|
  {
    if t == "" {
      assert l.cur + t == l.cur;
    } else {
      RunSq(l.(cur := l.cur + [t[0]]), t[1..]);
      assert (l.cur + [t[0]]) + t[1..] == l.cur + t;
    }
  }

  // A piece adds its text to the current word, whatever quoting wrote it.
  lemma {:induction false} RunPiece(l: Lexer, p: Piece)
    requires !l.escaped && l.quote == Unquoted && Writable(p)
    ensures Run(l, WritePiece(p)) == l.(cur := l.cur + PieceText(p), inWord := true)
  {
    match p
    case Dq(t) =>
      var inside := l.(quote := DoubleQuoted, inWord := true);
      assert ("\"" + EscapeDq(t) + "\"")[1..] == EscapeDq(t) + "\"";
      RunAppend(inside, EscapeDq(t), "\"");
      RunDq(inside, t);
      RunOne(inside.(cur := inside.cur + t), '"');
    case Sq(t) =>
      var inside := l.(quote := SingleQuoted, inWord := true);
      assert ("'" + t + "'")[1..] == t + "'";
      RunAppend(inside, t, "'");
      RunSq(inside, t);
      RunOne(inside.(cur := inside.cur + t), '\'');
    case Escaped(c) =>
      assert ['\\', c][1..] == [c];
      RunOne(Step(l, '\\'), c);
    case Bare(c) =>
      RunOne(l, c);
  }

  lemma RunPieceThen(l: Lexer, p: Piece, rest: string)
    requires !l.escaped && l.quote == Unquoted && Writable(p)
    ensures Run(l, WritePiece(p) + rest) == Run(l.(cur := l.cur + PieceText(p), inWord := true), rest)
  {
    RunAppend(l, WritePiece(p), rest);
    RunPiece(l, p);
  }

  lemma {:induction false} RunOne(l: Lexer, c: char)
    ensures Run(l, [c]) == Step(l, c)
  {
    assert [c][1..] == "";
  }

  lemma TextGrows(cur: string, w: seq<Piece>)
    requires w != []
    ensures cur + PieceText(w[0]) + WordText(w[1..]) == cur + WordText(w)
  {
  }

  lemma {:induction false} RunWord(l: Lexer, w: seq<Piece>)
    requires !l.escaped && l.quote == Unquoted
    requires forall k | 0 <= k < |w| :: Writable(w[k])
    ensures Run(l, WriteWord(w)) == l.(cur := l.cur + WordText(w), inWord := l.inWord || w != [])
    decreases |w|
  {
    if w == [] {
      assert l.cur + "" == l.cur;
    } else {
      var next := l.(cur := l.cur + PieceText(w[0]), inWord := true);
      RunPieceThen(l, w[0], WriteWord(w[1..]));
      RunWord(next, w[1..]);
      TextGrows(l.cur, w);
    }
  }

  lemma {:induction false} RunGap(l: Lexer, gap: string)
    requires !l.escaped && l.quote == Unquoted && AllSpace(gap)
    ensures Run(l, gap) == if gap == "" then l else Flush(l)
    decreases |gap|
  {
    if gap != "" {
      var next := Step(l, gap[0]);
      assert next == Flush(l);
      RunGap(next, gap[1..]);
    }
  }

  // Outside quotes, in a word or between two.
  predicate Open(l: Lexer) {
    !l.escaped && l.quote == Unquoted && (!l.inWord ==> l.cur == "")
  }

  function AfterWord(l: Lexer, w: Spaced): Lexer {
    Lexer(Flush(l).out, WordText(w.word), true, false, Unquoted)
  }

  // One word and the gap in front of it.
  lemma RunSpaced(l: Lexer, w: Spaced, rest: string)
    requires Open(l) && (l.inWord ==> w.gap != "")
    requires AllSpace(w.gap) && w.word != [] && forall k | 0 <= k < |w.word| :: Writable(w.word[k])
    ensures Run(l, w.gap + WriteWord(w.word) + rest) == Run(AfterWord(l, w), rest)
  {
    var l1 := if w.gap == "" then l else Flush(l);
    assert w.gap + WriteWord(w.word) + rest == w.gap + (WriteWord(w.word) + rest);
    RunAppend(l, w.gap, WriteWord(w.word) + rest);
    RunGap(l, w.gap);
    RunAppend(l1, WriteWord(w.word), rest);
    RunWord(l1, w.word);
    assert l1.cur + WordText(w.word) == WordText(w.word);
  }

  lemma WordFlushed(l: Lexer, w: Spaced)
    ensures Open(AfterWord(l, w)) && AfterWord(l, w).inWord && Flush(AfterWord(l, w)).out == Flush(l).out + [WordText(w.word)]
  {
  }

  lemma RunHead(l: Lexer, ws: seq<Spaced>)
    requires Open(l) && WellWritten(ws) && ws != [] && (l.inWord ==> ws[0].gap != "")
    ensures Run(l, WriteLine(ws)) == Run(AfterWord(l, ws[0]), WriteLine(ws[1..]))
  {
    RunSpaced(l, ws[0], WriteLine(ws[1..]));
  }

  lemma WordsGrow(out: seq<string>, ws: seq<Spaced>)
    requires ws != []
    ensures out + [WordText(ws[0].word)] + Words(ws[1..]) == out + Words(ws)
  {
  }

  lemma {:induction false} RunLine(l: Lexer, ws: seq<Spaced>)
    requires Open(l) && WellWritten(ws) && (l.inWord && ws != [] ==> ws[0].gap != "")
    ensures Open(Run(l, WriteLine(ws))) && Flush(Run(l, WriteLine(ws))).out == Flush(l).out + Words(ws)
    decreases |ws|
  {
    if ws == [] {
      assert Flush(l).out + [] == Flush(l).out;
    } else {
      var next := AfterWord(l, ws[0]);
      RunHead(l, ws);
      WordFlushed(l, ws[0]);
      WrittenRest(ws);
      RunLine(next, ws[1..]);
      WordsGrow(Flush(l).out, ws);
    }
  }

  lemma WrittenRest(ws: seq<Spaced>)
    requires WellWritten(ws) && ws != []
    ensures WellWritten(ws[1..]) && (ws[1..] != [] ==> ws[1..][0].gap != "")
  {
    assert forall i | 0 <= i < |ws[1..]| :: ws[1..][i] == ws[i + 1];
  }

  /** The round trip: however each word is quoted, piece by piece, the words come back as they were,
      empty quoted words included, for any white space around and between them. */
  lemma TokenizerRoundTrip(ws: seq<Spaced>, trailing: string)
    requires WellWritten(ws) && AllSpace(trailing)
    ensures SplitQuoted(WriteLine(ws) + trailing) == Words(ws)
  {
    RunAppend(START, WriteLine(ws), trailing);
    RunLine(START, ws);
    RunGap(Run(START, WriteLine(ws)), trailing);
  }

  // An open quote with what stands behind it, or a last backslash, at the end of a line.
  predicate Unclosed(tail: string, text: string) {
    || tail == "\"" + EscapeDq(text)
    || (tail == "'" + text && Lacks(text, '\''))
    || (tail == "\\" && text == "")
  }

  lemma RunUnclosed(l: Lexer, tail: string, text: string)
    requires !l.escaped && l.quote == Unquoted && Unclosed(tail, text)
    ensures var r := Run(l, tail); r.out == l.out && r.cur == l.cur + text && r.inWord
  {
    if tail == "\"" + EscapeDq(text) {
      assert tail[1..] == EscapeDq(text);
      RunDq(l.(quote := DoubleQuoted, inWord := true), text);
    } else if tail == "'" + text {
      assert tail[1..] == text;
      RunSq(l.(quote := SingleQuoted, inWord := true), text);
    } else {
      RunOne(l, '\\');
      assert l.cur + "" == l.cur;
    }
  }

  lemma RunTail(l: Lexer, w: seq<Piece>, tail: string, text: string)
    requires !l.escaped && l.quote == Unquoted && l.cur == "" && !l.inWord && Unclosed(tail, text)
    requires forall k | 0 <= k < |w| :: Writable(w[k])
    ensures Flush(Run(l, WriteWord(w) + tail)).out == l.out + [WordText(w) + text]
  {
    RunAppend(l, WriteWord(w), tail);
    RunWord(l, w);
    RunUnclosed(Run(l, WriteWord(w)), tail, text);
    assert "" + WordText(w) == WordText(w);
  }

  lemma RunToGap(ws: seq<Spaced>, gap: string) returns (l: Lexer)
    requires WellWritten(ws) && AllSpace(gap) && (ws != [] ==> gap != "")
    ensures l == Run(Run(START, WriteLine(ws)), gap)
    ensures !l.escaped && l.quote == Unquoted && l.cur == "" && !l.inWord && l.out == Words(ws)
  {
    RunLine(START, ws);
    RunGap(Run(START, WriteLine(ws)), gap);
    assert [] + Words(ws) == Words(ws);
    l := Run(Run(START, WriteLine(ws)), gap);
  }

  /** A quote left open at the end of a line ends with it, and a backslash there stands for nothing. */
  lemma UnclosedWord(ws: seq<Spaced>, gap: string, w: seq<Piece>, tail: string, text: string)
    requires WellWritten(ws) && AllSpace(gap) && (ws != [] ==> gap != "") && Unclosed(tail, text)
    requires forall k | 0 <= k < |w| :: Writable(w[k])
    ensures SplitQuoted(WriteLine(ws) + (gap + (WriteWord(w) + tail))) == Words(ws) + [WordText(w) + text]
  {
    var l := RunToGap(ws, gap);
    RunAppend(START, WriteLine(ws), gap + (WriteWord(w) + tail));
    RunAppend(Run(START, WriteLine(ws)), gap, WriteWord(w) + tail);
    RunTail(l, w, tail, text);
  }

  // ---- joinContinuations ------------------------------------------------------------------

  function Fold(lines: seq<string>, cur: string, pending: bool): seq<string>
    decreases |lines|
  {
    if lines == [] then if pending then [cur] else []
    else
      var line := Trim(lines[0]);
      if EndsWith(line, '\\') then Fold(lines[1..], cur + line[..|line| - 1], true)
      else [cur + line] + Fold(lines[1..], "", false)
  }

  function JoinContinuations(content: string): string {
    Join(Fold(Split(content, '\n'), "", false), '\n')
  }

  method FoldContinuations(content: string) returns (folded: string)
    ensures folded == JoinContinuations(content)
  {
    var lines := Split(content, '\n');
    var out, cur, pending := [], "", false;
    for i := 0 to |lines|
      invariant pending || cur == ""
      invariant Fold(lines, "", false) == out + Fold(lines[i..], cur, pending)
    {
      var line := Trim(lines[i]);
      assert lines[i..][1..] == lines[i + 1..];
      if EndsWith(line, '\\') {
        cur, pending := cur + line[..|line| - 1], true;
      } else {
        assert out + ([cur + line] + Fold(lines[i + 1..], "", false)) == out + [cur + line] + Fold(lines[i + 1..], "", false);
        out, cur, pending := out + [cur + line], "", false;
      }
    }
    assert lines[|lines|..] == [];
    assert out + [] == out;
    if pending {
      out := out + [cur];
    }
    folded := Join(out, '\n');
  }

  // ---- references on one line ----------------------------------------------------------------

  function MountSourceOf(parts: seq<string>): string {
    if parts == [] then ""
    else
      var part := Trim(parts[0]);
      if "source=" <= part then part[|"source="|..]
      else if "src=" <= part then part[|"src="|..]
      else MountSourceOf(parts[1..])
  }

  function MountSource(v: string): string {
    MountSourceOf(Split(v, ','))
  }

  method ScanMountSource(v: string) returns (src: string)
    ensures src == MountSource(v)
  {
    var parts := Split(v, ',');
    for i := 0 to |parts|
      invariant MountSource(v) == MountSourceOf(parts[i..])
    {
      var part := Trim(parts[i]);
      assert parts[i..][1..] == parts[i + 1..];
      if "source=" <= part { return part[|"source="|..]; }
      if "src=" <= part { return part[|"src="|..]; }
    }
    return "";
  }

  function VolumeSource(raw: string): string {
    var src := MountSource(Trim(raw));
    if src != "" then src else Before(Trim(raw), ':')
  }

  predicate IsSecretFlag(tok: string) {
    tok == "--secret"
  }

  // The value of a one-token --secret=value.
  function SecretFlag(tok: string): seq<string> {
    if "--secret=" <= tok then SecretName(tok[|"--secret="|..]) else []
  }

  function SecretName(arg: string): seq<string> {
    var name := Before(arg, ',');
    if name == "" then [] else [name]
  }

  function SecretArgs(toks: seq<string>): seq<string>
    decreases |toks|
  {
    if toks == [] then []
    else if IsSecretFlag(toks[0]) && |toks| > 1 then SecretName(toks[1]) + SecretArgs(toks[2..])
    else SecretFlag(toks[0]) + SecretArgs(toks[1..])
  }

  function PodmanArgSecrets(v: string): seq<string> {
    SecretArgs(SplitQuoted(v))
  }

  lemma SecretArgsStep(toks: seq<string>, i: nat)
    requires i < |toks|
    ensures SecretArgs(toks[i..]) ==
            if IsSecretFlag(toks[i]) && i + 1 < |toks| then SecretName(toks[i + 1]) + SecretArgs(toks[i + 2..])
            else SecretFlag(toks[i]) + SecretArgs(toks[i + 1..])
  {
    assert toks[i..][1..] == toks[i + 1..];
    if i + 1 < |toks| {
      assert toks[i..][2..] == toks[i + 2..];
    }
  }

  method ScanSecretArgs(v: string) returns (out: seq<string>)
    ensures out == PodmanArgSecrets(v)
  {
    var toks := ScanQuoted(v);
    out := [];
    var i := 0;
    while i < |toks|
      invariant 0 <= i <= |toks|
      invariant PodmanArgSecrets(v) == out + SecretArgs(toks[i..])
    {
      SecretArgsStep(toks, i);
      if IsSecretFlag(toks[i]) && i + 1 < |toks| {
        out := out + SecretName(toks[i + 1]);
        i := i + 1;
      } else {
        out := out + SecretFlag(toks[i]);
      }
      i := i + 1;
    }
  }

  function FileFlag(tok: string): seq<string> {
    if "--volume=" <= tok then [tok[|"--volume="|..]]
    else if "--mount=" <= tok then [tok[|"--mount="|..]]
    else if "--env-file=" <= tok then [tok[|"--env-file="|..]]
    else if "-v=" <= tok then [tok[|"-v="|..]]
    else []
  }

  predicate IsFileFlag(tok: string) {
    tok == "-v" || tok == "--volume" || tok == "--mount" || tok == "--env-file"
  }

  function FileArgs(toks: seq<string>): seq<string>
    decreases |toks|
  {
    if toks == [] then []
    else if IsFileFlag(toks[0]) then if |toks| > 1 then [toks[1]] + FileArgs(toks[2..]) else []
    else FileFlag(toks[0]) + FileArgs(toks[1..])
  }

  function PodmanArgFiles(v: string): seq<string> {
    FileArgs(SplitQuoted(v))
  }

  lemma FileArgsStep(out: seq<string>, toks: seq<string>, i: nat)
    requires i < |toks|
    ensures out + FileArgs(toks[i..]) ==
            if IsFileFlag(toks[i]) then (if i + 1 < |toks| then (out + [toks[i + 1]]) + FileArgs(toks[i + 2..]) else out)
            else (out + FileFlag(toks[i])) + FileArgs(toks[i + 1..])
  {
    assert toks[i..][1..] == toks[i + 1..];
    if i + 1 < |toks| {
      assert toks[i..][2..] == toks[i + 2..];
    }
  }

  method ScanFileArgs(v: string) returns (out: seq<string>)
    ensures out == PodmanArgFiles(v)
  {
    var toks := ScanQuoted(v);
    assert toks[0..] == toks;
    out := [];
    var i := 0;
    while i < |toks|
      invariant 0 <= i <= |toks|
      invariant FileArgs(toks) == out + FileArgs(toks[i..])
    {
      FileArgsStep(out, toks, i);
      if IsFileFlag(toks[i]) {
        if i + 1 < |toks| {
          out := out + [toks[i + 1]];
          i := i + 1;
        }
      } else {
        out := out + FileFlag(toks[i]);
      }
      i := i + 1;
    }
  }

  predicate IsColonKey(key: string) {
    key == "Volume" || key == "Mount" || key == "AddDevice"
  }

  predicate IsPlainKey(key: string) {
    || key == "EnvironmentFile" || key == "Rootfs" || key == "ContainersConfModule"
    || key == "Yaml" || key == "File" || key == "SetWorkingDirectory"
  }

  function Sources(raws: seq<string>): seq<string> {
    if raws == [] then [] else [VolumeSource(raws[0])] + Sources(raws[1..])
  }

  // The paths one (already folded) line mentions.
  function LineFiles(line: string): seq<string> {
    var l := Trim(line);
    if '=' !in l then []
    else
      var key, val := Trim(Before(l, '=')), Trim(After(l, '='));
      if IsColonKey(key) then [VolumeSource(val)]
      else if IsPlainKey(key) then [val]
      else if key == "PodmanArgs" then Sources(PodmanArgFiles(val))
      else []
  }

  function LineSecrets(line: string): seq<string> {
    var l := Trim(line);
    if '=' !in l then []
    else
      var key, val := Trim(Before(l, '=')), Trim(After(l, '='));
      if key == "Secret" then [Trim(Before(val, ','))]
      else if key == "PodmanArgs" then PodmanArgSecrets(val)
      else []
  }

  // ---- Extract --------------------------------------------------------------------------------

  datatype Refs = Refs(files: seq<string>, secrets: seq<string>)

  predicate IsFileRef(base: string) {
    base != "." && base != "/"
  }

  function AddFile(files: seq<string>, path: string): seq<string> {
    if path == "" || !IsFileRef(Base(path)) || Base(path) in files then files else files + [Base(path)]
  }

  function AddFiles(files: seq<string>, paths: seq<string>): seq<string>
    decreases |paths|
  {
    if paths == [] then files else AddFiles(AddFile(files, paths[0]), paths[1..])
  }

  function ExtractLines(r: Refs, lines: seq<string>): Refs
    decreases |lines|
  {
    if lines == [] then r
    else ExtractLines(Refs(AddFiles(r.files, LineFiles(lines[0])), r.secrets + LineSecrets(lines[0])), lines[1..])
  }

  function Extract(content: string): Refs {
    ExtractLines(Refs([], []), Split(JoinContinuations(content), '\n'))
  }

  // The set that goes with the growing list of files.
  ghost predicate Seen(seen: set<string>, files: seq<string>) {
    forall f :: f in seen <==> f in files
  }

  method Add(files0: seq<string>, seen0: set<string>, path: string) returns (files: seq<string>, seen: set<string>)
    requires Seen(seen0, files0)
    ensures files == AddFile(files0, path) && Seen(seen, files)
  {
    files, seen := files0, seen0;
    if path == "" {
      return;
    }
    var name := Base(path);
    if name != "." && name != "/" && name !in seen {
      files, seen := files + [name], seen + {name};
    }
  }

  method AddPodmanFiles(files0: seq<string>, seen0: set<string>, val: string) returns (files: seq<string>, seen: set<string>)
    requires Seen(seen0, files0)
    ensures files == AddFiles(files0, Sources(PodmanArgFiles(val))) && Seen(seen, files)
  {
    files, seen := files0, seen0;
    var raws := ScanFileArgs(val);
    for j := 0 to |raws|
      invariant AddFiles(files0, Sources(raws)) == AddFiles(files, Sources(raws[j..]))
      invariant Seen(seen, files)
    {
      assert raws[j..][1..] == raws[j + 1..];
      files, seen := Add(files, seen, VolumeSource(raws[j]));
    }
    assert raws[|raws|..] == [];
  }

  method AddLine(r0: Refs, seen0: set<string>, line: string) returns (r: Refs, seen: set<string>)
    requires Seen(seen0, r0.files)
    ensures r == Refs(AddFiles(r0.files, LineFiles(line)), r0.secrets + LineSecrets(line)) && Seen(seen, r.files)
  {
    var files, secrets := r0.files, r0.secrets;
    seen := seen0;
    assert secrets + [] == secrets;
    var l := Trim(line);
    if '=' in l {
      var key, val := Trim(Before(l, '=')), Trim(After(l, '='));
      if IsColonKey(key) {
        files, seen := Add(files, seen, VolumeSource(val));
      } else if IsPlainKey(key) {
        files, seen := Add(files, seen, val);
      } else if key == "Secret" {
        secrets := secrets + [Trim(Before(val, ','))];
      } else if key == "PodmanArgs" {
        files, seen := AddPodmanFiles(files, seen, val);
        var names := ScanSecretArgs(val);
        secrets := secrets + names;
      }
    }
    r := Refs(files, secrets);
  }

  method ExtractRefs(content: string) returns (r: Refs)
    ensures r == Extract(content)
  {
    var folded := FoldContinuations(content);
    var lines := Split(folded, '\n');
    r := Refs([], []);
    var seen := {};
    for i := 0 to |lines|
      invariant Extract(content) == ExtractLines(r, lines[i..])
      invariant Seen(seen, r.files)
    {
      assert lines[i..][1..] == lines[i + 1..];
      r, seen := AddLine(r, seen, lines[i]);
    }
    assert lines[|lines|..] == [];
  }

  lemma {:induction false} AddFilesMeaning(files: seq<string>, paths: seq<string>)
    requires NoDuplicates(files)
    ensures NoDuplicates(AddFiles(files, paths))
    ensures forall f :: f in AddFiles(files, paths) <==>
              f in files || exists p | p in paths :: p != "" && Base(p) == f && IsFileRef(f)
    decreases |paths|
  {
    if paths != [] {
      var p0 := paths[0];
      AddFilesMeaning(AddFile(files, p0), paths[1..]);
      assert forall p :: p in paths <==> p == p0 || p in paths[1..];
    }
  }

  lemma {:induction false} ExtractLinesMeaning(r: Refs, lines: seq<string>)
    requires NoDuplicates(r.files)
    ensures NoDuplicates(ExtractLines(r, lines).files)
    ensures forall f :: f in ExtractLines(r, lines).files <==>
              f in r.files || exists l, p :: l in lines && p in LineFiles(l) && p != "" && Base(p) == f && IsFileRef(f)
    ensures forall s :: s in ExtractLines(r, lines).secrets <==>
              s in r.secrets || exists l :: l in lines && s in LineSecrets(l)
    decreases |lines|
  {
    if lines != [] {
      var l0 := lines[0];
      AddFilesMeaning(r.files, LineFiles(l0));
      ExtractLinesMeaning(Refs(AddFiles(r.files, LineFiles(l0)), r.secrets + LineSecrets(l0)), lines[1..]);
      assert forall l :: l in lines <==> l == l0 || l in lines[1..];
    }
  }

  /** What Extract finds: exactly the base names of the paths some folded line mentions, each once, and
      exactly the secrets some folded line names. */
  lemma ExtractMeaning(content: string)
    ensures NoDuplicates(Extract(content).files)
    ensures forall f :: f in Extract(content).files <==>
              && f != "." && f != "/"
              && exists l, p :: l in Fold(Split(content, '\n'), "", false) && p in LineFiles(l) && p != "" && Base(p) == f
    ensures forall s :: s in Extract(content).secrets <==>
              exists l :: l in Fold(Split(content, '\n'), "", false) && s in LineSecrets(l)
  {
    RefoldLines(content);
    ExtractLinesMeaning(Refs([], []), Fold(Split(content, '\n'), "", false));
  }

  lemma {:induction false} SplitLacks(s: string, sep: char)
    ensures forall i | 0 <= i < |Split(s, sep)| :: Lacks(Split(s, sep)[i], sep)
  {
    if s != "" {
      SplitLacks(s[1..], sep);
    }
  }

  lemma {:induction false} TrimLacks(s: string, c: char)
    requires Lacks(s, c)
    ensures Lacks(TrimLeft(s), c) && Lacks(TrimRight(s), c)
  {
    if s != "" {
      TrimLacks(s[1..], c);
      TrimLacks(s[..|s| - 1], c);
    }
  }

  lemma {:induction false} FoldLacks(lines: seq<string>, cur: string, pending: bool)
    requires Lacks(cur, '\n') && forall i | 0 <= i < |lines| :: Lacks(lines[i], '\n')
    ensures forall i | 0 <= i < |Fold(lines, cur, pending)| :: Lacks(Fold(lines, cur, pending)[i], '\n')
    ensures (lines != [] || pending) ==> Fold(lines, cur, pending) != []
    decreases |lines|
  {
    if lines != [] {
      TrimLacks(lines[0], '\n');
      TrimLacks(TrimLeft(lines[0]), '\n');
      var line := Trim(lines[0]);
      if EndsWith(line, '\\') {
        FoldLacks(lines[1..], cur + line[..|line| - 1], true);
      } else {
        FoldLacks(lines[1..], "", false);
      }
    }
  }

  // Splitting the folded text again gives the folded lines back.
  lemma RefoldLines(content: string)
    ensures Split(JoinContinuations(content), '\n') == Fold(Split(content, '\n'), "", false)
  {
    SplitLacks(content, '\n');
    FoldLacks(Split(content, '\n'), "", false);
    SplitJoin(Fold(Split(content, '\n'), "", false), '\n');
  }

  // ---- folding invariance: one logical line may be cut anywhere --------------------------------

  /** A logical line as it is laid out: whole, or cut behind `piece` with a backslash, white space
      (a CR, say), a newline and an indentation in front of the rest. */
  datatype Layout = Whole(text: string, trail: string)
                  | Cut(piece: string, trail: string, indent: string, rest: Layout)

  function LogicalText(l: Layout): string {
    match l
    case Whole(text, _) => text
    case Cut(piece, _, _, rest) => piece + LogicalText(rest)
  }

  function PhysicalLines(l: Layout, indent: string): seq<string>
    decreases l
  {
    match l
    case Whole(text, trail) => [indent + text + trail]
    case Cut(piece, trail, inner, rest) => [indent + piece + "\\" + trail] + PhysicalLines(rest, inner)
  }

  predicate StartsBlank(s: string) {
    s != "" && IsSpace(s[0])
  }

  predicate WellCut(l: Layout, first: bool) {
    match l
    case Whole(text, trail) =>
      && AllSpace(trail) && Lacks(text, '\n') && Lacks(trail, '\n')
      && if first then !EndsWith(Trim(text), '\\')
         else text != "" && !IsSpace(text[0]) && !IsSpace(text[|text| - 1]) && !EndsWith(text, '\\')
    case Cut(piece, trail, indent, rest) =>
      && AllSpace(trail) && AllSpace(indent)
      && Lacks(piece, '\n') && Lacks(trail, '\n') && Lacks(indent, '\n')
      && (!first ==> !StartsBlank(piece))
      && WellCut(rest, false)
  }

  function Lines(ls: seq<Layout>): seq<string> {
    if ls == [] then [] else PhysicalLines(ls[0], "") + Lines(ls[1..])
  }

  function UnitText(ls: seq<Layout>): string {
    Join(Lines(ls), '\n')
  }

  function Trimmed(ls: seq<Layout>): seq<string> {
    if ls == [] then [] else [Trim(LogicalText(ls[0]))] + Trimmed(ls[1..])
  }

  // The text behind a cut neither starts nor ends with white space.
  lemma {:induction false} RestSolid(l: Layout)
    requires WellCut(l, false)
    ensures var t := LogicalText(l); t != "" && !IsSpace(t[0]) && !IsSpace(t[|t| - 1])
  {
    if l.Cut? {
      RestSolid(l.rest);
    }
  }

  lemma TrimPhysical(indent: string, body: string, trail: string)
    requires AllSpace(indent) && AllSpace(trail)
    ensures Trim(indent + body + trail) == Trim(body)
  {
    assert indent + body + trail == indent + (body + trail);
    TrimLeftSpaces(indent, body + trail);
    TrimRightCommutes(body, trail);
  }

  lemma {:induction false} TrimRightCommutes(body: string, trail: string)
    requires AllSpace(trail)
    ensures Trim(body + trail) == Trim(body)
    decreases |body|
  {
    if body == "" {
      assert "" + trail == trail == trail + "";
      TrimLeftSpaces(trail, "");
    } else if IsSpace(body[0]) {
      assert (body + trail)[1..] == body[1..] + trail;
      TrimRightCommutes(body[1..], trail);
    } else {
      TrimRightSpaces(body, trail);
    }
  }

  // A line of a cut: the last one, and one before it.
  lemma FoldEnd(indent: string, text: string, trail: string, cur: string, more: seq<string>)
    requires AllSpace(indent) && AllSpace(trail) && Trim(text) == text && !EndsWith(text, '\\')
    ensures Fold([indent + text + trail] + more, cur, true) == [cur + text] + Fold(more, "", false)
  {
    TrimPhysical(indent, text, trail);
    assert ([indent + text + trail] + more)[1..] == more;
  }

  lemma FoldOn(indent: string, piece: string, trail: string, cur: string, more: seq<string>)
    requires AllSpace(indent) && AllSpace(trail) && !StartsBlank(piece)
    ensures Fold([indent + piece + "\\" + trail] + more, cur, true) == Fold(more, cur + piece, true)
  {
    var lines := [indent + piece + "\\" + trail] + more;
    TrimPhysical(indent, piece + "\\", trail);
    assert indent + (piece + "\\") + trail == indent + piece + "\\" + trail;
    assert Trim(lines[0]) == piece + "\\";
    assert lines[1..] == more;
  }

  lemma {:induction false} FoldRest(l: Layout, indent: string, cur: string, more: seq<string>)
    requires WellCut(l, false) && AllSpace(indent)
    ensures Fold(PhysicalLines(l, indent) + more, cur, true) == [cur + LogicalText(l)] + Fold(more, "", false)
    decreases l
  {
    match l
    case Whole(text, trail) => FoldEnd(indent, text, trail, cur, more);
    case Cut(piece, trail, inner, rest) =>
      var behind := PhysicalLines(rest, inner) + more;
      assert PhysicalLines(l, indent) + more == [indent + piece + "\\" + trail] + behind;
      FoldOn(indent, piece, trail, cur, behind);
      FoldRest(rest, inner, cur + piece, more);
      assert cur + piece + LogicalText(rest) == cur + (piece + LogicalText(rest));
  }

  lemma FoldWhole(text: string, trail: string, more: seq<string>)
    requires AllSpace(trail) && !EndsWith(Trim(text), '\\')
    ensures Fold(["" + text + trail] + more, "", false) == [Trim(text)] + Fold(more, "", false)
  {
    var lines := ["" + text + trail] + more;
    TrimPhysical("", text, trail);
    assert lines[1..] == more;
    assert "" + Trim(text) == Trim(text);
  }

  // A line cut short goes on in the next one.
  lemma FoldCut(piece: string, trail: string, more: seq<string>)
    requires AllSpace(trail)
    ensures Fold(["" + piece + "\\" + trail] + more, "", false) == Fold(more, TrimLeft(piece), true)
  {
    var lines := ["" + piece + "\\" + trail] + more;
    var head := TrimLeft(piece);
    assert "" + piece + "\\" + trail == "" + (piece + "\\") + trail;
    TrimPhysical("", piece + "\\", trail);
    TrimLeftAppend(piece, "\\");
    assert Trim(lines[0]) == head + "\\";
    assert lines[1..] == more;
    assert "" + head == head;
  }

  lemma FoldLayout(l: Layout, more: seq<string>)
    requires WellCut(l, true)
    ensures Fold(PhysicalLines(l, "") + more, "", false) == [Trim(LogicalText(l))] + Fold(more, "", false)
  {
    match l
    case Whole(text, trail) => FoldWhole(text, trail, more);
    case Cut(piece, trail, inner, rest) =>
      var head := TrimLeft(piece);
      var behind := PhysicalLines(rest, inner) + more;
      assert PhysicalLines(l, "") + more == ["" + piece + "\\" + trail] + behind;
      FoldCut(piece, trail, behind);
      FoldRest(rest, inner, head, more);
      RestSolid(rest);
      TrimLeftAppend(piece, LogicalText(rest));
  }

  lemma {:induction false} FoldLayouts(ls: seq<Layout>)
    requires forall i | 0 <= i < |ls| :: WellCut(ls[i], true)
    ensures Fold(Lines(ls), "", false) == Trimmed(ls)
  {
    if ls != [] {
      FoldLayouts(ls[1..]);
      FoldLayout(ls[0], Lines(ls[1..]));
    }
  }

  lemma {:induction false} PhysicalLack(l: Layout, indent: string, first: bool)
    requires WellCut(l, first) && Lacks(indent, '\n')
    ensures forall i | 0 <= i < |PhysicalLines(l, indent)| :: Lacks(PhysicalLines(l, indent)[i], '\n')
    ensures PhysicalLines(l, indent) != []
    decreases l
  {
    if l.Cut? {
      PhysicalLack(l.rest, l.indent, false);
    }
  }

  lemma {:induction false} LinesLack(ls: seq<Layout>)
    requires forall i | 0 <= i < |ls| :: WellCut(ls[i], true)
    ensures forall i | 0 <= i < |Lines(ls)| :: Lacks(Lines(ls)[i], '\n')
    ensures ls != [] ==> Lines(ls) != []
  {
    if ls != [] {
      PhysicalLack(ls[0], "", true);
      LinesLack(ls[1..]);
    }
  }

  // A unit's folded lines are its trimmed logical lines, however they are laid out.
  lemma FoldedUnit(ls: seq<Layout>)
    requires ls != [] && forall i | 0 <= i < |ls| :: WellCut(ls[i], true)
    ensures Fold(Split(UnitText(ls), '\n'), "", false) == Trimmed(ls)
  {
    LinesLack(ls);
    SplitJoin(Lines(ls), '\n');
    FoldLayouts(ls);
  }

  /** Folding invariance: two layouts of the same logical lines refer to the same files and secrets, so
      cutting lines with continuations never hides (or invents) a reference. */
  lemma FoldingInvariance(a: seq<Layout>, b: seq<Layout>)
    requires |a| == |b| > 0
    requires forall i | 0 <= i < |a| :: WellCut(a[i], true) && WellCut(b[i], true) && LogicalText(a[i]) == LogicalText(b[i])
    ensures Extract(UnitText(a)) == Extract(UnitText(b))
  {
    FoldedUnit(a);
    FoldedUnit(b);
    RefoldLines(UnitText(a));
    RefoldLines(UnitText(b));
    TrimmedEqual(a, b);
  }

  lemma {:induction false} TrimmedEqual(a: seq<Layout>, b: seq<Layout>)
    requires |a| == |b| && forall i | 0 <= i < |a| :: LogicalText(a[i]) == LogicalText(b[i])
    ensures Trimmed(a) == Trimmed(b)
  {
    if a != [] {
      TrimmedEqual(a[1..], b[1..]);
    }
  }

  lemma {:induction false} FoldCutEnd(lines: seq<string>, last: string, cur: string, pending: bool)
    requires (last == "" || !IsSpace(last[|last| - 1])) && !EndsWith(last, '\\') && (pending || cur == "")
    ensures Fold(lines + [last + "\\"], cur, pending) == Fold(lines + [last], cur, pending)
    decreases |lines|
  {
    if lines == [] {
      TrimLeftAppend(last, "\\");
      TrimKeepsEnd(last);
      assert [last + "\\"][1..] == [] && [last][1..] == [];
      assert lines + [last + "\\"] == [last + "\\"] && lines + [last] == [last];
      assert Trim(last + "\\") == Trim(last) + "\\";
    } else {
      var line := Trim(lines[0]);
      assert (lines + [last + "\\"])[1..] == lines[1..] + [last + "\\"] && (lines + [last])[1..] == lines[1..] + [last];
      if EndsWith(line, '\\') {
        FoldCutEnd(lines[1..], last, cur + line[..|line| - 1], true);
      } else {
        FoldCutEnd(lines[1..], last, "", false);
      }
    }
  }

  lemma {:induction false} TrimKeepsEnd(s: string)
    requires s == "" || !IsSpace(s[|s| - 1])
    ensures Trim(s) == TrimLeft(s) && (EndsWith(Trim(s), '\\') ==> EndsWith(s, '\\'))
    decreases |s|
  {
    if s != "" && IsSpace(s[0]) {
      assert s[1..] != "" ==> s[1..][|s[1..]| - 1] == s[|s| - 1];
      TrimKeepsEnd(s[1..]);
    }
  }

  lemma {:induction false} SplitEnd(s: string, tail: string, sep: char) returns (front: seq<string>, last: string)
    requires Lacks(tail, sep)
    ensures Split(s, sep) == front + [last] && Split(s + tail, sep) == front + [last + tail]
    decreases |s|
  {
    if s == "" {
      SplitLacking(tail, sep);
      assert s + tail == tail;
      front, last := [], "";
      return;
    }
    front, last := SplitEnd(s[1..], tail, sep);
    assert (s + tail)[1..] == s[1..] + tail;
    if s[0] == sep {
      assert [""] + (front + [last]) == [""] + front + [last];
      assert [""] + (front + [last + tail]) == [""] + front + [last + tail];
      front := [""] + front;
    } else if front == [] {
      assert [s[0]] + (last + tail) == [s[0]] + last + tail;
      last := [s[0]] + last;
    } else {
      front := [[s[0]] + front[0]] + front[1..];
    }
  }

  /** A unit that ends in the middle of a continued line reads as if its last backslash were not there. */
  lemma CutAtEnd(content: string, front: seq<string>, last: string)
    requires Split(content, '\n') == front + [last]
    requires (last == "" || !IsSpace(last[|last| - 1])) && !EndsWith(last, '\\')
    ensures JoinContinuations(content + "\\") == JoinContinuations(content)
    ensures Extract(content + "\\") == Extract(content)
  {
    var front', last' := SplitEnd(content, "\\", '\n');
    SameEnd(front, last, front', last');
    FoldCutEnd(front, last, "", false);
    SameFold(content + "\\", content);
  }

  lemma SameEnd(a: seq<string>, x: string, b: seq<string>, y: string)
    requires a + [x] == b + [y]
    ensures a == b && x == y
  {
    assert (a + [x])[|a|] == (b + [y])[|b|];
    assert a == (a + [x])[..|a|] && b == (b + [y])[..|b|];
  }

  lemma SameFold(a: string, b: string)
    requires JoinContinuations(a) == JoinContinuations(b)
    ensures Extract(a) == Extract(b)
  {
  }
}
