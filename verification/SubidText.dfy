/** internal/provision: the subuid and subgid maps as text.  What `Subid` knows as lines is read from it here. */
module SubidText {
  import opened Basics
  import opened Subid
  import opened Text

  // ---- decimal numbers ------------------------------------------------------------------------------------------

  predicate IsDigit(c: char) {
    '0' <= c <= '9'
  }

  function Digits(s: string): Option<nat> {
    if s == "" then Some(0)
    else
      var rest, c := Digits(s[..|s| - 1]), s[|s| - 1];
      if rest.Some? && IsDigit(c) then Some(rest.value * 10 + (c as int - '0' as int)) else None
  }

  const MAX_INT: int := 0x7FFF_FFFF_FFFF_FFFF

  // strconv.Atoi on a 64-bit int
  function Atoi(s: string): Option<int> {
    var signed := s != "" && (s[0] == '-' || s[0] == '+');
    var digits := if signed then s[1..] else s;
    if digits == "" || Digits(digits).None? then None
    else
      var n: int := if signed && s[0] == '-' then -(Digits(digits).value as int) else Digits(digits).value;
      if -MAX_INT - 1 <= n <= MAX_INT then Some(n) else None
  }

  function Show(n: nat): string {
    (if n < 10 then "" else Show(n / 10)) + [('0' as int + n % 10) as char]
  }

  lemma {:induction false} DigitsShow(n: nat)
    ensures Digits(Show(n)) == Some(n) && Show(n) != "" && forall i | 0 <= i < |Show(n)| :: IsDigit(Show(n)[i])
  {
    var front := if n < 10 then "" else Show(n / 10);
    assert Show(n)[..|Show(n)| - 1] == front;
    if n >= 10 {
      DigitsShow(n / 10);
    }
  }

  /** A printed number is read back. */
  lemma AtoiShow(n: nat)
    requires n <= MAX_INT
    ensures Atoi(Show(n)) == Some(n)
  {
    DigitsShow(n);
    assert IsDigit(Show(n)[0]);
  }

  function Zeros(k: nat): string {
    seq(k, i => '0')
  }

  // A number in digits, with zeros before it or not.
  ghost predicate Numeral(s: string, n: nat) {
    exists k: nat :: s == Zeros(k) + Show(n)
  }

  lemma {:induction false} DigitsZeros(k: nat, s: string)
    ensures Digits(Zeros(k) + s) == Digits(s)
    decreases k + |s|
  {
    var t := Zeros(k) + s;
    if s != "" {
      assert t[..|t| - 1] == Zeros(k) + s[..|s| - 1] && t[|t| - 1] == s[|s| - 1];
      DigitsZeros(k, s[..|s| - 1]);
    } else if k > 0 {
      assert t[..|t| - 1] == Zeros(k - 1) + "" && t[|t| - 1] == '0';
      DigitsZeros(k - 1, "");
    }
  }

  lemma ShowMore(m: nat, d: nat)
    requires d < 10
    ensures Show(d) == [('0' as int + d) as char]
    ensures m > 0 ==> Show(10 * m + d) == Show(m) + [('0' as int + d) as char]
  {
    assert "" + [('0' as int + d) as char] == [('0' as int + d) as char];
  }

  lemma OneDigitMore(front: string, m: nat, d: nat)
    requires Numeral(front, m) && d < 10
    ensures Numeral(front + [('0' as int + d) as char], 10 * m + d)
  {
    var c := ('0' as int + d) as char;
    var k: nat :| front == Zeros(k) + Show(m);
    ShowMore(m, d);
    if m == 0 {
      assert Show(0) == "0";
      assert front + [c] == Zeros(k + 1) + Show(d);
    } else {
      assert front + [c] == Zeros(k) + Show(10 * m + d);
    }
  }

  lemma {:induction false} DigitsRead(s: string)
    requires s != "" && Digits(s).Some?
    ensures Numeral(s, Digits(s).value)
    decreases |s|
  {
    var front, c := s[..|s| - 1], s[|s| - 1];
    var d: nat := c as int - '0' as int;
    assert s == front + [c] && c == ('0' as int + d) as char;
    if front == "" {
      ShowMore(0, d);
      assert s == Zeros(0) + Show(d);
    } else {
      DigitsRead(front);
      OneDigitMore(front, Digits(front).value, d);
    }
  }

  lemma DigitsMeaning(s: string, n: nat)
    requires s != ""
    ensures Digits(s) == Some(n) <==> Numeral(s, n)
  {
    if Digits(s).Some? {
      DigitsRead(s);
    }
    if Numeral(s, n) {
      var k: nat :| s == Zeros(k) + Show(n);
      DigitsZeros(k, Show(n));
      DigitsShow(n);
    }
  }

  // The first character tells a sign from a digit.
  lemma NumeralFirst(s: string, n: nat)
    requires Numeral(s, n)
    ensures s != "" && IsDigit(s[0])
  {
    var k: nat :| s == Zeros(k) + Show(n);
    DigitsShow(n);
    assert k > 0 ==> s[0] == '0';
  }

  ghost predicate Signed(s: string, n: int) {
    || (n >= 0 && (Numeral(s, n) || (s != "" && s[0] == '+' && Numeral(s[1..], n))))
    || (n <= 0 && s != "" && s[0] == '-' && Numeral(s[1..], -n))
  }

  /** What reads as a number: digits, with or without a sign and leading zeros, as long as it fits in 64 bits. */
  lemma AtoiMeaning(s: string, n: int)
    ensures Atoi(s) == Some(n) <==> Signed(s, n) && -0x8000_0000_0000_0000 <= n < 0x8000_0000_0000_0000
  {
    var signed := s != "" && (s[0] == '-' || s[0] == '+');
    var digits := if signed then s[1..] else s;
    if n >= 0 && Numeral(s, n) {
      NumeralFirst(s, n);
    }
    if n >= 0 && Numeral(digits, n) {
      NumeralFirst(digits, n);
    }
    if n <= 0 && Numeral(digits, -n) {
      NumeralFirst(digits, -n);
    }
    if digits != "" {
      if n >= 0 {
        DigitsMeaning(digits, n);
      }
      if n <= 0 {
        DigitsMeaning(digits, -n);
      }
    }
  }

  // ---- lines ------------------------------------------------------------------------------------------------------

  function ParseLine(line: string): Line {
    var f := Split(Trim(line), ':');
    if |f| == 3 && Atoi(f[1]).Some? && Atoi(f[2]).Some? then Range(f[0], Atoi(f[1]).value, Atoi(f[2]).value)
    else Other(Trim(line))
  }

  function ParseLines(lines: seq<string>): seq<Line> {
    seq(|lines|, i requires 0 <= i < |lines| => ParseLine(lines[i]))
  }

  function ParseMap(content: string): seq<Line> {
    ParseLines(Split(content, '\n'))
  }

  // What usermod writes.
  function ShowRange(owner: string, start: nat, count: nat): string {
    owner + ":" + Show(start) + ":" + Show(count)
  }

  predicate IsName(user: string) {
    user != "" && Lacks(user, ':') && Lacks(user, '\n') && forall i | 0 <= i < |user| :: !IsSpace(user[i])
  }

  lemma TrimTight(s: string)
    requires s != "" && !IsSpace(s[0]) && !IsSpace(s[|s| - 1])
    ensures Trim(s) == s
  {
  }

  lemma JoinThree(a: string, b: string, c: string)
    ensures Join([a, b, c], ':') == a + ":" + b + ":" + c
  {
    assert [a, b, c][1..] == [b, c] && [b, c][1..] == [c];
    assert Join([b, c], ':') == b + [':'] + c;
  }

  lemma ShowLacks(n: nat, c: char)
    requires !IsDigit(c)
    ensures Lacks(Show(n), c)
  {
    DigitsShow(n);
  }

  /** A range as usermod writes it is read back. */
  lemma ParseShown(owner: string, start: nat, count: nat)
    requires IsName(owner) && start <= MAX_INT && count <= MAX_INT
    ensures ParseLine(ShowRange(owner, start, count)) == Range(owner, start, count)
  {
    var parts, line := [owner, Show(start), Show(count)], ShowRange(owner, start, count);
    DigitsShow(count);
    ShowLacks(start, ':');
    ShowLacks(count, ':');
    JoinThree(owner, Show(start), Show(count));
    assert line[0] == owner[0] && line[|line| - 1] == Show(count)[|Show(count)| - 1];
    TrimTight(line);
    SplitJoin(parts, ':');
    AtoiShow(start);
    AtoiShow(count);
  }

  lemma {:induction false} PartsLack(s: string, sep: char)
    ensures forall i | 0 <= i < |Split(s, sep)| :: Lacks(Split(s, sep)[i], sep)
  {
    if s != "" {
      PartsLack(s[1..], sep);
    }
  }

  /** A line is a range exactly when it is an owner and two numbers, kept apart by colons; any other is kept as text. */
  lemma RangeText(line: string, owner: string, start: int, count: int)
    ensures ParseLine(line) == Range(owner, start, count) <==>
            exists x, y :: Trim(line) == owner + ":" + x + ":" + y && Lacks(owner, ':') && Lacks(x, ':') && Lacks(y, ':')
                           && Atoi(x) == Some(start) && Atoi(y) == Some(count)
    ensures ParseLine(line).Other? ==> ParseLine(line).text == Trim(line)
  {
    var f := Split(Trim(line), ':');
    if ParseLine(line) == Range(owner, start, count) {
      PartsLack(Trim(line), ':');
      JoinSplit(Trim(line), ':');
      assert f == [f[0], f[1], f[2]];
      JoinThree(f[0], f[1], f[2]);
    }
    if x, y :| Trim(line) == owner + ":" + x + ":" + y && Lacks(owner, ':') && Lacks(x, ':') && Lacks(y, ':')
               && Atoi(x) == Some(start) && Atoi(y) == Some(count)
    {
      JoinThree(owner, x, y);
      SplitJoin([owner, x, y], ':');
    }
  }

  lemma {:induction false} FirstField(s: string, user: string)
    requires Lacks(user, ':')
    ensures |Split(s, ':')| > 1 ==> (user + ":" <= s <==> Split(s, ':')[0] == user)
    ensures |Split(s, ':')| == 1 ==> !(user + ":" <= s)
    decreases |s|
  {
    if s != "" && s[0] != ':' {
      if user != "" && user[0] == s[0] {
        FirstField(s[1..], user[1..]);
        assert user + ":" <= s <==> user[1..] + ":" <= s[1..] by {
          assert (user + ":")[1..] == user[1..] + ":";
        }
      } else {
        FirstField(s[1..], "");
      }
    }
  }

  /** The prefix test on the text is ownership of the line it is read as. */
  lemma OwnsText(line: string, user: string)
    requires Lacks(user, ':')
    ensures Owns(ParseLine(line), user) <==> user + ":" <= Trim(line)
  {
    FirstField(Trim(line), user);
  }

  // ---- the two scans ------------------------------------------------------------------------------------------------

  // A 64-bit sum.
  function Wrap(n: int): (w: int)
    ensures -MAX_INT - 1 <= w <= MAX_INT && (-MAX_INT - 1 <= n <= MAX_INT ==> w == n)
  {
    (n + MAX_INT + 1) % 0x1_0000_0000_0000_0000 - MAX_INT - 1
  }

  // The line as the 64-bit sum of its numbers bounds it.
  function WrapLine(l: Line): Line {
    match l
    case Range(owner, start, count) => Range(owner, start, Wrap(start + count) - start)
    case Other(text) => Other(text)
  }

  function WrapLines(lines: seq<Line>): seq<Line> {
    seq(|lines|, i requires 0 <= i < |lines| => WrapLine(lines[i]))
  }

  lemma WrapMember(lines: seq<Line>, l: Line)
    ensures l in lines ==> WrapLine(l) in WrapLines(lines)
    ensures l in WrapLines(lines) ==> exists k | k in lines :: l == WrapLine(k)
  {
    if l in lines {
      var i :| 0 <= i < |lines| && lines[i] == l;
      assert WrapLines(lines)[i] == WrapLine(l);
    }
    if l in WrapLines(lines) {
      var i :| 0 <= i < |lines| && WrapLines(lines)[i] == l;
      assert lines[i] in lines && l == WrapLine(lines[i]);
    }
  }

  predicate IsRange(subuid: seq<Line>, subgid: seq<Line>, l: Line) {
    (l in subuid || l in subgid) && l.Range?
  }

  lemma WrappedRange(subuid: seq<Line>, subgid: seq<Line>, w: Line)
    requires (w in WrapLines(subuid) || w in WrapLines(subgid)) && w.Range?
    ensures exists l :: IsRange(subuid, subgid, l) && End(w) == Wrap(End(l))
  {
    WrapMember(subuid, w);
    WrapMember(subgid, w);
    var l :| (l in subuid || l in subgid) && w == WrapLine(l);
    assert IsRange(subuid, subgid, l);
  }

  lemma WrappedBelow(subuid: seq<Line>, subgid: seq<Line>, bound: int)
    requires bound >= SUBID_BASE && forall l | IsRange(subuid, subgid, l) :: Wrap(End(l)) <= bound
    ensures NextStart(WrapLines(subuid), WrapLines(subgid)) <= bound
  {
    NextStartIsLeast(WrapLines(subuid), WrapLines(subgid));
    if NextStart(WrapLines(subuid), WrapLines(subgid)) != SUBID_BASE {
      var w :| (w in WrapLines(subuid) || w in WrapLines(subgid)) && w.Range?
            && End(w) == NextStart(WrapLines(subuid), WrapLines(subgid));
      WrappedRange(subuid, subgid, w);
    }
  }

  lemma WrappedAbove(subuid: seq<Line>, subgid: seq<Line>, l: Line)
    requires IsRange(subuid, subgid, l)
    ensures Wrap(End(l)) <= NextStart(WrapLines(subuid), WrapLines(subgid))
  {
    NextStartIsLeast(WrapLines(subuid), WrapLines(subgid));
    WrapMember(subuid, l);
    WrapMember(subgid, l);
  }

  /** The 64-bit scan finds the next start exactly when that fits 64 bits and no range whose end wraps comes out above it. */
  lemma WrappedStart(subuid: seq<Line>, subgid: seq<Line>)
    ensures NextStart(WrapLines(subuid), WrapLines(subgid)) == NextStart(subuid, subgid) <==>
              && NextStart(subuid, subgid) <= MAX_INT
              && forall l | IsRange(subuid, subgid, l) :: Wrap(End(l)) <= NextStart(subuid, subgid)
  {
    var next := NextStart(subuid, subgid);
    NextStartIsLeast(subuid, subgid);
    if NextStart(WrapLines(subuid), WrapLines(subgid)) == next {
      WrappedBelow(subuid, subgid, MAX_INT);
      forall l | IsRange(subuid, subgid, l) ensures Wrap(End(l)) <= next {
        WrappedAbove(subuid, subgid, l);
      }
    } else if next <= MAX_INT && forall l | IsRange(subuid, subgid, l) :: Wrap(End(l)) <= next {
      WrappedBelow(subuid, subgid, next);
      NextStartIsLeast(WrapLines(subuid), WrapLines(subgid));
      var l :| (l in subuid || l in subgid) && l.Range? && End(l) == next;
      WrappedAbove(subuid, subgid, l);
    }
  }

  /** A range that reaches past 64 bits: its sum wraps, and the scan starts inside it. */
  lemma RangePastTheEnd(owner: string)
    ensures var lines := [Range(owner, 1, MAX_INT)];
            NextStart(lines, []) == MAX_INT + 1 && NextStart(WrapLines(lines), []) == SUBID_BASE && Covers(lines[0], SUBID_BASE)
  {
    var lines := [Range(owner, 1, MAX_INT)];
    OnlyRange(lines[0]);
    assert WrapLines(lines) == [WrapLine(lines[0])];
    OnlyRange(WrapLine(lines[0]));
  }

  lemma OnlyRange(l: Line)
    requires l.Range?
    ensures NextStart([l], []) == if End(l) > SUBID_BASE then End(l) else SUBID_BASE
  {
    MaxEndAppend(SUBID_BASE, [], l);
    assert [] + [l] == [l];
    var end := MaxEnd(SUBID_BASE, [l]);
    assert MaxEnd(end, []) == end;
  }

  lemma MaxEndSnoc(from: int, lines: seq<string>, i: nat)
    requires i < |lines|
    ensures MaxEnd(from, WrapLines(ParseLines(lines[..i + 1]))) ==
            MaxEnd(MaxEnd(from, WrapLines(ParseLines(lines[..i]))), [WrapLine(ParseLine(lines[i]))])
  {
    assert WrapLines(ParseLines(lines[..i + 1])) == WrapLines(ParseLines(lines[..i])) + [WrapLine(ParseLine(lines[i]))];
    MaxEndAppend(from, WrapLines(ParseLines(lines[..i])), WrapLine(ParseLine(lines[i])));
  }

  function WrapMap(content: string): seq<Line> {
    WrapLines(ParseMap(content))
  }

  // nextSubidStart
  method ScanNextStart(subuid: string, subgid: string) returns (max: int)
    ensures max == NextStart(WrapMap(subuid), WrapMap(subgid))
  {
    max := SUBID_BASE;
    var contents := [subuid, subgid];
    for f := 0 to 2
      invariant f == 0 ==> max == SUBID_BASE
      invariant f == 1 ==> max == MaxEnd(SUBID_BASE, WrapMap(subuid))
      invariant f == 2 ==> max == NextStart(WrapMap(subuid), WrapMap(subgid))
    {
      var lines := Split(contents[f], '\n');
      ghost var from := max;
      for i := 0 to |lines|
        invariant max == MaxEnd(from, WrapLines(ParseLines(lines[..i])))
      {
        MaxEndSnoc(from, lines, i);
        var fields := Split(Trim(lines[i]), ':');
        if |fields| != 3 {
          continue;
        }
        var start, count := Atoi(fields[1]), Atoi(fields[2]);
        if start.None? || count.None? {
          continue;
        }
        var end := Wrap(start.value + count.value);
        if end > max {
          max := end;
        }
      }
      assert lines[..|lines|] == lines;
    }
  }

  // hasSubid
  method ScanHasSubid(subuid: string, user: string) returns (has: bool)
    requires Lacks(user, ':')
    ensures has == HasSubid(ParseMap(subuid), user)
  {
    var lines := Split(subuid, '\n');
    for i := 0 to |lines|
      invariant forall j | 0 <= j < i :: !Owns(ParseMap(subuid)[j], user)
    {
      OwnsText(lines[i], user);
      if user + ":" <= Trim(lines[i]) {
        assert Owns(ParseMap(subuid)[i], user);
        return true;
      }
    }
    return false;
  }

  /** usermod's line behind a text and a newline is that range behind what is read from the text. */
  lemma AppendedRange(content: string, owner: string, start: nat, count: nat)
    requires IsName(owner) && start <= MAX_INT && count <= MAX_INT
    ensures ParseMap(content + "\n" + ShowRange(owner, start, count)) == ParseMap(content) + [Range(owner, start, count)]
  {
    var line := ShowRange(owner, start, count);
    ShowLacks(start, '\n');
    ShowLacks(count, '\n');
    SplitLast(content, line);
    ParseShown(owner, start, count);
  }

  lemma {:induction false} SplitLast(content: string, line: string)
    requires Lacks(line, '\n')
    ensures Split(content + "\n" + line, '\n') == Split(content, '\n') + [line]
  {
    var s := content + "\n" + line;
    if content == "" {
      assert s[1..] == line;
      SplitLacking(line, '\n');
    } else {
      assert s[1..] == content[1..] + "\n" + line;
      SplitLast(content[1..], line);
    }
  }
}
