/** internal/sshx/hostkey.go: trust-on-first-use pinning under concurrent connections. */
module HostKeys {
  import opened Text

  datatype Key = Key(kind: string, blob: string)

  /** One known_hosts line. */
  datatype Pin = Pin(host: string, key: Key)

  datatype Verdict = Match | Unknown | Mismatch

  // The keys known for a host: the first of each kind counts.
  function Known(file: seq<Pin>, host: string): map<string, Key>
    decreases |file|
  {
    if file == [] then map[]
    else
      var rest := Known(file[1..], host);
      if file[0].host == host then rest[file[0].key.kind := file[0].key] else rest
  }

  // The knownhosts callback: unknown without any key, a match only on the known key of the same kind.
  function Check(file: seq<Pin>, host: string, key: Key): Verdict {
    var known := Known(file, host);
    if known == map[] then Unknown
    else if key.kind in known && known[key.kind] == key then Match
    else Mismatch
  }

  /** A connection: it took a snapshot of the file, was shown a key, and is decided later. */
  datatype Conn = Idle
                | Dialing(snapshot: seq<Pin>)
                | Pinning(host: string, key: Key)       // unknown in the snapshot: about to pin under the lock
                | Accepted(host: string, key: Key)
                | Rejected(host: string, key: Key)

  datatype Client = Client(file: seq<Pin>, conns: map<nat, Conn>)

  // Each step is atomic: the file is read and appended to under the mutex only.
  datatype Step = Dial(c: nat) | Present(c: nat, host: string, key: Key) | AppendPin(c: nat) | FailAppend(c: nat)

  function Of(s: Client, c: nat): Conn {
    if c in s.conns then s.conns[c] else Idle
  }

  predicate CanStep(s: Client, step: Step) {
    match step
    case Dial(c) => Of(s, c).Idle?
    case Present(c, _, _) => Of(s, c).Dialing?
    case AppendPin(c) => Of(s, c).Pinning?
    case FailAppend(c) => Of(s, c).Pinning?
  }

  function Become(s: Client, c: nat, conn: Conn): Client {
    s.(conns := s.conns[c := conn])
  }

  function Next(s: Client, step: Step): Client
    requires CanStep(s, step)
  {
    match step
    case Dial(c) => Become(s, c, Dialing(s.file))
    case Present(c, host, key) =>
      (match Check(Of(s, c).snapshot, host, key)
       case Match => Become(s, c, Accepted(host, key))
       case Unknown => Become(s, c, Pinning(host, key))
       case Mismatch => Become(s, c, Rejected(host, key)))
    case AppendPin(c) =>
      var conn := Of(s, c);
      (match Check(s.file, conn.host, conn.key)
       case Match => Become(s, c, Accepted(conn.host, conn.key))
       case Unknown => Become(s.(file := s.file + [Pin(conn.host, conn.key)]), c, Accepted(conn.host, conn.key))
       case Mismatch => Become(s, c, Rejected(conn.host, conn.key)))
    case FailAppend(c) => Become(s, c, Rejected(Of(s, c).host, Of(s, c).key))
  }

  ghost predicate IsRun(trace: seq<Client>, steps: seq<Step>) {
    && |trace| == |steps| + 1
    && forall i | 0 <= i < |steps| :: CanStep(trace[i], steps[i]) && trace[i + 1] == Next(trace[i], steps[i])
  }

  predicate Pinned(file: seq<Pin>, host: string, key: Key) {
    Pin(host, key) in file
  }

  // At most one key per host.
  predicate OneKeyEach(file: seq<Pin>) {
    forall i, j | 0 <= i < |file| && 0 <= j < |file| && file[i].host == file[j].host :: file[i].key == file[j].key
  }

  lemma {:induction false} KnownIsPinned(file: seq<Pin>, host: string)
    requires OneKeyEach(file)
    ensures forall k | k in Known(file, host) :: Pinned(file, host, Known(file, host)[k]) && Known(file, host)[k].kind == k
    ensures forall key | Pinned(file, host, key) :: key.kind in Known(file, host) && Known(file, host)[key.kind] == key
    decreases |file|
  {
    if file != [] {
      assert forall i | 0 <= i < |file[1..]| :: file[1..][i] == file[i + 1];
      KnownIsPinned(file[1..], host);
      forall key | Pinned(file, host, key)
        ensures key.kind in Known(file, host) && Known(file, host)[key.kind] == key
      {
        if file[0].host == host {
          assert file[0].key == key;
        } else {
          assert Pinned(file[1..], host, key);
        }
      }
    }
  }

  lemma SomePin(file: seq<Pin>, host: string)
    requires OneKeyEach(file)
    ensures Known(file, host) != map[] <==> exists key :: Pinned(file, host, key)
  {
    KnownIsPinned(file, host);
    if Known(file, host) != map[] {
      var k :| k in Known(file, host);
      assert Pinned(file, host, Known(file, host)[k]);
    }
  }

  /** With one key per host, a host matches on its pinned key alone, and is unknown only without any pin. */
  lemma CheckMeaning(file: seq<Pin>, host: string, key: Key)
    requires OneKeyEach(file)
    ensures Check(file, host, key) == Match <==> Pinned(file, host, key)
    ensures Check(file, host, key) == Unknown <==> forall k :: !Pinned(file, host, k)
  {
    KnownIsPinned(file, host);
    SomePin(file, host);
  }

  // The pin that counts for a host and a kind of key is the first in the file.
  predicate FirstOf(file: seq<Pin>, i: int, host: string, kind: string) {
    && 0 <= i < |file| && file[i].host == host && file[i].key.kind == kind
    && forall j | 0 <= j < i :: !(file[j].host == host && file[j].key.kind == kind)
  }

  lemma {:induction false} KnownFirst(file: seq<Pin>, host: string, kind: string)
    ensures kind in Known(file, host) ==>
              exists i :: FirstOf(file, i, host, kind) && file[i].key == Known(file, host)[kind]
    ensures kind !in Known(file, host) ==> forall i | 0 <= i < |file| :: !(file[i].host == host && file[i].key.kind == kind)
    decreases |file|
  {
    if file != [] {
      KnownFirst(file[1..], host, kind);
      if file[0].host == host && file[0].key.kind == kind {
        assert FirstOf(file, 0, host, kind);
      } else if kind in Known(file[1..], host) {
        var i :| FirstOf(file[1..], i, host, kind) && file[1..][i].key == Known(file[1..], host)[kind];
        assert forall j | 0 < j < i + 1 :: file[j] == file[1..][j - 1];
        assert FirstOf(file, i + 1, host, kind);
      } else {
        assert forall j | 0 < j < |file| :: file[j] == file[1..][j - 1];
      }
    }
  }

  /** In any file: a key matches exactly if it is the first pinned for its host and kind; a host is unknown exactly without
      any pin; all else is a mismatch. */
  lemma CheckExactly(file: seq<Pin>, host: string, key: Key)
    ensures Check(file, host, key) == Match <==> exists i :: FirstOf(file, i, host, key.kind) && file[i].key == key
    ensures Check(file, host, key) == Unknown <==> forall i | 0 <= i < |file| :: file[i].host != host
  {
    KnownFirst(file, host, key.kind);
    if i :| 0 <= i < |file| && file[i].host == host {
      KnownFirst(file, host, file[i].key.kind);
    }
    if Known(file, host) != map[] {
      var kind :| kind in Known(file, host);
      KnownFirst(file, host, kind);
    }
  }

  // What is true of one connection: its snapshot is an older file, and if accepted its key is pinned.
  predicate ConnSafe(file: seq<Pin>, conn: Conn) {
    match conn
    case Dialing(snapshot) => snapshot <= file
    case Accepted(host, key) => Pinned(file, host, key)
    case _ => true
  }

  ghost predicate Safe(s: Client) {
    OneKeyEach(s.file) && forall c: nat :: ConnSafe(s.file, Of(s, c))
  }

  lemma PrefixOneKey(a: seq<Pin>, b: seq<Pin>)
    requires a <= b && OneKeyEach(b)
    ensures OneKeyEach(a)
    ensures forall host, key | Pinned(a, host, key) :: Pinned(b, host, key)
  {
    forall host, key | Pinned(a, host, key) ensures Pinned(b, host, key) {
      var i :| 0 <= i < |a| && a[i] == Pin(host, key);
      assert b[i] == a[i];
    }
  }

  lemma AppendOneKey(file: seq<Pin>, host: string, key: Key)
    requires OneKeyEach(file) && Check(file, host, key) == Unknown
    ensures OneKeyEach(file + [Pin(host, key)])
  {
    CheckMeaning(file, host, key);
    forall i | 0 <= i < |file| ensures file[i].host != host {
      assert file[i] in file && !Pinned(file, host, file[i].key);
    }
  }

  lemma StepSafe(s: Client, step: Step)
    requires Safe(s) && CanStep(s, step)
    ensures Safe(Next(s, step)) && s.file <= Next(s, step).file
  {
    var next := Next(s, step);
    assert ConnSafe(s.file, Of(s, step.c));
    match step {
      case Present(c, host, key) =>
        PrefixOneKey(Of(s, c).snapshot, s.file);
        CheckMeaning(Of(s, c).snapshot, host, key);
      case AppendPin(c) =>
        CheckMeaning(s.file, Of(s, c).host, Of(s, c).key);
        if Check(s.file, Of(s, c).host, Of(s, c).key) == Unknown {
          AppendOneKey(s.file, Of(s, c).host, Of(s, c).key);
        }
      case _ =>
    }
    PrefixOneKey(s.file, next.file);
    forall c: nat ensures ConnSafe(next.file, Of(next, c)) {
      assert ConnSafe(s.file, Of(s, c));
    }
  }

  lemma {:induction false} RunSafe(trace: seq<Client>, steps: seq<Step>, i: nat, j: nat)
    requires IsRun(trace, steps) && i <= j < |trace| && Safe(trace[i])
    ensures Safe(trace[j]) && trace[i].file <= trace[j].file
    decreases j
  {
    if i < j {
      RunSafe(trace, steps, i, j - 1);
      StepSafe(trace[j - 1], steps[j - 1]);
    }
  }

  /** Pinning: in every interleaving of connections with stale snapshots, every host keeps at most one key, and
      a pin never changes or disappears. */
  lemma PinsNeverChange(trace: seq<Client>, steps: seq<Step>, i: nat, j: nat, host: string, key: Key)
    requires IsRun(trace, steps) && Safe(trace[0]) && i <= j < |trace|
    ensures OneKeyEach(trace[j].file)
    ensures Pinned(trace[i].file, host, key) ==>
              Pinned(trace[j].file, host, key) && forall k | Pinned(trace[j].file, host, k) :: k == key
  {
    RunSafe(trace, steps, 0, i);
    RunSafe(trace, steps, i, j);
    PrefixOneKey(trace[i].file, trace[j].file);
    if Pinned(trace[i].file, host, key) {
      OnlyPin(trace[j].file, host, key);
    }
  }

  lemma OnlyPin(file: seq<Pin>, host: string, key: Key)
    requires OneKeyEach(file) && Pinned(file, host, key)
    ensures forall k | Pinned(file, host, k) :: k == key
  {
  }

  /** All connections ever accepted for one host, at whatever moments, were shown the same key: its pin. */
  lemma AcceptedKeysAgree(trace: seq<Client>, steps: seq<Step>, i: nat, j: nat, a: nat, b: nat)
    requires IsRun(trace, steps) && Safe(trace[0]) && i <= j < |trace|
    requires Of(trace[i], a).Accepted? && Of(trace[j], b).Accepted? && Of(trace[i], a).host == Of(trace[j], b).host
    ensures Of(trace[i], a).key == Of(trace[j], b).key
    ensures Pinned(trace[j].file, Of(trace[j], b).host, Of(trace[j], b).key)
  {
    var host := Of(trace[i], a).host;
    RunSafe(trace, steps, 0, i);
    RunSafe(trace, steps, 0, j);
    assert ConnSafe(trace[i].file, Of(trace[i], a)) && ConnSafe(trace[j].file, Of(trace[j], b));
    PinsNeverChange(trace, steps, i, j, host, Of(trace[i], a).key);
  }

  // ---- what each step comes to ---------------------------------------------------------------------------------------------

  /** A presented key is accepted, taken to be pinned, or rejected, as the file was when the connection was set up; when it
      is to be pinned the file as it is then decides, and gets one line exactly if the host has none. */
  lemma StepOutcome(s: Client, step: Step)
    requires Safe(s) && CanStep(s, step) && !step.Dial?
    ensures var next := Next(s, step);
            match step
            case Present(c, host, key) =>
              && next.file == s.file
              && Of(next, c) == if Pinned(Of(s, c).snapshot, host, key) then Accepted(host, key)
                                else if HasPin(Of(s, c).snapshot, host) then Rejected(host, key) else Pinning(host, key)
            case AppendPin(c) =>
              var host, key := Of(s, c).host, Of(s, c).key;
              && next.file == (if HasPin(s.file, host) then s.file else s.file + [Pin(host, key)])
              && Of(next, c) == if HasPin(s.file, host) && !Pinned(s.file, host, key) then Rejected(host, key) else Accepted(host, key)
            case FailAppend(c) => next.file == s.file && Of(next, c) == Rejected(Of(s, c).host, Of(s, c).key)
            case Dial(_) => true
  {
    match step
    case Present(c, host, key) =>
      assert ConnSafe(s.file, Of(s, c));
      PrefixOneKey(Of(s, c).snapshot, s.file);
      CheckMeaning(Of(s, c).snapshot, host, key);
      PinThere(Of(s, c).snapshot, host);
    case AppendPin(c) =>
      CheckMeaning(s.file, Of(s, c).host, Of(s, c).key);
      PinThere(s.file, Of(s, c).host);
    case _ =>
  }

  predicate HasPin(file: seq<Pin>, host: string) {
    exists i | 0 <= i < |file| :: file[i].host == host
  }

  lemma PinThere(file: seq<Pin>, host: string)
    ensures HasPin(file, host) <==> exists key :: Pinned(file, host, key)
  {
    if i :| 0 <= i < |file| && file[i].host == host {
      assert file[i] in file && file[i] == Pin(host, file[i].key);
      assert Pinned(file, host, file[i].key);
    }
    if key :| Pinned(file, host, key) {
      var i :| 0 <= i < |file| && file[i] == Pin(host, key);
    }
  }

  predicate OneLineEach(file: seq<Pin>) {
    forall i, j | 0 <= i < j < |file| :: file[i].host != file[j].host
  }

  /** A file with one line per host keeps one line per host. */
  lemma {:induction false} LinesStaySingle(trace: seq<Client>, steps: seq<Step>, i: nat)
    requires IsRun(trace, steps) && i < |trace| && Safe(trace[0]) && OneLineEach(trace[0].file)
    ensures OneLineEach(trace[i].file)
  {
    if i > 0 {
      LinesStaySingle(trace, steps, i - 1);
      RunSafe(trace, steps, 0, i - 1);
      if !steps[i - 1].Dial? {
        StepOutcome(trace[i - 1], steps[i - 1]);
      }
    }
  }

  // Why a connection was turned down: its pin could not be written, or its host had another key.
  ghost predicate ForCause(trace: seq<Client>, steps: seq<Step>, j: int, c: nat, host: string, key: Key)
    requires IsRun(trace, steps)
  {
    0 <= j < |steps| && steps[j].c == c && (steps[j].FailAppend? || exists k :: k != key && Pinned(trace[j].file, host, k))
  }

  /** No connection is rejected but for such a cause. */
  lemma {:induction false} RejectedForCause(trace: seq<Client>, steps: seq<Step>, i: nat, c: nat)
    requires IsRun(trace, steps) && i < |trace| && Safe(trace[0]) && Of(trace[0], c).Idle? && Of(trace[i], c).Rejected?
    ensures exists j :: ForCause(trace, steps, j, c, Of(trace[i], c).host, Of(trace[i], c).key)
  {
    if i > 0 {
      if Of(trace[i - 1], c).Rejected? {
        assert Of(trace[i], c) == Of(trace[i - 1], c);
        RejectedForCause(trace, steps, i - 1, c);
      } else {
        RunSafe(trace, steps, 0, i - 1);
        TurnedDown(trace[i - 1], steps[i - 1], c);
        assert ForCause(trace, steps, i - 1, c, Of(trace[i], c).host, Of(trace[i], c).key);
      }
    }
  }

  lemma TurnedDown(s: Client, step: Step, c: nat)
    requires Safe(s) && CanStep(s, step) && !Of(s, c).Rejected? && Of(Next(s, step), c).Rejected?
    ensures step.c == c
    ensures var conn := Of(Next(s, step), c);
            step.FailAppend? || exists k :: k != conn.key && Pinned(s.file, conn.host, k)
  {
    if step.c == c && !step.Dial? {
      StepOutcome(s, step);
      assert ConnSafe(s.file, Of(s, c));
      var conn := Of(Next(s, step), c);
      var file := if step.Present? then Of(s, c).snapshot else s.file;
      PinThere(file, conn.host);
      PrefixOneKey(file, s.file);
    }
  }

  // ---- pinnedHostKeyAlgorithms ----------------------------------------------------------------------------

  const RSA := "ssh-rsa"
  const RSA_SHA512 := "rsa-sha2-512"
  const RSA_SHA256 := "rsa-sha2-256"

  function AlgorithmsFor(kind: string): seq<string> {
    if kind == RSA then [RSA_SHA512, RSA_SHA256, RSA] else [kind]
  }

  function AddNew(algos: seq<string>, more: seq<string>): seq<string>
    decreases |more|
  {
    if more == [] then algos
    else AddNew(if more[0] in algos then algos else algos + [more[0]], more[1..])
  }

  function Algorithms(algos: seq<string>, want: seq<Key>): seq<string>
    decreases |want|
  {
    if want == [] then algos else Algorithms(AddNew(algos, AlgorithmsFor(want[0].kind)), want[1..])
  }

  method CollectAlgorithms(want: seq<Key>) returns (algos: seq<string>)
    ensures algos == Algorithms([], want)
  {
    algos := [];
    for i := 0 to |want|
      invariant Algorithms([], want) == Algorithms(algos, want[i..])
    {
      assert want[i..][1..] == want[i + 1..];
      var more := AlgorithmsFor(want[i].kind);
      ghost var before := algos;
      for j := 0 to |more|
        invariant AddNew(before, more) == AddNew(algos, more[j..])
      {
        assert more[j..][1..] == more[j + 1..];
        if more[j] !in algos {
          algos := algos + [more[j]];
        }
      }
      assert more[|more|..] == [];
    }
    assert want[|want|..] == [];
  }

  lemma {:induction false} AddNewMeaning(algos: seq<string>, more: seq<string>)
    requires NoDuplicates(algos)
    ensures algos <= AddNew(algos, more) && NoDuplicates(AddNew(algos, more))
    ensures forall a :: a in AddNew(algos, more) <==> a in algos || a in more
    decreases |more|
  {
    if more != [] {
      AddNewMeaning(if more[0] in algos then algos else algos + [more[0]], more[1..]);
      assert forall a :: a in more <==> a == more[0] || a in more[1..];
    }
  }

  // An algorithm a pinned key serves: its own, and for an RSA key the two SHA-2 signatures too.
  predicate Serves(k: Key, a: string) {
    a == k.kind || (k.kind == "ssh-rsa" && (a == "rsa-sha2-512" || a == "rsa-sha2-256"))
  }

  lemma ServedFor(k: Key)
    ensures forall a :: a in AlgorithmsFor(k.kind) <==> Serves(k, a)
  {
  }

  lemma {:induction false} AlgorithmsGrow(algos: seq<string>, want: seq<Key>)
    requires NoDuplicates(algos)
    ensures algos <= Algorithms(algos, want) && NoDuplicates(Algorithms(algos, want))
    ensures forall a :: a in Algorithms(algos, want) <==> a in algos || exists k | k in want :: Serves(k, a)
    decreases |want|
  {
    if want != [] {
      var next := AddNew(algos, AlgorithmsFor(want[0].kind));
      AddNewMeaning(algos, AlgorithmsFor(want[0].kind));
      AlgorithmsGrow(next, want[1..]);
      ServedFor(want[0]);
      assert forall k :: k in want <==> k == want[0] || k in want[1..];
    }
  }

  /** Reconnecting offers, without repeats, exactly what the pinned keys serve; nothing when none is pinned, so that first
      contact stays unconstrained. */
  lemma AlgorithmsMeaning(want: seq<Key>)
    ensures NoDuplicates(Algorithms([], want))
    ensures forall a :: a in Algorithms([], want) <==> exists k | k in want :: Serves(k, a)
  {
    AlgorithmsGrow([], want);
  }

  lemma {:induction false} AlgorithmsSplit(algos: seq<string>, before: seq<Key>, want: seq<Key>)
    ensures Algorithms(algos, before + want) == Algorithms(Algorithms(algos, before), want)
    decreases |before|
  {
    if before == [] {
      assert before + want == want;
    } else {
      assert (before + want)[1..] == before[1..] + want;
      AlgorithmsSplit(AddNew(algos, AlgorithmsFor(before[0].kind)), before[1..], want);
    }
  }

  lemma AddsOne(algos: seq<string>, a: string, more: seq<string>)
    requires a !in algos
    ensures AddNew(algos, [a] + more) == AddNew(algos + [a], more)
  {
    assert ([a] + more)[1..] == more;
  }

  lemma AddsThree(algos: seq<string>, a: string, b: string, c: string)
    requires a !in algos && b !in algos && c !in algos && a != b && a != c && b != c
    ensures AddNew(algos, [a, b, c]) == algos + [a, b, c]
  {
    assert [a, b, c] == [a] + [b, c] && [b, c] == [b] + [c] && [c] == [c] + [];
    AddsOne(algos, a, [b, c]);
    AddsOne(algos + [a], b, [c]);
    AddsOne(algos + [a] + [b], c, []);
    assert algos + [a] + [b] + [c] == algos + [a, b, c];
  }

  /** Keys are asked for in the order they are pinned, each algorithm after those of the keys before it; and a pinned RSA
      key asks for its SHA-2 signatures first, so that a server without the old one still connects. */
  lemma AlgorithmsInOrder(before: seq<Key>, k: Key, behind: seq<Key>)
    requires forall a | Serves(k, a) :: forall b | b in before :: !Serves(b, a)
    ensures var head := Algorithms([], before);
            head + (if k.kind == "ssh-rsa" then ["rsa-sha2-512", "rsa-sha2-256", "ssh-rsa"] else [k.kind])
              <= Algorithms([], before + [k] + behind)
  {
    var head := Algorithms([], before);
    AlgorithmsGrow([], before);
    AlgorithmsSplit([], before, [k] + behind);
    assert before + ([k] + behind) == before + [k] + behind;
    assert ([k] + behind)[1..] == behind;
    assert forall a | Serves(k, a) :: a !in head;
    assert Serves(k, k.kind);
    if k.kind == RSA {
      assert Serves(k, RSA_SHA512) && Serves(k, RSA_SHA256);
      AddsThree(head, RSA_SHA512, RSA_SHA256, RSA);
    } else {
      assert [k.kind] + [] == [k.kind];
      AddsOne(head, k.kind, []);
    }
    AddNewMeaning(head, AlgorithmsFor(k.kind));
    AlgorithmsGrow(AddNew(head, AlgorithmsFor(k.kind)), behind);
  }
}
