/** internal/provision: subordinate-id allocation, and the node lock that makes it safe. */
module Subid {
  import opened Basics

  const SUBID_COUNT: int := 65536
  const SUBID_BASE: int := 100000

  /** A line of /etc/subuid or /etc/subgid: owner:start:count, or anything else, of which only the owner prefix
      can matter. */
  datatype Line = Range(owner: string, start: int, count: int) | Other(text: string)

  function End(l: Line): int
    requires l.Range?
  {
    l.start + l.count
  }

  function MaxEnd(from: int, lines: seq<Line>): int
    decreases |lines|
  {
    if lines == [] then from
    else MaxEnd(if lines[0].Range? && End(lines[0]) > from then End(lines[0]) else from, lines[1..])
  }

  function NextStart(subuid: seq<Line>, subgid: seq<Line>): int {
    MaxEnd(MaxEnd(SUBID_BASE, subuid), subgid)
  }

  // Does the line, trimmed, start with "user:"?
  predicate Owns(l: Line, user: string) {
    match l
    case Range(owner, _, _) => owner == user
    case Other(text) => user + ":" <= text
  }

  predicate HasSubid(lines: seq<Line>, user: string) {
    exists i | 0 <= i < |lines| :: Owns(lines[i], user)
  }

  // No id belongs to two of a map's ranges.
  ghost predicate Disjoint(lines: seq<Line>) {
    forall i, j | 0 <= i < j < |lines| && lines[i].Range? && lines[j].Range? :: Apart(lines[i], lines[j])
  }

  ghost predicate Apart(a: Line, b: Line)
    requires a.Range? && b.Range?
  {
    forall id: int :: !(Covers(a, id) && Covers(b, id))
  }

  predicate Covers(l: Line, id: int)
    requires l.Range?
  {
    l.start <= id < End(l)
  }

  lemma {:induction false} MaxEndBounds(from: int, lines: seq<Line>)
    ensures MaxEnd(from, lines) >= from
    ensures forall i | 0 <= i < |lines| && lines[i].Range? :: End(lines[i]) <= MaxEnd(from, lines)
    ensures MaxEnd(from, lines) == from || exists i | 0 <= i < |lines| :: lines[i].Range? && End(lines[i]) == MaxEnd(from, lines)
    decreases |lines|
  {
    if lines != [] {
      var next := if lines[0].Range? && End(lines[0]) > from then End(lines[0]) else from;
      MaxEndBounds(next, lines[1..]);
      if MaxEnd(next, lines[1..]) == next != from {
        assert End(lines[0]) == MaxEnd(from, lines);
      } else if i :| 0 <= i < |lines[1..]| && lines[1..][i].Range? && End(lines[1..][i]) == MaxEnd(next, lines[1..]) {
        assert End(lines[i + 1]) == MaxEnd(from, lines);
      }
    }
  }

  /** The next start is the least number that is at least the base and above every range of both maps. */
  lemma NextStartIsLeast(subuid: seq<Line>, subgid: seq<Line>)
    ensures NextStart(subuid, subgid) >= SUBID_BASE
    ensures forall l | (l in subuid || l in subgid) && l.Range? :: End(l) <= NextStart(subuid, subgid)
    ensures NextStart(subuid, subgid) == SUBID_BASE ||
            exists l | l in subuid || l in subgid :: l.Range? && End(l) == NextStart(subuid, subgid)
  {
    MaxEndBounds(SUBID_BASE, subuid);
    MaxEndBounds(MaxEnd(SUBID_BASE, subuid), subgid);
  }

  // ---- the protocol: processes interleave, a node-wide lock serialises them -----------------------------------

  /** Where a process is in EnsureUser's allocation, with what it has read. */
  datatype Pc = Idle
              | Locked(user: string)
              | ReadUids(user: string, uids: seq<Line>)
              | ReadBoth(user: string, uids: seq<Line>, gids: seq<Line>)
              | Usermod(user: string, start: int)          // usermod is about to write subuid
              | HalfWritten(user: string, start: int)      // subuid written, subgid not yet
              | Done(user: string)

  /** `issued` counts the usermods that got as far as their first write. */
  datatype Node = Node(subuid: seq<Line>, subgid: seq<Line>, holder: Option<nat>, procs: map<nat, Pc>, issued: nat)

  // `Again` is the next cadre of a pass under the same lock; `Unlock` also ends an allocation that failed.
  datatype Step = Acquire(p: nat, user: string) | Again(p: nat, user: string) | ReadUid(p: nat) | ReadGid(p: nat) | Decide(p: nat)
                | WriteUid(p: nat) | WriteGid(p: nat) | Remove(p: nat, victim: string) | Unlock(p: nat) | Die(p: nat)

  function At(n: Node, p: nat): Pc {
    if p in n.procs then n.procs[p] else Idle
  }

  function Move(n: Node, p: nat, pc: Pc): Node {
    n.(procs := n.procs[p := pc])
  }

  function WithoutOwner(lines: seq<Line>, user: string): seq<Line> {
    if lines == [] then []
    else if Owns(lines[0], user) then WithoutOwner(lines[1..], user)
    else [lines[0]] + WithoutOwner(lines[1..], user)
  }

  // flock is held by the process: its death releases it.
  function Release(n: Node, p: nat): Node {
    Move(n.(holder := if n.holder == Some(p) then None else n.holder), p, Idle)
  }

  predicate CanStep(n: Node, s: Step) {
    match s
    case Acquire(p, _) => At(n, p).Idle? && n.holder == None
    case Again(p, _) => At(n, p).Done?
    case ReadUid(p) => At(n, p).Locked?
    case ReadGid(p) => At(n, p).ReadUids?
    case Decide(p) => At(n, p).ReadBoth?
    case WriteUid(p) => At(n, p).Usermod?
    case WriteGid(p) => At(n, p).HalfWritten?
    case Remove(p, _) => At(n, p).Locked?
    case Unlock(p) => !At(n, p).Idle?
    case Die(p) => true
  }

  function Next(n: Node, s: Step): Node
    requires CanStep(n, s)
  {
    match s
    case Acquire(p, user) => Move(n.(holder := Some(p)), p, Locked(user))
    case Again(p, user) => Move(n, p, Locked(user))
    case ReadUid(p) => Move(n, p, ReadUids(At(n, p).user, n.subuid))
    case ReadGid(p) => Move(n, p, ReadBoth(At(n, p).user, At(n, p).uids, n.subgid))
    case Decide(p) =>
      var pc := At(n, p);
      if !HasSubid(pc.uids, pc.user) || !HasSubid(pc.gids, pc.user)
      then Move(n, p, Usermod(pc.user, NextStart(pc.uids, pc.gids)))
      else Move(n, p, Done(pc.user))
    case WriteUid(p) =>
      var pc := At(n, p);
      Move(n.(subuid := n.subuid + [Range(pc.user, pc.start, SUBID_COUNT)], issued := n.issued + 1),
           p, HalfWritten(pc.user, pc.start))
    case WriteGid(p) =>
      var pc := At(n, p);
      Move(n.(subgid := n.subgid + [Range(pc.user, pc.start, SUBID_COUNT)]), p, Done(pc.user))
    case Remove(p, victim) =>
      n.(subuid := WithoutOwner(n.subuid, victim), subgid := WithoutOwner(n.subgid, victim))
    case Unlock(p) => Release(n, p)
    case Die(p) => Release(n, p)
  }

  ghost predicate IsRun(trace: seq<Node>, steps: seq<Step>) {
    && |trace| == |steps| + 1
    && forall i | 0 <= i < |steps| :: CanStep(trace[i], steps[i]) && trace[i + 1] == Next(trace[i], steps[i])
  }

  // ---- what every step keeps ------------------------------------------------------------------------------------

  // A process that has read the maps holds the lock, and the maps are still as it read them.
  predicate Synced(n: Node, p: nat) {
    match At(n, p)
    case Idle => n.holder != Some(p)
    case Locked(_) => n.holder == Some(p)
    case ReadUids(_, uids) => n.holder == Some(p) && n.subuid == uids
    case ReadBoth(_, uids, gids) => n.holder == Some(p) && n.subuid == uids && n.subgid == gids
    case Usermod(_, start) => n.holder == Some(p) && start == NextStart(n.subuid, n.subgid)
    case HalfWritten(user, start) => n.holder == Some(p) && AllBelow(n.subgid, start) && HasSubid(n.subuid, user)
    case Done(user) => n.holder == Some(p) && HasSubid(n.subuid, user) && HasSubid(n.subgid, user)
  }

  predicate AllBelow(lines: seq<Line>, start: int) {
    forall i | 0 <= i < |lines| && lines[i].Range? :: End(lines[i]) <= start
  }

  ghost predicate Safe(n: Node) {
    && Disjoint(n.subuid) && Disjoint(n.subgid)
    && forall p: nat :: Synced(n, p)
  }

  lemma AppendAbove(lines: seq<Line>, user: string, start: int)
    requires Disjoint(lines) && AllBelow(lines, start)
    ensures Disjoint(lines + [Range(user, start, SUBID_COUNT)])
  {
    var more := lines + [Range(user, start, SUBID_COUNT)];
    forall i, j | 0 <= i < j < |more| && more[i].Range? && more[j].Range? ensures Apart(more[i], more[j]) {
      if j == |lines| {
        assert End(lines[i]) <= start;
      } else {
        assert Apart(lines[i], lines[j]);
      }
    }
  }

  lemma AboveBoth(subuid: seq<Line>, subgid: seq<Line>)
    ensures AllBelow(subuid, NextStart(subuid, subgid)) && AllBelow(subgid, NextStart(subuid, subgid))
  {
    MaxEndBounds(SUBID_BASE, subuid);
    MaxEndBounds(MaxEnd(SUBID_BASE, subuid), subgid);
  }

  lemma {:induction false} WithoutOwnerSubset(lines: seq<Line>, user: string)
    ensures forall l | l in WithoutOwner(lines, user) :: l in lines
  {
    if lines != [] {
      WithoutOwnerSubset(lines[1..], user);
    }
  }

  lemma {:induction false} WithoutOwnerDisjoint(lines: seq<Line>, user: string)
    requires Disjoint(lines)
    ensures Disjoint(WithoutOwner(lines, user))
  {
    if lines != [] {
      var rest := WithoutOwner(lines[1..], user);
      WithoutOwnerDisjoint(lines[1..], user);
      WithoutOwnerSubset(lines[1..], user);
      if !Owns(lines[0], user) {
        forall j | 0 <= j < |rest| && rest[j].Range? && lines[0].Range? ensures Apart(lines[0], rest[j]) {
          assert rest[j] in rest;
          var k :| 0 <= k < |lines[1..]| && lines[1..][k] == rest[j];
          assert lines[k + 1] == rest[j];
        }
      }
    }
  }

  lemma StepSynced(n: Node, s: Step, q: nat)
    requires (forall p: nat :: Synced(n, p)) && CanStep(n, s)
    ensures Synced(Next(n, s), q)
  {
    assert Synced(n, q) && Synced(n, s.p);
    AboveBoth(n.subuid, n.subgid);
    if s.WriteUid? || s.WriteGid? {
      var added := Range(At(n, s.p).user, At(n, s.p).start, SUBID_COUNT);
      AppendOwns(n.subuid, added, At(n, s.p).user);
      AppendOwns(n.subgid, added, At(n, s.p).user);
    }
  }

  lemma AppendOwns(lines: seq<Line>, l: Line, user: string)
    ensures HasSubid(lines + [l], user) <==> HasSubid(lines, user) || Owns(l, user)
  {
    if i :| 0 <= i < |lines| && Owns(lines[i], user) {
      assert Owns((lines + [l])[i], user);
    }
    if Owns(l, user) {
      assert Owns((lines + [l])[|lines|], user);
    }
  }

  /** Whoever finishes an allocation owns a range in both maps, even one whose earlier usermod died half way. */
  lemma FinishedOwnsBoth(n: Node, p: nat)
    requires Safe(n) && At(n, p).Done?
    ensures HasSubid(n.subuid, At(n, p).user) && HasSubid(n.subgid, At(n, p).user)
  {
    assert Synced(n, p);
  }

  /** Every step, deaths and removals included, keeps the ranges of each map pairwise disjoint. */
  lemma StepSafe(n: Node, s: Step)
    requires Safe(n) && CanStep(n, s)
    ensures Safe(Next(n, s))
  {
    var next := Next(n, s);
    forall q: nat ensures Synced(next, q) {
      StepSynced(n, s, q);
    }
    assert Synced(n, s.p);
    match s
    case WriteUid(p) =>
      AboveBoth(n.subuid, n.subgid);
      AppendAbove(n.subuid, At(n, p).user, At(n, p).start);
    case WriteGid(p) =>
      AppendAbove(n.subgid, At(n, p).user, At(n, p).start);
    case Remove(p, victim) =>
      WithoutOwnerDisjoint(n.subuid, victim);
      WithoutOwnerDisjoint(n.subgid, victim);
    case _ =>
  }

  ghost predicate Quiet(n: Node) {
    n.holder == None && forall p: nat :: At(n, p).Idle?
  }

  lemma {:induction false} RunSafe(trace: seq<Node>, steps: seq<Step>, i: nat)
    requires IsRun(trace, steps) && i < |trace|
    requires Disjoint(trace[0].subuid) && Disjoint(trace[0].subgid) && Quiet(trace[0])
    ensures Safe(trace[i])
  {
    if i > 0 {
      RunSafe(trace, steps, i - 1);
      StepSafe(trace[i - 1], steps[i - 1]);
    } else {
      forall p: nat ensures Synced(trace[0], p) {
        assert At(trace[0], p).Idle?;
      }
    }
  }

  /** Allocation never overlaps: in every interleaving of any number of processes, with deaths at any point
      (between usermod's two writes, too) and removals, both maps keep pairwise disjoint ranges, and a range
      being written lies above every range of the map it goes to; when its first half is written, of both. */
  lemma RunsNeverOverlap(trace: seq<Node>, steps: seq<Step>, i: nat)
    requires IsRun(trace, steps) && i < |steps|
    requires Disjoint(trace[0].subuid) && Disjoint(trace[0].subgid) && Quiet(trace[0])
    ensures Disjoint(trace[i + 1].subuid) && Disjoint(trace[i + 1].subgid)
    ensures steps[i].WriteUid? ==>
              var start := At(trace[i], steps[i].p).start;
              AllBelow(trace[i].subuid, start) && AllBelow(trace[i].subgid, start)
    ensures steps[i].WriteGid? ==> AllBelow(trace[i].subgid, At(trace[i], steps[i].p).start)
  {
    RunSafe(trace, steps, i);
    RunSafe(trace, steps, i + 1);
    assert Synced(trace[i], steps[i].p);
    AboveBoth(trace[i].subuid, trace[i].subgid);
  }

  /** Mutual exclusion: two processes are never both past Acquire. */
  lemma MutualExclusion(n: Node, p: nat, q: nat)
    requires Safe(n) && !At(n, p).Idle? && !At(n, q).Idle?
    ensures p == q
  {
    assert Synced(n, p) && Synced(n, q);
  }

  // ---- packing: from empty maps and without removals the blocks are consecutive ------------------------------------

  ghost predicate Packed(n: Node) {
    && Safe(n)
    && MaxEnd(SUBID_BASE, n.subuid) == SUBID_BASE + SUBID_COUNT * n.issued
    && AllBelow(n.subgid, SUBID_BASE + SUBID_COUNT * n.issued)
    && (forall p: nat :: At(n, p).HalfWritten? ==> At(n, p).start + SUBID_COUNT == SUBID_BASE + SUBID_COUNT * n.issued)
  }

  lemma {:induction false} MaxEndAppend(from: int, lines: seq<Line>, l: Line)
    ensures MaxEnd(from, lines + [l]) ==
            if l.Range? && End(l) > MaxEnd(from, lines) then End(l) else MaxEnd(from, lines)
    decreases |lines|
  {
    if lines == [] {
      assert [l][1..] == [];
      assert [] + [l] == [l];
    } else {
      assert (lines + [l])[1..] == lines[1..] + [l];
      MaxEndAppend(if lines[0].Range? && End(lines[0]) > from then End(lines[0]) else from, lines[1..], l);
    }
  }

  lemma {:induction false} MaxEndAbove(from: int, lines: seq<Line>)
    requires AllBelow(lines, from)
    ensures MaxEnd(from, lines) == from
    decreases |lines|
  {
    if lines != [] {
      assert forall i | 0 <= i < |lines[1..]| :: lines[1..][i] == lines[i + 1];
      MaxEndAbove(from, lines[1..]);
    }
  }

  lemma PackedStart(n: Node)
    requires Packed(n)
    ensures NextStart(n.subuid, n.subgid) == SUBID_BASE + SUBID_COUNT * n.issued
  {
    MaxEndAbove(MaxEnd(SUBID_BASE, n.subuid), n.subgid);
  }

  lemma StepPacked(n: Node, s: Step)
    requires Packed(n) && CanStep(n, s) && !s.Remove?
    ensures Packed(Next(n, s))
  {
    StepSafe(n, s);
    PackedStart(n);
    assert Synced(n, s.p);
    var next := Next(n, s);
    if s.WriteUid? {
      MaxEndAppend(SUBID_BASE, n.subuid, Range(At(n, s.p).user, At(n, s.p).start, SUBID_COUNT));
    }
    forall q: nat | At(next, q).HalfWritten?
      ensures At(next, q).start + SUBID_COUNT == SUBID_BASE + SUBID_COUNT * next.issued
    {
      assert Synced(n, q);
      if q == s.p {
        assert s.WriteUid?;
      } else {
        assert At(next, q) == At(n, q) && n.holder == Some(q) && !s.WriteUid?;
      }
    }
  }

  lemma {:induction false} RunPacked(trace: seq<Node>, steps: seq<Step>, i: nat)
    requires IsRun(trace, steps) && i < |trace| && forall k | 0 <= k < |steps| :: !steps[k].Remove?
    requires trace[0].subuid == [] && trace[0].subgid == [] && trace[0].issued == 0 && Quiet(trace[0])
    ensures Packed(trace[i])
  {
    if i > 0 {
      RunPacked(trace, steps, i - 1);
      StepPacked(trace[i - 1], steps[i - 1]);
    } else {
      RunSafe(trace, steps, 0);
    }
  }

  /** The n-th allocation (from 0) starts at 100000 + 65536 n, so the first 65534 fit below 2^32. */
  lemma NthAllocation(trace: seq<Node>, steps: seq<Step>, i: nat)
    requires IsRun(trace, steps) && i < |steps| && steps[i].WriteUid?
    requires forall k | 0 <= k < |steps| :: !steps[k].Remove?
    requires trace[0].subuid == [] && trace[0].subgid == [] && trace[0].issued == 0 && Quiet(trace[0])
    ensures At(trace[i], steps[i].p).start == 100000 + 65536 * trace[i].issued
    ensures trace[i].issued < 65534 <==> At(trace[i], steps[i].p).start + SUBID_COUNT <= 0x1_0000_0000
  {
    RunPacked(trace, steps, i);
    PackedStart(trace[i]);
    assert Synced(trace[i], steps[i].p);
  }

  // ---- nothing is given twice ----------------------------------------------------------------------------------------------

  // Whoever is about to be given ranges lacks one.
  ghost predicate Lacking(n: Node, p: nat) {
    match At(n, p)
    case Usermod(user, _) => !HasSubid(n.subuid, user) || !HasSubid(n.subgid, user)
    case _ => true
  }

  lemma StepLacking(n: Node, s: Step, p: nat)
    requires Safe(n) && CanStep(n, s) && Lacking(n, p)
    ensures Lacking(Next(n, s), p)
  {
    assert Synced(n, p) && Synced(n, s.p);
  }

  lemma {:induction false} RunLacking(trace: seq<Node>, steps: seq<Step>, i: nat, p: nat)
    requires IsRun(trace, steps) && i < |trace|
    requires Disjoint(trace[0].subuid) && Disjoint(trace[0].subgid) && Quiet(trace[0])
    ensures Lacking(trace[i], p)
  {
    if i > 0 {
      RunLacking(trace, steps, i - 1, p);
      RunSafe(trace, steps, i - 1);
      StepLacking(trace[i - 1], steps[i - 1], p);
    } else {
      assert At(trace[0], p).Idle?;
    }
  }

  /** Ranges are given only to a user that lacks one of them: asking again for a user that has both gives nothing. */
  lemma GivenWhenLacking(trace: seq<Node>, steps: seq<Step>, i: nat)
    requires IsRun(trace, steps) && i < |steps| && steps[i].WriteUid?
    requires Disjoint(trace[0].subuid) && Disjoint(trace[0].subgid) && Quiet(trace[0])
    ensures var user := At(trace[i], steps[i].p).user; !HasSubid(trace[i].subuid, user) || !HasSubid(trace[i].subgid, user)
  {
    RunLacking(trace, steps, i, steps[i].p);
  }
}
