/** internal/parallel: `Map`, a semaphore-bounded parallel map, as the steps of its goroutines. */
module Parallel {

  /** What a call of fn does: return a value, or panic. */
  datatype Call<R> = Returns(value: R) | Panics

  /** A worker: spawned, calling fn, past the call (result written, panic recovered), slot given back, done. */
  datatype Worker = Absent | Ready | Calling | Called | Released | Finished

  /** The caller's loop: about to add to the wait group, to take a slot, to spawn; then waiting; then returned. */
  datatype Main = Adding(i: nat) | Acquiring(i: nat) | Spawning(i: nat) | Waiting | Returned

  datatype State<R> = State(main: Main, slots: nat, pending: nat, workers: seq<Worker>, out: seq<R>)

  /** The arguments of one Map call, with R's zero value. */
  datatype Job<!T, R> = Job(items: seq<T>, limit: int, fn: T -> Call<R>, zero: R)

  // A limit <= 0 or above the number of items means one worker per item.
  function Clamped<T, R>(job: Job<T, R>): int {
    if job.limit <= 0 || job.limit > |job.items| then |job.items| else job.limit
  }

  function Start<T, R>(job: Job<T, R>): State<R> {
    State(if job.items == [] then Returned else Adding(0), 0, 0,
          seq(|job.items|, i => Absent), seq(|job.items|, i => job.zero))
  }

  datatype Step = MainStep | WorkerStep(w: nat)

  predicate CanStep<T, R>(job: Job<T, R>, s: State<R>, step: Step) {
    match step
    case MainStep =>
      (match s.main
       case Acquiring(_) => s.slots < Clamped(job)      // a full semaphore blocks the loop
       case Waiting => s.pending == 0
       case Returned => false
       case Adding(i) => i < |s.workers|
       case Spawning(i) => i < |s.workers|)
    case WorkerStep(w) => w < |s.workers| && !s.workers[w].Absent? && !s.workers[w].Finished?
  }

  function Next<T, R>(job: Job<T, R>, s: State<R>, step: Step): State<R>
    requires CanStep(job, s, step) && |s.workers| == |s.out| == |job.items|
  {
    match step
    case MainStep =>
      (match s.main
       case Adding(i) => s.(main := Acquiring(i), pending := s.pending + 1)
       case Acquiring(i) => s.(main := Spawning(i), slots := s.slots + 1)
       case Spawning(i) =>
         s.(main := if i + 1 < |job.items| then Adding(i + 1) else Waiting, workers := s.workers[i := Ready])
       case Waiting => s.(main := Returned)
       case Returned => s)
    case WorkerStep(w) =>
      (match s.workers[w]
       case Ready => s.(workers := s.workers[w := Calling])
       case Calling =>
         var done := s.(workers := s.workers[w := Called]);
         (match job.fn(job.items[w])
          case Returns(value) => done.(out := s.out[w := value])
          case Panics => done)
       case Called => s.(workers := s.workers[w := Released], slots := if s.slots > 0 then s.slots - 1 else 0)
       case Released => s.(workers := s.workers[w := Finished], pending := if s.pending > 0 then s.pending - 1 else 0)
       case _ => s)
  }

  // ---- counting workers ---------------------------------------------------------------------------------------

  function Sum(ws: seq<Worker>, f: Worker -> nat): nat {
    if ws == [] then 0 else f(ws[0]) + Sum(ws[1..], f)
  }

  lemma {:induction false} SumUpdate(ws: seq<Worker>, i: nat, w: Worker, f: Worker -> nat)
    requires i < |ws|
    ensures Sum(ws[i := w], f) + f(ws[i]) == Sum(ws, f) + f(w)
    decreases |ws|
  {
    if i == 0 {
      assert ws[0 := w][1..] == ws[1..];
    } else {
      assert ws[i := w][1..] == ws[1..][i - 1 := w];
      SumUpdate(ws[1..], i - 1, w, f);
    }
  }

  lemma {:induction false} SumWitness(ws: seq<Worker>, f: Worker -> nat)
    ensures Sum(ws, f) == 0 <==> forall i | 0 <= i < |ws| :: f(ws[i]) == 0
    decreases |ws|
  {
    if ws != [] {
      SumWitness(ws[1..], f);
      if Sum(ws[1..], f) == 0 {
        assert forall i | 1 <= i < |ws| :: ws[i] == ws[1..][i - 1];
      } else {
        var i :| 0 <= i < |ws[1..]| && f(ws[1..][i]) != 0;
        assert f(ws[i + 1]) != 0;
      }
    }
  }

  lemma {:induction false} SumBound(ws: seq<Worker>, f: Worker -> nat, g: Worker -> nat)
    requires forall w :: f(w) <= g(w)
    ensures Sum(ws, f) <= Sum(ws, g)
    decreases |ws|
  {
    if ws != [] {
      SumBound(ws[1..], f, g);
    }
  }

  function InFlight(w: Worker): nat {
    if w.Calling? then 1 else 0
  }

  // Workers that hold a semaphore slot.
  function Holding(w: Worker): nat {
    if w.Ready? || w.Calling? || w.Called? then 1 else 0
  }

  // Workers the wait group still waits for.
  function Owing(w: Worker): nat {
    if w.Absent? || w.Finished? then 0 else 1
  }

  // Steps a worker still has to take once spawned, and the three the loop takes to spawn it.
  function Left(w: Worker): nat {
    match w
    case Absent => 7
    case Ready => 4
    case Calling => 3
    case Called => 2
    case Released => 1
    case Finished => 0
  }

  // ---- what every step keeps -----------------------------------------------------------------------------------

  function Spawned(main: Main, n: nat): nat {
    match main
    case Adding(i) => i
    case Acquiring(i) => i
    case Spawning(i) => i
    case _ => n
  }

  // The result a worker past its call has left, and the zero value before.
  function Expected<T, R>(job: Job<T, R>, i: nat, w: Worker): R
    requires i < |job.items|
  {
    if w.Absent? || w.Ready? || w.Calling? then job.zero
    else match job.fn(job.items[i])
      case Returns(value) => value
      case Panics => job.zero
  }

  ghost predicate Invariant<T, R>(job: Job<T, R>, s: State<R>) {
    var n := |job.items|;
    && |s.workers| == |s.out| == n
    && (s.main.Adding? || s.main.Acquiring? || s.main.Spawning? ==> s.main.i < n)
    && (forall k | 0 <= k < n :: s.workers[k].Absent? <==> k >= Spawned(s.main, n))
    && s.slots == Sum(s.workers, Holding) + (if s.main.Spawning? then 1 else 0)
    && s.slots <= Clamped(job)
    && s.pending == Sum(s.workers, Owing) + (if s.main.Acquiring? || s.main.Spawning? then 1 else 0)
    && (forall k | 0 <= k < n :: s.out[k] == Expected(job, k, s.workers[k]))
    && (s.main.Returned? ==> s.pending == 0)
  }

  lemma StartInvariant<T, R>(job: Job<T, R>)
    ensures Invariant(job, Start(job))
  {
    var s := Start(job);
    SumWitness(s.workers, Holding);
    SumWitness(s.workers, Owing);
  }

  lemma MainKeeps<T, R>(job: Job<T, R>, s: State<R>)
    requires Invariant(job, s) && CanStep(job, s, MainStep)
    ensures Invariant(job, Next(job, s, MainStep))
  {
    if s.main.Spawning? {
      SumUpdate(s.workers, s.main.i, Ready, Holding);
      SumUpdate(s.workers, s.main.i, Ready, Owing);
    }
  }

  function After(w: Worker): Worker {
    match w
    case Ready => Calling
    case Calling => Called
    case Called => Released
    case Released => Finished
    case _ => w
  }

  lemma WorkerMoves<T, R>(job: Job<T, R>, s: State<R>, w: nat)
    requires Invariant(job, s) && CanStep(job, s, WorkerStep(w))
    ensures var next := Next(job, s, WorkerStep(w));
            && next.main == s.main && next.workers == s.workers[w := After(s.workers[w])]
            && next.slots == Sum(next.workers, Holding) + (if s.main.Spawning? then 1 else 0)
            && next.slots <= s.slots
            && next.pending == Sum(next.workers, Owing) + (if s.main.Acquiring? || s.main.Spawning? then 1 else 0)
  {
    SumUpdate(s.workers, w, After(s.workers[w]), Holding);
    SumUpdate(s.workers, w, After(s.workers[w]), Owing);
  }

  lemma WorkerResults<T, R>(job: Job<T, R>, s: State<R>, w: nat)
    requires Invariant(job, s) && CanStep(job, s, WorkerStep(w))
    ensures var next := Next(job, s, WorkerStep(w));
            |next.out| == |job.items| && forall k | 0 <= k < |job.items| :: next.out[k] == Expected(job, k, next.workers[k])
  {
  }

  lemma StepKeeps<T, R>(job: Job<T, R>, s: State<R>, step: Step)
    requires Invariant(job, s) && CanStep(job, s, step)
    ensures Invariant(job, Next(job, s, step))
  {
    match step
    case MainStep => MainKeeps(job, s);
    case WorkerStep(w) =>
      WorkerMoves(job, s, w);
      WorkerResults(job, s, w);
  }

  ghost predicate IsRun<T, R>(job: Job<T, R>, trace: seq<State<R>>, steps: seq<Step>) {
    && |trace| == |steps| + 1 && trace[0] == Start(job)
    && (forall i | 0 <= i < |trace| :: |trace[i].workers| == |trace[i].out| == |job.items|)
    && forall i | 0 <= i < |steps| :: CanStep(job, trace[i], steps[i]) && trace[i + 1] == Next(job, trace[i], steps[i])
  }

  lemma {:induction false} RunKeeps<T, R>(job: Job<T, R>, trace: seq<State<R>>, steps: seq<Step>, i: nat)
    requires IsRun(job, trace, steps) && i < |trace|
    ensures Invariant(job, trace[i])
  {
    if i == 0 {
      StartInvariant(job);
    } else {
      RunKeeps(job, trace, steps, i - 1);
      StepKeeps(job, trace[i - 1], steps[i - 1]);
    }
  }

  // The goroutines in one of these stages.
  ghost function In(ws: seq<Worker>, stages: set<Worker>): set<nat> {
    set w: nat | w < |ws| && ws[w] in stages
  }

  // What the sums count.
  lemma {:induction false} SumCounts(ws: seq<Worker>, f: Worker -> nat, stages: set<Worker>)
    requires forall w :: f(w) == if w in stages then 1 else 0
    ensures Sum(ws, f) == |In(ws, stages)|
    decreases |ws|
  {
    if ws == [] {
      assert In(ws, stages) == {};
    } else {
      var front, last := ws[..|ws| - 1], ws[|ws| - 1];
      SumCounts(front, f, stages);
      assert ws == front + [last];
      SumSnoc(front, last, f);
      assert In(ws, stages) == In(front, stages) + if last in stages then {|front|} else {};
    }
  }

  lemma {:induction false} SumSnoc(ws: seq<Worker>, w: Worker, f: Worker -> nat)
    ensures Sum(ws + [w], f) == Sum(ws, f) + f(w)
  {
    if ws != [] {
      assert (ws + [w])[1..] == ws[1..] + [w];
      SumSnoc(ws[1..], w, f);
    } else {
      assert [w][1..] == [] && ws + [w] == [w];
    }
  }

  /** Bounded: in every reachable state there are at most as many fn calls in flight as items, and, with a positive limit,
      at most that many. */
  lemma NeverOverLimit<T, R>(job: Job<T, R>, trace: seq<State<R>>, steps: seq<Step>, i: nat)
    requires IsRun(job, trace, steps) && i < |trace|
    ensures |In(trace[i].workers, {Calling})| <= |job.items|
    ensures job.limit > 0 ==> |In(trace[i].workers, {Calling})| <= job.limit
  {
    RunKeeps(job, trace, steps, i);
    SumBound(trace[i].workers, InFlight, Holding);
    SumCounts(trace[i].workers, InFlight, {Calling});
  }

  /** The loop is held up for a slot exactly when there is a limit below the number of items and that many goroutines
      hold one: they are ready to call, calling, or past the call and yet to give it back. */
  lemma LoopBlocks<T, R>(job: Job<T, R>, trace: seq<State<R>>, steps: seq<Step>, i: nat)
    requires IsRun(job, trace, steps) && i < |trace| && trace[i].main.Acquiring?
    ensures CanStep(job, trace[i], MainStep) <==>
              || job.limit <= 0 || job.limit > |job.items|
              || |In(trace[i].workers, {Ready, Calling, Called})| < job.limit
  {
    RunKeeps(job, trace, steps, i);
    SumCounts(trace[i].workers, Holding, {Ready, Calling, Called});
    NotAllHold(trace[i].workers, trace[i].main.i);
  }

  // One that is not spawned yet holds none.
  lemma {:induction false} NotAllHold(ws: seq<Worker>, i: nat)
    requires i < |ws| && ws[i].Absent?
    ensures Sum(ws, Holding) < |ws|
  {
    if i == 0 {
      AtMostOneEach(ws[1..]);
    } else {
      NotAllHold(ws[1..], i - 1);
    }
  }

  lemma {:induction false} AtMostOneEach(ws: seq<Worker>)
    ensures Sum(ws, Holding) <= |ws|
  {
    if ws != [] {
      AtMostOneEach(ws[1..]);
    }
  }

  // The loop has spawned k goroutines, and each is in its call.
  function Wide<T, R>(job: Job<T, R>, k: nat): State<R>
    requires k <= |job.items|
  {
    State(if k < |job.items| then Adding(k) else if k == 0 then Returned else Waiting, k, k,
          seq(|job.items|, i => if i < k then Calling else Absent), seq(|job.items|, i => job.zero))
  }

  // Four steps spawn one more and let it begin its call.
  lemma Widen<T, R>(job: Job<T, R>, k: nat) returns (trace: seq<State<R>>)
    requires k < |job.items| && (job.limit <= 0 || job.limit > |job.items| || k < job.limit)
    ensures |trace| == 5 && trace[0] == Wide(job, k) && trace[4] == Wide(job, k + 1)
    ensures forall i | 0 <= i < 5 :: |trace[i].workers| == |trace[i].out| == |job.items|
    ensures var steps := [MainStep, MainStep, MainStep, WorkerStep(k)];
            forall i | 0 <= i < 4 :: CanStep(job, trace[i], steps[i]) && trace[i + 1] == Next(job, trace[i], steps[i])
  {
    var s0 := Wide(job, k);
    var s1 := Next(job, s0, MainStep);
    var s2 := Next(job, s1, MainStep);
    var s3 := Next(job, s2, MainStep);
    var s4 := Next(job, s3, WorkerStep(k));
    assert s4.workers == Wide(job, k + 1).workers;
    trace := [s0, s1, s2, s3, s4];
  }

  /** And as wide as that: some schedule has as many calls in flight as there are items, or as the limit, if that is less. */
  lemma {:induction false} AsWideAsAllowed<T, R>(job: Job<T, R>, k: nat) returns (trace: seq<State<R>>, steps: seq<Step>)
    requires k <= |job.items| && (job.limit <= 0 || job.limit > |job.items| || k <= job.limit)
    ensures IsRun(job, trace, steps) && trace[|steps|] == Wide(job, k)
    ensures forall w | 0 <= w < k :: trace[|steps|].workers[w].Calling?
  {
    if k == 0 {
      trace, steps := [Start(job)], [];
      assert Start(job).workers == Wide(job, 0).workers;
    } else {
      var before, done := AsWideAsAllowed(job, k - 1);
      var more := Widen(job, k - 1);
      trace, steps := before + more[1..], done + [MainStep, MainStep, MainStep, WorkerStep(k - 1)];
      forall i | 0 <= i < |steps| ensures CanStep(job, trace[i], steps[i]) && trace[i + 1] == Next(job, trace[i], steps[i]) {
        if i >= |done| {
          assert trace[i] == more[i - |done|] && trace[i + 1] == more[i - |done| + 1];
        }
      }
    }
  }

  lemma SomeWorker(ws: seq<Worker>, f: Worker -> nat)
    requires Sum(ws, f) > 0
    ensures exists w | 0 <= w < |ws| :: f(ws[w]) != 0
  {
    SumWitness(ws, f);
  }

  /** Never stuck: until Map has returned, some goroutine can take a step. */
  lemma NeverStuck<T, R>(job: Job<T, R>, trace: seq<State<R>>, steps: seq<Step>, i: nat)
    requires IsRun(job, trace, steps) && i < |trace| && !trace[i].main.Returned?
    ensures exists step :: CanStep(job, trace[i], step)
  {
    var s := trace[i];
    RunKeeps(job, trace, steps, i);
    if s.main.Acquiring? && s.slots == Clamped(job) {
      SomeWorker(s.workers, Holding);
      var w :| 0 <= w < |s.workers| && Holding(s.workers[w]) != 0;
      assert CanStep(job, s, WorkerStep(w));
    } else if s.main.Waiting? && s.pending > 0 {
      SomeWorker(s.workers, Owing);
      var w :| 0 <= w < |s.workers| && Owing(s.workers[w]) != 0;
      assert CanStep(job, s, WorkerStep(w));
    } else {
      assert CanStep(job, s, MainStep);
    }
  }

  function Measure<R>(s: State<R>): nat {
    Sum(s.workers, Left)
    + (match s.main case Adding(_) => 3 case Acquiring(_) => 2 case Spawning(_) => 1 case Waiting => 1 case Returned => 0)
  }

  lemma StepDecreases<T, R>(job: Job<T, R>, s: State<R>, step: Step)
    requires Invariant(job, s) && CanStep(job, s, step)
    ensures Measure(Next(job, s, step)) < Measure(s)
  {
    match step
    case MainStep =>
      if s.main.Spawning? {
        SumUpdate(s.workers, s.main.i, Ready, Left);
      }
    case WorkerStep(w) =>
      WorkerMoves(job, s, w);
      SumUpdate(s.workers, w, After(s.workers[w]), Left);
  }

  lemma {:induction false} RunShrinks<T, R>(job: Job<T, R>, trace: seq<State<R>>, steps: seq<Step>, i: nat)
    requires IsRun(job, trace, steps) && i < |trace|
    ensures Measure(trace[i]) + i <= Measure(trace[0])
  {
    if i > 0 {
      RunShrinks(job, trace, steps, i - 1);
      RunKeeps(job, trace, steps, i - 1);
      StepDecreases(job, trace[i - 1], steps[i - 1]);
    }
  }

  lemma {:induction false} AbsentSum(ws: seq<Worker>)
    requires forall i | 0 <= i < |ws| :: ws[i].Absent?
    ensures Sum(ws, Left) == 7 * |ws|
  {
    if ws != [] {
      AbsentSum(ws[1..]);
    }
  }

  /** Terminates: no schedule has more than 7 n + 3 steps. */
  lemma EveryRunEnds<T, R>(job: Job<T, R>, trace: seq<State<R>>, steps: seq<Step>)
    requires IsRun(job, trace, steps)
    ensures |steps| <= 7 * |job.items| + 3
  {
    RunShrinks(job, trace, steps, |steps|);
    AbsentSum(trace[0].workers);
  }

  /** At return, under every schedule, out[k] is fn(items[k]), or the zero value if that call panicked. */
  lemma ResultsAtReturn<T, R>(job: Job<T, R>, trace: seq<State<R>>, steps: seq<Step>, i: nat, k: nat)
    requires IsRun(job, trace, steps) && i < |trace| && trace[i].main.Returned? && k < |job.items|
    ensures trace[i].out[k] ==
            match job.fn(job.items[k]) case Returns(value) => value case Panics => job.zero
  {
    var s := trace[i];
    RunKeeps(job, trace, steps, i);
    SumWitness(s.workers, Owing);
    assert Owing(s.workers[k]) == 0;
  }
}
