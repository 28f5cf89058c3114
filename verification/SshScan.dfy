/** The work counter of sshscan: any number of workers count their scans and report progress, one atomic
    operation at a time, in any order. */
module SshScan {
  import opened Options

  const PRINT_WORK_INTERVAL := 1000
  const WORK_REPORT_INTERVAL := 100

  /** What a worker does next. `final` marks the report made when its channel is closed. */
  datatype Phase =
    | Scanning
    | Checking
    | Reporting(final: bool)
    | Added(sum: nat, final: bool)
    | Locking(final: bool)
    | Holding(final: bool)
    | Rechecking(target: nat, final: bool)
    | Bumping(target: nat, final: bool)
    | Logging(target: nat, final: bool)
    | Unlocking(final: bool)
    | Zeroing(final: bool)
    | Done

  datatype Worker = Worker(phase: Phase, workCount: nat) {
    /** Inside the mutex. */
    predicate Inside() {
      phase.Holding? || phase.Rechecking? || phase.Bumping? || phase.Logging? || phase.Unlocking?
    }

    /** Scans counted here and not yet added to the shared counter. */
    function Unflushed(): nat {
      if phase.Scanning? || phase.Checking? || phase.Reporting? then workCount else 0
    }
  }

  /** What the channel and the scanner hand a worker. */
  datatype Unit = Closed | AlreadyScanned | ScanFailed | ScanOk

  datatype State = State(count: nat, reported: nat, holder: Option<nat>, workers: seq<Worker>,
                         logged: seq<nat>, scans: nat)

  function Start(n: nat): State {
    State(0, 0, None, seq(n, _ => Worker(Scanning, 0)), [], 0)
  }

  /** A worker waits only for the mutex; when done it is gone. */
  predicate Enabled(s: State, i: nat) {
    i < |s.workers| && s.workers[i].phase != Done && (s.workers[i].phase.Locking? ==> s.holder.None?)
  }

  function SetWorker(s: State, i: nat, w: Worker): State
    requires i < |s.workers|
  {
    s.(workers := s.workers[i := w])
  }

  function Next(s: State, i: nat, unit: Unit): State
    requires Enabled(s, i)
  {
    var w := s.workers[i];
    match w.phase
    case Scanning =>
      (match unit
       case Closed => SetWorker(s, i, w.(phase := Reporting(true)))
       case AlreadyScanned => s
       case ScanFailed => SetWorker(s, i, w.(phase := Checking))
       case ScanOk => SetWorker(s, i, Worker(Checking, w.workCount + 1)).(scans := s.scans + 1))
    case Checking =>
      SetWorker(s, i, w.(phase := if w.workCount >= WORK_REPORT_INTERVAL then Reporting(false) else Scanning))
    case Reporting(final) =>
      SetWorker(s, i, w.(phase := Added(s.count + w.workCount, final))).(count := s.count + w.workCount)
    case Added(sum, final) =>
      SetWorker(s, i, w.(phase := if sum >= s.reported + PRINT_WORK_INTERVAL then Locking(final) else Zeroing(final)))
    case Locking(final) => SetWorker(s, i, w.(phase := Holding(final))).(holder := Some(i))
    case Holding(final) => SetWorker(s, i, w.(phase := Rechecking(s.reported + PRINT_WORK_INTERVAL, final)))
    case Rechecking(target, final) =>
      SetWorker(s, i, w.(phase := if s.count >= target then Bumping(target, final) else Unlocking(final)))
    case Bumping(target, final) =>
      SetWorker(s, i, w.(phase := Logging(target, final))).(reported := s.reported + PRINT_WORK_INTERVAL)
    case Logging(target, final) =>
      SetWorker(s, i, w.(phase := Unlocking(final))).(logged := s.logged + [target])
    case Unlocking(final) => SetWorker(s, i, w.(phase := Zeroing(final))).(holder := None)
    case Zeroing(final) => SetWorker(s, i, Worker(if final then Done else Scanning, 0))
  }

  function SumUnflushed(ws: seq<Worker>): nat {
    if ws == [] then 0 else ws[0].Unflushed() + SumUnflushed(ws[1..])
  }

  lemma {:induction false} SumUpdate(ws: seq<Worker>, i: nat, w: Worker)
    requires i < |ws|
    ensures SumUnflushed(ws[i := w]) == SumUnflushed(ws) - ws[i].Unflushed() + w.Unflushed()
  {
    if i == 0 {
      assert ws[i := w][1..] == ws[1..];
    } else {
      assert ws[i := w][1..] == ws[1..][i - 1 := w];
      SumUpdate(ws[1..], i - 1, w);
    }
  }

  predicate MultiplesOfInterval(logged: seq<nat>) {
    forall k | 0 <= k < |logged| :: logged[k] == PRINT_WORK_INTERVAL * (k + 1)
  }

  /** What a single worker's step relies on. */
  predicate WorkerOk(s: State, i: nat)
    requires i < |s.workers|
  {
    var w := s.workers[i];
    && (w.Inside() <==> s.holder == Some(i))
    && (w.phase.Rechecking? || w.phase.Bumping? ==> w.phase.target == s.reported + PRINT_WORK_INTERVAL)
    && (w.phase.Bumping? ==> s.count >= w.phase.target)
    && (w.phase.Logging? ==> w.phase.target == s.reported)
    && (w.phase.Added? ==> w.phase.sum <= s.count)
    && w.workCount <= WORK_REPORT_INTERVAL
    && (w.phase.Scanning? ==> w.workCount < WORK_REPORT_INTERVAL)
  }

  /** The line for the current value of `reported` is still to be printed. */
  predicate LogPending(s: State) {
    s.holder.Some? && s.holder.value < |s.workers| && s.workers[s.holder.value].phase.Logging?
  }

  ghost predicate Inv(s: State) {
    && (s.holder.Some? ==> s.holder.value < |s.workers| && s.workers[s.holder.value].Inside())
    && (forall i | 0 <= i < |s.workers| :: WorkerOk(s, i))
    && s.reported <= s.count
    && MultiplesOfInterval(s.logged)
    && s.reported == PRINT_WORK_INTERVAL * (|s.logged| + if LogPending(s) then 1 else 0)
    && s.count + SumUnflushed(s.workers) == s.scans
  }

  lemma {:induction false} NothingUnflushed(n: nat)
    ensures SumUnflushed(seq(n, _ => Worker(Scanning, 0))) == 0
  {
    if n > 0 {
      assert seq(n, _ => Worker(Scanning, 0))[1..] == seq(n - 1, _ => Worker(Scanning, 0));
      NothingUnflushed(n - 1);
    }
  }

  lemma StartInv(n: nat)
    ensures Inv(Start(n))
  {
    NothingUnflushed(n);
  }

  lemma NextInv(s: State, i: nat, unit: Unit)
    requires Inv(s) && Enabled(s, i)
    ensures Inv(Next(s, i, unit))
  {
    var s' := Next(s, i, unit);
    assert s'.workers == s.workers[i := s'.workers[i]];
    SumUpdate(s.workers, i, s'.workers[i]);
    assert WorkerOk(s, i);
    forall j | 0 <= j < |s'.workers|
      ensures WorkerOk(s', j)
    {
      assert WorkerOk(s, j);
      NextWorkerOk(s, i, unit, j);
    }
  }

  /** A step of one worker takes nothing from what another relies on. */
  lemma NextWorkerOk(s: State, i: nat, unit: Unit, j: nat)
    requires Enabled(s, i) && j < |s.workers| && WorkerOk(s, i) && WorkerOk(s, j)
    ensures WorkerOk(Next(s, i, unit), j)
  {
  }

  /** A schedule picks, step by step, a worker and what it is handed. */
  ghost predicate Run(s: State, sched: seq<(nat, Unit)>, s': State)
    decreases |sched|
  {
    if sched == [] then s' == s
    else Enabled(s, sched[0].0) && Run(Next(s, sched[0].0, sched[0].1), sched[1..], s')
  }

  lemma {:induction false} RunInv(s: State, sched: seq<(nat, Unit)>, s': State)
    requires Inv(s) && Run(s, sched, s')
    ensures Inv(s')
    decreases |sched|
  {
    if sched != [] {
      NextInv(s, sched[0].0, sched[0].1);
      RunInv(Next(s, sched[0].0, sched[0].1), sched[1..], s');
    }
  }

  /** The successful scans of a schedule: the steps at which a worker that scans is handed one. */
  ghost function Successes(s: State, sched: seq<(nat, Unit)>): nat
    decreases |sched|
  {
    if sched == [] || !Enabled(s, sched[0].0) then 0
    else
      var scanned := s.workers[sched[0].0].phase == Scanning && sched[0].1 == ScanOk;
      (if scanned then 1 else 0) + Successes(Next(s, sched[0].0, sched[0].1), sched[1..])
  }

  lemma {:induction false} ScansAreSuccesses(s: State, sched: seq<(nat, Unit)>, s': State)
    requires Run(s, sched, s')
    ensures s'.scans == s.scans + Successes(s, sched)
    decreases |sched|
  {
    if sched != [] {
      ScansAreSuccesses(Next(s, sched[0].0, sched[0].1), sched[1..], s');
    }
  }

  /** Under every interleaving: the lines logged are 1000, 2000, ... in order, none twice and none
      skipped; the reported total never runs ahead of the count; and no scan is lost or counted twice. */
  lemma ProgressIsHonest(n: nat, sched: seq<(nat, Unit)>, s: State)
    requires Run(Start(n), sched, s)
    ensures s.reported % PRINT_WORK_INTERVAL == 0 && s.reported <= s.count <= Successes(Start(n), sched)
    ensures s.logged == seq(|s.logged|, k => PRINT_WORK_INTERVAL * (k + 1))
    ensures s.count + SumUnflushed(s.workers) == Successes(Start(n), sched) == s.scans
    ensures s.reported - PRINT_WORK_INTERVAL * |s.logged| == if LogPending(s) then PRINT_WORK_INTERVAL else 0
  {
    StartInv(n);
    RunInv(Start(n), sched, s);
    ScansAreSuccesses(Start(n), sched, s);
  }

  lemma {:induction false} DoneIsFlushed(ws: seq<Worker>)
    requires forall i | 0 <= i < |ws| :: ws[i].phase == Done
    ensures SumUnflushed(ws) == 0
  {
    if ws != [] {
      DoneIsFlushed(ws[1..]);
    }
  }

  /** When all workers are done, the final count is the number of successful scans, and the last line
      logged is the reported total. */
  lemma FinalCountIsTotal(n: nat, sched: seq<(nat, Unit)>, s: State)
    requires Run(Start(n), sched, s)
    requires forall i | 0 <= i < |s.workers| :: s.workers[i].phase == Done
    ensures s.count == Successes(Start(n), sched) && s.holder == None
    ensures s.reported == PRINT_WORK_INTERVAL * |s.logged|
  {
    StartInv(n);
    RunInv(Start(n), sched, s);
    ScansAreSuccesses(Start(n), sched, s);
    DoneIsFlushed(s.workers);
  }

  // ---------- A single worker ----------

  /** Between two reports a single worker is less than one interval ahead of what it has reported. */
  ghost predicate Solo(s: State) {
    |s.workers| == 1 && Inv(s) &&
    var phase := s.workers[0].phase;
    if phase.Locking? || phase.Holding? || phase.Rechecking? || phase.Bumping? then
      s.reported + PRINT_WORK_INTERVAL <= s.count < s.reported + PRINT_WORK_INTERVAL + WORK_REPORT_INTERVAL
    else if phase.Added? then
      phase.sum == s.count < s.reported + PRINT_WORK_INTERVAL + WORK_REPORT_INTERVAL
    else
      s.count < s.reported + PRINT_WORK_INTERVAL
  }

  lemma NextSolo(s: State, unit: Unit)
    requires Solo(s) && Enabled(s, 0)
    ensures Solo(Next(s, 0, unit))
  {
    assert WorkerOk(s, 0);
    NextInv(s, 0, unit);
  }

  lemma {:induction false} RunSolo(s: State, sched: seq<(nat, Unit)>, s': State)
    requires Solo(s) && Run(s, sched, s')
    ensures Solo(s')
    decreases |sched|
  {
    if sched != [] {
      NextSolo(s, sched[0].1);
      RunSolo(Next(s, sched[0].0, sched[0].1), sched[1..], s');
    }
  }

  /** So progress is reported: a single worker has logged a line for every full thousand of its scans. */
  lemma SoloLogsEveryThousand(sched: seq<(nat, Unit)>, s: State)
    requires Run(Start(1), sched, s) && |s.workers| == 1 && s.workers[0].phase == Done
    ensures |s.logged| == Successes(Start(1), sched) / 1000
  {
    StartInv(1);
    RunSolo(Start(1), sched, s);
    FinalCountIsTotal(1, sched, s);
  }

  /** The mutex never blocks everyone: while a worker is not done, some worker can move. */
  lemma SomeWorkerCanMove(n: nat, sched: seq<(nat, Unit)>, s: State, i: nat)
    requires Run(Start(n), sched, s) && i < |s.workers| && s.workers[i].phase != Done
    ensures exists j :: Enabled(s, j)
  {
    StartInv(n);
    RunInv(Start(n), sched, s);
    var j := if s.holder.Some? then s.holder.value else i;
    assert WorkerOk(s, j);
    assert Enabled(s, j);
  }

  // ---------- The same, step by step in place ----------

  /** The counter and the workers, as the program updates them. */
  class Scan {
    var count: nat
    var reported: nat
    var mutex: Option<nat>
    var workers: seq<Worker>
    var logged: seq<nat>
    ghost var scans: nat

    ghost predicate Valid()
      reads this
    {
      Inv(View())
    }

    ghost function View(): State
      reads this
    {
      State(count, reported, mutex, workers, logged, scans)
    }

    constructor (n: nat)
      ensures Valid() && View() == Start(n)
    {
      count, reported, mutex, logged, scans := 0, 0, None, [], 0;
      workers := seq(n, _ => Worker(Scanning, 0));
      new;
      StartInv(n);
    }

    method Goto(i: nat, phase: Phase)
      requires i < |workers|
      modifies this`workers
      ensures workers == old(workers)[i := old(workers)[i].(phase := phase)]
    {
      workers := workers[i := workers[i].(phase := phase)];
    }

    /** The next atomic operation of worker i keeps the invariant. */
    method Step(i: nat, unit: Unit)
      requires Valid() && Enabled(View(), i)
      modifies this
      ensures Valid() && View() == Next(old(View()), i, unit)
    {
      NextInv(View(), i, unit);
      Operate(i, unit);
    }

    method Operate(i: nat, unit: Unit)
      requires Enabled(View(), i)
      modifies this
      ensures View() == Next(old(View()), i, unit)
    {
      var w := workers[i];
      match w.phase {
        case Scanning =>
          match unit {
            case Closed => Goto(i, Reporting(true));
            case AlreadyScanned =>
            case ScanFailed => Goto(i, Checking);
            case ScanOk =>
              workers := workers[i := Worker(Checking, w.workCount + 1)];
              scans := scans + 1;
          }
        case Checking =>
          Goto(i, if w.workCount >= WORK_REPORT_INTERVAL then Reporting(false) else Scanning);
        case Reporting(final) =>
          count := count + w.workCount;
          Goto(i, Added(count, final));
        case Added(sum, final) =>
          Goto(i, if sum >= reported + PRINT_WORK_INTERVAL then Locking(final) else Zeroing(final));
        case Locking(final) =>
          mutex := Some(i);
          Goto(i, Holding(final));
        case Holding(final) =>
          Goto(i, Rechecking(reported + PRINT_WORK_INTERVAL, final));
        case Rechecking(target, final) =>
          Goto(i, if count >= target then Bumping(target, final) else Unlocking(final));
        case Bumping(target, final) =>
          reported := reported + PRINT_WORK_INTERVAL;
          Goto(i, Logging(target, final));
        case Logging(target, final) =>
          logged := logged + [target];
          Goto(i, Unlocking(final));
        case Unlocking(final) =>
          mutex := None;
          Goto(i, Zeroing(final));
        case Zeroing(final) =>
          workers := workers[i := Worker(if final then Done else Scanning, 0)];
      }
    }
  }
}
