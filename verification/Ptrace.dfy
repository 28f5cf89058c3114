/** The wait loop of the system call tracer: it pairs the stops of many processes into entry and exit
    events, whatever order they come in. */
module Ptrace {
  import opened Options

  type Pid = int
  type Bytes = seq<int>

  /** The register values and what they point to, as read at one stop. */
  type Args = seq<(int, Option<Bytes>)>

  const SYS_EXECVE := 59
  const ERRNO_MAX := 4095
  const TWO64 := 0x1_0000_0000_0000_0000

  type Word = w: int | 0 <= w < TWO64

  datatype Regs = Regs(origRax: Word, rax: Word, rip: Word, args: Args, argv: seq<Bytes>)

  datatype Event = Event(pid: Pid, isExit: bool, num: Word, ret: Word, errno: int,
                         precall: Args, postcall: Args, argv: seq<Bytes>, pc: Word)

  /** -int(p), the negation of the word read as a signed number, for words from 2^64 - 4096 on. */
  function GetErrno(p: Word): int { if p < TWO64 - 1 - ERRNO_MAX then 0 else TWO64 - p }

  /** The kernel reports errors as -4095..-1. The test lets one more word pass, 2^64 - 4096, which is a
      valid return value and is reported as error 4096. */
  lemma ErrnoOffByOne(p: Word)
    ensures GetErrno(p) == 0 <==> p < TWO64 - 4096
    ensures GetErrno(p) <= ERRNO_MAX <==> p != TWO64 - 4096
    ensures 1 <= GetErrno(p) <= ERRNO_MAX <==> p >= TWO64 - ERRNO_MAX
  {
  }

  function Decode(pid: Pid, regs: Regs, start: Option<Event>): Event {
    match start
    case Some(s) =>
      var errno := GetErrno(regs.rax);
      Event(pid, true, s.num, if errno == 0 then regs.rax else 0, errno, s.precall, regs.args, s.argv, regs.rip)
    case None =>
      Event(pid, false, regs.origRax, 0, 0, regs.args, [],
            if regs.origRax == SYS_EXECVE then regs.argv else [], regs.rip)
  }

  /** What wait4 reports about a process. */
  datatype Status = Exited | SyscallStop | OtherStop

  /** What one turn of the loop meets: the result of resuming the last process, of wait4, and of
      reading the registers. */
  datatype Turn = Turn(resumed: bool, waited: Option<(Pid, Status)>, regs: Option<Regs>)

  datatype Outcome = Running | ResumeFailed | WaitFailed | RegsFailed | AllExited

  datatype State = State(tracee: Pid, pending: map<Pid, Event>, known: set<Pid>, events: seq<Event>,
                         log: seq<(Pid, Status)>, outcome: Outcome)

  function Start(root: Pid): State {
    State(root, map[], {root}, [], [(root, OtherStop)], Running)
  }

  function Step(s: State, t: Turn): State {
    if s.outcome != Running then s
    else if s.tracee != 0 && !t.resumed then s.(outcome := ResumeFailed)
    else match t.waited
      case None => s.(outcome := WaitFailed)
      case Some((pid, status)) =>
        var s1 := s.(tracee := pid, known := s.known + {pid}, log := s.log + [(pid, status)]);
        match status
        case Exited =>
          var left := s1.known - {pid};
          if left == {} then s1.(known := left, outcome := AllExited) else s1.(known := left, tracee := 0)
        case OtherStop => s1
        case SyscallStop =>
          if t.regs.None? then s1.(outcome := RegsFailed)
          else
            var start := if pid in s.pending then Some(s.pending[pid]) else None;
            var event := Decode(pid, t.regs.value, start);
            s1.(events := s.events + [event],
                pending := if start.None? then s.pending[pid := event] else s.pending - {pid})
  }

  function Run(s: State, turns: seq<Turn>): State
    decreases |turns|
  {
    if turns == [] then s else Run(Step(s, turns[0]), turns[1..])
  }

  // ---------- Pairing ----------

  /** The events of one process, in order. */
  function Of(events: seq<Event>, p: Pid): seq<Event> {
    if events == [] then []
    else
      var front, last := Of(events[..|events| - 1], p), events[|events| - 1];
      if last.pid == p then front + [last] else front
  }

  lemma OfSnoc(events: seq<Event>, e: Event, p: Pid)
    ensures Of(events + [e], p) == if e.pid == p then Of(events, p) + [e] else Of(events, p)
  {
    assert (events + [e])[..|events|] == events;
  }

  /** Entry, exit, entry, exit, ...; and each exit carries what its entry learnt about the call. */
  predicate Paired(es: seq<Event>) {
    forall k | 0 <= k < |es| ::
      && es[k].isExit == (k % 2 == 1)
      && (k % 2 == 1 ==>
            es[k].num == es[k - 1].num && es[k].precall == es[k - 1].precall && es[k].argv == es[k - 1].argv)
  }

  ghost predicate PairedFor(s: State, p: Pid) {
    var es := Of(s.events, p);
    && Paired(es)
    && (p in s.pending <==> |es| % 2 == 1)
    && (p in s.pending ==> s.pending[p] == es[|es| - 1])
  }

  /** What was last heard of a process. */
  function Last(log: seq<(Pid, Status)>, p: Pid): Option<Status> {
    if log == [] then None
    else
      var (pid, status) := log[|log| - 1];
      if pid == p then Some(status) else Last(log[..|log| - 1], p)
  }

  ghost predicate KnownFor(s: State, p: Pid) {
    p in s.known <==> Last(s.log, p) in {Some(SyscallStop), Some(OtherStop)}
  }

  ghost predicate Inv(s: State) {
    && (forall p: Pid :: PairedFor(s, p))
    && (forall p: Pid :: KnownFor(s, p))
    && (s.outcome == AllExited ==> s.known == {})
  }

  lemma StartInv(root: Pid)
    ensures Inv(Start(root))
  {
    var log := [(root, OtherStop)];
    assert log[..0] == [];
    assert forall p :: Last(log, p) == if p == root then Some(OtherStop) else None;
  }

  lemma StepPaired(s: State, t: Turn, p: Pid)
    requires PairedFor(s, p)
    ensures PairedFor(Step(s, t), p)
  {
    var s' := Step(s, t);
    if |s'.events| > |s.events| {
      var e := s'.events[|s.events|];
      assert s'.events == s.events + [e];
      OfSnoc(s.events, e, p);
      if e.pid == p {
        PairedSnoc(Of(s.events, p), e);
      }
    }
  }

  lemma PairedSnoc(es: seq<Event>, e: Event)
    requires Paired(es)
    requires e.isExit == (|es| % 2 == 1)
    requires e.isExit ==> e.num == es[|es| - 1].num && e.precall == es[|es| - 1].precall && e.argv == es[|es| - 1].argv
    ensures Paired(es + [e])
  {
  }

  lemma StepKnown(s: State, t: Turn, p: Pid)
    requires KnownFor(s, p)
    ensures KnownFor(Step(s, t), p)
  {
    var s' := Step(s, t);
    if |s'.log| > |s.log| {
      assert s'.log[..|s.log|] == s.log;
    }
  }

  lemma StepInv(s: State, t: Turn)
    requires Inv(s)
    ensures Inv(Step(s, t))
  {
    forall p: Pid ensures PairedFor(Step(s, t), p) && KnownFor(Step(s, t), p) {
      StepPaired(s, t, p);
      StepKnown(s, t, p);
    }
  }

  lemma {:induction false} RunInv(s: State, turns: seq<Turn>)
    requires Inv(s)
    ensures Inv(Run(s, turns))
    decreases |turns|
  {
    if turns != [] {
      StepInv(s, turns[0]);
      RunInv(Step(s, turns[0]), turns[1..]);
    }
  }

  /** For every stream of stops: the events of each process are entries and exits in turn, starting with
      an entry; a call is pending exactly while its entry is the process's last event. */
  lemma EventsArePaired(root: Pid, turns: seq<Turn>, p: Pid)
    ensures var s := Run(Start(root), turns);
            && Paired(Of(s.events, p))
            && (p in s.pending <==> Of(s.events, p) != [] && !Of(s.events, p)[|Of(s.events, p)| - 1].isExit)
  {
    StartInv(root);
    RunInv(Start(root), turns);
    var s := Run(Start(root), turns);
    assert PairedFor(s, p);
  }

  /** The loop ends for want of processes only when every process it heard of has exited since. */
  lemma AllExitedMeansAllExited(root: Pid, turns: seq<Turn>, p: Pid)
    requires Run(Start(root), turns).outcome == AllExited
    ensures Last(Run(Start(root), turns).log, p) in {None, Some(Exited)}
  {
    StartInv(root);
    RunInv(Start(root), turns);
    var s := Run(Start(root), turns);
    assert KnownFor(s, p);
    match Last(s.log, p) {
      case None =>
      case Some(status) => assert status == Exited;
    }
  }

  // ---------- What the events say ----------

  /** The system call stops whose registers could be read, in order. */
  function Stops(turns: seq<Turn>): seq<(Pid, Regs)> {
    if turns == [] then []
    else
      var t := turns[|turns| - 1];
      var stopped := t.waited.Some? && t.waited.value.1 == SyscallStop && t.regs.Some?;
      Stops(turns[..|turns| - 1]) + if stopped then [(t.waited.value.0, t.regs.value)] else []
  }

  /** The event tells of this stop: an entry the call's number and arguments, and for execve the argument
      vector; an exit the arguments after the call, and its result or its error. */
  predicate Tells(e: Event, stop: (Pid, Regs)) {
    var (pid, regs) := stop;
    && e.pid == pid && e.pc == regs.rip
    && (!e.isExit ==>
          && e.num == regs.origRax && e.precall == regs.args && e.postcall == []
          && e.argv == (if regs.origRax == 59 then regs.argv else []) && e.ret == 0 && e.errno == 0)
    && (e.isExit ==>
          && e.postcall == regs.args
          && (regs.rax < TWO64 - 4096 ==> e.ret == regs.rax && e.errno == 0)
          && (regs.rax >= TWO64 - 4096 ==> e.ret == 0 && e.errno == TWO64 - regs.rax))
  }

  /** One event for every stop, in order, and each tells of its stop; a run that has ended has none for the
      stops that came too late. */
  predicate AllTell(events: seq<Event>, stops: seq<(Pid, Regs)>) {
    |events| <= |stops| && forall k | 0 <= k < |events| :: Tells(events[k], stops[k])
  }

  lemma {:induction false} EventsAreStops(root: Pid, turns: seq<Turn>)
    ensures var s := Run(Start(root), turns);
            AllTell(s.events, Stops(turns)) && (s.outcome == Running ==> |s.events| == |Stops(turns)|)
  {
    if turns != [] {
      var front, t := turns[..|turns| - 1], turns[|turns| - 1];
      assert turns == front + [t];
      EventsAreStops(root, front);
      RunSnoc(Start(root), front, t);
      StepTells(Run(Start(root), front), t, Stops(front));
    }
  }

  lemma StepTells(s: State, t: Turn, stops: seq<(Pid, Regs)>)
    requires AllTell(s.events, stops) && (s.outcome == Running ==> |s.events| == |stops|)
    ensures var s' := Step(s, t);
            var more := if t.waited.Some? && t.waited.value.1 == SyscallStop && t.regs.Some?
                        then [(t.waited.value.0, t.regs.value)] else [];
            AllTell(s'.events, stops + more) && (s'.outcome == Running ==> |s'.events| == |stops + more|)
  {
  }

  // ---------- A process id used again ----------

  /** No system call stop of p among the turns. */
  predicate Quiet(turns: seq<Turn>, p: Pid) {
    forall k | 0 <= k < |turns| :: turns[k].waited != Some((p, SyscallStop))
  }

  lemma {:induction false} QuietKeepsPending(s: State, turns: seq<Turn>, p: Pid)
    requires Quiet(turns, p)
    ensures p in Run(s, turns).pending <==> p in s.pending
    ensures p in s.pending ==> Run(s, turns).pending[p] == s.pending[p]
    decreases |turns|
  {
    if turns != [] {
      assert turns[0].waited != Some((p, SyscallStop));
      QuietKeepsPending(Step(s, turns[0]), turns[1..], p);
    }
  }

  /** Exiting does not clear a pending call. If the id is used again, the new process's first stop is
      reported as an entry if and only if the old process had no call pending when it exited; otherwise
      as the exit of the old one's call. */
  lemma ReusedPid(s: State, p: Pid, death: Turn, turns: seq<Turn>, stop: Turn)
    requires death.waited == Some((p, Exited)) && Quiet(turns, p)
    requires stop.waited == Some((p, SyscallStop)) && stop.regs.Some?
    requires var before := Run(s, [death] + turns);
             before.outcome == Running && (before.tracee != 0 ==> stop.resumed)
    ensures var events := Run(s, [death] + turns + [stop]).events;
            && events != [] && events[|events| - 1].pid == p
            && (events[|events| - 1].isExit <==> p in s.pending)
            && (p in s.pending ==> events[|events| - 1].num == s.pending[p].num)
  {
    assert Quiet([death] + turns, p);
    QuietThenStop(s, p, [death] + turns, stop);
  }

  /** That happens in every run in which a process dies in a call it has entered, as in exit_group, and
      its id comes back: the newcomer's first stop is reported as the exit of that call. */
  lemma ReusedPidHappens(root: Pid, p: Pid, first: Regs, second: Regs)
    requires root != p
    ensures var turns := [Turn(true, Some((p, SyscallStop)), Some(first)), Turn(true, Some((p, Exited)), None),
                          Turn(true, Some((p, SyscallStop)), Some(second))];
            var s := Run(Start(root), turns);
            && s.outcome == Running && |s.events| == 2
            && !s.events[0].isExit && s.events[0].num == first.origRax
            && s.events[1].pid == p && s.events[1].isExit && s.events[1].num == first.origRax
  {
    var entry, death := Turn(true, Some((p, SyscallStop)), Some(first)), Turn(true, Some((p, Exited)), None);
    var stop := Turn(true, Some((p, SyscallStop)), Some(second));
    var s1 := Step(Start(root), entry);
    var s2 := Step(s1, death);
    assert root in s2.known;
    assert [entry, death, stop][1..] == [death, stop] && [death, stop][1..] == [stop] && [stop][1..] == [];
    assert Run(Start(root), [entry, death, stop]) == Run(s1, [death, stop]) == Run(s2, [stop]) == Step(s2, stop);
  }

  lemma QuietThenStop(s: State, p: Pid, turns: seq<Turn>, stop: Turn)
    requires Quiet(turns, p)
    requires stop.waited == Some((p, SyscallStop)) && stop.regs.Some?
    requires var before := Run(s, turns);
             before.outcome == Running && (before.tracee != 0 ==> stop.resumed)
    ensures var events := Run(s, turns + [stop]).events;
            && events != [] && events[|events| - 1].pid == p
            && (events[|events| - 1].isExit <==> p in s.pending)
            && (p in s.pending ==> events[|events| - 1].num == s.pending[p].num)
  {
    QuietKeepsPending(s, turns, p);
    RunSnoc(s, turns, stop);
    StopEvent(Run(s, turns), stop, p);
  }

  lemma StopEvent(s: State, stop: Turn, p: Pid)
    requires s.outcome == Running && (s.tracee != 0 ==> stop.resumed)
    requires stop.waited == Some((p, SyscallStop)) && stop.regs.Some?
    ensures Step(s, stop).events ==
            s.events + [Decode(p, stop.regs.value, if p in s.pending then Some(s.pending[p]) else None)]
  {
  }

  lemma {:induction false} RunSnoc(s: State, turns: seq<Turn>, t: Turn)
    ensures Run(s, turns + [t]) == Step(Run(s, turns), t)
    decreases |turns|
  {
    if turns == [] {
      assert ([] + [t])[1..] == [];
    } else {
      assert (turns + [t])[1..] == turns[1..] + [t];
      RunSnoc(Step(s, turns[0]), turns[1..], t);
    }
  }

  // ---------- The loop ----------

  /** `traceProcessInternal` after the start-up, for as many turns as are given. */
  method Trace(root: Pid, turns: seq<Turn>) returns (events: seq<Event>, outcome: Outcome)
    ensures var s := Run(Start(root), turns); events == s.events && outcome == s.outcome
  {
    var tracee := root;
    var pending: map<Pid, Event> := map[];
    var known := {root};
    events := [];
    ghost var log := [(root, OtherStop)];
    for i := 0 to |turns|
      invariant Run(Start(root), turns) == Run(State(tracee, pending, known, events, log, Running), turns[i..])
    {
      ghost var s := State(tracee, pending, known, events, log, Running);
      var t := turns[i];
      assert turns[i..][0] == t && turns[i..][1..] == turns[i + 1..];
      if tracee != 0 && !t.resumed {
        Stopped(s.(outcome := ResumeFailed), turns[i + 1..]);
        return events, ResumeFailed;
      }
      if t.waited.None? {
        Stopped(s.(outcome := WaitFailed), turns[i + 1..]);
        return events, WaitFailed;
      }
      var (pid, status) := t.waited.value;
      tracee, known := pid, known + {pid};
      log := log + [(pid, status)];
      match status {
        case Exited =>
          known := known - {pid};
          if known == {} {
            Stopped(State(tracee, pending, known, events, log, AllExited), turns[i + 1..]);
            return events, AllExited;
          }
          tracee := 0;
        case OtherStop =>
        case SyscallStop =>
          var start := if pid in pending then Some(pending[pid]) else None;
          if t.regs.None? {
            Stopped(State(tracee, pending, known, events, log, RegsFailed), turns[i + 1..]);
            return events, RegsFailed;
          }
          var event := Decode(pid, t.regs.value, start);
          events := events + [event];
          if start.None? {
            pending := pending[pid := event];
          } else {
            pending := pending - {pid};
          }
      }
    }
    outcome := Running;
  }

  lemma {:induction false} Stopped(s: State, turns: seq<Turn>)
    requires s.outcome != Running
    ensures Run(s, turns) == s
    decreases |turns|
  {
    if turns != [] {
      Stopped(s, turns[1..]);
    }
  }
}
