/** The concurrent part of a podscribe run. Every prepared file is a job that works through small
    steps, each touching only what is kept about that file; the two thread pools decide whose step
    comes next. Whatever they decide, the run ends where the sequential order ends. */
module PodscribePipeline {
  import opened Options
  import opened Podscribe

  /** Where a file's thread stands; the pools hold the jobs that are queued. */
  datatype Pc =
    | TQueued
    | TCalling(promote: bool)
    | TReturned(text: Text, promote: bool)
    | TCounted(text: Text, promote: bool)
    | TWritten(promote: bool)
    | TSaveFailed(left: Option<Text>)
    | TFinished
    | PQueued
    | PCalling(raw: Text)
    | PReturned(out: Text)
    | PWritten
    | PSaveFailed
    | PUpdated
    | Finished

  datatype Job = Job(pc: Pc, rec: Record)

  /** The number of steps a job is at most away from its end. */
  function Rank(pc: Pc): nat {
    match pc
    case TQueued => 11
    case TCalling(_) => 10
    case TReturned(_, _) => 9
    case TCounted(_, _) => 8
    case TWritten(_) => 7
    case TSaveFailed(_) => 7
    case TFinished => 6
    case PQueued => 5
    case PCalling(_) => 4
    case PReturned(_) => 3
    case PWritten => 2
    case PSaveFailed => 2
    case PUpdated => 1
    case Finished => 0
  }

  function StartPc(stage: Stage): Pc { if stage == PostprocessOnly then PQueued else TQueued }

  function Advance(stage: Stage, w: World, f: Name, j: Job): (j': Job)
    requires j.pc != Finished
    ensures Rank(j'.pc) < Rank(j.pc)
  {
    var r := j.rec;
    match j.pc
    case TQueued =>
      if r.entry.status == Preprocessed then Job(TCalling(true), r)
      else if r.raw.Some? then Job(TFinished, Promote(r))
      else Job(TCalling(false), r)
    case TCalling(promote) =>
      (match w.transcribe(f)
       case None => Job(TFinished, SetStatus(Log(r, TranscribeFailed), Failed))
       case Some(t) => Job(TReturned(t, promote), Log(r, TranscribeOk)))
    case TReturned(t, promote) => Job(TCounted(t, promote), r.(transcribedNow := true))
    case TCounted(t, promote) =>
      (match w.saveRaw(f, t)
       case Saved => Job(TWritten(promote), r.(raw := Some(t)))
       case NotWritten => Job(TSaveFailed(None), Log(r, SaveLost))
       case Cut(left) => Job(TSaveFailed(Some(left)), r.(raw := Some(left))))
    case TSaveFailed(_) => Job(TFinished, SetStatus(r, Failed))
    case TWritten(promote) => Job(TFinished, if promote then SetStatus(r, Transcribed) else r)
    case TFinished => Job(if stage == All then PQueued else Finished, r)
    case PQueued =>
      if stage == All && r.entry.status != Transcribed then Job(Finished, r)
      else (match r.raw
        case None => Job(Finished, if stage == PostprocessOnly then SetStatus(r, Failed) else r)
        case Some(t) =>
          Job(if Promote(r).entry.status in {Transcribed, Failed} then PCalling(t) else Finished, Promote(r)))
    case PCalling(t) =>
      (match w.post(f, t)
       case None => Job(Finished, SetStatus(Log(r, PostProcess), Failed))
       case Some(out) => Job(PReturned(out), Log(r, PostProcess)))
    case PReturned(out) =>
      (match w.saveFinal(f, out)
       case Saved => Job(PWritten, r.(final := Some(out)))
       case NotWritten => Job(PSaveFailed, r)
       case Cut(left) => Job(PSaveFailed, r.(final := Some(left))))
    case PSaveFailed => Job(Finished, SetStatus(r, Failed))
    case PWritten => Job(PUpdated, SetStatus(r, Completed))
    case PUpdated => Job(Finished, r.(postprocessedNow := true))
  }

  /** Where a job ends when nothing else is going on. */
  function Rest(stage: Stage, w: World, f: Name, j: Job): Record
    decreases Rank(j.pc)
  {
    if j.pc == Finished then j.rec else Rest(stage, w, f, Advance(stage, w, f, j))
  }

  lemma RestOfFinalSave(stage: Stage, w: World, f: Name, j: Job)
    requires j.pc.PReturned?
    ensures Rest(stage, w, f, j) == SaveFinal(w, f, j.rec, j.pc.out)
  {
    var j1 := Advance(stage, w, f, j);
    var j2 := Advance(stage, w, f, j1);
    assert Rest(stage, w, f, j) == Rest(stage, w, f, j1) == Rest(stage, w, f, j2);
    if j2.pc.PUpdated? {
      assert Rest(stage, w, f, j2) == Advance(stage, w, f, j2).rec;
    }
  }

  lemma RestOfPost(stage: Stage, w: World, f: Name, r: Record)
    ensures Rest(stage, w, f, Job(PQueued, r)) == PostTask(stage, w, f, r)
  {
    var j1 := Advance(stage, w, f, Job(PQueued, r));
    if j1.pc.PCalling? {
      var j2 := Advance(stage, w, f, j1);
      assert Rest(stage, w, f, Job(PQueued, r)) == Rest(stage, w, f, j1) == Rest(stage, w, f, j2);
      if j2.pc.PReturned? {
        RestOfFinalSave(stage, w, f, j2);
      }
    }
  }

  lemma RestOfRawSave(stage: Stage, w: World, f: Name, j: Job)
    requires j.pc.TReturned?
    ensures Rest(stage, w, f, j) ==
            Rest(stage, w, f, Job(TFinished, SaveRaw(w, f, j.rec.(transcribedNow := true), j.pc.text, j.pc.promote)))
  {
    var j1 := Advance(stage, w, f, j);
    var j2 := Advance(stage, w, f, j1);
    var j3 := Advance(stage, w, f, j2);
    assert Rest(stage, w, f, j) == Rest(stage, w, f, j1) == Rest(stage, w, f, j2) == Rest(stage, w, f, j3);
    assert j3 == Job(TFinished, SaveRaw(w, f, j.rec.(transcribedNow := true), j.pc.text, j.pc.promote));
  }

  lemma RestOfTranscription(stage: Stage, w: World, f: Name, r: Record)
    requires stage != PostprocessOnly
    ensures Rest(stage, w, f, Job(TQueued, r)) == Rest(stage, w, f, Job(TFinished, TranscribeTask(stage, w, f, r)))
  {
    var j1 := Advance(stage, w, f, Job(TQueued, r));
    if j1.pc.TCalling? {
      var j2 := Advance(stage, w, f, j1);
      if j2.pc.TReturned? {
        RestOfRawSave(stage, w, f, j2);
      }
    }
  }

  /** The small steps of a job, taken one after the other, are the tasks of the sequential order. */
  lemma JobIsLaterTasks(stage: Stage, w: World, f: Name, r: Record)
    ensures Rest(stage, w, f, Job(StartPc(stage), r)) == LaterTasks(stage, w, f, r)
  {
    if stage == PostprocessOnly {
      RestOfPost(stage, w, f, r);
    } else {
      var t := TranscribeTask(stage, w, f, r);
      RestOfTranscription(stage, w, f, r);
      assert Rest(stage, w, f, Job(TFinished, t)) ==
             if stage == All then Rest(stage, w, f, Job(PQueued, t)) else t;
      RestOfPost(stage, w, f, t);
    }
  }

  // ---------- The pools ----------

  /** All jobs, and the post-processing tasks submitted so far, in order of submission. */
  datatype Pools = Pools(jobs: map<Name, Job>, submitted: seq<Name>)

  function TranscriptionsRunning(jobs: map<Name, Job>): set<Name> {
    set f | f in jobs && 6 <= Rank(jobs[f].pc) <= 10
  }

  function PostProcessesRunning(jobs: map<Name, Job>): set<Name> {
    set f | f in jobs && 1 <= Rank(jobs[f].pc) <= 4
  }

  /** A queued job starts only when its pool has a free worker; a started one can always go on. */
  predicate Enabled(p: Pools, tWorkers: int, pWorkers: int, f: Name) {
    f in p.jobs && p.jobs[f].pc != Finished
    && (p.jobs[f].pc == TQueued ==> |TranscriptionsRunning(p.jobs)| < tWorkers)
    && (p.jobs[f].pc == PQueued ==> |PostProcessesRunning(p.jobs)| < pWorkers)
  }

  function Next(stage: Stage, w: World, p: Pools, f: Name): Pools
    requires f in p.jobs && p.jobs[f].pc != Finished
  {
    Pools(p.jobs[f := Advance(stage, w, f, p.jobs[f])],
          if stage == All && p.jobs[f].pc == TFinished then p.submitted + [f] else p.submitted)
  }

  function Start(stage: Stage, recs: map<Name, Record>): Pools {
    Pools(map f | f in recs :: Job(StartPc(stage), recs[f]), [])
  }

  predicate AllFinished(p: Pools) { forall f | f in p.jobs :: p.jobs[f].pc == Finished }

  /** What holds under every schedule: each job is still heading for the sequential result, and its
      post-processing task has been submitted once its transcription is over, and only once. */
  ghost predicate OnCourse(stage: Stage, w: World, recs: map<Name, Record>, p: Pools) {
    && p.jobs.Keys == recs.Keys
    && (forall f | f in recs :: Rest(stage, w, f, p.jobs[f]) == LaterTasks(stage, w, f, recs[f]))
    && (forall f :: SubmittedInTime(stage, p, f))
  }

  predicate SubmittedInTime(stage: Stage, p: Pools, f: Name) {
    multiset(p.submitted)[f] == if stage == All && f in p.jobs && Rank(p.jobs[f].pc) < 6 then 1 else 0
  }

  lemma StartIsOnCourse(stage: Stage, w: World, recs: map<Name, Record>)
    ensures OnCourse(stage, w, recs, Start(stage, recs))
  {
    forall f | f in recs { JobIsLaterTasks(stage, w, f, recs[f]); }
  }

  lemma NextIsOnCourse(stage: Stage, w: World, recs: map<Name, Record>, p: Pools, f: Name)
    requires OnCourse(stage, w, recs, p)
    requires f in p.jobs && p.jobs[f].pc != Finished
    ensures OnCourse(stage, w, recs, Next(stage, w, p, f))
  {
    var p' := Next(stage, w, p, f);
    assert Rest(stage, w, f, p.jobs[f]) == Rest(stage, w, f, p'.jobs[f]);
    forall g ensures SubmittedInTime(stage, p', g) {
      NextSubmittedInTime(stage, w, p, f, g);
    }
  }

  lemma NextSubmittedInTime(stage: Stage, w: World, p: Pools, f: Name, g: Name)
    requires f in p.jobs && p.jobs[f].pc != Finished && SubmittedInTime(stage, p, g)
    ensures SubmittedInTime(stage, Next(stage, w, p, f), g)
  {
    AdvancePastSubmission(stage, w, f, p.jobs[f]);
  }

  /** Only the submitting step takes a job of stage "all" from transcription to post-processing. */
  lemma AdvancePastSubmission(stage: Stage, w: World, f: Name, j: Job)
    requires j.pc != Finished
    ensures stage == All && j.pc != TFinished ==> (Rank(Advance(stage, w, f, j).pc) < 6 <==> Rank(j.pc) < 6)
  {
  }

  /** A schedule names, step by step, the file whose thread moves. */
  ghost predicate Schedule(stage: Stage, w: World, tWorkers: int, pWorkers: int, p: Pools, sched: seq<Name>, p': Pools)
    decreases |sched|
  {
    if sched == [] then p' == p
    else
      && Enabled(p, tWorkers, pWorkers, sched[0])
      && Schedule(stage, w, tWorkers, pWorkers, Next(stage, w, p, sched[0]), sched[1..], p')
  }

  lemma {:induction false} ScheduleStaysOnCourse(stage: Stage, w: World, tWorkers: int, pWorkers: int,
                                                 recs: map<Name, Record>, p: Pools, sched: seq<Name>, p': Pools)
    requires OnCourse(stage, w, recs, p)
    requires Schedule(stage, w, tWorkers, pWorkers, p, sched, p')
    ensures OnCourse(stage, w, recs, p')
    decreases |sched|
  {
    if sched != [] {
      NextIsOnCourse(stage, w, recs, p, sched[0]);
      ScheduleStaysOnCourse(stage, w, tWorkers, pWorkers, recs, Next(stage, w, p, sched[0]), sched[1..], p');
    }
  }

  // ---------- Interrupted runs ----------

  /** The transcriber has answered, but the answer, or what is left of it, is not yet both on disk and
      in the state file. */
  predicate AnswerInFlight(pc: Pc) {
    pc.TReturned? || pc.TCounted? || pc.TWritten? || (pc.TSaveFailed? && pc.left.Some?)
  }

  /** What holds of a job at each of its steps, started on a prepared file: while an answer is in flight
      the file is still waiting for it, and the answer counts as kept. */
  ghost predicate InOrder(j: Job) {
    var r := j.rec;
    if AnswerInFlight(j.pc) then
      r.entry.status == Preprocessed && Kept(r) == 1
      && (r.raw.Some? <==> j.pc.TWritten? || j.pc.TSaveFailed?) && (j.pc.TSaveFailed? || j.pc.promote)
    else
      && Sound(r)
      && (j.pc.TQueued? ==> r.raw.Some? || r.entry.status == Preprocessed)
      && (j.pc.TCalling? ==> r.raw.None? && j.pc.promote && r.entry.status == Preprocessed)
      && (j.pc.PCalling? || j.pc.PReturned? || j.pc.PSaveFailed? || j.pc.PWritten? ==>
            r.raw.Some? && r.entry.status in {Transcribed, Failed})
      && (j.pc.PWritten? ==> r.final.Some?)
  }

  lemma PreparedStartsInOrder(stage: Stage, w: World, f: Name, r: Record)
    requires Sound(r)
    ensures var p := PrepareTask(stage, w, f, r);
            p.ready ==> InOrder(Job(StartPc(stage), p.rec))
  {
    PrepareKeepsSound(stage, w, f, r);
  }

  lemma AdvanceKeepsOrder(stage: Stage, w: World, f: Name, j: Job)
    requires InOrder(j) && j.pc != Finished
    ensures InOrder(Advance(stage, w, f, j))
  {
    if j.pc.TCalling? {
      CallKeepsOrder(stage, w, f, j);
    } else if j.pc.TReturned? || j.pc.TCounted? || j.pc.TWritten? || j.pc.TSaveFailed? {
      SaveKeepsOrder(stage, w, f, j);
    } else if j.pc.PCalling? {
      LogKeepsSound(j.rec, PostProcess);
    } else if j.pc.PReturned? || j.pc.PWritten? || j.pc.PSaveFailed? {
      PostKeepsOrder(stage, w, f, j);
    } else if j.rec.raw.Some? {
      PromoteKeepsSound(j.rec);
    }
  }

  lemma SaveKeepsOrder(stage: Stage, w: World, f: Name, j: Job)
    requires InOrder(j) && (j.pc.TReturned? || j.pc.TCounted? || j.pc.TWritten? || j.pc.TSaveFailed?)
    ensures InOrder(Advance(stage, w, f, j))
  {
    LogCounts(j.rec, SaveLost);
  }

  lemma PostKeepsOrder(stage: Stage, w: World, f: Name, j: Job)
    requires InOrder(j) && (j.pc.PReturned? || j.pc.PWritten? || j.pc.PSaveFailed?)
    ensures InOrder(Advance(stage, w, f, j))
  {
  }

  lemma CallKeepsOrder(stage: Stage, w: World, f: Name, j: Job)
    requires InOrder(j) && j.pc.TCalling?
    ensures InOrder(Advance(stage, w, f, j))
  {
    LogCounts(j.rec, TranscribeOk);
    LogCounts(j.rec, TranscribeFailed);
  }

  ghost predicate AllInOrder(p: Pools) { forall f | f in p.jobs :: InOrder(p.jobs[f]) }

  lemma {:induction false} ScheduleKeepsOrder(stage: Stage, w: World, tWorkers: int, pWorkers: int,
                                              p: Pools, sched: seq<Name>, p': Pools)
    requires AllInOrder(p) && Schedule(stage, w, tWorkers, pWorkers, p, sched, p')
    ensures AllInOrder(p') && p'.jobs.Keys == p.jobs.Keys
    decreases |sched|
  {
    if sched != [] {
      AdvanceKeepsOrder(stage, w, sched[0], p.jobs[sched[0]]);
      ScheduleKeepsOrder(stage, w, tWorkers, pWorkers, Next(stage, w, p, sched[0]), sched[1..], p');
    }
  }

  /** The records are those of the files that a run prepared. */
  ghost predicate PreparedFrom(stage: Stage, w: World, before: map<Name, Record>, recs: map<Name, Record>) {
    forall f | f in recs :: f in before && Sound(before[f])
                            && PrepareTask(stage, w, f, BeginRun(before[f])) == Prepared(recs[f], true)
  }

  /** Whenever a run is killed, the record of a file is sound exactly when no answer of the transcriber
      is in flight for it; and exactly then no later life makes the transcriber's answers more than one,
      not counting those that could not be written. */
  lemma InterruptionIsSafe(stage: Stage, w: World, tWorkers: int, pWorkers: int, before: map<Name, Record>,
                           recs: map<Name, Record>, sched: seq<Name>, p: Pools, f: Name)
    requires PreparedFrom(stage, w, before, recs) && f in recs
    requires Schedule(stage, w, tWorkers, pWorkers, Start(stage, recs), sched, p)
    ensures f in p.jobs && (Sound(p.jobs[f].rec) <==> !AnswerInFlight(p.jobs[f].pc))
    ensures (forall events :: Kept(Life(f, p.jobs[f].rec, events)) <= 1) <==> !AnswerInFlight(p.jobs[f].pc)
  {
    forall g | g in recs ensures InOrder(Start(stage, recs).jobs[g]) {
      PreparedStartsInOrder(stage, w, g, BeginRun(before[g]));
    }
    ScheduleKeepsOrder(stage, w, tWorkers, pWorkers, Start(stage, recs), sched, p);
    InterruptedLives(p.jobs[f], f);
  }

  lemma InterruptedLives(j: Job, f: Name)
    requires InOrder(j)
    ensures (forall events :: Kept(Life(f, j.rec, events)) <= 1) <==> !AnswerInFlight(j.pc)
  {
    if AnswerInFlight(j.pc) {
      var w := Obliging(j.rec.entry.hash);
      InterruptionRepeatsTranscription(j, w, f);
      RunIsLife(TranscribeOnly, w, f, j.rec);
      assert Kept(Life(f, j.rec, RunEvents(TranscribeOnly, w, f, j.rec))) == 2;
    } else {
      forall events ensures Kept(Life(f, j.rec, events)) <= 1 {
        LifeKeepsSound(f, j.rec, events);
      }
    }
  }

  /** A world in which every call succeeds, and the file has this hash. */
  function Obliging(h: Hash): (w: World)
    ensures forall f :: AllSucceed(w, f) && w.hash(f) == Some(h)
  {
    World((f: Name) => Some(h), (f: Name) => true, (f: Name) => true, (f: Name) => false, (f: Name) => Some(""),
          (f: Name, t: Text) => Saved, (f: Name, t: Text) => Some(""), (f: Name, t: Text) => Saved)
  }

  /** If an answer is in flight, resuming calls the transcriber a second time for the same file. */
  lemma InterruptionRepeatsTranscription(j: Job, w: World, f: Name)
    requires InOrder(j) && AnswerInFlight(j.pc)
    requires AllSucceed(w, f) && w.hash(f) == Some(j.rec.entry.hash)
    ensures var r := RunFile(TranscribeOnly, w, f, j.rec);
            Transcriptions(r.calls) == Transcriptions(j.rec.calls) + 1 && Kept(r) == 2
  {
    var p := PrepareTask(TranscribeOnly, w, f, BeginRun(j.rec));
    PrepareCounts(TranscribeOnly, w, f, BeginRun(j.rec));
    assert p.ready && p.rec.entry.status == Preprocessed;
    LogCounts(p.rec, TranscribeOk);
  }

  /** Two steps into its first transcription, the answer to a new file is in flight. */
  lemma FirstAnswer(w: World, f: Name, h: Hash)
    requires h != "" && AllSucceed(w, f) && w.hash(f) == Some(h)
    ensures var p := PrepareTask(All, w, f, BeginRun(FRESH));
            var j := Advance(All, w, f, Job(TQueued, p.rec));
            var j' := Advance(All, w, f, j);
            && p.ready && j.pc.TCalling? && j'.pc.TReturned? && InOrder(j') && !Sound(j'.rec)
            && Transcriptions(j'.rec.calls) == 1 && j'.rec.entry.hash == h
  {
    var p := PrepareTask(All, w, f, BeginRun(FRESH));
    SuccessfulPrepare(w, f, BeginRun(FRESH));
    PrepareCounts(All, w, f, BeginRun(FRESH));
    PrepareKeepsTexts(All, w, f, BeginRun(FRESH));
    LogCounts(p.rec, TranscribeOk);
  }

  lemma TwoSteps(stage: Stage, w: World, p: Pools, f: Name)
    requires Enabled(p, 1, 1, f) && Enabled(Next(stage, w, p, f), 1, 1, f)
    ensures Schedule(stage, w, 1, 1, p, [f, f], Next(stage, w, Next(stage, w, p, f), f))
  {
    assert [f, f][1..] == [f] && [f][1..] == [];
  }

  /** A run does get there: killed two steps into its first transcription, a new file is transcribed
      again by the next run. */
  lemma InterruptionHappens(f: Name, h: Hash)
    requires h != ""
    ensures var w := Obliging(h);
            var recs := map[f := PrepareTask(All, w, f, BeginRun(FRESH)).rec];
            var p := Next(All, w, Next(All, w, Start(All, recs), f), f);
            && PreparedFrom(All, w, map[f := FRESH], recs)
            && Schedule(All, w, 1, 1, Start(All, recs), [f, f], p)
            && AnswerInFlight(p.jobs[f].pc) && !Sound(p.jobs[f].rec)
            && Transcriptions(RunFile(TranscribeOnly, w, f, p.jobs[f].rec).calls) == 2
  {
    var w := Obliging(h);
    var rec := PrepareTask(All, w, f, BeginRun(FRESH)).rec;
    FirstAnswer(w, f, h);
    OneJob(w, f, rec);
    InterruptionRepeatsTranscription(TwoOn(w, f, rec), w, f);
  }

  function TwoOn(w: World, f: Name, rec: Record): Job
    requires Advance(All, w, f, Job(TQueued, rec)).pc != Finished
  {
    Advance(All, w, f, Advance(All, w, f, Job(TQueued, rec)))
  }

  lemma OneJob(w: World, f: Name, rec: Record)
    requires var j := Advance(All, w, f, Job(TQueued, rec)); j.pc != Finished && j.pc != PQueued
    ensures var start := Start(All, map[f := rec]);
            var p := Next(All, w, Next(All, w, start, f), f);
            Schedule(All, w, 1, 1, start, [f, f], p) && p.jobs[f] == TwoOn(w, f, rec)
  {
    var start := Start(All, map[f := rec]);
    assert start.jobs[f] == Job(TQueued, rec);
    TwoSteps(All, w, start, f);
  }

  /** Confluence: every finished schedule of the two pools leaves every file as the sequential order
      does, and has submitted each file's post-processing task exactly once. */
  lemma Confluence(stage: Stage, w: World, tWorkers: int, pWorkers: int,
                   recs: map<Name, Record>, sched: seq<Name>, p: Pools)
    requires Schedule(stage, w, tWorkers, pWorkers, Start(stage, recs), sched, p)
    requires AllFinished(p)
    ensures p.jobs == map f | f in recs :: Job(Finished, LaterTasks(stage, w, f, recs[f]))
    ensures stage == All ==> multiset(p.submitted) == multiset(recs.Keys)
    ensures stage != All ==> p.submitted == []
  {
    StartIsOnCourse(stage, w, recs);
    ScheduleStaysOnCourse(stage, w, tWorkers, pWorkers, recs, Start(stage, recs), sched, p);
    FinishedOnCourse(stage, w, recs, p);
  }

  lemma FinishedJob(stage: Stage, w: World, recs: map<Name, Record>, p: Pools, f: Name)
    requires OnCourse(stage, w, recs, p) && f in recs && p.jobs[f].pc == Finished
    ensures p.jobs[f].rec == LaterTasks(stage, w, f, recs[f])
  {
    assert Rest(stage, w, f, p.jobs[f]) == p.jobs[f].rec;
  }

  lemma FinishedOnCourse(stage: Stage, w: World, recs: map<Name, Record>, p: Pools)
    requires OnCourse(stage, w, recs, p) && AllFinished(p)
    ensures p.jobs == map f | f in recs :: Job(Finished, LaterTasks(stage, w, f, recs[f]))
    ensures multiset(p.submitted) == if stage == All then multiset(recs.Keys) else multiset{}
    ensures stage != All ==> p.submitted == []
  {
    forall f | f in recs
      ensures p.jobs[f] == Job(Finished, LaterTasks(stage, w, f, recs[f]))
    {
      assert p.jobs[f].pc == Finished;
      FinishedJob(stage, w, recs, p, f);
    }
    FinishedSubmissions(stage, w, recs, p);
  }

  lemma FinishedSubmissions(stage: Stage, w: World, recs: map<Name, Record>, p: Pools)
    requires OnCourse(stage, w, recs, p) && AllFinished(p)
    ensures multiset(p.submitted) == if stage == All then multiset(recs.Keys) else multiset{}
    ensures stage != All ==> p.submitted == []
  {
    var expected := if stage == All then multiset(recs.Keys) else multiset{};
    forall f
      ensures multiset(p.submitted)[f] == expected[f]
    {
      FinishedSubmission(stage, p, f);
    }
    SameMultiset(multiset(p.submitted), expected);
    NoElements(p.submitted);
  }

  lemma NoElements<T>(s: seq<T>)
    ensures multiset(s) == multiset{} ==> s == []
  {
    assert |multiset(s)| == |s|;
  }

  lemma FinishedSubmission(stage: Stage, p: Pools, f: Name)
    requires SubmittedInTime(stage, p, f) && AllFinished(p)
    ensures multiset(p.submitted)[f] == if stage == All && f in p.jobs then 1 else 0
  {
    assert f in p.jobs ==> p.jobs[f].pc == Finished;
  }

  lemma SameMultiset<T(!new)>(a: multiset<T>, b: multiset<T>)
    requires forall x :: a[x] == b[x]
    ensures a == b
  {
  }

  /** The pools never get stuck: while a job is unfinished, some thread can move. */
  lemma SomeJobIsEnabled(p: Pools, tWorkers: int, pWorkers: int)
    requires tWorkers >= 1 && pWorkers >= 1
    requires !AllFinished(p)
    ensures exists f :: Enabled(p, tWorkers, pWorkers, f)
  {
    var f :| f in p.jobs && p.jobs[f].pc != Finished;
    if TranscriptionsRunning(p.jobs) != {} {
      var t :| t in TranscriptionsRunning(p.jobs);
      assert Enabled(p, tWorkers, pWorkers, t);
    } else if PostProcessesRunning(p.jobs) != {} {
      var t :| t in PostProcessesRunning(p.jobs);
      assert Enabled(p, tWorkers, pWorkers, t);
    } else {
      assert Enabled(p, tWorkers, pWorkers, f);
    }
  }

  /** Which jobs hold a worker of a pool: those that have started and not finished there. */
  lemma WhoIsRunning(p: Pools, f: Name)
    ensures f in TranscriptionsRunning(p.jobs) <==>
              f in p.jobs && p.jobs[f].pc != TQueued
              && (p.jobs[f].pc.TCalling? || p.jobs[f].pc.TReturned? || p.jobs[f].pc.TCounted?
                  || p.jobs[f].pc.TWritten? || p.jobs[f].pc.TSaveFailed? || p.jobs[f].pc.TFinished?)
    ensures f in PostProcessesRunning(p.jobs) <==>
              f in p.jobs && (p.jobs[f].pc.PCalling? || p.jobs[f].pc.PReturned? || p.jobs[f].pc.PWritten?
                              || p.jobs[f].pc.PSaveFailed? || p.jobs[f].pc.PUpdated?)
  {
  }

  ghost predicate WithinPools(p: Pools, tWorkers: int, pWorkers: int) {
    |TranscriptionsRunning(p.jobs)| <= tWorkers && |PostProcessesRunning(p.jobs)| <= pWorkers
  }

  lemma NextWithinPools(stage: Stage, w: World, p: Pools, tWorkers: int, pWorkers: int, f: Name)
    requires WithinPools(p, tWorkers, pWorkers) && Enabled(p, tWorkers, pWorkers, f)
    ensures WithinPools(Next(stage, w, p, f), tWorkers, pWorkers)
  {
    var p' := Next(stage, w, p, f);
    var t, t' := TranscriptionsRunning(p.jobs), TranscriptionsRunning(p'.jobs);
    var q, q' := PostProcessesRunning(p.jobs), PostProcessesRunning(p'.jobs);
    AdvanceRank(stage, w, f, p.jobs[f]);
    OneMore(t, t', f);
    OneMore(q, q', f);
  }

  /** A step leaves the queue of its own pool alone, and enters the pool of post-processes only from it. */
  lemma AdvanceRank(stage: Stage, w: World, f: Name, j: Job)
    requires j.pc != Finished
    ensures var pc := Advance(stage, w, f, j).pc;
            && (6 <= Rank(pc) <= 10 ==> 6 <= Rank(j.pc) <= 10 || j.pc == TQueued)
            && (1 <= Rank(pc) <= 4 ==> 1 <= Rank(j.pc) <= 4 || j.pc == PQueued)
  {
  }

  lemma OneMore(s: set<Name>, s': set<Name>, f: Name)
    requires s' <= s + {f}
    ensures |s'| <= |s| + if f in s' && f !in s then 1 else 0
  {
    Subset(s', if f in s' then s + {f} else s);
  }

  lemma {:induction false} Subset(a: set<Name>, b: set<Name>)
    requires a <= b
    ensures |a| <= |b|
  {
    if x :| x in a {
      Subset(a - {x}, b - {x});
    }
  }

  /** Under every schedule no pool ever has more jobs at work than it has workers. */
  lemma {:induction false} PoolsNeverOverrun(stage: Stage, w: World, tWorkers: int, pWorkers: int,
                                             p: Pools, sched: seq<Name>, p': Pools)
    requires WithinPools(p, tWorkers, pWorkers) && Schedule(stage, w, tWorkers, pWorkers, p, sched, p')
    ensures WithinPools(p', tWorkers, pWorkers)
    decreases |sched|
  {
    if sched != [] {
      NextWithinPools(stage, w, p, tWorkers, pWorkers, sched[0]);
      PoolsNeverOverrun(stage, w, tWorkers, pWorkers, Next(stage, w, p, sched[0]), sched[1..], p');
    }
  }

  lemma StartWithinPools(stage: Stage, recs: map<Name, Record>)
    ensures WithinPools(Start(stage, recs), 0, 0)
  {
    assert TranscriptionsRunning(Start(stage, recs).jobs) == {} && PostProcessesRunning(Start(stage, recs).jobs) == {};
  }

  function TotalRank(names: seq<Name>, jobs: map<Name, Job>): nat
    requires forall f | f in names :: f in jobs
  {
    if names == [] then 0 else Rank(jobs[names[0]].pc) + TotalRank(names[1..], jobs)
  }

  lemma TotalRankDecreases(names: seq<Name>, jobs: map<Name, Job>, f: Name, j: Job)
    requires forall g | g in names :: g in jobs
    requires f in jobs && Rank(j.pc) < Rank(jobs[f].pc)
    ensures TotalRank(names, jobs[f := j]) + (if f in names then 1 else 0) <= TotalRank(names, jobs)
  {
    if names != [] {
      TotalRankDecreases(names[1..], jobs, f, j);
    }
  }
}
