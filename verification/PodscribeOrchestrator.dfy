/** The orchestrator as an object: its methods update the state map, the transcripts on disk and the
    in-run sets, and do to each file what the tasks of module Podscribe say. */
module PodscribeOrchestrator {
  import opened Options
  import opened Podscribe
  import opened PodscribePipeline

  class Orchestrator {
    const stage: Stage
    const transcriptionWorkers: int
    const postprocessingWorkers: int
    var state: map<Name, Entry>
    var rawTranscripts: map<Name, Text>
    var finalTranscripts: map<Name, Text>
    var transcribedInThisRun: set<Name>
    var postprocessedInThisRun: set<Name>
    var calls: map<Name, seq<Call>>

    constructor (stage: Stage, transcriptionWorkers: int, postprocessingWorkers: int)
      ensures this.stage == stage
      ensures forall f :: View(f) == FRESH
    {
      this.stage := stage;
      this.transcriptionWorkers, this.postprocessingWorkers := transcriptionWorkers, postprocessingWorkers;
      state, rawTranscripts, finalTranscripts, calls := map[], map[], map[], map[];
      transcribedInThisRun, postprocessedInThisRun := {}, {};
    }

    /** Everything held about one file. */
    function View(f: Name): Record
      reads this
    {
      Record(GetEntry(f), Lookup(rawTranscripts, f), Lookup(finalTranscripts, f),
             f in transcribedInThisRun, f in postprocessedInThisRun, if f in calls then calls[f] else [])
    }

    static function Lookup(m: map<Name, Text>, f: Name): Option<Text> {
      if f in m then Some(m[f]) else None
    }

    function GetEntry(f: Name): Entry
      reads this
    {
      if f in state then state[f] else DEFAULT_ENTRY
    }

    method UpdateStatus(f: Name, status: Status)
      modifies this`state
      ensures View(f) == SetStatus(old(View(f)), status)
      ensures forall g | g != f :: View(g) == old(View(g))
    {
      state := state[f := GetEntry(f).(status := status)];
    }

    method LogCall(f: Name, c: Call)
      modifies this`calls
      ensures View(f) == Log(old(View(f)), c)
      ensures forall g | g != f :: View(g) == old(View(g))
    {
      calls := calls[f := (if f in calls then calls[f] else []) + [c]];
    }

    method LoadExistingTranscript(f: Name) returns (existing: Option<Text>)
      modifies this`state
      ensures existing == old(View(f)).raw
      ensures View(f) == if existing.Some? then Promote(old(View(f))) else old(View(f))
      ensures forall g | g != f :: View(g) == old(View(g))
    {
      existing := Lookup(rawTranscripts, f);
      if existing.Some? && GetEntry(f).status in {New, Preprocessed, Failed} {
        UpdateStatus(f, Transcribed);
      }
    }

    method PrepareAndPreprocessFile(w: World, f: Name) returns (ready: bool)
      modifies this
      ensures Prepared(View(f), ready) == PrepareTask(stage, w, f, old(View(f)))
      ensures forall g | g != f :: View(g) == old(View(g))
    {
      var fileHash := w.hash(f);
      if fileHash.None? || ShouldSkip(stage, GetEntry(f), fileHash.value) {
        return false;
      }
      if GetEntry(f).hash != fileHash.value {
        state := state[f := Entry(fileHash.value, New, false)];
      }
      assert View(f) == ResetIfChanged(old(View(f)), fileHash.value);
      if GetEntry(f).status !in {Transcribed, Completed} && stage != PostprocessOnly {
        LogCall(f, Duration);
        if !w.durationOk(f) {
          return false;
        }
      }
      if stage == PostprocessOnly {
        return true;
      }
      ready := PreprocessFile(w, f);
    }

    method PreprocessFile(w: World, f: Name) returns (ready: bool)
      modifies this`state, this`calls
      ensures Prepared(View(f), ready) == PreprocessTask(w, f, old(View(f)))
      ensures forall g | g != f :: View(g) == old(View(g))
    {
      if GetEntry(f).status in {New, Failed} {
        var _ := LoadExistingTranscript(f);
      }
      if GetEntry(f).status in {New, Failed} {
        LogCall(f, Preprocess);
        if !w.preprocessOk(f) {
          UpdateStatus(f, Failed);
          return false;
        }
        state := state[f := GetEntry(f).(status := Preprocessed, preprocessedPath := true)];
      } else if GetEntry(f).preprocessedPath && w.missing(f) {
        LogCall(f, Preprocess);
        return w.preprocessOk(f);
      }
      return true;
    }

    /** Calls the transcriber and, when it answers, saves what it said. */
    method TranscribeAndSave(w: World, f: Name, promote: bool)
      modifies this
      ensures View(f) == TranscribeCall(w, f, old(View(f)), promote)
      ensures forall g | g != f :: View(g) == old(View(g))
    {
      match w.transcribe(f) {
        case None =>
          LogCall(f, TranscribeFailed);
          UpdateStatus(f, Failed);
        case Some(text) =>
          LogCall(f, TranscribeOk);
          transcribedInThisRun := transcribedInThisRun + {f};
          SaveRawTranscript(w, f, text, promote);
      }
    }

    /** `_save_and_update_transcript_state`; a failed write ends in the exception handler of its caller. */
    method SaveRawTranscript(w: World, f: Name, text: Text, promote: bool)
      modifies this`rawTranscripts, this`state, this`calls
      ensures View(f) == SaveRaw(w, f, old(View(f)), text, promote)
      ensures forall g | g != f :: View(g) == old(View(g))
    {
      match w.saveRaw(f, text) {
        case Saved =>
          rawTranscripts := rawTranscripts[f := text];
          if promote {
            UpdateStatus(f, Transcribed);
          }
        case NotWritten =>
          LogCall(f, SaveLost);
          UpdateStatus(f, Failed);
        case Cut(left) =>
          rawTranscripts := rawTranscripts[f := left];
          UpdateStatus(f, Failed);
      }
    }

    method RunTranscriptionForFile(w: World, f: Name)
      modifies this
      ensures View(f) == TranscribeTask(stage, w, f, old(View(f)))
      ensures forall g | g != f :: View(g) == old(View(g))
    {
      if stage == PostprocessOnly {
        return;
      }
      if GetEntry(f).status == Preprocessed {
        TranscribeAndSave(w, f, true);
      } else {
        var existing := LoadExistingTranscript(f);
        if existing.None? {
          TranscribeAndSave(w, f, false);
        }
      }
    }

    /** Calls the post-processor and, when it answers, saves what it said. */
    method PostProcessAndSave(w: World, f: Name, raw: Text)
      modifies this
      ensures View(f) == PostProcessCall(w, f, old(View(f)), raw)
      ensures forall g | g != f :: View(g) == old(View(g))
    {
      LogCall(f, PostProcess);
      match w.post(f, raw) {
        case None =>
          UpdateStatus(f, Failed);
        case Some(out) =>
          SaveFinalTranscript(w, f, out);
      }
    }

    method SaveFinalTranscript(w: World, f: Name, out: Text)
      modifies this`finalTranscripts, this`state, this`postprocessedInThisRun
      ensures View(f) == SaveFinal(w, f, old(View(f)), out)
      ensures forall g | g != f :: View(g) == old(View(g))
    {
      match w.saveFinal(f, out) {
        case Saved =>
          finalTranscripts := finalTranscripts[f := out];
          assert forall g | g != f :: View(g) == old(View(g));
          UpdateStatus(f, Completed);
          postprocessedInThisRun := postprocessedInThisRun + {f};
          assert forall g | g != f :: View(g) == old(View(g));
        case NotWritten =>
          UpdateStatus(f, Failed);
        case Cut(left) =>
          finalTranscripts := finalTranscripts[f := left];
          UpdateStatus(f, Failed);
      }
    }

    method RunPostprocessingForFile(w: World, f: Name)
      modifies this
      ensures View(f) == PostTask(stage, w, f, old(View(f)))
      ensures forall g | g != f :: View(g) == old(View(g))
    {
      if stage == All && GetEntry(f).status != Transcribed {
        return;
      }
      var existing := LoadExistingTranscript(f);
      if existing.None? {
        if stage == PostprocessOnly {
          UpdateStatus(f, Failed);
        }
      } else if GetEntry(f).status in {Transcribed, Failed} {
        PostProcessAndSave(w, f, existing.value);
      }
    }

    /** One small step of a file's thread. */
    method AdvanceThread(w: World, f: Name, pc: Pc) returns (pc': Pc)
      requires pc != Finished
      modifies this
      ensures Job(pc', View(f)) == Advance(stage, w, f, Job(pc, old(View(f))))
      ensures forall g | g != f :: View(g) == old(View(g))
    {
      if pc.TQueued? || pc.TCalling? || pc.TReturned? {
        pc' := AdvanceTranscription(w, f, pc);
      } else if pc.TCounted? || pc.TSaveFailed? || pc.TWritten? {
        pc' := AdvanceRawSave(w, f, pc);
      } else if pc.TFinished? {
        pc' := if stage == All then PQueued else Finished;
      } else if pc.PQueued? || pc.PCalling? {
        pc' := AdvancePost(w, f, pc);
      } else {
        pc' := AdvanceFinalSave(w, f, pc);
      }
    }

    method AdvanceTranscription(w: World, f: Name, pc: Pc) returns (pc': Pc)
      requires pc.TQueued? || pc.TCalling? || pc.TReturned?
      modifies this`state, this`calls, this`transcribedInThisRun
      ensures Job(pc', View(f)) == Advance(stage, w, f, Job(pc, old(View(f))))
      ensures forall g | g != f :: View(g) == old(View(g))
    {
      match pc
      case TQueued =>
        if GetEntry(f).status == Preprocessed {
          return TCalling(true);
        }
        var existing := LoadExistingTranscript(f);
        return if existing.Some? then TFinished else TCalling(false);
      case TCalling(promote) =>
        match w.transcribe(f) {
          case None =>
            LogCall(f, TranscribeFailed);
            UpdateStatus(f, Failed);
            return TFinished;
          case Some(text) =>
            LogCall(f, TranscribeOk);
            return TReturned(text, promote);
        }
      case TReturned(text, promote) =>
        transcribedInThisRun := transcribedInThisRun + {f};
        return TCounted(text, promote);
    }

    method AdvanceRawSave(w: World, f: Name, pc: Pc) returns (pc': Pc)
      requires pc.TCounted? || pc.TSaveFailed? || pc.TWritten?
      modifies this`state, this`calls, this`rawTranscripts
      ensures Job(pc', View(f)) == Advance(stage, w, f, Job(pc, old(View(f))))
      ensures forall g | g != f :: View(g) == old(View(g))
    {
      match pc
      case TCounted(text, promote) =>
        match w.saveRaw(f, text) {
          case Saved =>
            rawTranscripts := rawTranscripts[f := text];
            return TWritten(promote);
          case NotWritten =>
            LogCall(f, SaveLost);
            return TSaveFailed(None);
          case Cut(left) =>
            rawTranscripts := rawTranscripts[f := left];
            return TSaveFailed(Some(left));
        }
      case TSaveFailed(_) =>
        UpdateStatus(f, Failed);
        return TFinished;
      case TWritten(promote) =>
        if promote {
          UpdateStatus(f, Transcribed);
        }
        return TFinished;
    }

    method AdvancePost(w: World, f: Name, pc: Pc) returns (pc': Pc)
      requires pc.PQueued? || pc.PCalling?
      modifies this`state, this`calls
      ensures Job(pc', View(f)) == Advance(stage, w, f, Job(pc, old(View(f))))
      ensures forall g | g != f :: View(g) == old(View(g))
    {
      match pc
      case PQueued =>
        if stage == All && GetEntry(f).status != Transcribed {
          return Finished;
        }
        var existing := LoadExistingTranscript(f);
        if existing.None? {
          if stage == PostprocessOnly {
            UpdateStatus(f, Failed);
          }
          return Finished;
        }
        return if GetEntry(f).status in {Transcribed, Failed} then PCalling(existing.value) else Finished;
      case PCalling(raw) =>
        LogCall(f, PostProcess);
        match w.post(f, raw) {
          case None =>
            UpdateStatus(f, Failed);
            return Finished;
          case Some(out) =>
            return PReturned(out);
        }
    }

    method AdvanceFinalSave(w: World, f: Name, pc: Pc) returns (pc': Pc)
      requires pc.PReturned? || pc.PSaveFailed? || pc.PWritten? || pc.PUpdated?
      modifies this`state, this`finalTranscripts, this`postprocessedInThisRun
      ensures Job(pc', View(f)) == Advance(stage, w, f, Job(pc, old(View(f))))
      ensures forall g | g != f :: View(g) == old(View(g))
    {
      match pc
      case PReturned(out) =>
        match w.saveFinal(f, out) {
          case Saved =>
            finalTranscripts := finalTranscripts[f := out];
            return PWritten;
          case NotWritten =>
            return PSaveFailed;
          case Cut(left) =>
            finalTranscripts := finalTranscripts[f := left];
            return PSaveFailed;
        }
      case PSaveFailed =>
        UpdateStatus(f, Failed);
        return Finished;
      case PWritten =>
        UpdateStatus(f, Completed);
        return PUpdated;
      case PUpdated =>
        postprocessedInThisRun := postprocessedInThisRun + {f};
        return Finished;
    }

    /** The threads' program counters and the records are those of the jobs. */
    ghost predicate Mirrors(pcs: map<Name, Pc>, jobs: map<Name, Job>)
      reads this
    {
      pcs.Keys == jobs.Keys && forall f | f in pcs :: jobs[f] == Job(pcs[f], View(f))
    }

    /** The pools at work: each thread stands where its job does, and every job is on its course. */
    ghost predicate AtWork(w: World, recs: map<Name, Record>, pcs: map<Name, Pc>, submitted: seq<Name>, p: Pools)
      reads this
    {
      Mirrors(pcs, p.jobs) && pcs.Keys == recs.Keys && p.submitted == submitted && OnCourse(stage, w, recs, p)
    }

    /** Runs the later phases of all prepared files in the thread pools, with the scheduler free to
        pick any thread the pools let run. It always ends, and always with the sequential result. */
    method RunPools(w: World, prepared: seq<Name>, tWorkers: int, pWorkers: int) returns (submitted: seq<Name>)
      requires tWorkers >= 1 && pWorkers >= 1
      modifies this
      ensures forall f | f in prepared :: View(f) == LaterTasks(stage, w, f, old(View(f)))
      ensures forall f | f !in prepared :: View(f) == old(View(f))
      ensures multiset(submitted) == if stage == All then multiset(set f | f in prepared) else multiset{}
    {
      ghost var recs := map f | f in prepared :: View(f);
      var pcs := map f | f in prepared :: StartPc(stage);
      StartIsOnCourse(stage, w, recs);
      assert recs.Keys == set f | f in prepared;
      submitted := Work(w, prepared, recs, tWorkers, pWorkers, pcs, Start(stage, recs));
    }

    /** Lets one thread after the other take a step until all have finished. */
    method Work(w: World, prepared: seq<Name>, ghost recs: map<Name, Record>, tWorkers: int, pWorkers: int,
                startPcs: map<Name, Pc>, ghost start: Pools)
      returns (submitted: seq<Name>)
      requires tWorkers >= 1 && pWorkers >= 1 && AtWork(w, recs, startPcs, [], start)
      requires forall f :: f in prepared <==> f in recs
      modifies this
      ensures forall f | f in recs :: View(f) == LaterTasks(stage, w, f, recs[f])
      ensures forall f | f !in recs :: View(f) == old(View(f))
      ensures multiset(submitted) == if stage == All then multiset(recs.Keys) else multiset{}
    {
      var pcs := startPcs;
      submitted := [];
      ghost var p := start;
      while exists f | f in prepared :: pcs[f] != Finished
        invariant pcs.Keys == recs.Keys && AtWork(w, recs, pcs, submitted, p)
        invariant forall f | f !in recs :: View(f) == old(View(f))
        decreases TotalRank(prepared, p.jobs)
      {
        pcs, submitted, p := LetOneRun(w, prepared, recs, tWorkers, pWorkers, pcs, submitted, p);
      }
      WorkIsDone(w, recs, pcs, submitted, p);
    }

    /** The scheduler lets one thread take one step. */
    method LetOneRun(w: World, ghost prepared: seq<Name>, ghost recs: map<Name, Record>, tWorkers: int, pWorkers: int,
                     pcs: map<Name, Pc>, submitted: seq<Name>, ghost p: Pools)
      returns (pcs': map<Name, Pc>, submitted': seq<Name>, ghost p': Pools)
      requires tWorkers >= 1 && pWorkers >= 1 && AtWork(w, recs, pcs, submitted, p)
      requires forall f :: f in prepared <==> f in recs
      requires exists f | f in pcs :: pcs[f] != Finished
      modifies this
      ensures AtWork(w, recs, pcs', submitted', p')
      ensures forall g | g !in recs :: View(g) == old(View(g))
      ensures TotalRank(prepared, p'.jobs) < TotalRank(prepared, p.jobs)
    {
      SomeThreadCanRun(pcs, tWorkers, pWorkers);
      var f :| f in pcs && CanRun(pcs, tWorkers, pWorkers, f);
      TotalRankDecreases(prepared, p.jobs, f, Advance(stage, w, f, p.jobs[f]));
      NextIsOnCourse(stage, w, recs, p, f);
      pcs', submitted', p' := StepThread(w, pcs, submitted, p, f);
    }

    lemma WorkIsDone(w: World, recs: map<Name, Record>, pcs: map<Name, Pc>, submitted: seq<Name>, p: Pools)
      requires AtWork(w, recs, pcs, submitted, p) && forall f | f in pcs :: pcs[f] == Finished
      ensures forall f | f in recs :: View(f) == LaterTasks(stage, w, f, recs[f])
      ensures multiset(submitted) == if stage == All then multiset(recs.Keys) else multiset{}
    {
      assert AllFinished(p);
      FinishedSubmissions(stage, w, recs, p);
      forall f | f in recs ensures View(f) == LaterTasks(stage, w, f, recs[f]) {
        assert f in pcs;
        FinishedJob(stage, w, recs, p, f);
      }
    }

    method StepThread(w: World, pcs: map<Name, Pc>, submitted: seq<Name>, ghost p: Pools, f: Name)
      returns (pcs': map<Name, Pc>, submitted': seq<Name>, ghost p': Pools)
      requires Mirrors(pcs, p.jobs) && p.submitted == submitted
      requires f in pcs && pcs[f] != Finished
      modifies this
      ensures Mirrors(pcs', p'.jobs) && p'.submitted == submitted' && pcs'.Keys == pcs.Keys
      ensures p' == Next(stage, w, p, f)
      ensures forall g | g !in pcs :: View(g) == old(View(g))
    {
      p' := Next(stage, w, p, f);
      submitted' := if stage == All && pcs[f] == TFinished then submitted + [f] else submitted;
      var pc' := AdvanceThread(w, f, pcs[f]);
      pcs' := pcs[f := pc'];
    }

    /** A queued thread needs a free worker of its pool. */
    static predicate CanRun(pcs: map<Name, Pc>, tWorkers: int, pWorkers: int, f: Name)
      requires f in pcs
    {
      pcs[f] != Finished
      && (pcs[f] == TQueued ==> |set g | g in pcs && 6 <= Rank(pcs[g]) <= 10| < tWorkers)
      && (pcs[f] == PQueued ==> |set g | g in pcs && 1 <= Rank(pcs[g]) <= 4| < pWorkers)
    }

    static lemma SomeThreadCanRun(pcs: map<Name, Pc>, tWorkers: int, pWorkers: int)
      requires tWorkers >= 1 && pWorkers >= 1
      requires exists f | f in pcs :: pcs[f] != Finished
      ensures exists f | f in pcs :: CanRun(pcs, tWorkers, pWorkers, f)
    {
      var p := Pools(map f | f in pcs :: Job(pcs[f], FRESH), []);
      var f :| f in pcs && pcs[f] != Finished;
      assert p.jobs[f].pc != Finished;
      SomeJobIsEnabled(p, tWorkers, pWorkers);
      var g :| Enabled(p, tWorkers, pWorkers, g);
      assert (set h | h in pcs && 6 <= Rank(pcs[h]) <= 10) == TranscriptionsRunning(p.jobs);
      assert (set h | h in pcs && 1 <= Rank(pcs[h]) <= 4) == PostProcessesRunning(p.jobs);
      assert CanRun(pcs, tWorkers, pWorkers, g);
    }

    /** Phase 1: prepares every file and keeps those that go on, in order. */
    method PrepareAll(w: World, files: seq<Name>) returns (prepared: seq<Name>)
      requires Distinct(files)
      modifies this
      ensures Distinct(prepared)
      ensures forall f :: f in prepared <==> f in files && PrepareTask(stage, w, f, old(View(f))).ready
      ensures forall f | f in files :: View(f) == PrepareTask(stage, w, f, old(View(f))).rec
      ensures forall f | f !in files :: View(f) == old(View(f))
    {
      prepared := [];
      for i := 0 to |files|
        invariant Distinct(prepared)
        invariant forall f :: f in prepared <==> f in files[..i] && PrepareTask(stage, w, f, old(View(f))).ready
        invariant forall f | f in files[..i] :: View(f) == PrepareTask(stage, w, f, old(View(f))).rec
        invariant forall f | f !in files[..i] :: View(f) == old(View(f))
      {
        assert files[..i + 1] == files[..i] + [files[i]];
        assert files[i] !in files[..i];
        var ready := PrepareAndPreprocessFile(w, files[i]);
        if ready {
          prepared := prepared + [files[i]];
        }
      }
      assert files[..|files|] == files;
    }

    method TranscribeInOrder(w: World, prepared: seq<Name>)
      requires Distinct(prepared)
      modifies this
      ensures forall f | f in prepared :: View(f) == TranscribeTask(stage, w, f, old(View(f)))
      ensures forall f | f !in prepared :: View(f) == old(View(f))
    {
      for i := 0 to |prepared|
        invariant forall f | f in prepared[..i] :: View(f) == TranscribeTask(stage, w, f, old(View(f)))
        invariant forall f | f !in prepared[..i] :: View(f) == old(View(f))
      {
        assert prepared[..i + 1] == prepared[..i] + [prepared[i]];
        assert prepared[i] !in prepared[..i];
        RunTranscriptionForFile(w, prepared[i]);
      }
      assert prepared[..|prepared|] == prepared;
    }

    method PostprocessInOrder(w: World, prepared: seq<Name>)
      requires Distinct(prepared)
      modifies this
      ensures forall f | f in prepared :: View(f) == PostTask(stage, w, f, old(View(f)))
      ensures forall f | f !in prepared :: View(f) == old(View(f))
    {
      for i := 0 to |prepared|
        invariant forall f | f in prepared[..i] :: View(f) == PostTask(stage, w, f, old(View(f)))
        invariant forall f | f !in prepared[..i] :: View(f) == old(View(f))
      {
        assert prepared[..i + 1] == prepared[..i] + [prepared[i]];
        assert prepared[i] !in prepared[..i];
        RunPostprocessingForFile(w, prepared[i]);
      }
      assert prepared[..|prepared|] == prepared;
    }

    /** Phases 2 and 3: fails, having done nothing, only when a pool is asked for without workers. */
    method RunPrepared(w: World, prepared: seq<Name>) returns (ok: bool)
      requires Distinct(prepared)
      modifies this
      ensures ok ==> forall f | f in prepared :: View(f) == LaterTasks(stage, w, f, old(View(f)))
      ensures !ok ==> forall f | f in prepared :: View(f) == old(View(f))
      ensures forall f | f !in prepared :: View(f) == old(View(f))
      ensures !ok <==> stage == All && (transcriptionWorkers < 1 || postprocessingWorkers < 1)
                       && prepared != []
                       && (|prepared| > 1 || transcriptionWorkers > 1 || postprocessingWorkers > 1)
    {
      ok := true;
      match stage {
      case TranscribeOnly =>
        if transcriptionWorkers > 1 && |prepared| > 1 {
          var _ := RunPools(w, prepared, transcriptionWorkers, 1);
        } else {
          TranscribeInOrder(w, prepared);
        }
      case PostprocessOnly =>
        if postprocessingWorkers > 1 && |prepared| > 1 {
          var _ := RunPools(w, prepared, 1, postprocessingWorkers);
        } else {
          PostprocessInOrder(w, prepared);
        }
      case All =>
        if prepared == [] || (transcriptionWorkers <= 1 && postprocessingWorkers <= 1 && |prepared| <= 1) {
          TranscribeInOrder(w, prepared);
          PostprocessInOrder(w, prepared);
        } else if transcriptionWorkers < 1 || postprocessingWorkers < 1 {
          return false;
        } else {
          var _ := RunPools(w, prepared, transcriptionWorkers, postprocessingWorkers);
        }
      }
    }

    /** One run over the discovered files: every file ends as the sequential order of its tasks says. */
    method Run(w: World, files: seq<Name>) returns (ok: bool)
      requires Distinct(files)
      modifies this
      ensures ok ==> forall f | f in files :: View(f) == RunFile(stage, w, f, old(View(f)))
      ensures !ok ==> forall f | f in files :: View(f) == PrepareTask(stage, w, f, BeginRun(old(View(f)))).rec
      ensures forall f | f !in files :: View(f) == BeginRun(old(View(f)))
      ensures transcriptionWorkers >= 1 && postprocessingWorkers >= 1 ==> ok
    {
      transcribedInThisRun, postprocessedInThisRun := {}, {};
      assert forall f :: View(f) == BeginRun(old(View(f)));
      var prepared := PrepareAll(w, files);
      ok := RunPrepared(w, prepared);
    }

    static predicate Distinct(names: seq<Name>) {
      forall i, j | 0 <= i < j < |names| :: names[i] != names[j]
    }
  }
}
