/** The transcription pipeline of podscribe: what each task of a run does to one audio file,
    what every sequence of runs keeps, and why the two concurrent thread pools of stage "all"
    end where the sequential order ends. */
module Podscribe {
  import opened Options

  type Name = string
  type Hash = string
  type Text = string

  datatype Stage = All | TranscribeOnly | PostprocessOnly

  datatype Status = New | Preprocessed | Transcribed | Completed | Failed

  /** The part of a state.json entry that steers the pipeline. */
  datatype Entry = Entry(hash: Hash, status: Status, preprocessedPath: bool)

  const DEFAULT_ENTRY := Entry("", New, false)

  /** An external call, as the outside world sees it; `SaveLost` is an answer of the transcriber that
      could not be written to disk. */
  datatype Call = Duration | Preprocess | TranscribeOk | TranscribeFailed | SaveLost | PostProcess

  /** Everything the orchestrator and its output directory hold about one file: its state entry, the
      raw and final transcripts on disk, its membership of the two in-run sets, and the calls made. */
  datatype Record = Record(entry: Entry, raw: Option<Text>, final: Option<Text>,
                           transcribedNow: bool, postprocessedNow: bool, calls: seq<Call>)

  const FRESH := Record(DEFAULT_ENTRY, None, None, false, false, [])

  /** Writing a transcript: it is on disk, the file could not be opened, or the write broke off and
      left a part of the text behind. */
  datatype Save = Saved | NotWritten | Cut(left: Text)

  /** What the outside answers during one run: file hashes (None is a read error), the duration probe,
      the preprocessor, whether the preprocessed file has vanished, the transcriber and the
      post-processor (None is a raised exception), and how the writes of transcripts end. */
  datatype World = World(hash: Name -> Option<Hash>, durationOk: Name -> bool, preprocessOk: Name -> bool,
                         missing: Name -> bool, transcribe: Name -> Option<Text>, saveRaw: (Name, Text) -> Save,
                         post: (Name, Text) -> Option<Text>, saveFinal: (Name, Text) -> Save)

  // ---------- The three tasks, as functions on the record of one file ----------

  function SetStatus(r: Record, s: Status): Record { r.(entry := r.entry.(status := s)) }

  function Log(r: Record, c: Call): Record { r.(calls := r.calls + [c]) }

  predicate ShouldSkip(stage: Stage, e: Entry, h: Hash) {
    e.hash == h &&
    match stage
    case All => e.status == Completed
    case TranscribeOnly => e.status == Transcribed || e.status == Completed
    case PostprocessOnly => e.status == Completed
  }

  /** `_load_existing_transcript` when the raw transcript exists. */
  function Promote(r: Record): Record {
    if r.entry.status in {New, Preprocessed, Failed} then SetStatus(r, Transcribed) else r
  }

  /** The record after preparation, and whether the file goes on to the later phases. */
  datatype Prepared = Prepared(rec: Record, ready: bool)

  function PrepareTask(stage: Stage, w: World, f: Name, r: Record): Prepared {
    match w.hash(f)
    case None => Prepared(r, false)
    case Some(h) =>
      if ShouldSkip(stage, r.entry, h) then Prepared(r, false)
      else ProbeTask(stage, w, f, ResetIfChanged(r, h))
  }

  /** A changed file starts afresh; its raw transcript stays on disk. */
  function ResetIfChanged(r: Record, h: Hash): Record {
    if r.entry.hash != h then r.(entry := Entry(h, New, false)) else r
  }

  function ProbeTask(stage: Stage, w: World, f: Name, r: Record): Prepared {
    if stage == PostprocessOnly then Prepared(r, true)
    else if r.entry.status in {Transcribed, Completed} then PreprocessTask(w, f, r)
    else if w.durationOk(f) then PreprocessTask(w, f, Log(r, Duration))
    else Prepared(Log(r, Duration), false)
  }

  function PreprocessTask(w: World, f: Name, r: Record): Prepared {
    if r.entry.status in {New, Failed} && r.raw.None? then
      if w.preprocessOk(f)
      then Prepared(Log(r, Preprocess).(entry := Entry(r.entry.hash, Preprocessed, true)), true)
      else Prepared(SetStatus(Log(r, Preprocess), Failed), false)
    else
      var r1 := if r.entry.status in {New, Failed} then Promote(r) else r;
      if r1.entry.preprocessedPath && w.missing(f)
      then Prepared(Log(r1, Preprocess), w.preprocessOk(f))
      else Prepared(r1, true)
  }

  /** The record after each step of the preparation, which may be killed behind any of them. */
  function PrepareSteps(stage: Stage, w: World, f: Name, r: Record): (steps: seq<Record>)
    ensures steps != []
  {
    if w.hash(f).None? || ShouldSkip(stage, r.entry, w.hash(f).value) then [r]
    else [r] + ProbeSteps(stage, w, f, ResetIfChanged(r, w.hash(f).value))
  }

  function ProbeSteps(stage: Stage, w: World, f: Name, r: Record): (steps: seq<Record>)
    ensures steps != []
  {
    if stage == PostprocessOnly then [r]
    else if r.entry.status in {Transcribed, Completed} then [r] + PreprocessSteps(w, f, r)
    else if w.durationOk(f) then [r, Log(r, Duration)] + PreprocessSteps(w, f, Log(r, Duration))
    else [r, Log(r, Duration)]
  }

  function PreprocessSteps(w: World, f: Name, r: Record): (steps: seq<Record>)
    ensures steps != []
  {
    if r.entry.status in {New, Failed} && r.raw.None? then [Log(r, Preprocess), PreprocessTask(w, f, r).rec]
    else
      var r1 := if r.entry.status in {New, Failed} then Promote(r) else r;
      if r1.entry.preprocessedPath && w.missing(f) then [r1, Log(r1, Preprocess)] else [r1]
  }

  /** Unkilled, it ends where the task ends. */
  lemma PrepareStepsEnd(stage: Stage, w: World, f: Name, r: Record)
    ensures var steps := PrepareSteps(stage, w, f, r);
            steps[|steps| - 1] == PrepareTask(stage, w, f, r).rec
  {
  }

  function TranscribeCall(w: World, f: Name, r: Record, promote: bool): Record {
    match w.transcribe(f)
    case None => SetStatus(Log(r, TranscribeFailed), Failed)
    case Some(t) => SaveRaw(w, f, Log(r, TranscribeOk).(transcribedNow := true), t, promote)
  }

  function SaveRaw(w: World, f: Name, r: Record, t: Text, promote: bool): Record {
    match w.saveRaw(f, t)
    case Saved => if promote then SetStatus(r.(raw := Some(t)), Transcribed) else r.(raw := Some(t))
    case NotWritten => SetStatus(Log(r, SaveLost), Failed)
    case Cut(left) => SetStatus(r.(raw := Some(left)), Failed)
  }

  function TranscribeTask(stage: Stage, w: World, f: Name, r: Record): Record {
    if stage == PostprocessOnly then r
    else if r.entry.status == Preprocessed then TranscribeCall(w, f, r, true)
    else if r.raw.Some? then Promote(r)
    else TranscribeCall(w, f, r, false)
  }

  function PostProcessCall(w: World, f: Name, r: Record, raw: Text): Record {
    match w.post(f, raw)
    case None => SetStatus(Log(r, PostProcess), Failed)
    case Some(out) => SaveFinal(w, f, Log(r, PostProcess), out)
  }

  function SaveFinal(w: World, f: Name, r: Record, out: Text): Record {
    match w.saveFinal(f, out)
    case Saved => SetStatus(r.(final := Some(out)), Completed).(postprocessedNow := true)
    case NotWritten => SetStatus(r, Failed)
    case Cut(left) => SetStatus(r.(final := Some(left)), Failed)
  }

  function PostTask(stage: Stage, w: World, f: Name, r: Record): Record {
    if stage == All && r.entry.status != Transcribed then r
    else match r.raw
      case None => if stage == PostprocessOnly then SetStatus(r, Failed) else r
      case Some(t) =>
        var r1 := Promote(r);
        if r1.entry.status in {Transcribed, Failed} then PostProcessCall(w, f, r1, t) else r1
  }

  function LaterTasks(stage: Stage, w: World, f: Name, r: Record): Record {
    match stage
    case All => PostTask(stage, w, f, TranscribeTask(stage, w, f, r))
    case TranscribeOnly => TranscribeTask(stage, w, f, r)
    case PostprocessOnly => PostTask(stage, w, f, r)
  }

  function BeginRun(r: Record): Record { r.(transcribedNow := false, postprocessedNow := false) }

  /** What one whole run does to a discovered file. */
  function RunFile(stage: Stage, w: World, f: Name, r: Record): Record {
    var p := PrepareTask(stage, w, f, BeginRun(r));
    if p.ready then LaterTasks(stage, w, f, p.rec) else p.rec
  }

  // ---------- What every sequence of tasks keeps ----------

  function Transcriptions(calls: seq<Call>): nat { multiset(calls)[TranscribeOk] }

  function Lost(calls: seq<Call>): nat { multiset(calls)[SaveLost] }

  /** The answers of the transcriber that were not lost. */
  function Kept(r: Record): int { Transcriptions(r.calls) - Lost(r.calls) }

  lemma LogCounts(r: Record, c: Call)
    ensures Transcriptions(Log(r, c).calls) == Transcriptions(r.calls) + if c == TranscribeOk then 1 else 0
    ensures Lost(Log(r, c).calls) == Lost(r.calls) + if c == SaveLost then 1 else 0
  {
  }

  predicate SameCounts(r: Record, r': Record) {
    Transcriptions(r'.calls) == Transcriptions(r.calls) && Lost(r'.calls) == Lost(r.calls)
  }

  lemma PreprocessCounts(w: World, f: Name, r: Record)
    ensures SameCounts(r, PreprocessTask(w, f, r).rec)
  {
    LogCounts(r, Preprocess);
    assert Log(Promote(r), Preprocess).calls == Log(r, Preprocess).calls;
  }

  /** Preparing neither calls the transcriber nor saves what it said. */
  lemma PrepareCounts(stage: Stage, w: World, f: Name, r: Record)
    ensures SameCounts(r, PrepareTask(stage, w, f, r).rec)
  {
    if w.hash(f).Some? {
      var r1 := ResetIfChanged(r, w.hash(f).value);
      LogCounts(r1, Duration);
      PreprocessCounts(w, f, r1);
      PreprocessCounts(w, f, Log(r1, Duration));
    }
  }

  predicate AllSameCounts(r: Record, steps: seq<Record>) { forall k | 0 <= k < |steps| :: SameCounts(r, steps[k]) }

  lemma PreprocessStepsCount(w: World, f: Name, r: Record)
    ensures AllSameCounts(r, PreprocessSteps(w, f, r))
  {
    PreprocessCounts(w, f, r);
    LogCounts(r, Preprocess);
    assert Log(Promote(r), Preprocess).calls == Log(r, Preprocess).calls;
  }

  lemma PrepareStepsCount(stage: Stage, w: World, f: Name, r: Record)
    ensures AllSameCounts(r, PrepareSteps(stage, w, f, r))
  {
    if w.hash(f).Some? {
      var r1 := ResetIfChanged(r, w.hash(f).value);
      LogCounts(r1, Duration);
      PreprocessStepsCount(w, f, r1);
      PreprocessStepsCount(w, f, Log(r1, Duration));
    }
  }

  /** Nor does post-processing. */
  lemma PostCounts(stage: Stage, w: World, f: Name, r: Record)
    ensures SameCounts(r, PostTask(stage, w, f, r))
  {
    LogCounts(r, PostProcess);
    assert Log(Promote(r), PostProcess).calls == Log(r, PostProcess).calls;
  }

  /** The invariant: a raw transcript on disk means the file is not waiting to be transcribed, a
      transcribed or completed file has its transcripts, and of the transcriber's answers as many
      have been kept as there are raw transcripts. */
  ghost predicate Sound(r: Record) {
    && (r.raw.Some? ==> r.entry.status != Preprocessed)
    && (r.entry.status in {Transcribed, Completed} ==> r.raw.Some?)
    && (r.entry.status == Completed ==> r.final.Some?)
    && Kept(r) == (if r.raw.Some? then 1 else 0)
  }

  lemma LogKeepsSound(r: Record, c: Call)
    requires Sound(r) && c !in {TranscribeOk, SaveLost}
    ensures Sound(Log(r, c))
  {
    LogCounts(r, c);
  }

  lemma PromoteKeepsSound(r: Record)
    requires Sound(r) && r.raw.Some?
    ensures Sound(Promote(r))
  {
  }

  lemma PreprocessKeepsSound(w: World, f: Name, r: Record)
    requires Sound(r)
    ensures Sound(PreprocessTask(w, f, r).rec)
    ensures PreprocessTask(w, f, r).rec.raw == r.raw
  {
    PreprocessCounts(w, f, r);
    PreprocessKeepsTexts(w, f, r);
  }

  lemma ProbeKeepsSound(stage: Stage, w: World, f: Name, r: Record)
    requires Sound(r)
    ensures Sound(ProbeTask(stage, w, f, r).rec)
    ensures ProbeTask(stage, w, f, r).rec.raw == r.raw
  {
    LogKeepsSound(r, Duration);
    PreprocessKeepsSound(w, f, r);
    PreprocessKeepsSound(w, f, Log(r, Duration));
  }

  lemma PreprocessStepsAreSound(w: World, f: Name, r: Record)
    requires Sound(r)
    ensures AllSound(PreprocessSteps(w, f, r), r.raw)
  {
    PreprocessKeepsSound(w, f, r);
    LogKeepsSound(r, Preprocess);
    if r.raw.Some? {
      PromoteKeepsSound(r);
      LogKeepsSound(Promote(r), Preprocess);
    }
  }

  ghost predicate AllSound(steps: seq<Record>, raw: Option<Text>) {
    forall k | 0 <= k < |steps| :: Sound(steps[k]) && steps[k].raw == raw
  }

  /** Killed behind any step, the preparation leaves a sound record with the raw transcript it had. */
  lemma PrepareStepsAreSound(stage: Stage, w: World, f: Name, r: Record)
    requires Sound(r)
    ensures AllSound(PrepareSteps(stage, w, f, r), r.raw)
  {
    if w.hash(f).Some? {
      var r1 := ResetIfChanged(r, w.hash(f).value);
      assert Sound(r1) && r1.raw == r.raw;
      LogKeepsSound(r1, Duration);
      PreprocessStepsAreSound(w, f, r1);
      PreprocessStepsAreSound(w, f, Log(r1, Duration));
    }
  }

  lemma PrepareKeepsSound(stage: Stage, w: World, f: Name, r: Record)
    requires Sound(r)
    ensures Sound(PrepareTask(stage, w, f, r).rec)
    ensures PrepareTask(stage, w, f, r).rec.raw == r.raw
  {
    if w.hash(f).Some? {
      var r1 := ResetIfChanged(r, w.hash(f).value);
      assert Sound(r1) && r1.raw == r.raw;
      ProbeKeepsSound(stage, w, f, r1);
    }
  }

  lemma TranscribeCallKeepsSound(w: World, f: Name, r: Record, promote: bool)
    requires Sound(r) && r.raw.None? && (!promote ==> r.entry.status != Preprocessed)
    ensures Sound(TranscribeCall(w, f, r, promote))
  {
    match w.transcribe(f)
    case None => LogKeepsSound(r, TranscribeFailed);
    case Some(t) =>
      LogCounts(r, TranscribeOk);
      SaveRawKeepsSound(w, f, Log(r, TranscribeOk).(transcribedNow := true), t, promote);
  }

  lemma SaveRawKeepsSound(w: World, f: Name, r: Record, t: Text, promote: bool)
    requires r.raw.None? && Kept(r) == 1 && r.entry.status !in {Transcribed, Completed}
    requires !promote ==> r.entry.status != Preprocessed
    ensures Sound(SaveRaw(w, f, r, t, promote))
  {
    LogCounts(r, SaveLost);
  }

  lemma TranscribeKeepsSound(stage: Stage, w: World, f: Name, r: Record)
    requires Sound(r)
    ensures Sound(TranscribeTask(stage, w, f, r))
    ensures r.raw.Some? ==> TranscribeTask(stage, w, f, r).raw == r.raw
  {
    if r.raw.None? {
      TranscribeCallKeepsSound(w, f, r, r.entry.status == Preprocessed);
    }
  }

  lemma PostKeepsSound(stage: Stage, w: World, f: Name, r: Record)
    requires Sound(r)
    ensures Sound(PostTask(stage, w, f, r))
    ensures PostTask(stage, w, f, r).raw == r.raw
  {
    PostCounts(stage, w, f, r);
    PostKeepsRaw(stage, w, f, r);
  }

  lemma PostKeepsRaw(stage: Stage, w: World, f: Name, r: Record)
    ensures PostTask(stage, w, f, r).raw == r.raw
  {
  }

  /** A step of a file's life. Tasks may come in any order and from any stage, so that runs cut short
      between two tasks are included. `KilledPrepare` is a run killed within a preparation, and `StateLost`
      is a state.json that was corrupt when loaded. */
  datatype Event =
    | Begin
    | Prepare(stage: Stage, world: World)
    | KilledPrepare(stage: Stage, world: World, step: nat)
    | Transcribe(stage: Stage, world: World)
    | Post(stage: Stage, world: World)
    | StateLost

  function Apply(f: Name, r: Record, e: Event): Record {
    match e
    case Begin => BeginRun(r)
    case Prepare(stage, w) => PrepareTask(stage, w, f, r).rec
    case KilledPrepare(stage, w, step) =>
      var steps := PrepareSteps(stage, w, f, r);
      if step < |steps| then steps[step] else r
    case Transcribe(stage, w) => TranscribeTask(stage, w, f, r)
    case Post(stage, w) => PostTask(stage, w, f, r)
    case StateLost => r.(entry := DEFAULT_ENTRY)
  }

  function Life(f: Name, r: Record, events: seq<Event>): Record
    decreases |events|
  {
    if events == [] then r else Life(f, Apply(f, r, events[0]), events[1..])
  }

  /** The invariant holds through any life, and a raw transcript, once written, is never replaced:
      neither by a later run nor because the audio file changed. */
  lemma {:induction false} LifeKeepsSound(f: Name, r: Record, events: seq<Event>)
    requires Sound(r)
    ensures Sound(Life(f, r, events))
    ensures r.raw.Some? ==> Life(f, r, events).raw == r.raw
    decreases |events|
  {
    if events != [] {
      match events[0] {
        case Begin =>
        case Prepare(stage, w) => PrepareKeepsSound(stage, w, f, r);
        case KilledPrepare(stage, w, step) => PrepareStepsAreSound(stage, w, f, r);
        case Transcribe(stage, w) => TranscribeKeepsSound(stage, w, f, r);
        case Post(stage, w) => PostKeepsSound(stage, w, f, r);
        case StateLost =>
      }
      LifeKeepsSound(f, Apply(f, r, events[0]), events[1..]);
    }
  }

  /** Over any life of a file, the transcriber answers once for its raw transcript and once for each
      answer that could not be written: at most once exactly when that makes one. */
  lemma TranscribedAtMostOnce(f: Name, events: seq<Event>)
    ensures var r := Life(f, FRESH, events);
            && Transcriptions(r.calls) == Lost(r.calls) + (if r.raw.Some? then 1 else 0)
            && (Transcriptions(r.calls) <= 1 <==> Lost(r.calls) == 0 || (Lost(r.calls) == 1 && r.raw.None?))
    ensures NoSaveIsLost(f, events) ==> Transcriptions(Life(f, FRESH, events).calls) <= 1
  {
    LifeKeepsSound(f, FRESH, events);
    if NoSaveIsLost(f, events) {
      NothingLost(f, FRESH, events);
    }
  }

  ghost predicate NoSaveIsLost(f: Name, events: seq<Event>) {
    forall e | e in events && e.Transcribe? :: forall t :: e.world.saveRaw(f, t) != NotWritten
  }

  lemma {:induction false} NothingLost(f: Name, r: Record, events: seq<Event>)
    requires NoSaveIsLost(f, events)
    ensures Lost(Life(f, r, events).calls) == Lost(r.calls)
    decreases |events|
  {
    if events != [] {
      assert events[0] in events;
      LosesNothing(f, r, events[0]);
      NothingLost(f, Apply(f, r, events[0]), events[1..]);
    }
  }

  lemma WrittenTranscription(stage: Stage, w: World, f: Name, r: Record)
    requires forall t :: w.saveRaw(f, t) != NotWritten
    ensures Lost(TranscribeTask(stage, w, f, r).calls) == Lost(r.calls)
  {
    LogCounts(r, TranscribeFailed);
    LogCounts(r, TranscribeOk);
  }

  lemma LosesNothing(f: Name, r: Record, e: Event)
    requires e.Transcribe? ==> forall t :: e.world.saveRaw(f, t) != NotWritten
    ensures Lost(Apply(f, r, e).calls) == Lost(r.calls)
  {
    match e
    case Begin =>
    case Prepare(stage, w) => PrepareCounts(stage, w, f, r);
    case KilledPrepare(stage, w, step) => PrepareStepsCount(stage, w, f, r);
    case Transcribe(stage, w) => WrittenTranscription(stage, w, f, r);
    case Post(stage, w) => PostCounts(stage, w, f, r);
    case StateLost =>
  }

  /** A run killed within a preparation makes no later life keep a second answer. */
  lemma KilledPreparationIsSafe(stage: Stage, w: World, f: Name, r: Record, step: nat, later: seq<Event>)
    requires Sound(r)
    ensures var killed := Apply(f, r, KilledPrepare(stage, w, step));
            Sound(killed) && killed.raw == r.raw && Kept(Life(f, killed, later)) <= 1
  {
    PrepareStepsAreSound(stage, w, f, r);
    LifeKeepsSound(f, Apply(f, r, KilledPrepare(stage, w, step)), later);
  }

  /** Whole runs are lives. */
  function RunEvents(stage: Stage, w: World, f: Name, r: Record): seq<Event> {
    [Begin, Prepare(stage, w)] +
    if !PrepareTask(stage, w, f, BeginRun(r)).ready then []
    else match stage
      case All => [Transcribe(stage, w), Post(stage, w)]
      case TranscribeOnly => [Transcribe(stage, w)]
      case PostprocessOnly => [Post(stage, w)]
  }

  lemma LifeConcat(f: Name, r: Record, a: seq<Event>, b: seq<Event>)
    ensures Life(f, r, a + b) == Life(f, Life(f, r, a), b)
    decreases |a|
  {
    if a == [] {
      assert a + b == b;
    } else {
      assert (a + b)[1..] == a[1..] + b;
      LifeConcat(f, Apply(f, r, a[0]), a[1..], b);
    }
  }

  lemma ShortLives(f: Name, r: Record, e1: Event, e2: Event)
    ensures Life(f, r, [e1]) == Apply(f, r, e1)
    ensures Life(f, r, [e1, e2]) == Apply(f, Apply(f, r, e1), e2)
  {
    assert [e1][1..] == [] && [e1, e2][1..] == [e2] && [e2][1..] == [];
    assert Life(f, Apply(f, r, e1), [e2]) == Apply(f, Apply(f, r, e1), e2);
  }

  lemma RunIsLife(stage: Stage, w: World, f: Name, r: Record)
    ensures RunFile(stage, w, f, r) == Life(f, r, RunEvents(stage, w, f, r))
  {
    var p := PrepareTask(stage, w, f, BeginRun(r));
    var head, tail := [Begin, Prepare(stage, w)], RunEvents(stage, w, f, r)[2..];
    assert RunEvents(stage, w, f, r) == head + tail;
    LifeConcat(f, r, head, tail);
    ShortLives(f, r, Begin, Prepare(stage, w));
    ShortLives(f, p.rec, Transcribe(stage, w), Post(stage, w));
    ShortLives(f, p.rec, Post(stage, w), Begin);
  }

  lemma RunKeepsSound(stage: Stage, w: World, f: Name, r: Record)
    requires Sound(r)
    ensures Sound(RunFile(stage, w, f, r))
    ensures r.raw.Some? ==> RunFile(stage, w, f, r).raw == r.raw
  {
    RunIsLife(stage, w, f, r);
    LifeKeepsSound(f, r, RunEvents(stage, w, f, r));
  }

  /** A completed file is left untouched, and no call is made for it, exactly until its hash differs. */
  lemma CompletedIsLeftOnlyByHashChange(stage: Stage, w: World, f: Name, r: Record)
    requires r.entry.status == Completed
    ensures RunFile(stage, w, f, r) == BeginRun(r) <==> w.hash(f) in {None, Some(r.entry.hash)}
  {
    var p := PrepareTask(stage, w, f, BeginRun(r));
    if w.hash(f) in {None, Some(r.entry.hash)} {
      assert p == Prepared(BeginRun(r), false);
    } else {
      assert p.rec.entry.hash == w.hash(f).value;
      LaterTasksKeepHash(stage, w, f, p.rec);
    }
  }

  lemma LaterTasksKeepHash(stage: Stage, w: World, f: Name, r: Record)
    ensures LaterTasks(stage, w, f, r).entry.hash == r.entry.hash
  {
    TranscribeKeepsHash(stage, w, f, r);
    PostKeepsHash(stage, w, f, r);
    PostKeepsHash(stage, w, f, TranscribeTask(stage, w, f, r));
  }

  lemma TranscribeKeepsHash(stage: Stage, w: World, f: Name, r: Record)
    ensures TranscribeTask(stage, w, f, r).entry.hash == r.entry.hash
  {
  }

  lemma PostKeepsHash(stage: Stage, w: World, f: Name, r: Record)
    ensures PostTask(stage, w, f, r).entry.hash == r.entry.hash
  {
  }

  /** Everything a run of stage "all" asks of the outside succeeds. */
  ghost predicate AllSucceed(w: World, f: Name) {
    && w.hash(f).Some? && w.durationOk(f) && w.preprocessOk(f) && w.transcribe(f).Some?
    && forall t :: w.post(f, t).Some? && w.saveRaw(f, t) == Saved && w.saveFinal(f, t) == Saved
  }

  /** A run of stage "all" whose calls all succeed completes the file, whatever state earlier runs
      left it in: from its raw transcript, if it has one, and otherwise from what the transcriber
      says now. */
  lemma SuccessfulRunCompletes(w: World, f: Name, r: Record)
    requires Sound(r) && AllSucceed(w, f)
    ensures var r' := RunFile(All, w, f, r);
            && r'.entry.status == Completed && r'.entry.hash == w.hash(f).value
            && r'.raw == (if r.raw.Some? then r.raw else w.transcribe(f))
            && r'.transcribedNow == r.raw.None?
            && Transcriptions(r'.calls) == Transcriptions(r.calls) + (if r.raw.Some? then 0 else 1)
            && r'.postprocessedNow == !ShouldSkip(All, r.entry, w.hash(f).value)
            && r'.final == if r'.postprocessedNow then w.post(f, r'.raw.value) else r.final
  {
    var p := PrepareTask(All, w, f, BeginRun(r));
    SuccessfulPrepare(w, f, BeginRun(r));
    PrepareKeepsTexts(All, w, f, BeginRun(r));
    PrepareCounts(All, w, f, BeginRun(r));
    if p.ready {
      SuccessfulTranscription(w, f, p.rec);
      SuccessfulPost(w, f, TranscribeTask(All, w, f, p.rec));
    }
  }

  /** A changed audio file is completed from its current contents exactly when no raw transcript of
      older contents is left on disk. */
  lemma ChangedFileKeepsOldTranscript(w: World, f: Name, r: Record)
    requires Sound(r) && AllSucceed(w, f) && w.hash(f).value != r.entry.hash
    ensures var r' := RunFile(All, w, f, r);
            && r'.entry.status == Completed && r'.entry.hash == w.hash(f).value
            && (r'.transcribedNow <==> r.raw.None?)
            && (r'.raw == w.transcribe(f) <==> r.raw.None? || r.raw == w.transcribe(f))
            && r'.final == w.post(f, if r.raw.Some? then r.raw.value else w.transcribe(f).value)
  {
    SuccessfulRunCompletes(w, f, r);
  }

  lemma SuccessfulPrepare(w: World, f: Name, r: Record)
    requires Sound(r)
    requires w.hash(f).Some? && w.durationOk(f) && w.preprocessOk(f)
    ensures var p := PrepareTask(All, w, f, r);
            && p.ready == !ShouldSkip(All, r.entry, w.hash(f).value)
            && p.rec.entry.hash == w.hash(f).value
            && (p.ready ==> p.rec.entry.status == if r.raw.Some? then Transcribed else Preprocessed)
  {
  }

  /** Preparing touches neither transcripts nor the in-run sets. */
  lemma PrepareKeepsTexts(stage: Stage, w: World, f: Name, r: Record)
    ensures SameTexts(r, PrepareTask(stage, w, f, r).rec)
  {
    if w.hash(f).Some? {
      var r1 := ResetIfChanged(r, w.hash(f).value);
      PreprocessKeepsTexts(w, f, r1);
      PreprocessKeepsTexts(w, f, Log(r1, Duration));
    }
  }

  predicate SameTexts(r: Record, r': Record) {
    r'.raw == r.raw && r'.final == r.final
    && r'.transcribedNow == r.transcribedNow && r'.postprocessedNow == r.postprocessedNow
  }

  lemma PreprocessKeepsTexts(w: World, f: Name, r: Record)
    ensures SameTexts(r, PreprocessTask(w, f, r).rec)
  {
  }

  lemma SuccessfulTranscription(w: World, f: Name, r: Record)
    requires AllSucceed(w, f) && r.entry.status == if r.raw.Some? then Transcribed else Preprocessed
    ensures var t := TranscribeTask(All, w, f, r);
            && t.entry == r.entry.(status := Transcribed) && t.final == r.final
            && t.raw == (if r.raw.Some? then r.raw else w.transcribe(f))
            && t.transcribedNow == (r.transcribedNow || r.raw.None?) && t.postprocessedNow == r.postprocessedNow
            && Transcriptions(t.calls) == Transcriptions(r.calls) + if r.raw.Some? then 0 else 1
  {
    LogCounts(r, TranscribeOk);
  }

  lemma SuccessfulPost(w: World, f: Name, r: Record)
    requires AllSucceed(w, f) && r.entry.status == Transcribed && r.raw.Some?
    ensures var t := PostTask(All, w, f, r);
            && t.entry == r.entry.(status := Completed) && t.raw == r.raw && t.final == w.post(f, r.raw.value)
            && t.transcribedNow == r.transcribedNow && t.postprocessedNow
            && Transcriptions(t.calls) == Transcriptions(r.calls)
  {
    PostCounts(All, w, f, r);
  }

  // ---------- Runs in which a transcript is not written ----------

  /** The same world, but writing a raw transcript ends in this way. */
  function Saving(w: World, outcome: Save): World { w.(saveRaw := (f: Name, t: Text) => outcome) }

  /** When the transcriber's answer cannot be written, the next run that can write it asks again. */
  lemma LostSaveRepeatsTranscription(again: World, f: Name)
    requires AllSucceed(again, f)
    ensures var r := RunFile(All, Saving(again, NotWritten), f, FRESH);
            r.raw.None? && Transcriptions(RunFile(All, again, f, r).calls) == 2
  {
    var w := Saving(again, NotWritten);
    var p := PrepareTask(All, w, f, BeginRun(FRESH));
    SuccessfulPrepare(w, f, BeginRun(FRESH));
    PrepareKeepsTexts(All, w, f, BeginRun(FRESH));
    PrepareCounts(All, w, f, BeginRun(FRESH));
    LogCounts(p.rec, TranscribeOk);
    RunKeepsSound(All, w, f, FRESH);
    SuccessfulRunCompletes(again, f, RunFile(All, w, f, FRESH));
  }

  /** When the write breaks off, the next run completes the file from the part that was left, and never
      asks again. */
  lemma CutTranscriptIsCompleted(again: World, f: Name, left: Text)
    requires AllSucceed(again, f)
    ensures var r := RunFile(All, Saving(again, Cut(left)), f, FRESH);
            var r' := RunFile(All, again, f, r);
            && r.entry.status == Failed && r'.entry.status == Completed
            && r'.raw == Some(left) && r'.final == again.post(f, left) && Transcriptions(r'.calls) == 1
  {
    var w := Saving(again, Cut(left));
    var p := PrepareTask(All, w, f, BeginRun(FRESH));
    SuccessfulPrepare(w, f, BeginRun(FRESH));
    PrepareKeepsTexts(All, w, f, BeginRun(FRESH));
    PrepareCounts(All, w, f, BeginRun(FRESH));
    LogCounts(p.rec, TranscribeOk);
    RunKeepsSound(All, w, f, FRESH);
    SuccessfulRunCompletes(again, f, RunFile(All, w, f, FRESH));
  }
}
