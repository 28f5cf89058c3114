/** What one run does to a file, stage by stage, as a table over what is known of the file before the run
    and what the outside answers during it: the calls that are made and the record that is left. */
module PodscribeRuns {
  import opened Options
  import opened Podscribe

  /** The record with this entry and these calls, nothing transcribed or post-processed in the run. */
  function Left(r: Record, hash: Hash, status: Status, path: bool, calls: seq<Call>): Record {
    Record(Entry(hash, status, path), r.raw, r.final, false, false, calls)
  }

  /** The status and the preprocessed path that still count: a changed file starts afresh. */
  function StatusNow(r: Record, h: Hash): Status { if r.entry.hash == h then r.entry.status else New }

  function PathNow(r: Record, h: Hash): bool { r.entry.hash == h && r.entry.preprocessedPath }

  /** After the post-processor has been asked about a raw transcript. */
  function PostTable(w: World, f: Name, a: Record, raw: Text): Record {
    var called := a.(calls := a.calls + [PostProcess]);
    var failed := called.(entry := a.entry.(status := Failed));
    match w.post(f, raw)
    case None => failed
    case Some(out) =>
      match w.saveFinal(f, out)
      case Saved => called.(entry := a.entry.(status := Completed), final := Some(out), postprocessedNow := true)
      case NotWritten => failed
      case Cut(left) => failed.(final := Some(left))
  }

  /** After the transcriber has been asked. */
  function TranscribeTable(w: World, f: Name, a: Record): Record {
    var failed := a.(entry := a.entry.(status := Failed));
    match w.transcribe(f)
    case None => failed.(calls := a.calls + [TranscribeFailed])
    case Some(t) =>
      var calls := a.calls + [TranscribeOk];
      match w.saveRaw(f, t)
      case Saved =>
        a.(entry := a.entry.(status := Transcribed), raw := Some(t), transcribedNow := true, calls := calls)
      case NotWritten => failed.(transcribedNow := true, calls := calls + [SaveLost])
      case Cut(left) => failed.(raw := Some(left), transcribedNow := true, calls := calls)
  }

  /** Before the transcriber is asked: the record, and whether the file goes on. A new, failed or changed
      file without a raw transcript is preprocessed; any other only if its preprocessed file has vanished. */
  function PreparedTable(w: World, f: Name, r: Record, h: Hash): (Record, bool) {
    var s, path := StatusNow(r, h), PathNow(r, h);
    var probed := if s in {Transcribed, Completed} then r.calls else r.calls + [Duration];
    if s !in {Transcribed, Completed} && !w.durationOk(f) then (Left(r, h, s, path, probed), false)
    else if r.raw.None? && s in {New, Failed} then
      if w.preprocessOk(f) then (Left(r, h, Preprocessed, true, probed + [Preprocess]), true)
      else (Left(r, h, Failed, path, probed + [Preprocess]), false)
    else
      var s' := if s in {New, Failed} then Transcribed else s;
      if path && w.missing(f) then (Left(r, h, s', path, probed + [Preprocess]), w.preprocessOk(f))
      else (Left(r, h, s', path, probed), true)
  }

  lemma Preparation(stage: Stage, w: World, f: Name, r: Record, h: Hash)
    requires Sound(r) && w.hash(f) == Some(h) && stage != PostprocessOnly
    requires StatusNow(r, h) != Completed && !(stage == TranscribeOnly && StatusNow(r, h) == Transcribed)
    ensures var (rec, ready) := PreparedTable(w, f, r, h);
            PrepareTask(stage, w, f, BeginRun(r)) == Prepared(rec, ready)
  {
  }

  lemma TranscribeIsTable(stage: Stage, w: World, f: Name, a: Record)
    requires stage != PostprocessOnly && a.raw.None? && a.entry.status == Preprocessed
    ensures TranscribeTask(stage, w, f, a) == TranscribeTable(w, f, a)
  {
  }

  lemma PostIsTable(stage: Stage, w: World, f: Name, a: Record)
    requires a.raw.Some? && a.entry.status == Transcribed
    ensures PostTask(stage, w, f, a) == PostTable(w, f, a, a.raw.value)
  {
  }

  /** Stage "postprocess" leaves alone a file that is completed and unchanged, and no other. Of the others,
      those without a raw transcript fail without a call; those with one are post-processed, whatever
      their status, with a single call. */
  lemma PostprocessRun(w: World, f: Name, r: Record, h: Hash)
    requires Sound(r) && w.hash(f) == Some(h)
    ensures RunFile(PostprocessOnly, w, f, r) ==
            if StatusNow(r, h) == Completed then BeginRun(r)
            else if r.raw.None? then Left(r, h, Failed, PathNow(r, h), r.calls)
            else PostTable(w, f, Left(r, h, Transcribed, PathNow(r, h), r.calls), r.raw.value)
  {
  }

  /** Stage "transcribe" leaves alone a file that is unchanged and transcribed or completed, and no other.
      The transcriber is asked exactly when there is no raw transcript. */
  lemma TranscribeRun(w: World, f: Name, r: Record, h: Hash)
    requires Sound(r) && w.hash(f) == Some(h)
    ensures var (rec, ready) := PreparedTable(w, f, r, h);
            RunFile(TranscribeOnly, w, f, r) ==
            if StatusNow(r, h) in {Transcribed, Completed} then BeginRun(r)
            else if !ready || r.raw.Some? then rec
            else TranscribeTable(w, f, rec)
  {
    if StatusNow(r, h) !in {Transcribed, Completed} {
      var (rec, ready) := PreparedTable(w, f, r, h);
      Preparation(TranscribeOnly, w, f, r, h);
      if ready && r.raw.None? {
        TranscribeIsTable(TranscribeOnly, w, f, rec);
      }
    }
  }

  lemma AllLaterTasks(w: World, f: Name, a: Record)
    requires a.entry.status == if a.raw.Some? then Transcribed else Preprocessed
    ensures var t := if a.raw.None? then TranscribeTable(w, f, a) else a;
            LaterTasks(All, w, f, a) == if t.entry.status == Failed then t else PostTable(w, f, t, t.raw.value)
  {
    if a.raw.None? {
      TranscribeIsTable(All, w, f, a);
    }
    var t := TranscribeTask(All, w, f, a);
    if t.entry.status == Transcribed {
      PostIsTable(All, w, f, t);
    }
  }

  /** Stage "all" leaves alone a file that is completed and unchanged, and no other. After the preparation
      it asks the transcriber exactly when there is no raw transcript, and the post-processor exactly when
      there then is one that was not left by a failure of this run. */
  lemma AllRun(w: World, f: Name, r: Record, h: Hash)
    requires Sound(r) && w.hash(f) == Some(h)
    ensures var (rec, ready) := PreparedTable(w, f, r, h);
            var t := if r.raw.None? then TranscribeTable(w, f, rec) else rec;
            RunFile(All, w, f, r) ==
            if StatusNow(r, h) == Completed then BeginRun(r)
            else if !ready then rec
            else if t.entry.status == Failed then t
            else PostTable(w, f, t, t.raw.value)
  {
    if StatusNow(r, h) != Completed {
      var (rec, ready) := PreparedTable(w, f, r, h);
      Preparation(All, w, f, r, h);
      if ready {
        AllLaterTasks(w, f, rec);
      }
    }
  }

  /** A file whose hash cannot be read is left alone by every stage. */
  lemma UnreadableRun(stage: Stage, w: World, f: Name, r: Record)
    requires w.hash(f).None?
    ensures RunFile(stage, w, f, r) == BeginRun(r)
  {
  }

  /** When a run makes no call at all for a file, for each stage. */
  lemma NoCalls(stage: Stage, w: World, f: Name, r: Record)
    requires Sound(r)
    ensures RunFile(stage, w, f, r).calls == r.calls <==>
            match w.hash(f)
            case None => true
            case Some(h) =>
              match stage
              case All => r.entry.hash == h && r.entry.status == Completed
              case TranscribeOnly => r.entry.hash == h && r.entry.status in {Transcribed, Completed}
              case PostprocessOnly => r.raw.None? || (r.entry.hash == h && r.entry.status == Completed)
  {
    if w.hash(f).None? {
      UnreadableRun(stage, w, f, r);
    } else {
      var h := w.hash(f).value;
      match stage
      case All => AllCalls(w, f, r, h);
      case TranscribeOnly => TranscribeCalls(w, f, r, h);
      case PostprocessOnly => PostprocessRun(w, f, r, h);
    }
  }

  lemma AllCalls(w: World, f: Name, r: Record, h: Hash)
    requires Sound(r) && w.hash(f) == Some(h)
    ensures if StatusNow(r, h) == Completed then RunFile(All, w, f, r).calls == r.calls
            else |RunFile(All, w, f, r).calls| > |r.calls|
  {
    AllRun(w, f, r, h);
    if StatusNow(r, h) != Completed {
      var rec := PreparedTable(w, f, r, h).0;
      PreparedCalls(w, f, r, h);
      TranscribeTableCalls(w, f, rec);
    }
  }

  lemma TranscribeCalls(w: World, f: Name, r: Record, h: Hash)
    requires Sound(r) && w.hash(f) == Some(h)
    ensures if StatusNow(r, h) in {Transcribed, Completed} then RunFile(TranscribeOnly, w, f, r).calls == r.calls
            else |RunFile(TranscribeOnly, w, f, r).calls| > |r.calls|
  {
    TranscribeRun(w, f, r, h);
    if StatusNow(r, h) !in {Transcribed, Completed} {
      PreparedCalls(w, f, r, h);
      TranscribeTableCalls(w, f, PreparedTable(w, f, r, h).0);
    }
  }

  lemma PreparedCalls(w: World, f: Name, r: Record, h: Hash)
    requires Sound(r)
    ensures var (rec, ready) := PreparedTable(w, f, r, h);
            |rec.calls| > |r.calls| || (rec.calls == r.calls && ready && StatusNow(r, h) in {Transcribed, Completed})
  {
  }

  lemma TranscribeTableCalls(w: World, f: Name, a: Record)
    ensures |TranscribeTable(w, f, a).calls| > |a.calls|
  {
  }

  /** When all its calls succeed, the stage "postprocess" completes every file that has a raw transcript. */
  lemma PostprocessCompletes(w: World, f: Name, r: Record)
    requires Sound(r) && AllSucceed(w, f)
    ensures var h, p := w.hash(f).value, RunFile(PostprocessOnly, w, f, r);
            if r.raw.None? then p.entry == Entry(h, Failed, PathNow(r, h)) && p.calls == r.calls
            else p.entry.hash == h && p.entry.status == Completed && p.raw == r.raw
                 && p.final == if r.entry == Entry(h, Completed, r.entry.preprocessedPath) then r.final
                               else w.post(f, r.raw.value)
  {
    PostprocessRun(w, f, r, w.hash(f).value);
  }

  /** And the stage "transcribe" leaves every file with a raw transcript and transcribed, or completed as it
      was, with one call of the transcriber exactly for a file that had none. */
  lemma TranscribeTranscribes(w: World, f: Name, r: Record)
    requires Sound(r) && AllSucceed(w, f)
    ensures var h, t := w.hash(f).value, RunFile(TranscribeOnly, w, f, r);
            && t.entry.hash == h && t.raw == (if r.raw.Some? then r.raw else w.transcribe(f))
            && t.entry.status == (if r.entry.hash == h && r.entry.status == Completed then Completed else Transcribed)
            && Transcriptions(t.calls) == Transcriptions(r.calls) + if r.raw.Some? then 0 else 1
  {
    TranscribeRun(w, f, r, w.hash(f).value);
  }
}
