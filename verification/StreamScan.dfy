/** Searching a stream: `PEMExtractor.walk` matches a pattern against a growing chunk and drops what lies
    before the end of the last match. For patterns whose matches do not depend on what surrounds them
    and do not nest, it reports what one scan of the whole input would. */
module StreamScan {
  import opened Options

  /** Bytes are characters with codes below 256. */
  type Bytes = string

  /** Where the match of a pattern that starts at a position ends. */
  type Matcher = (Bytes, nat) -> Option<nat>

  function WithinPrefix(r: Option<nat>, len: nat): Option<nat> {
    if r.Some? && r.value <= len then r else None
  }

  function Moved(r: Option<nat>, t: nat): Option<nat> {
    if r.Some? then Some(t + r.value) else None
  }

  predicate ProperAt(m: Matcher, d: Bytes, s: nat) { m(d, s).Some? ==> s < m(d, s).value <= |d| }

  /** More input neither breaks a match nor changes where it ends. */
  predicate StableAt(m: Matcher, p: Bytes, d: Bytes, s: nat) { p <= d ==> m(p, s) == WithinPrefix(m(d, s), |p|) }

  /** What precedes a match does not matter. */
  predicate ShiftableAt(m: Matcher, d: Bytes, t: nat, s: nat) { t <= |d| ==> Moved(m(d[t..], s), t) == m(d, t + s) }

  /** A match that starts later ends later. */
  predicate UnnestedAt(m: Matcher, d: Bytes, s: nat, s': nat) {
    m(d, s).Some? && m(d, s').Some? && s < s' ==> m(d, s).value < m(d, s').value
  }

  ghost predicate Streamable(m: Matcher) {
    && (forall d: Bytes, s: nat :: ProperAt(m, d, s))
    && (forall p: Bytes, d: Bytes, s: nat :: StableAt(m, p, d, s))
    && (forall d: Bytes, t: nat, s: nat :: ShiftableAt(m, d, t, s))
    && (forall d: Bytes, s: nat, s': nat :: UnnestedAt(m, d, s, s'))
  }

  /** What `finditer` yields from position i on: leftmost, non-overlapping matches. */
  function FindAll(m: Matcher, d: Bytes, i: nat): seq<Bytes>
    requires i <= |d|
    decreases |d| - i
  {
    if i == |d| then []
    else match m(d, i)
      case Some(e) => if i < e <= |d| then [d[i..e]] + FindAll(m, d, e) else []
      case None => FindAll(m, d, i + 1)
  }

  /** Where the last of these matches ends; t when there is none. */
  function Tail(m: Matcher, d: Bytes, i: nat, t: nat): (r: nat)
    requires t <= i <= |d|
    ensures t <= r <= |d|
    decreases |d| - i
  {
    if i == |d| then t
    else match m(d, i)
      case Some(e) => if i < e <= |d| then Tail(m, d, e, e) else t
      case None => Tail(m, d, i + 1, t)
  }

  /** A position that does not match in p, before one that does, does not match in an extension of p. */
  lemma NoEarlierMatch(m: Matcher, p: Bytes, d: Bytes, i: nat)
    requires Streamable(m)
    requires p <= d && i < |p| && m(p, i).None? && FindAll(m, p, i) != []
    ensures m(d, i).None?
  {
    var s := FirstMatch(m, p, i);
    assert StableAt(m, p, d, s) && StableAt(m, p, d, i) && UnnestedAt(m, d, i, s);
  }

  lemma FirstMatch(m: Matcher, p: Bytes, i: nat) returns (s: nat)
    requires i <= |p| && FindAll(m, p, i) != []
    ensures i <= s && m(p, s).Some?
    decreases |p| - i
  {
    if m(p, i).Some? {
      s := i;
    } else {
      s := FirstMatch(m, p, i + 1);
    }
  }

  /** What a prefix of the input yields is final, and scanning resumes at the end of its last match. */
  lemma {:induction false} ScanResumes(m: Matcher, p: Bytes, d: Bytes, i: nat, t: nat)
    requires Streamable(m)
    requires p <= d && t <= i <= |p|
    ensures FindAll(m, p, i) != [] ==> FindAll(m, d, i) == FindAll(m, p, i) + FindAll(m, d, Tail(m, p, i, t))
    ensures FindAll(m, p, i) == [] ==> Tail(m, p, i, t) == t
    decreases |p| - i
  {
    if i < |p| {
      match m(p, i) {
        case Some(e) =>
          assert StableAt(m, p, d, i) && ProperAt(m, p, i);
          assert p[i..e] == d[i..e];
          ScanResumes(m, p, d, e, e);
          var tail := Tail(m, p, i, t);
          assert FindAll(m, p, e) + FindAll(m, d, tail) == FindAll(m, d, e) by {
            if FindAll(m, p, e) == [] {
              assert tail == e;
            }
          }
          assert [d[i..e]] + FindAll(m, d, e) == [d[i..e]] + FindAll(m, p, e) + FindAll(m, d, tail);
        case None =>
          if FindAll(m, p, i) != [] {
            NoEarlierMatch(m, p, d, i);
          }
          ScanResumes(m, p, d, i + 1, t);
      }
    }
  }

  /** Scanning a suffix is scanning the whole from there. */
  lemma {:induction false} ScanShift(m: Matcher, d: Bytes, t: nat, i: nat, u: nat)
    requires Streamable(m)
    requires t <= |d| && u <= i <= |d| - t
    ensures FindAll(m, d[t..], i) == FindAll(m, d, t + i)
    ensures t + Tail(m, d[t..], i, u) == Tail(m, d, t + i, t + u)
    decreases |d| - i
  {
    var p := d[t..];
    if i < |p| {
      assert ShiftableAt(m, d, t, i) && ProperAt(m, p, i);
      match m(p, i) {
        case Some(e) =>
          assert p[i..e] == d[t + i..t + e];
          ScanShift(m, d, t, e, e);
        case None =>
          ScanShift(m, d, t, i + 1, u);
      }
    }
  }

  // ---------- Callbacks ----------

  /** The subject hash and the fingerprint of a match; an arbitrary function of its bytes. */
  type Hashes = Bytes -> (string, string)

  datatype Call = Call(data: Bytes, hash: string, fingerprint: string)

  function Fingerprints(ms: seq<Bytes>, h: Hashes): set<string> { set m | m in ms :: h(m).1 }

  /** The calls a scan makes: a match is reported unless its fingerprint came up before. */
  function Report(ms: seq<Bytes>, unique: bool, h: Hashes): seq<Call> {
    if ms == [] then []
    else
      var earlier, m := ms[..|ms| - 1], ms[|ms| - 1];
      Report(earlier, unique, h) +
      if unique && h(m).1 in Fingerprints(earlier, h) then [] else [Call(m, h(m).0, h(m).1)]
  }

  /** No earlier match has the fingerprint of match k. */
  predicate IsFirst(ms: seq<Bytes>, h: Hashes, k: nat)
    requires k < |ms|
  {
    forall j | 0 <= j < k :: h(ms[j]).1 != h(ms[k]).1
  }

  /** The matches whose fingerprint came up with them, in order. */
  function Firsts(ms: seq<Bytes>, h: Hashes): (ks: seq<nat>)
    ensures forall i | 0 <= i < |ks| :: ks[i] < |ms|
  {
    if ms == [] then []
    else Firsts(ms[..|ms| - 1], h) + if IsFirst(ms, h, |ms| - 1) then [|ms| - 1] else []
  }

  lemma {:induction false} FirstsAreAllFirsts(ms: seq<Bytes>, h: Hashes)
    ensures var ks := Firsts(ms, h);
            && (forall i, j | 0 <= i < j < |ks| :: ks[i] < ks[j])
            && (forall k | 0 <= k < |ms| :: k in ks <==> IsFirst(ms, h, k))
  {
    if ms != [] {
      var earlier := ms[..|ms| - 1];
      FirstsAreAllFirsts(earlier, h);
      assert forall k | 0 <= k < |earlier| :: IsFirst(ms, h, k) == IsFirst(earlier, h, k);
      assert forall k | k in Firsts(earlier, h) :: k < |earlier|;
    }
  }

  /** With `unique`, the calls are those of the matches that are the first with their fingerprint: each
      of them once, in order, and no others. */
  lemma {:induction false} ReportIsUnique(ms: seq<Bytes>, h: Hashes)
    ensures var calls, ks := Report(ms, true, h), Firsts(ms, h);
            && |calls| == |ks|
            && (forall i | 0 <= i < |ks| :: calls[i] == Call(ms[ks[i]], h(ms[ks[i]]).0, h(ms[ks[i]]).1))
            && (forall i, j | 0 <= i < j < |ks| :: ks[i] < ks[j])
            && (forall k | 0 <= k < |ms| :: k in ks <==> IsFirst(ms, h, k))
  {
    FirstsAreAllFirsts(ms, h);
    if ms != [] {
      var earlier, m := ms[..|ms| - 1], ms[|ms| - 1];
      ReportIsUnique(earlier, h);
      assert h(m).1 in Fingerprints(earlier, h) <==> !IsFirst(ms, h, |ms| - 1) by {
        if f :| 0 <= f < |earlier| && h(earlier[f]).1 == h(m).1 {
          assert earlier[f] in earlier;
        }
      }
    }
  }

  /** Without it, every match is reported. */
  lemma {:induction false} ReportIsComplete(ms: seq<Bytes>, h: Hashes)
    ensures var calls := Report(ms, false, h);
            |calls| == |ms| && forall k | 0 <= k < |ms| :: calls[k] == Call(ms[k], h(ms[k]).0, h(ms[k]).1)
  {
    if ms != [] {
      ReportIsComplete(ms[..|ms| - 1], h);
    }
  }

  /** The blocks that are read: `read` returns an empty block at the end of the source. */
  function Joined(blocks: seq<Bytes>): Bytes {
    if blocks == [] || blocks[0] == "" then "" else blocks[0] + Joined(blocks[1..])
  }

  lemma MoveFirst<T>(s: seq<T>, x: T, t: seq<T>)
    ensures s + ([x] + t) == (s + [x]) + t
  {
  }

  /** The inner loop of `walk`: reports the matches in a chunk and returns where the last one ends. */
  method ReportMatches(m: Matcher, chunk: Bytes, unique: bool, h: Hashes, calls: seq<Call>, seen: set<string>,
                       ghost found: seq<Bytes>)
    returns (calls': seq<Call>, seen': set<string>, tail: nat)
    requires Streamable(m)
    requires calls == Report(found, unique, h) && seen == Fingerprints(found, h)
    ensures calls' == Report(found + FindAll(m, chunk, 0), unique, h)
    ensures seen' == Fingerprints(found + FindAll(m, chunk, 0), h)
    ensures tail == Tail(m, chunk, 0, 0)
  {
    calls', seen', tail := calls, seen, 0;
    var pos := 0;
    ghost var now := found;
    while pos < |chunk|
      invariant tail <= pos <= |chunk|
      invariant found + FindAll(m, chunk, 0) == now + FindAll(m, chunk, pos)
      invariant Tail(m, chunk, 0, 0) == Tail(m, chunk, pos, tail)
      invariant calls' == Report(now, unique, h) && seen' == Fingerprints(now, h)
    {
      match m(chunk, pos) {
        case None =>
          pos := pos + 1;
        case Some(end) =>
          assert ProperAt(m, chunk, pos);
          var certData := chunk[pos..end];
          ReportOneMore(now, certData, unique, h);
          var (certHash, fingerprint) := h(certData);
          if !unique || fingerprint !in seen' {
            calls' := calls' + [Call(certData, certHash, fingerprint)];
          }
          seen' := seen' + {fingerprint};
          assert FindAll(m, chunk, pos) == [certData] + FindAll(m, chunk, end);
          MoveFirst(now, certData, FindAll(m, chunk, end));
          now := now + [certData];
          tail, pos := end, end;
      }
    }
    assert now + FindAll(m, chunk, pos) == now;
  }

  /** However the source is cut into blocks, the calls are those of one scan of all of it. */
  method Walk(m: Matcher, blocks: seq<Bytes>, unique: bool, h: Hashes) returns (calls: seq<Call>)
    requires Streamable(m)
    ensures calls == Report(FindAll(m, Joined(blocks), 0), unique, h)
  {
    var chunk := "";
    var seen: set<string> := {};
    calls := [];
    var i := 0;
    ghost var whole := Joined(blocks);
    ghost var found: seq<Bytes> := [];
    ghost var dropped: nat := 0;
    while i < |blocks| && blocks[i] != ""
      invariant i <= |blocks|
      invariant Progress(m, whole, dropped, chunk, Joined(blocks[i..]), found)
      invariant calls == Report(found, unique, h) && seen == Fingerprints(found, h)
    {
      assert blocks[i..][0] == blocks[i] && blocks[i..][1..] == blocks[i + 1..];
      chunk, calls, seen, dropped, found :=
        WalkOn(m, unique, h, whole, dropped, chunk, blocks[i], Joined(blocks[i + 1..]), found, calls, seen);
      i := i + 1;
    }
    AtTheEnd(m, whole, dropped, chunk, found);
  }

  /** One turn of the outer loop: one more block, its matches, and the chunk cut behind the last of them. */
  method WalkOn(m: Matcher, unique: bool, h: Hashes, ghost whole: Bytes, ghost dropped: nat, chunk: Bytes, block: Bytes,
                ghost unread: Bytes, ghost found: seq<Bytes>, calls: seq<Call>, seen: set<string>)
    returns (chunk': Bytes, calls': seq<Call>, seen': set<string>, ghost dropped': nat, ghost found': seq<Bytes>)
    requires Streamable(m)
    requires Progress(m, whole, dropped, chunk, block + unread, found)
    requires calls == Report(found, unique, h) && seen == Fingerprints(found, h)
    ensures Progress(m, whole, dropped', chunk', unread, found')
    ensures calls' == Report(found', unique, h) && seen' == Fingerprints(found', h)
  {
    chunk' := chunk + block;
    var tail: nat;
    calls', seen', tail := ReportMatches(m, chunk', unique, h, calls, seen, found);
    NextProgress(m, whole, dropped, chunk, block, unread, found);
    found' := found + FindAll(m, chunk', 0);
    chunk' := chunk'[tail..];
    dropped' := dropped + tail;
  }

  /** The whole input is what was dropped, the chunk and what is unread; the matches found are those
      of the dropped part, and the chunk holds none. */
  ghost predicate Progress(m: Matcher, whole: Bytes, dropped: nat, chunk: Bytes, unread: Bytes, found: seq<Bytes>) {
    && dropped + |chunk| <= |whole| && chunk == whole[dropped..dropped + |chunk|]
    && whole[dropped + |chunk|..] == unread
    && FindAll(m, whole, 0) == found + FindAll(m, whole, dropped)
    && FindAll(m, chunk, 0) == []
  }

  lemma NextProgress(m: Matcher, whole: Bytes, dropped: nat, before: Bytes, block: Bytes, unread: Bytes,
                     found: seq<Bytes>)
    requires Streamable(m)
    requires Progress(m, whole, dropped, before, block + unread, found)
    ensures var chunk := before + block;
            var tail := Tail(m, chunk, 0, 0);
            Progress(m, whole, dropped + tail, chunk[tail..], unread, found + FindAll(m, chunk, 0))
  {
    var chunk := before + block;
    var tail := Tail(m, chunk, 0, 0);
    Appended(whole, dropped, before, block, unread);
    Resume(m, whole, dropped, chunk, found);
    assert chunk[tail..] == whole[dropped + tail..dropped + |chunk|];
  }

  lemma AtTheEnd(m: Matcher, whole: Bytes, dropped: nat, chunk: Bytes, found: seq<Bytes>)
    requires Streamable(m)
    requires Progress(m, whole, dropped, chunk, "", found)
    ensures found == FindAll(m, whole, 0)
  {
    assert whole[dropped..] == chunk;
    ScanShift(m, whole, dropped, 0, 0);
  }

  lemma Appended(whole: Bytes, dropped: nat, chunk: Bytes, block: Bytes, unread: Bytes)
    requires dropped + |chunk| <= |whole| && chunk == whole[dropped..dropped + |chunk|]
    requires whole[dropped + |chunk|..] == block + unread
    ensures dropped + |chunk + block| <= |whole|
    ensures chunk + block == whole[dropped..dropped + |chunk + block|]
    ensures whole[dropped + |chunk + block|..] == unread
  {
    var at := dropped + |chunk|;
    assert whole[at..at + |block|] == whole[at..][..|block|];
    assert whole[at + |block|..] == whole[at..][|block|..];
    assert whole[dropped..at + |block|] == whole[dropped..at] + whole[at..at + |block|];
  }

  lemma ReportOneMore(found: seq<Bytes>, m: Bytes, unique: bool, h: Hashes)
    ensures Report(found + [m], unique, h) == Report(found, unique, h) +
              if unique && h(m).1 in Fingerprints(found, h) then [] else [Call(m, h(m).0, h(m).1)]
    ensures Fingerprints(found + [m], h) == Fingerprints(found, h) + {h(m).1}
  {
    assert (found + [m])[..|found|] == found;
  }

  /** Dropping the chunk up to the end of its last match loses nothing of the scan of the whole. */
  lemma Resume(m: Matcher, whole: Bytes, t: nat, chunk: Bytes, found: seq<Bytes>)
    requires Streamable(m)
    requires t + |chunk| <= |whole| && chunk == whole[t..t + |chunk|]
    requires FindAll(m, whole, 0) == found + FindAll(m, whole, t)
    ensures var tail := Tail(m, chunk, 0, 0);
            && FindAll(m, whole, 0) == (found + FindAll(m, chunk, 0)) + FindAll(m, whole, t + tail)
            && FindAll(m, chunk[tail..], 0) == []
  {
    var tail := Tail(m, chunk, 0, 0);
    assert FindAll(m, whole, t) == FindAll(m, chunk, 0) + FindAll(m, whole, t + tail) by {
      assert chunk == whole[t..][..|chunk|];
      ScanResumes(m, chunk, whole[t..], 0, 0);
      ScanShift(m, whole, t, 0, 0);
      ScanShift(m, whole, t, tail, tail);
    }
    NothingLeft(m, chunk);
  }

  lemma NothingLeft(m: Matcher, chunk: Bytes)
    requires Streamable(m)
    ensures FindAll(m, chunk[Tail(m, chunk, 0, 0)..], 0) == []
  {
    ScanResumes(m, chunk, chunk, 0, 0);
    ScanShift(m, chunk, Tail(m, chunk, 0, 0), 0, 0);
  }
}
