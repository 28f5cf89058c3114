/** The PEM pattern of `PEMExtractor`: a matcher without backtracking, its agreement with the pattern,
    and the proof that the pattern can be searched for in a stream. */
module PemScan {
  import opened Options
  import opened StreamScan
  import opened Strings

  const DASHES := "-----"
  const BEGIN := "-----BEGIN "
  const END := "-----END "

  // ---------- The pattern ----------

  predicate InBody(c: char) {
    'A' <= c <= 'Z' || 'a' <= c <= 'z' || '0' <= c <= '9' || c in "+/\n\r"
  }

  /** At least one character of base64 or a line end, then equals signs, then line ends. */
  predicate IsBody(body: Bytes) {
    exists a, b | 0 < a <= b <= |body| :: BodyParts(body, a, b)
  }

  predicate BodyParts(body: Bytes, a: nat, b: nat)
    requires a <= b <= |body|
  {
    && (forall k | 0 <= k < a :: InBody(body[k]))
    && (forall k | a <= k < b :: body[k] == '=')
    && (forall k | b <= k < |body| :: body[k] in "\r\n")
  }

  function Closing(name: Bytes): Bytes { END + name + DASHES }

  /** The pattern, with the label as its group 1. */
  ghost predicate IsPem(m: Bytes, name: Bytes, body: Bytes) {
    name != "" && '-' !in name && IsBody(body)
    && m == BEGIN + (name + (DASHES + (body + Closing(name))))
  }

  ghost predicate Matches(d: Bytes, s: nat, e: nat) {
    s <= e <= |d| && exists name, body :: IsPem(d[s..e], name, body)
  }

  // ---------- A matcher without backtracking ----------

  /** The first dash at or after i, or the end of the input. */
  function DashFrom(d: Bytes, i: nat): (j: nat)
    requires i <= |d|
    ensures i <= j <= |d| && (forall k | i <= k < j :: d[k] != '-') && (j < |d| ==> d[j] == '-')
    decreases |d| - i
  {
    if i == |d| || d[i] == '-' then i else DashFrom(d, i + 1)
  }

  /** Where the match starting at s ends, if there is one. */
  function MatchEnd(d: Bytes, s: nat): (r: Option<nat>)
    ensures r.Some? ==> s + 11 < r.value <= |d|
  {
    if !At(d, s, BEGIN) then None else
    var l0 := s + |BEGIN|;
    var l1 := DashFrom(d, l0);
    if l0 == l1 || !At(d, l1, DASHES) then None else
    var b0 := l1 + |DASHES|;
    var b1 := DashFrom(d, b0);
    var closing := Closing(d[l0..l1]);
    if IsBody(d[b0..b1]) && At(d, b1, closing) then Some(b1 + |closing|) else None
  }

  lemma BodyHasNoDash(body: Bytes)
    requires IsBody(body)
    ensures body != "" && '-' !in body && ' ' !in body
  {
    var a, b :| 0 < a <= b <= |body| && BodyParts(body, a, b);
  }

  lemma MatchEndIsMatch(d: Bytes, s: nat)
    requires MatchEnd(d, s).Some?
    ensures Matches(d, s, MatchEnd(d, s).value)
  {
    var e := MatchEnd(d, s).value;
    var l0 := s + |BEGIN|;
    var l1 := DashFrom(d, l0);
    var b0 := l1 + |DASHES|;
    var b1 := DashFrom(d, b0);
    CutInFive(d, s, l0, l1, b0, b1, e);
    var name, body := d[l0..l1], d[b0..b1];
    assert d[s..l0] == BEGIN && d[l1..b0] == DASHES && d[b1..e] == Closing(name);
    assert IsPem(d[s..e], name, body);
  }

  lemma CutInFive(d: Bytes, s: nat, l0: nat, l1: nat, b0: nat, b1: nat, e: nat)
    requires s <= l0 <= l1 <= b0 <= b1 <= e <= |d|
    ensures d[s..e] == d[s..l0] + (d[l0..l1] + (d[l1..b0] + (d[b0..b1] + d[b1..e])))
  {
    assert d[l1..e] == d[l1..b0] + (d[b0..b1] + d[b1..e]);
    assert d[l0..e] == d[l0..l1] + d[l1..e];
    assert d[s..e] == d[s..l0] + d[l0..e];
  }

  lemma Peel(d: Bytes, s: nat, e: nat, x: Bytes, rest: Bytes)
    requires s <= e <= |d| && d[s..e] == x + rest
    ensures At(d, s, x) && s + |x| <= e && d[s + |x|..e] == rest
  {
    assert d[s..s + |x|] == d[s..e][..|x|];
    assert d[s + |x|..e] == d[s..e][|x|..];
  }

  lemma FirstChar(d: Bytes, i: nat, lit: Bytes)
    requires At(d, i, lit) && lit != ""
    ensures i < |d| && d[i] == lit[0]
  {
    assert d[i..i + |lit|][0] == d[i];
  }

  /** The five parts of a pattern, wherever it stands, are found by the matcher. */
  lemma PartsAreFound(d: Bytes, s: nat, name: Bytes, body: Bytes)
    requires name != "" && '-' !in name && IsBody(body)
    requires At(d, s, BEGIN)
    requires At(d, s + |BEGIN|, name)
    requires At(d, s + |BEGIN| + |name|, DASHES)
    requires At(d, s + |BEGIN| + |name| + |DASHES|, body)
    requires At(d, s + |BEGIN| + |name| + |DASHES| + |body|, Closing(name))
    ensures MatchEnd(d, s) == Some(s + |BEGIN| + |name| + |DASHES| + |body| + |Closing(name)|)
  {
    BodyHasNoDash(body);
    var l0 := s + |BEGIN|;
    PartIsFound(d, l0, name, DASHES);
    PartIsFound(d, l0 + |name| + |DASHES|, body, Closing(name));
  }

  lemma PartIsFound(d: Bytes, i: nat, part: Bytes, stop: Bytes)
    requires At(d, i, part) && '-' !in part
    requires At(d, i + |part|, stop) && stop != "" && stop[0] == '-'
    ensures DashFrom(d, i) == i + |part| && d[i..i + |part|] == part
  {
    FirstChar(d, i + |part|, stop);
    DashIs(d, i, i + |part|);
  }

  /** The five parts of a match, one behind the other. */
  lemma PemParts(d: Bytes, s: nat, e: nat, name: Bytes, body: Bytes)
    requires s <= e <= |d| && IsPem(d[s..e], name, body)
    ensures At(d, s, BEGIN)
    ensures At(d, s + |BEGIN|, name)
    ensures At(d, s + |BEGIN| + |name|, DASHES)
    ensures At(d, s + |BEGIN| + |name| + |DASHES|, body)
    ensures At(d, s + |BEGIN| + |name| + |DASHES| + |body|, Closing(name))
    ensures e == s + |BEGIN| + |name| + |DASHES| + |body| + |Closing(name)|
  {
    var closing := Closing(name);
    OpeningParts(d, s, e, name, DASHES + (body + closing));
    ClosingParts(d, s + |BEGIN| + |name|, e, body, closing);
  }

  lemma OpeningParts(d: Bytes, s: nat, e: nat, name: Bytes, rest: Bytes)
    requires s <= e <= |d| && d[s..e] == BEGIN + (name + rest)
    ensures At(d, s, BEGIN) && At(d, s + |BEGIN|, name)
    ensures s + |BEGIN| + |name| <= e && d[s + |BEGIN| + |name|..e] == rest
  {
    Peel(d, s, e, BEGIN, name + rest);
    Peel(d, s + |BEGIN|, e, name, rest);
  }

  lemma ClosingParts(d: Bytes, s: nat, e: nat, body: Bytes, closing: Bytes)
    requires s <= e <= |d| && d[s..e] == DASHES + (body + closing)
    ensures At(d, s, DASHES) && At(d, s + |DASHES|, body) && At(d, s + |DASHES| + |body|, closing)
    ensures e == s + |DASHES| + |body| + |closing|
  {
    Peel(d, s, e, DASHES, body + closing);
    Peel(d, s + |DASHES|, e, body, closing);
  }

  lemma MatchIsMatchEnd(d: Bytes, s: nat, e: nat)
    requires Matches(d, s, e)
    ensures MatchEnd(d, s) == Some(e)
  {
    var name, body :| IsPem(d[s..e], name, body);
    PemParts(d, s, e, name, body);
    PartsAreFound(d, s, name, body);
  }

  lemma DashIs(d: Bytes, i: nat, j: nat)
    requires i <= j < |d| && '-' !in d[i..j] && d[j] == '-'
    ensures DashFrom(d, i) == j
  {
    forall k | i <= k < j
      ensures d[k] != '-'
    {
      assert d[k] == d[i..j][k - i];
    }
  }

  /** The matcher and the pattern agree; in particular a match is determined by where it starts. */
  lemma MatchEndIffMatches(d: Bytes, s: nat, e: nat)
    ensures MatchEnd(d, s) == Some(e) <==> Matches(d, s, e)
  {
    if MatchEnd(d, s) == Some(e) { MatchEndIsMatch(d, s); }
    if Matches(d, s, e) { MatchIsMatchEnd(d, s, e); }
  }

  /** More input neither breaks a match nor changes where it ends. */
  lemma MatchStable(p: Bytes, d: Bytes, s: nat, e: nat)
    requires p <= d
    ensures MatchEnd(p, s) == Some(e) <==> MatchEnd(d, s) == Some(e) && e <= |p|
  {
    MatchEndIffMatches(p, s, e);
    MatchEndIffMatches(d, s, e);
    if s <= e <= |p| {
      assert p[s..e] == d[s..e];
    }
  }

  lemma MatchShift(d: Bytes, t: nat, s: nat, e: nat)
    requires t <= |d|
    ensures MatchEnd(d[t..], s) == Some(e) <==> MatchEnd(d, t + s) == Some(t + e)
  {
    MatchesShift(d, t, s, e);
    SameMatchSameEnd(d[t..], s, e, d, t + s, t + e);
  }

  lemma SameMatchSameEnd(a: Bytes, s: nat, e: nat, b: Bytes, s': nat, e': nat)
    requires Matches(a, s, e) <==> Matches(b, s', e')
    ensures MatchEnd(a, s) == Some(e) <==> MatchEnd(b, s') == Some(e')
  {
    MatchEndIffMatches(a, s, e);
    MatchEndIffMatches(b, s', e');
  }

  lemma MatchesShift(d: Bytes, t: nat, s: nat, e: nat)
    requires t <= |d|
    ensures Matches(d[t..], s, e) <==> Matches(d, t + s, t + e)
  {
    if s <= e && e <= |d| - t {
      assert d[t..][s..e] == d[t + s..t + e];
    }
  }

  // ---------- Matches do not nest ----------

  lemma AtChars(d: Bytes, i: nat, lit: Bytes)
    requires At(d, i, lit)
    ensures forall k | 0 <= k < |lit| :: d[i + k] == lit[k]
  {
    forall k | 0 <= k < |lit|
      ensures d[i + k] == lit[k]
    {
      assert d[i..i + |lit|][k] == d[i + k];
    }
  }

  lemma NotAtBegin(d: Bytes, i: nat, k: nat)
    requires k < |BEGIN| && i + k < |d| && d[i + k] != BEGIN[k]
    ensures !At(d, i, BEGIN)
  {
    if i + |BEGIN| <= |d| {
      assert d[i..i + |BEGIN|][k] == d[i + k];
    }
  }

  /** Inside a match, up to its last five dashes, no other match can start. */
  lemma NoBeginInside(d: Bytes, s: nat, s': nat)
    requires MatchEnd(d, s).Some? && s < s' < MatchEnd(d, s).value - 5
    ensures !At(d, s', BEGIN)
  {
    var l0 := s + |BEGIN|;
    var l1 := DashFrom(d, l0);
    var b0 := l1 + |DASHES|;
    var b1 := DashFrom(d, b0);
    BodyHasNoDash(d[b0..b1]);
    if s' < l1 {
      NoBeginInOpening(d, s, l1, s');
    } else if s' < b0 {
      NoBeginAfterLabel(d, l1, b1, s');
    } else if s' < b1 {
      NotAtBegin(d, s', 0);
    } else {
      NoBeginInClosing(d, b1, d[l0..l1], s');
    }
  }

  lemma NoBeginInOpening(d: Bytes, s: nat, l1: nat, s': nat)
    requires At(d, s, BEGIN) && l1 <= |d| && s < s' < l1
    requires forall k | s + |BEGIN| <= k < l1 :: d[k] != '-'
    ensures !At(d, s', BEGIN)
  {
    AtChars(d, s, BEGIN);
    if s' < s + 5 {
      assert d[s + 5] == BEGIN[5];
      NotAtBegin(d, s', s + 5 - s');
    } else {
      if s' < s + |BEGIN| {
        assert d[s'] == BEGIN[s' - s];
      }
      NotAtBegin(d, s', 0);
    }
  }

  lemma NoBeginAfterLabel(d: Bytes, l1: nat, b1: nat, s': nat)
    requires l1 + 5 < b1 < |d| && l1 <= s' < l1 + 5
    requires forall k | l1 + 5 <= k < b1 :: d[k] != '-' && d[k] != ' '
    requires d[b1] == '-'
    ensures !At(d, s', BEGIN)
  {
    if s' > l1 {
      NotAtBegin(d, s', l1 + 5 - s');
    } else if b1 > l1 + 10 {
      NotAtBegin(d, s', 10);
    } else {
      NotAtBegin(d, s', b1 - l1);
    }
  }

  lemma NoBeginInClosing(d: Bytes, b1: nat, name: Bytes, s': nat)
    requires At(d, b1, Closing(name)) && '-' !in name
    requires b1 <= s' < b1 + |END| + |name|
    ensures !At(d, s', BEGIN)
  {
    AtChars(d, b1, Closing(name));
    if s' <= b1 + 4 {
      assert d[b1 + 5] == Closing(name)[5] == 'E';
      NotAtBegin(d, s', b1 + 5 - s');
    } else {
      assert d[b1 + (s' - b1)] == Closing(name)[s' - b1];
      ClosingChar(name, s' - b1);
      NotAtBegin(d, s', 0);
    }
  }

  lemma ClosingChar(name: Bytes, k: nat)
    requires '-' !in name && 5 <= k < |END| + |name|
    ensures Closing(name)[k] != '-'
  {
    if k >= |END| {
      assert Closing(name)[k] == name[k - |END|];
    }
  }

  /** A match that starts later ends later. */
  lemma LaterStartLaterEnd(d: Bytes, s: nat, s': nat)
    requires MatchEnd(d, s).Some? && MatchEnd(d, s').Some? && s < s'
    ensures MatchEnd(d, s).value < MatchEnd(d, s').value
  {
    if s' < MatchEnd(d, s).value - 5 {
      NoBeginInside(d, s, s');
    }
  }

  const PEM: Matcher := (d: Bytes, s: nat) => MatchEnd(d, s)

  lemma PemIsStreamable()
    ensures Streamable(PEM)
  {
    forall p: Bytes, d: Bytes, s: nat
      ensures StableAt(PEM, p, d, s)
    {
      PemIsStable(p, d, s);
    }
    forall d: Bytes, t: nat, s: nat
      ensures ShiftableAt(PEM, d, t, s)
    {
      PemIsShiftable(d, t, s);
    }
    forall d: Bytes, s: nat, s': nat
      ensures UnnestedAt(PEM, d, s, s')
    {
      if MatchEnd(d, s).Some? && MatchEnd(d, s').Some? && s < s' {
        LaterStartLaterEnd(d, s, s');
      }
    }
    assert forall d: Bytes, s: nat :: ProperAt(PEM, d, s);
  }

  lemma PemIsStable(p: Bytes, d: Bytes, s: nat)
    ensures StableAt(PEM, p, d, s)
  {
    if p <= d {
      if MatchEnd(p, s).Some? { MatchStable(p, d, s, MatchEnd(p, s).value); }
      if MatchEnd(d, s).Some? { MatchStable(p, d, s, MatchEnd(d, s).value); }
    }
  }

  lemma PemIsShiftable(d: Bytes, t: nat, s: nat)
    ensures ShiftableAt(PEM, d, t, s)
  {
    if t <= |d| {
      MovedMatchEnd(d, t, s);
    }
  }

  lemma MovedMatchEnd(d: Bytes, t: nat, s: nat)
    requires t <= |d|
    ensures Moved(MatchEnd(d[t..], s), t) == MatchEnd(d, t + s)
  {
    if MatchEnd(d[t..], s).Some? {
      MatchMovedOn(d, t, s, MatchEnd(d[t..], s).value);
    } else if MatchEnd(d, t + s).Some? {
      MatchMovedBack(d, t, s, MatchEnd(d, t + s).value);
    }
  }

  lemma MatchMovedOn(d: Bytes, t: nat, s: nat, e: nat)
    requires t <= |d| && MatchEnd(d[t..], s) == Some(e)
    ensures MatchEnd(d, t + s) == Some(t + e)
  {
    MatchShift(d, t, s, e);
  }

  lemma MatchMovedBack(d: Bytes, t: nat, s: nat, e: nat)
    requires t <= |d| && MatchEnd(d, t + s) == Some(e)
    ensures t <= e && MatchEnd(d[t..], s) == Some(e - t)
  {
    MatchShift(d, t, s, e - t);
  }

  // ---------- What is found ----------

  /** Where the matches that a scan finds start and end. */
  function Spans(d: Bytes, i: nat): (spans: seq<(nat, nat)>)
    requires i <= |d|
    ensures forall k | 0 <= k < |spans| :: i <= spans[k].0 <= spans[k].1 <= |d|
    decreases |d| - i
  {
    if i == |d| then []
    else match MatchEnd(d, i)
      case Some(e) => [(i, e)] + Spans(d, e)
      case None => Spans(d, i + 1)
  }

  /** The match is what lies in the span, and a match of the pattern. */
  ghost predicate LiesIn(text: Bytes, d: Bytes, span: (nat, nat)) {
    span.0 <= span.1 <= |d| && text == d[span.0..span.1] && Matches(d, span.0, span.1)
  }

  ghost predicate AllLieIn(found: seq<Bytes>, d: Bytes, spans: seq<(nat, nat)>) {
    |found| == |spans| && forall k | 0 <= k < |found| :: LiesIn(found[k], d, spans[k])
  }

  /** Whatever is found is a match of the pattern. */
  lemma {:induction false} FoundIsPem(d: Bytes, i: nat)
    requires i <= |d|
    ensures AllLieIn(FindAll(PEM, d, i), d, Spans(d, i))
    decreases |d| - i
  {
    if i < |d| {
      if MatchEnd(d, i).Some? {
        var e := MatchEnd(d, i).value;
        MatchEndIsMatch(d, i);
        FoundIsPem(d, e);
        OneMoreLiesIn(d[i..e], (i, e), FindAll(PEM, d, e), Spans(d, e), d);
      } else {
        FoundIsPem(d, i + 1);
      }
    }
  }

  lemma OneMoreLiesIn(text: Bytes, span: (nat, nat), found: seq<Bytes>, spans: seq<(nat, nat)>, d: Bytes)
    requires LiesIn(text, d, span) && AllLieIn(found, d, spans)
    ensures AllLieIn([text] + found, d, [span] + spans)
  {
  }

  /** The span is from s to e, or has s in its last five dashes. */
  predicate Covers(span: (nat, nat), s: nat, e: nat) { span == (s, e) || span.0 < s < span.1 <= s + 5 }

  predicate Covered(spans: seq<(nat, nat)>, s: nat, e: nat) {
    exists k | 0 <= k < |spans| :: Covers(spans[k], s, e)
  }

  /** Every match of the pattern is found, unless it shares its first dashes with the end of one that is. */
  lemma EveryPemIsFound(d: Bytes, s: nat, e: nat)
    requires Matches(d, s, e)
    ensures Covered(Spans(d, 0), s, e)
  {
    MatchIsMatchEnd(d, s, e);
    EveryMatchIsFound(d, 0, s, e);
  }

  lemma {:induction false} EveryMatchIsFound(d: Bytes, i: nat, s: nat, e: nat)
    requires i <= s && MatchEnd(d, s) == Some(e)
    ensures i <= |d| && Covered(Spans(d, i), s, e)
    decreases |d| - i
  {
    if MatchEnd(d, i).None? {
      EveryMatchIsFound(d, i + 1, s, e);
    } else {
      var e0 := MatchEnd(d, i).value;
      var later := Spans(d, e0);
      if e0 <= s {
        EveryMatchIsFound(d, e0, s, e);
        CoveredBehind((i, e0), later, s, e);
      } else {
        if i < s {
          StartsInLastDashes(d, i, s);
        }
        assert Covers(([(i, e0)] + later)[0], s, e);
      }
    }
  }

  predicate Before(a: (nat, nat), b: (nat, nat)) { a.1 <= b.0 }

  predicate Apart(spans: seq<(nat, nat)>) {
    && (forall k | 0 <= k < |spans| :: spans[k].0 < spans[k].1)
    && (forall j, k | 0 <= j < k < |spans| :: Before(spans[j], spans[k]))
  }

  lemma {:induction false} SpansAreApart(d: Bytes, i: nat)
    requires i <= |d|
    ensures Apart(Spans(d, i))
    decreases |d| - i
  {
    if i < |d| {
      if MatchEnd(d, i).Some? {
        SpansAreApart(d, MatchEnd(d, i).value);
      } else {
        SpansAreApart(d, i + 1);
      }
    }
  }

  /** So a match is found exactly when it does not start inside one that is. */
  lemma FoundExactly(d: Bytes, s: nat, e: nat)
    requires Matches(d, s, e)
    ensures var spans := Spans(d, 0);
            (s, e) in spans <==> forall k | 0 <= k < |spans| :: !(spans[k].0 < s < spans[k].1)
  {
    EveryPemIsFound(d, s, e);
    SpansAreApart(d, 0);
    CoveredExactly(Spans(d, 0), s, e);
  }

  lemma CoveredExactly(spans: seq<(nat, nat)>, s: nat, e: nat)
    requires Apart(spans) && Covered(spans, s, e)
    ensures (s, e) in spans <==> forall k | 0 <= k < |spans| :: !(spans[k].0 < s < spans[k].1)
  {
    if j :| 0 <= j < |spans| && spans[j] == (s, e) {
      forall k | 0 <= k < |spans| ensures !(spans[k].0 < s < spans[k].1) {
        assert k < j ==> Before(spans[k], spans[j]);
        assert j < k ==> Before(spans[j], spans[k]);
      }
    }
  }

  /** A match that is not hidden itself starts before s and ends behind it. */
  ghost predicate Hidden(d: Bytes, s: nat)
    decreases s
  {
    exists s': nat, e': nat :: s' < s && s < e' && Matches(d, s', e') && !Hidden(d, s')
  }

  /** In terms of the input alone: a match is found exactly when it is not hidden. */
  lemma FoundIffNotHidden(d: Bytes, s: nat, e: nat)
    requires Matches(d, s, e)
    ensures (s, e) in Spans(d, 0) <==> !Hidden(d, s)
    decreases s
  {
    var spans := Spans(d, 0);
    FoundExactly(d, s, e);
    FoundIsPem(d, 0);
    if Hidden(d, s) {
      var s': nat, e': nat :| s' < s && s < e' && Matches(d, s', e') && !Hidden(d, s');
      FoundIffNotHidden(d, s', e');
      var k :| 0 <= k < |spans| && spans[k] == (s', e');
      assert spans[k].0 < s < spans[k].1;
    } else {
      forall k | 0 <= k < |spans| ensures !(spans[k].0 < s < spans[k].1) {
        if spans[k].0 < s {
          assert LiesIn(FindAll(PEM, d, 0)[k], d, spans[k]) && (spans[k].0, spans[k].1) == spans[k];
          FoundIffNotHidden(d, spans[k].0, spans[k].1);
        }
      }
    }
  }

  function Block(name: Bytes, body: Bytes): Bytes { BEGIN + (name + (DASHES + (body + Closing(name)))) }

  /** Two blocks that share five dashes are both matches, and the second is not found. */
  lemma SharedDashesHideABlock(name: Bytes, body: Bytes, name': Bytes, body': Bytes)
    requires name != "" && '-' !in name && IsBody(body) && name' != "" && '-' !in name' && IsBody(body')
    ensures var first := Block(name, body);
            var d := first + Block(name', body')[5..];
            && Matches(d, 0, |first|) && Matches(d, |first| - 5, |d|)
            && (|first| - 5, |d|) !in Spans(d, 0)
  {
    var first, second := Block(name, body), Block(name', body');
    var d := first + second[5..];
    EndsInDashes(name, body);
    EndsInDashes(name', body');
    Overlap(first, second);
    assert IsPem(first, name, body) && IsPem(second, name', body');
    FirstHides(d, |first|, |first| - 5);
  }

  lemma Overlap(first: Bytes, second: Bytes)
    requires |first| > 10 && |second| > 10 && first[|first| - 5..] == second[..5]
    ensures var d := first + second[5..]; d[0..|first|] == first && d[|first| - 5..|d|] == second
  {
    var d := first + second[5..];
    assert d[|first| - 5..|d|] == first[|first| - 5..] + second[5..];
  }

  /** A match at the start hides every match that starts inside it. */
  lemma FirstHides(d: Bytes, e: nat, s: nat)
    requires Matches(d, 0, e) && 0 < s < e && Matches(d, s, |d|)
    ensures (s, |d|) !in Spans(d, 0)
  {
    MatchIsMatchEnd(d, 0, e);
    var spans := Spans(d, 0);
    assert spans[0] == (0, e);
    FoundExactly(d, s, |d|);
  }

  lemma EndsInDashes(name: Bytes, body: Bytes)
    ensures var block := Block(name, body);
            |block| > 10 && block[|block| - 5..] == DASHES && block[..5] == DASHES
  {
    var block := Block(name, body);
    assert block == (BEGIN + (name + (DASHES + (body + (END + name))))) + DASHES;
  }

  lemma CoveredBehind(span: (nat, nat), later: seq<(nat, nat)>, s: nat, e: nat)
    requires Covered(later, s, e)
    ensures Covered([span] + later, s, e)
  {
    var k :| 0 <= k < |later| && Covers(later[k], s, e);
    assert Covers(([span] + later)[k + 1], s, e);
  }

  lemma StartsInLastDashes(d: Bytes, i: nat, s: nat)
    requires MatchEnd(d, i).Some? && MatchEnd(d, s).Some? && i < s < MatchEnd(d, i).value
    ensures MatchEnd(d, i).value <= s + 5
  {
    if s < MatchEnd(d, i).value - 5 {
      NoBeginInside(d, i, s);
    }
  }

  /** However the source is cut into blocks, the certificates reported are those of one scan of all of it. */
  method WalkPem(blocks: seq<Bytes>, unique: bool, h: Hashes) returns (calls: seq<Call>)
    ensures calls == Report(FindAll(PEM, Joined(blocks), 0), unique, h)
  {
    PemIsStreamable();
    calls := Walk(PEM, blocks, unique, h);
  }
}
