/** The power logger: the line its C firmware prints for a sample, and the Go client that parses it. */
module PowerLog {
  import opened Options
  import Arithmetic
  import opened Strings

  // ---------- The firmware ----------

  /** What reading one channel gives: the shunt voltage in uV (int32) and the bus voltage in mV (int16),
      or an I2C error. */
  datatype Reading = Failed | Good(shunt: int, bus: int)

  const TWO32 := 0x1_0000_0000
  const BUFFER_SIZE := 96
  const SHUNT_MILLIS := 20

  /** The 32-bit counter, one up and one down. */
  function NextId(id: nat): nat { if id + 1 == TWO32 then 0 else id + 1 }
  function PreviousId(id: nat): nat { if id == 0 then TWO32 - 1 else id - 1 }

  predicate ValidReading(r: Reading) {
    r.Good? ==> FitsInt32(r.shunt) && -0x8000 <= r.bus < 0x8000
  }

  predicate ValidSample(id: nat, rs: seq<Reading>) {
    id < TWO32 && |rs| == 3 && forall k | 0 <= k < 3 :: ValidReading(rs[k])
  }

  /** `shunt_voltage_to_current`: C division truncates toward zero. */
  function Milliamps(uvolts: int): int {
    if uvolts < 0 then -(-uvolts / SHUNT_MILLIS) else uvolts / SHUNT_MILLIS
  }

  /** The counter counts modulo 2^32, and one down undoes one up. */
  lemma Counter(id: nat)
    requires id < TWO32
    ensures NextId(id) == (id + 1) % 0x1_0000_0000 && PreviousId(NextId(id)) == id
  {
  }

  /** The current through a shunt of 20 milliohms, in whole milliamperes towards zero. */
  lemma Current(uvolts: int)
    ensures var ma := Milliamps(uvolts);
            if uvolts >= 0 then ma >= 0 && 20 * ma <= uvolts < 20 * ma + 20
            else ma <= 0 && 20 * ma - 20 < uvolts <= 20 * ma
  {
  }

  predicate AllGood(rs: seq<Reading>) { forall k | 0 <= k < |rs| :: rs[k].Good? }

  /** What one channel prints, and what the channels of a sample print. */
  function ChannelText(r: Reading): Option<string> {
    if r.Failed? then None else Some(PrintPadded(5, r.bus) + "|" + PrintPadded(7, Milliamps(r.shunt)) + "|")
  }

  function ChannelTexts(rs: seq<Reading>): (texts: seq<Option<string>>)
    ensures |texts| == |rs| && forall k | 0 <= k < |rs| :: texts[k] == ChannelText(rs[k])
  {
    seq(|rs|, k requires 0 <= k < |rs| => ChannelText(rs[k]))
  }

  function Concat(texts: seq<Option<string>>): string {
    if texts == [] then ""
    else
      var last := texts[|texts| - 1];
      Concat(texts[..|texts| - 1]) + if last.Some? then last.value else ""
  }

  predicate AllPrinted(texts: seq<Option<string>>) { forall k | 0 <= k < |texts| :: texts[k].Some? }

  /** A line: the channels after the id, or FAIL when one of them printed nothing. */
  function LineText(id: string, texts: seq<Option<string>>): string {
    id + "|" + if AllPrinted(texts) then Concat(texts) + "\n" else "FAIL\n"
  }

  /** The line written for a sample. */
  function SampleLine(id: nat, rs: seq<Reading>): string {
    LineText(PrintPadded(8, id), ChannelTexts(rs))
  }

  lemma PaddedLength(width: nat, n: nat, k: nat)
    requires 0 < k && n < Power10(k) && width <= k
    ensures |Pad(width, Digits(n, Dec))| <= k
  {
    DecimalLength(n, k);
  }

  lemma PowersOfTen()
    ensures Power10(5) == 100_000 && Power10(10) == 10_000_000_000
  {
    assert Power10(5) == 10 * 10 * 10 * 10 * 10;
  }

  lemma IdFits(id: nat)
    requires id < TWO32
    ensures |PrintPadded(8, id)| <= 10
  {
    PowersOfTen();
    PaddedLength(8, id, 10);
  }

  lemma NumberFits(width: nat, n: int, k: nat)
    requires 0 < width <= k && -(Power10(k) as int) < n < Power10(k)
    ensures |PrintPadded(width, n)| <= k + 1
  {
    var w: nat := if n < 0 then width - 1 else width;
    var m: nat := if n < 0 then -n else n;
    PaddedLength(w, m, k);
    var digits := Pad(w, Digits(m, Dec));
    assert PrintPadded(width, n) == if n < 0 then "-" + digits else digits;
  }

  /** Whatever is read, a channel prints at most 19 characters: even a full line is far from the end of
      the 96-byte buffer. */
  lemma ChannelFits(r: Reading)
    requires ValidReading(r)
    ensures ChannelText(r).Some? ==> |ChannelText(r).value| <= 19
  {
    if r.Good? {
      PowersOfTen();
      NumberFits(5, r.bus, 5);
      NumberFits(7, Milliamps(r.shunt), 10);
    }
  }

  /** C's snprintf: at most size - 1 characters and a NUL; returns the length it wanted to write. */
  /** A usual sample, with an id below 10^8 and readings that are not negative and below 10 kA, prints a
      line of 52 characters: 8 digits for the id, 5 for each voltage and 7 for each current. */
  lemma UsualLine(id: nat, rs: seq<Reading>)
    requires ValidSample(id, rs) && AllGood(rs) && id < 100_000_000
    requires forall k | 0 <= k < 3 :: rs[k].bus >= 0 && 0 <= Milliamps(rs[k].shunt) < 10_000_000
    ensures |SampleLine(id, rs)| == 52
  {
    assert Power10(8) == 100_000_000 && Power10(7) == 10_000_000 && Power10(5) == 100_000;
    UsualNumber(8, id);
    var texts := ChannelTexts(rs);
    forall k | 0 <= k < 3 ensures texts[k].Some? && |texts[k].value| == 14 {
      UsualNumber(5, rs[k].bus);
      UsualNumber(7, Milliamps(rs[k].shunt));
    }
    assert texts[..2][..1] == texts[..1] && texts[..1][..0] == [] && texts[..3] == texts;
    assert |Concat(texts[..1])| == 14;
    assert |Concat(texts[..2])| == 28 by { assert texts[..2][1] == texts[1]; }
    assert |Concat(texts)| == 42;
  }

  lemma UsualNumber(width: nat, n: nat)
    requires width > 0 && n < Power10(width)
    ensures |PrintPadded(width, n)| == width
  {
    DecimalLength(n, width);
  }

  method Snprintf(buf: array<char>, at: nat, size: nat, s: string) returns (n: nat)
    requires 0 < size && at + size <= buf.Length
    modifies buf
    ensures n == |s|
    ensures |s| < size ==> buf[at..at + |s|] == s && buf[at + |s|] == '\0'
    ensures buf[..at] == old(buf[..at])
    ensures forall k | at + size <= k < buf.Length :: buf[k] == old(buf[k])
  {
    var m := if |s| < size then |s| else size - 1;
    for k := 0 to m
      invariant buf[at..at + k] == s[..k]
      invariant buf[..at] == old(buf[..at])
      invariant forall j | at + size <= j < buf.Length :: buf[j] == old(buf[j])
    {
      buf[at + k] := s[k];
    }
    buf[at + m] := '\0';
    n := |s|;
  }

  /** Appends a text that fits to a buffer of which `used` characters are filled. */
  method Append(buf: array<char>, used: nat, text: string) returns (used': nat)
    requires used + |text| < buf.Length
    modifies buf
    ensures used' == used + |text| && buf[..used'] == old(buf[..used]) + text
  {
    var n := Snprintf(buf, used, buf.Length - used, text);
    used' := used + n;
    assert buf[..used'] == buf[..used] + buf[used..used'];
  }

  class Firmware {
    var sampleId: nat

    ghost predicate Valid()
      reads this
    {
      sampleId < TWO32
    }

    constructor ()
      ensures Valid() && sampleId == 0
    {
      sampleId := 0;
    }

    /** Prints one sample and returns what goes to the serial port. */
    method SampleReportOnce(readings: seq<Reading>) returns (written: string)
      requires Valid() && ValidSample(sampleId, readings)
      modifies this
      ensures Valid() && sampleId == NextId(old(sampleId))
      ensures written == SampleLine(old(sampleId), readings)
      ensures |written| <= 70 < BUFFER_SIZE
    {
      var id := PrintPadded(8, sampleId);
      IdFits(sampleId);
      sampleId := NextId(sampleId);
      forall k | 0 <= k < 3 ensures readings[k].Good? ==> |ChannelText(readings[k]).value| <= 19 {
        ChannelFits(readings[k]);
      }
      written := PrintLine(id, PrintPadded(8, PreviousId(sampleId)), ChannelTexts(readings));
    }

    /** Fills the line buffer: the id, then each channel that can be read; after a failure, all over
        again with the previous value of the counter, which is the id. */
    static method PrintLine(id: string, previous: string, channels: seq<Option<string>>) returns (written: string)
      requires |id| <= 10 && previous == id
      requires |channels| == 3 && forall k | 0 <= k < 3 :: channels[k].Some? ==> |channels[k].value| <= 19
      ensures written == LineText(id, channels)
      ensures |written| <= 70
    {
      var buf := new char[BUFFER_SIZE](_ => '\0');
      var used: nat := Append(buf, 0, id + "|");
      var fail: bool;
      used, fail := AppendChannels(buf, used, channels);
      if !fail {
        used := Append(buf, used, "\n");
        written := buf[..used];
        MoveBars(id + "|", Concat(channels), "\n");
      } else {
        used := Append(buf, 0, previous + "|FAIL\n");
        written := buf[..used];
        MoveBars(id, "|", "FAIL\n");
      }
    }

    static method AppendChannels(buf: array<char>, start: nat, channels: seq<Option<string>>)
      returns (used: nat, fail: bool)
      requires buf.Length == BUFFER_SIZE && start <= 11
      requires |channels| == 3 && forall k | 0 <= k < 3 :: channels[k].Some? ==> |channels[k].value| <= 19
      modifies buf
      ensures fail == !AllPrinted(channels)
      ensures used <= 68 && buf[..used] == old(buf[..start]) + Concat(channels)
    {
      used, fail := start, false;
      assert old(buf[..start]) + Concat(channels[..0]) == old(buf[..start]);
      for i := 0 to 3
        invariant fail == !AllPrinted(channels[..i])
        invariant used <= 11 + 19 * i
        invariant buf[..used] == old(buf[..start]) + Concat(channels[..i])
      {
        NextChannel(channels, i);
        if channels[i].None? {
          fail := true;
          continue;
        }
        used := Append(buf, used, channels[i].value);
      }
      assert channels[..3] == channels;
    }
  }

  lemma MoveBars(a: string, b: string, c: string)
    ensures a + b + c == a + (b + c)
  {
  }

  lemma NextChannel(texts: seq<Option<string>>, i: nat)
    requires i < |texts|
    ensures Concat(texts[..i + 1]) == Concat(texts[..i]) + if texts[i].Some? then texts[i].value else ""
    ensures AllPrinted(texts[..i + 1]) <==> AllPrinted(texts[..i]) && texts[i].Some?
  {
    var next := texts[..i + 1];
    assert next[..i] == texts[..i];
    assert next[i] == texts[i] && forall k | 0 <= k < i :: next[k] == texts[..i][k];
  }

  // ---------- The client ----------

  datatype Record = Record(sampleId: nat, channelId: nat, millivolts: int, milliamps: int)

  /** Panic is a Go run-time panic: an index out of range. */
  datatype Outcome = Records(records: seq<Record>) | Error | Panic

  function Pieces(line: string): (r: seq<string>)
    ensures r != []
  {
    Split(TrimRight(line, "| \n"), '|')
  }

  predicate AllNumbers(pieces: seq<string>) { forall k | 0 <= k < |pieces| :: ParseInt32(pieces[k]).Some? }

  /** What parsing a line means: every piece must be a number, and the numbers after the counter come
      in pairs, one pair a channel. */
  ghost predicate Means(line: string, r: Outcome) {
    var pieces := Pieces(line);
    if !AllNumbers(pieces) then r == Error
    else if |pieces| % 2 == 0 then r == Panic
    else
      && r.Records?
      && |r.records| == |pieces| / 2
      && forall k | 0 <= k < |r.records| :: r.records[k] == PairRecord(pieces, k)
  }

  function PairRecord(pieces: seq<string>, k: nat): Record
    requires 2 * k + 2 < |pieces| && AllNumbers(pieces[..2 * k + 3])
  {
    var n := pieces[..2 * k + 3];
    Record(ParseInt32(n[0]).value % TWO32, (k + 1) % 256,
           ParseInt32(n[2 * k + 1]).value, ParseInt32(n[2 * k + 2]).value)
  }

  ghost predicate ParsedSoFar(pieces: seq<string>, res: seq<Record>) {
    && 2 * |res| < |pieces| && AllNumbers(pieces[..2 * |res| + 1])
    && forall k | 0 <= k < |res| :: AllNumbers(pieces[..2 * k + 3]) && res[k] == PairRecord(pieces, k)
  }

  lemma ParsedOneMore(pieces: seq<string>, res: seq<Record>)
    requires ParsedSoFar(pieces, res) && 2 * |res| + 2 < |pieces|
    requires ParseInt32(pieces[2 * |res| + 1]).Some? && ParseInt32(pieces[2 * |res| + 2]).Some?
    ensures AllNumbers(pieces[..2 * |res| + 3]) && ParsedSoFar(pieces, res + [PairRecord(pieces, |res|)])
  {
    var before, n := pieces[..2 * |res| + 1], pieces[..2 * |res| + 3];
    assert n == before + [pieces[2 * |res| + 1], pieces[2 * |res| + 2]];
  }

  lemma NextRecord(pieces: seq<string>, k: nat)
    requires 2 * k + 2 < |pieces| && AllNumbers(pieces[..2 * k + 3])
    ensures ParseInt32(pieces[0]).Some?
    ensures PairRecord(pieces, k) ==
            Record(ParseInt32(pieces[0]).value % TWO32, (k + 1) % 256,
                   ParseInt32(pieces[2 * k + 1]).value, ParseInt32(pieces[2 * k + 2]).value)
    ensures ((k + 1) % 256 + 1) % 256 == (k + 2) % 256
  {
    Arithmetic.ModStep(k + 1, 256);
    assert pieces[..2 * k + 3][0] == pieces[0];
  }

  lemma NotANumber(line: string, k: nat)
    requires k < |Pieces(line)| && ParseInt32(Pieces(line)[k]).None?
    ensures Means(line, Error)
  {
  }

  lemma OddOneOut(line: string, res: seq<Record>)
    requires ParsedSoFar(Pieces(line), res) && |Pieces(line)| == 2 * |res| + 2
    requires ParseInt32(Pieces(line)[2 * |res| + 1]).Some?
    ensures Means(line, Panic)
  {
    var pieces := Pieces(line);
    assert pieces == pieces[..2 * |res| + 1] + [pieces[2 * |res| + 1]];
  }

  lemma AllParsed(line: string, res: seq<Record>)
    requires ParsedSoFar(Pieces(line), res) && |Pieces(line)| == 2 * |res| + 1
    ensures Means(line, Records(res))
  {
    assert Pieces(line)[..|Pieces(line)|] == Pieces(line);
  }

  method ParseRecords(line: string) returns (r: Outcome)
    ensures Means(line, r)
  {
    var pieces := Pieces(line);
    var chId := 1;
    var counter := ParseInt32(pieces[0]);
    if counter.None? {
      NotANumber(line, 0);
      return Error;
    }
    var res: seq<Record> := [];
    var i := 1;
    while i < |pieces|
      invariant i == 2 * |res| + 1 && chId == (|res| + 1) % 256
      invariant ParsedSoFar(pieces, res)
    {
      var mv := ParseInt32(pieces[i]);
      if mv.None? {
        NotANumber(line, i);
        return Error;
      }
      if i + 1 >= |pieces| {
        OddOneOut(line, res);
        return Panic;
      }
      var ma := ParseInt32(pieces[i + 1]);
      if ma.None? {
        NotANumber(line, i + 1);
        return Error;
      }
      ParsedOneMore(pieces, res);
      NextRecord(pieces, |res|);
      res := res + [Record(counter.value % TWO32, chId, mv.value, ma.value)];
      chId := (chId + 1) % 256;
      i := i + 2;
    }
    AllParsed(line, res);
    r := Records(res);
  }

  // ---------- Printed, then parsed ----------

  /** The texts of the channels, and the line and the pieces made of them. */
  function Texts(rs: seq<Reading>): seq<(string, string)>
    requires AllGood(rs)
  {
    seq(|rs|, k requires 0 <= k < |rs| => (PrintPadded(5, rs[k].bus), PrintPadded(7, Milliamps(rs[k].shunt))))
  }

  function PairsText(ps: seq<(string, string)>): string {
    if ps == [] then ""
    else
      var last := ps[|ps| - 1];
      PairsText(ps[..|ps| - 1]) + (last.0 + "|" + last.1 + "|")
  }

  function LinePieces(id: string, ps: seq<(string, string)>): (p: seq<string>)
    ensures |p| == 2 * |ps| + 1 && p[0] == id
    ensures forall k | 0 <= k < |ps| :: p[2 * k + 1] == ps[k].0 && p[2 * k + 2] == ps[k].1
  {
    if ps == [] then [id]
    else
      var last := ps[|ps| - 1];
      LinePieces(id, ps[..|ps| - 1]) + [last.0, last.1]
  }

  lemma {:induction false} TextsOfChannels(rs: seq<Reading>)
    requires AllGood(rs)
    ensures Concat(ChannelTexts(rs)) == PairsText(Texts(rs))
  {
    if rs != [] {
      var front := rs[..|rs| - 1];
      TextsOfChannels(front);
      assert Texts(rs)[..|rs| - 1] == Texts(front);
      assert ChannelTexts(rs)[..|rs| - 1] == ChannelTexts(front);
    }
  }

  lemma JoinTwo(a: string, b: string)
    ensures Join([a, b], '|') == a + "|" + b
  {
    assert [a, b][1..] == [b];
  }

  lemma {:induction false} LineIsJoined(id: string, ps: seq<(string, string)>)
    ensures id + "|" + PairsText(ps) == Join(LinePieces(id, ps), '|') + "|"
  {
    if ps != [] {
      var front, last := ps[..|ps| - 1], ps[|ps| - 1];
      LineIsJoined(id, front);
      JoinAppend(LinePieces(id, front), [last.0, last.1], '|');
      JoinTwo(last.0, last.1);
      var before, pair := PairsText(front), last.0 + "|" + last.1;
      assert PairsText(ps) == before + (pair + "|");
      assert id + "|" + (before + (pair + "|")) == (id + "|" + before) + pair + "|";
    }
  }

  predicate CleanPiece(s: string) { s != "" && '|' !in s && s[|s| - 1] !in "| \n" }

  lemma PrintedIsClean(width: nat, n: int)
    ensures CleanPiece(PrintPadded(width, n))
  {
    PrintedChars(width, n, '|');
    PrintedChars(width, n, ' ');
    PrintedChars(width, n, '\n');
  }

  lemma {:induction false} JoinEnd(parts: seq<string>, sep: char)
    requires parts != [] && parts[|parts| - 1] != ""
    ensures var s, last := Join(parts, sep), parts[|parts| - 1];
            s != "" && s[|s| - 1] == last[|last| - 1]
  {
    if |parts| > 1 {
      JoinEnd(parts[1..], sep);
    }
  }

  predicate CleanPairs(ps: seq<(string, string)>) {
    forall k | 0 <= k < |ps| :: CleanPiece(ps[k].0) && CleanPiece(ps[k].1)
  }

  lemma {:induction false} PiecesAreClean(id: string, ps: seq<(string, string)>)
    requires CleanPiece(id) && CleanPairs(ps)
    ensures forall k | 0 <= k < |LinePieces(id, ps)| :: CleanPiece(LinePieces(id, ps)[k])
  {
    if ps != [] {
      PiecesAreClean(id, ps[..|ps| - 1]);
    }
  }

  /** The pieces the client sees of a line, with or without its line end, are those it was made of. */
  lemma PiecesOfLine(id: string, ps: seq<(string, string)>, end: string)
    requires CleanPiece(id) && CleanPairs(ps)
    requires end in {"", "\n"}
    ensures Pieces(id + "|" + PairsText(ps) + end) == LinePieces(id, ps)
  {
    var p := LinePieces(id, ps);
    var joined := Join(p, '|');
    LineIsJoined(id, ps);
    PiecesAreClean(id, ps);
    JoinEnd(p, '|');
    assert joined + "|" + end == joined + ("|" + end);
    TrimRightTail(joined, "|" + end, "| \n");
    SplitJoin(p, '|');
  }

  lemma TextsAreClean(rs: seq<Reading>)
    requires AllGood(rs)
    ensures CleanPairs(Texts(rs))
  {
    forall k | 0 <= k < |rs|
      ensures CleanPiece(Texts(rs)[k].0) && CleanPiece(Texts(rs)[k].1)
    {
      PrintedIsClean(5, rs[k].bus);
      PrintedIsClean(7, Milliamps(rs[k].shunt));
    }
  }

  lemma TextsParse(rs: seq<Reading>, k: nat)
    requires AllGood(rs) && k < |rs| && ValidReading(rs[k])
    ensures ParseInt32(Texts(rs)[k].0) == Some(rs[k].bus)
    ensures ParseInt32(Texts(rs)[k].1) == Some(Milliamps(rs[k].shunt))
  {
    ParsePrinted(5, rs[k].bus);
    ParsePrinted(7, Milliamps(rs[k].shunt));
  }

  /** A printed sample without failures parses back to its id and readings, channel by channel, exactly
      when its id fits a signed 32-bit number; otherwise it is rejected. */
  lemma GoodSampleRoundTrip(id: nat, rs: seq<Reading>, end: string, r: Outcome)
    requires ValidSample(id, rs) && AllGood(rs) && end in {"", "\n"}
    requires Means(PrintPadded(8, id) + "|" + Concat(ChannelTexts(rs)) + end, r)
    ensures id >= 0x8000_0000 ==> r == Error
    ensures id < 0x8000_0000 ==> r.Records? && |r.records| == 3
    ensures id < 0x8000_0000 ==> forall k | 0 <= k < 3 ::
              r.records[k] == Record(id, k + 1, rs[k].bus, Milliamps(rs[k].shunt))
  {
    var ps := Texts(rs);
    var p := LinePieces(PrintPadded(8, id), ps);
    TextsOfChannels(rs);
    TextsAreClean(rs);
    PrintedIsClean(8, id);
    PiecesOfLine(PrintPadded(8, id), ps, end);
    ParsePrinted(8, id);
    forall k | 0 <= k < 3
      ensures ChannelParses(p, rs, k)
    {
      TextsParse(rs, k);
    }
    MeaningOfNumbers(p, id, rs);
  }

  predicate ChannelParses(p: seq<string>, rs: seq<Reading>, k: nat)
    requires 2 * k + 2 < |p| && k < |rs| && rs[k].Good?
  {
    ParseInt32(p[2 * k + 1]) == Some(rs[k].bus) && ParseInt32(p[2 * k + 2]) == Some(Milliamps(rs[k].shunt))
  }

  lemma MeaningOfNumbers(p: seq<string>, id: nat, rs: seq<Reading>)
    requires ValidSample(id, rs) && AllGood(rs) && |p| == 7
    requires ParseInt32(p[0]) == if FitsInt32(id) then Some(id) else None
    requires forall k | 0 <= k < 3 :: ChannelParses(p, rs, k)
    ensures AllNumbers(p) <==> id < 0x8000_0000
    ensures AllNumbers(p) ==> forall k | 0 <= k < 3 ::
              PairRecord(p, k) == Record(id, k + 1, rs[k].bus, Milliamps(rs[k].shunt))
  {
    AllNumbersWithId(p, rs);
    assert AllNumbers(p) <==> FitsInt32(id);
    forall k | 0 <= k < 3 && AllNumbers(p)
      ensures PairRecord(p, k) == Record(id, k + 1, rs[k].bus, Milliamps(rs[k].shunt))
    {
      assert ChannelParses(p, rs, k);
    }
  }

  lemma AllNumbersWithId(p: seq<string>, rs: seq<Reading>)
    requires |p| == 7 && |rs| == 3 && AllGood(rs) && forall k | 0 <= k < 3 :: ChannelParses(p, rs, k)
    ensures AllNumbers(p) <==> ParseInt32(p[0]).Some?
  {
    assert ChannelParses(p, rs, 0) && ChannelParses(p, rs, 1) && ChannelParses(p, rs, 2);
    assert p == [p[0], p[1], p[2], p[3], p[4], p[5], p[6]];
  }

  /** The firmware's line for a good sample is the text of that round trip. */
  lemma GoodSampleLine(id: nat, rs: seq<Reading>)
    requires AllGood(rs)
    ensures SampleLine(id, rs) == PrintPadded(8, id) + "|" + Concat(ChannelTexts(rs)) + "\n"
  {
    var id', texts := PrintPadded(8, id), Concat(ChannelTexts(rs));
    assert id' + "|" + texts + "\n" == id' + "|" + (texts + "\n");
  }

  /** The parser does panic: a line cut off behind the first reading of a channel has two good pieces. */
  lemma CutLinePanics(r: Outcome)
    requires Means("7|5000", r)
    ensures r == Panic
  {
    assert TrimRight("7|5000", "| \n") == "7|5000";
    SplitFirst("7", '|', "5000");
    SplitNone("5000", '|');
    assert "7" + ['|'] + "5000" == "7|5000";
    assert Pieces("7|5000") == ["7", "5000"];
    FourDigits();
  }

  lemma FourDigits()
    ensures ParseInt32("7").Some? && ParseInt32("5000").Some?
  {
    var d := "5000";
    assert DigitValue('5', Dec) == Some(5) && DigitValue('0', Dec) == Some(0) && DigitValue('7', Dec) == Some(7) by {
      DigitRoundTrip(5, Dec);
      DigitRoundTrip(0, Dec);
      DigitRoundTrip(7, Dec);
    }
    assert d[..3] == "500" && "500"[..2] == "50" && "50"[..1] == "5" && "5"[..0] == "" && "7"[..0] == "";
    assert DigitsValue("5", Dec) == Some(5);
    assert DigitsValue("50", Dec) == Some(50);
    assert DigitsValue("500", Dec) == Some(500);
    assert DigitsValue(d, Dec) == Some(5000) && DigitsValue("7", Dec) == Some(7);
  }

  /** A FAIL line is always rejected, whatever its id. */
  lemma FailedSampleIsRejected(id: nat, rs: seq<Reading>, r: Outcome)
    requires !AllGood(rs)
    requires Means(SampleLine(id, rs), r)
    ensures r == Error
  {
    var head := PrintPadded(8, id);
    PrintedIsClean(8, id);
    assert SampleLine(id, rs) == (head + "|" + "FAIL") + "\n";
    TrimRightTail(head + "|" + "FAIL", "\n", "| \n");
    SplitFirst(head, '|', "FAIL");
    SplitNone("FAIL", '|');
    assert Pieces(SampleLine(id, rs))[1] == "FAIL";
    FailIsNoNumber();
  }

  lemma FailIsNoNumber()
    ensures ParseInt32("FAIL").None?
  {
    assert DigitValue("FAIL"[3], Dec).None?;
  }
}
