/** Two readers that wrap another one: the mbox reader that skips ">From " lines, and the source that
    can be peeked at. Whatever buffers their callers pass, the same bytes come out. */
module Readers {
  import opened Arithmetic
  import opened Options

  /** Bytes are characters with codes below 256. */
  type Bytes = string

  /** io.EOF or another error. */
  datatype Error = Eof | Other(code: int)

  /** Go's copy: as much as fits. */
  method Copy(dst: array<char>, at: nat, src: Bytes) returns (n: nat)
    requires at <= dst.Length
    modifies dst
    ensures n == Min(dst.Length - at, |src|)
    ensures dst[at..at + n] == src[..n] && dst[..at] == old(dst[..at])
  {
    n := Min(dst.Length - at, |src|);
    for k := 0 to n
      invariant dst[at..at + k] == src[..k] && dst[..at] == old(dst[..at])
    {
      dst[at + k] := src[k];
    }
  }

  // ---------- Skipping ">From " lines ----------

  const TOKEN := ">From "

  predicate Skipped(line: Bytes) { TOKEN <= line + "\n" }

  /** The kept lines, each with its line end. */
  function Kept(lines: seq<Bytes>): Bytes {
    if lines == [] then ""
    else (if Skipped(lines[0]) then "" else lines[0] + "\n") + Kept(lines[1..])
  }

  /** What is buffered, the ReadLine results still to come, and the error after the last of them. */
  datatype Skipper = Skipper(buf: Bytes, lines: seq<Bytes>, end: Error)

  /** The result of one Read: the bytes put into the caller's buffer, the error, and the new state. */
  datatype ReadResult = ReadResult(out: Bytes, err: Option<Error>, next: Skipper)

  function SkipperRead(s: Skipper, size: nat): ReadResult
    decreases |s.lines|
  {
    if s.buf != "" then
      var n := Min(size, |s.buf|);
      ReadResult(s.buf[..n], None, s.(buf := s.buf[n..]))
    else if s.lines == [] then ReadResult("\n"[..Min(size, 1)], Some(s.end), s)
    else if Skipped(s.lines[0]) then SkipperRead(s.(lines := s.lines[1..]), size)
    else
      var line := s.lines[0] + "\n";
      var n := Min(size, |line|);
      ReadResult(line[..n], None, Skipper(line[n..], s.lines[1..], s.end))
  }

  /** What is still to be read before the end. */
  function Remaining(s: Skipper): Bytes { s.buf + Kept(s.lines) }

  /** No read loses, repeats or reorders a byte; the end is reported when nothing is left, together with
      one more line end if the buffer has room; and a non-empty buffer always brings something. */
  lemma {:induction false} ReadKeepsOrder(s: Skipper, size: nat)
    ensures var r := SkipperRead(s, size);
            && |r.out| <= size
            && (r.err == None ==> r.out + Remaining(r.next) == Remaining(s) && (size > 0 ==> r.out != ""))
            && (r.err != None ==> Remaining(s) == "" && r.err == Some(s.end) && r.out == "\n"[..Min(size, 1)])
            && r.next.end == s.end
    decreases |s.lines|
  {
    if s.buf != "" {
      var n := Min(size, |s.buf|);
      assert s.buf == s.buf[..n] + s.buf[n..];
      assert s.buf + Kept(s.lines) == s.buf[..n] + (s.buf[n..] + Kept(s.lines));
    } else if s.lines != [] {
      if Skipped(s.lines[0]) {
        ReadKeepsOrder(s.(lines := s.lines[1..]), size);
        assert Remaining(s.(lines := s.lines[1..])) == Remaining(s);
      } else {
        var line := s.lines[0] + "\n";
        var n := Min(size, |line|);
        assert line == line[..n] + line[n..];
        assert Remaining(s) == line + Kept(s.lines[1..]) == line[..n] + (line[n..] + Kept(s.lines[1..]));
      }
    }
  }

  /** Reads with buffers of the given sizes, until one reports an error: everything read, whether the end
      was reached, and the size of the buffer that reached it. */
  datatype ReadAll = ReadAll(out: Bytes, ended: bool, lastSize: nat)

  function ReadSizes(s: Skipper, sizes: seq<nat>): ReadAll
    decreases |sizes|
  {
    if sizes == [] then ReadAll("", false, 0)
    else
      var r := SkipperRead(s, sizes[0]);
      if r.err != None then ReadAll(r.out, true, sizes[0])
      else
        var later := ReadSizes(r.next, sizes[1..]);
        later.(out := r.out + later.out)
  }

  /** Whatever the sizes: reads that reach the end have read the kept lines and one more line end, which
      only an empty last buffer loses; reads that do not have read a prefix of the kept lines. */
  lemma {:induction false} ReadsAreIndependentOfSizes(s: Skipper, sizes: seq<nat>)
    ensures var a := ReadSizes(s, sizes);
            && (a.ended ==> a.out == Remaining(s) + "\n"[..Min(a.lastSize, 1)] && a.lastSize in sizes)
            && (!a.ended ==> a.out <= Remaining(s))
    decreases |sizes|
  {
    if sizes != [] {
      var r := SkipperRead(s, sizes[0]);
      ReadKeepsOrder(s, sizes[0]);
      if r.err == None {
        var later := ReadSizes(r.next, sizes[1..]);
        ReadsAreIndependentOfSizes(r.next, sizes[1..]);
        if later.ended {
          var tail := "\n"[..Min(later.lastSize, 1)];
          assert r.out + (Remaining(r.next) + tail) == (r.out + Remaining(r.next)) + tail;
        } else {
          PrefixUnder(r.out, later.out, Remaining(r.next));
        }
      }
    }
  }

  /** At the end of one kept line: an empty buffer reports the end without the last line end, a buffer of
      one byte with it. */
  lemma EmptyBufferAtTheEnd(end: Error)
    ensures var s := Skipper("", ["a"], end);
            && ReadSizes(s, [2, 0]) == ReadAll("a\n", true, 0)
            && ReadSizes(s, [2, 1]) == ReadAll("a\n\n", true, 1)
  {
    var s, done := Skipper("", ["a"], end), Skipper("", [], end);
    assert !Skipped("a");
    assert SkipperRead(s, 2) == ReadResult("a\n", None, done);
    forall n: nat ensures ReadSizes(done, [n]) == ReadAll("\n"[..Min(n, 1)], true, n) {
    }
    assert [2, 0][1..] == [0] && [2, 1][1..] == [1];
  }

  lemma PrefixUnder(a: Bytes, b: Bytes, c: Bytes)
    requires b <= c
    ensures a + b <= a + c
  {
  }

  /** Enough reads with non-empty buffers do reach the end. */
  lemma {:induction false} ReadsReachTheEnd(s: Skipper, sizes: seq<nat>)
    requires |sizes| > |Remaining(s)| && forall k | 0 <= k < |sizes| :: sizes[k] > 0
    ensures ReadSizes(s, sizes).ended
    decreases |sizes|
  {
    var r := SkipperRead(s, sizes[0]);
    ReadKeepsOrder(s, sizes[0]);
    if r.err == None {
      assert |r.out| + |Remaining(r.next)| == |Remaining(s)|;
      ReadsReachTheEnd(r.next, sizes[1..]);
    }
  }

  class EscapedFromSkipperReader {
    var inner: seq<Bytes>
    const end: Error
    var buf: Bytes

    constructor (lines: seq<Bytes>, end: Error)
      ensures View() == Skipper("", lines, end)
    {
      inner, this.end, buf := lines, end, "";
    }

    function View(): Skipper
      reads this
    {
      Skipper(buf, inner, end)
    }

    method Read(p: array<char>) returns (n: nat, err: Option<Error>)
      modifies this, p
      ensures n <= p.Length
      ensures ReadResult(p[..n], err, View()) == SkipperRead(old(View()), p.Length)
    {
      err := None;
      if |buf| > 0 {
        n := Copy(p, 0, buf);
        buf := buf[n..];
        return;
      }
      while true
        invariant buf == "" && SkipperRead(View(), p.Length) == SkipperRead(old(View()), p.Length)
        decreases |inner|
      {
        if inner == [] {
          n := Copy(p, 0, "\n");
          return n, Some(end);
        }
        var line := inner[0] + "\n";
        n := Copy(p, 0, line);
        if TOKEN <= line {
          inner := inner[1..];
          continue;
        }
        inner := inner[1..];
        if |line| > p.Length {
          buf := line[n..];
        }
        return;
      }
    }
  }

  // ---------- A source that can be peeked at ----------

  /** An arbitrary reader over some data: each Read delivers any number of bytes that fits and is left,
      with or without an error. */
  class Source {
    const data: Bytes
    var at: nat

    ghost predicate Valid()
      reads this
    {
      at <= |data|
    }

    constructor (data: Bytes)
      ensures Valid() && this.data == data && at == 0
    {
      this.data, at := data, 0;
    }

    /** Reads into p from position `from` on; `want` and `err` are the reader's own choice. */
    method Read(p: array<char>, from: nat, want: nat, fault: Option<Error>) returns (n: nat, err: Option<Error>)
      requires Valid() && from <= p.Length
      modifies this, p
      ensures Valid() && old(at) <= at && n == at - old(at) <= p.Length - from && err == fault
      ensures n == Min(want, Min(p.Length - from, |data| - old(at)))
      ensures p[from..from + n] == data[old(at)..at] && p[..from] == old(p[..from])
    {
      var count := Min(want, |data| - at);
      n := Copy(p, from, data[at..at + count]);
      at := at + n;
      err := fault;
    }
  }

  class FilterSource {
    const source: Source
    const buf: Bytes
    var pos: nat

    ghost predicate Valid()
      reads this, source
    {
      && source.Valid() && pos <= |buf| <= source.at
      && buf == source.data[..|buf|]
      && (pos < |buf| ==> source.at == |buf|)
    }

    /** How much of the source's data has been delivered. */
    ghost function Delivered(): nat
      requires Valid()
      reads this, source
    {
      if pos < |buf| then pos else source.at
    }

    constructor (source: Source, buf: Bytes)
      requires source.Valid() && source.at == |buf| && buf == source.data[..|buf|]
      ensures Valid() && this.source == source && this.buf == buf && Delivered() == 0
    {
      this.source, this.buf, pos := source, buf, 0;
    }

    /** Reads on where the last Read stopped: first from the prefix, then from the source. */
    method Read(p: array<char>, want: nat, fault: Option<Error>) returns (copied: nat, err: Option<Error>)
      requires Valid()
      modifies this, source, p
      ensures Valid() && copied <= p.Length
      ensures Delivered() == old(Delivered()) + copied
      ensures p[..copied] == source.data[old(Delivered())..Delivered()]
      ensures err == None || err == fault
      ensures copied < p.Length ==> err == fault
      ensures p.Length > 0 && want > 0 && old(Delivered()) < |source.data| ==> copied > 0
    {
      copied, err := 0, None;
      if pos < |buf| {
        copied := Copy(p, 0, buf[pos..]);
        assert buf[pos..][..copied] == source.data[pos..pos + copied];
        pos := pos + copied;
      }
      ghost var front := p[..copied];
      assert front == source.data[old(Delivered())..old(Delivered()) + copied];
      if copied < p.Length {
        assert pos == |buf|;
        ghost var from, middle := copied, source.at;
        var n, e := source.Read(p, copied, want, fault);
        copied := copied + n;
        assert p[..copied] == p[..from] + p[from..copied];
        err := e;
      }
    }

    /** A copy of the prefix; nothing moves. */
    method Peek() returns (rv: Bytes)
      requires Valid()
      ensures rv == buf <= source.data
    {
      rv := buf;
    }
  }

  /** Fills the prefix with one Read of the source; an error of that Read is an error here, even if it
      came with bytes. */
  method NewFilterSource(source: Source, bufferLen: nat, want: nat, fault: Option<Error>)
    returns (fs: FilterSource?, err: Option<Error>)
    requires source.Valid() && source.at == 0
    modifies source
    ensures err == fault && (fs == null <==> err != None)
    ensures fs != null ==>
              && fresh(fs) && fs.Valid() && fs.source == source && fs.Delivered() == 0
              && |fs.buf| == Min(want, Min(bufferLen, |source.data|))
  {
    var b := new char[bufferLen](_ => '\0');
    var n, e := source.Read(b, 0, want, fault);
    if e != None {
      return null, e;
    }
    assert b[..n] == source.data[..n];
    err := None;
    fs := new FilterSource(source, b[..n]);
  }

  /** Reading through a FilterSource with buffers of any sizes, and readers that deliver as they please,
      gives the data of the source from its start; and all of it, when no buffer is empty, the source
      delivers something each time, and there are as many reads as bytes. */
  method ReadThrough(fs: FilterSource, sizes: seq<nat>, wants: seq<nat>, faults: seq<Option<Error>>)
    returns (out: Bytes)
    requires fs.Valid() && fs.Delivered() == 0 && |sizes| == |wants| == |faults|
    modifies fs, fs.source
    ensures fs.Valid() && out == fs.source.data[..fs.Delivered()]
    ensures (forall k | 0 <= k < |sizes| :: sizes[k] > 0 && wants[k] > 0) && |sizes| >= |fs.source.data| ==>
              out == fs.source.data
  {
    out := "";
    for i := 0 to |sizes|
      invariant fs.Valid() && out == fs.source.data[..fs.Delivered()]
      invariant (forall k | 0 <= k < |sizes| :: sizes[k] > 0 && wants[k] > 0) ==>
                  fs.Delivered() >= Min(i, |fs.source.data|)
    {
      var p := new char[sizes[i]](_ => '\0');
      ghost var before := fs.Delivered();
      var n, err := fs.Read(p, wants[i], faults[i]);
      assert fs.source.data[..fs.Delivered()] == fs.source.data[..before] + fs.source.data[before..fs.Delivered()];
      out := out + p[..n];
    }
  }
}
