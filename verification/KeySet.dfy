/** The authorized_keys manager: what it writes it loads again, and what its edits keep. */
module KeySet {
  import opened Options
  import opened Strings

  /** The key blob of a public key. */
  type PubKey = string

  const MANAGED_TAG := "sshkeymgr:"

  /** ssh.ParseAuthorizedKey and the two fingerprints: arbitrary functions, but an empty line is no key. */
  datatype Ssh = Ssh(parse: string -> Option<PubKey>, sha256: PubKey -> string, md5: PubKey -> string) {
    ghost predicate Valid() { parse("").None? }
  }

  /** A key without its shortname, which is not written. */
  datatype Key = Key(comments: seq<string>, line: string, pubkey: PubKey, managed: bool)

  datatype Error = NoKeydata | BadKeyLine | SeveralKeys | NoKeyLine

  predicate IsComment(line: string) { "#" <= line }

  predicate AnyTagged(comments: seq<string>) {
    exists k | 0 <= k < |comments| :: Contains(comments[k], MANAGED_TAG)
  }

  // ---------- Writing ----------

  function WriteKeydata(k: Key): string { Join(k.comments, '\n') + "\n" + k.line + "\n" }

  function WriteKeySet(ks: seq<Key>): string {
    if ks == [] then "" else WriteKeydata(ks[0]) + WriteKeySet(ks[1..])
  }

  // ---------- Loading ----------

  /** The lines a scanner yields: a line end at the end of the text starts no further line. A carriage
      return before a line end is dropped by the scanner or by the trimming that follows. */
  function Lines(text: string): seq<string> {
    var parts := Split(text, '\n');
    if parts[|parts| - 1] == "" then parts[..|parts| - 1] else parts
  }

  /** Reads keys off the lines; `pending` holds the comments of the key being read. */
  function LoadLines(lines: seq<string>, pending: seq<string>, ssh: Ssh): Result<seq<Key>, Error> {
    if lines == [] then if pending == [] then Ok([]) else Err(NoKeydata)
    else
      var line := TrimSpace(lines[0]);
      if line == "" && pending == [] then LoadLines(lines[1..], pending, ssh)
      else if IsComment(line) then LoadLines(lines[1..], pending + [line], ssh)
      else match ssh.parse(line)
        case None => Err(BadKeyLine)
        case Some(pk) =>
          var later := LoadLines(lines[1..], [], ssh);
          if later.Err? then later else Ok([Key(pending, line, pk, AnyTagged(pending))] + later.value)
  }

  function LoadKeySet(text: string, ssh: Ssh): Result<seq<Key>, Error> { LoadLines(Lines(text), [], ssh) }

  // ---------- Which key sets survive writing and loading ----------

  predicate CleanLine(line: string) { IsTrimmed(line) && '\n' !in line }

  /** Comments are trimmed single lines that start with #; the key line is one too, starts otherwise and
      parses to the key; the managed flag says whether a comment carries the tag. */
  predicate Clean(k: Key, ssh: Ssh) {
    && (forall i | 0 <= i < |k.comments| :: CommentLine(k.comments[i]))
    && CleanLine(k.line) && !IsComment(k.line)
    && ssh.parse(k.line) == Some(k.pubkey)
    && k.managed == AnyTagged(k.comments)
  }

  predicate AllClean(ks: seq<Key>, ssh: Ssh) { forall i | 0 <= i < |ks| :: Clean(ks[i], ssh) }

  /** The lines a key is written as: an empty one stands for no comments. */
  function KeyLines(k: Key): seq<string> {
    (if k.comments == [] then [""] else k.comments) + [k.line]
  }

  function Terminated(lines: seq<string>): string {
    if lines == [] then "" else lines[0] + "\n" + Terminated(lines[1..])
  }

  lemma {:induction false} TerminatedJoin(lines: seq<string>, last: string)
    requires lines != []
    ensures Terminated(lines + [last]) == Join(lines, '\n') + "\n" + last + "\n"
  {
    assert (lines + [last])[1..] == lines[1..] + [last];
    if |lines| == 1 {
      assert lines + [last] == [lines[0], last] && [lines[0], last][1..] == [last] && [last][1..] == [];
      assert Terminated([last]) == last + "\n";
    } else {
      TerminatedJoin(lines[1..], last);
      var rest := Join(lines[1..], '\n') + "\n" + last + "\n";
      assert lines[0] + "\n" + rest == (lines[0] + "\n" + Join(lines[1..], '\n')) + "\n" + last + "\n";
    }
  }

  lemma WrittenLines(k: Key)
    ensures WriteKeydata(k) == Terminated(KeyLines(k))
  {
    if k.comments == [] {
      TerminatedJoin([""], k.line);
      assert Join([""], '\n') == "";
    } else {
      TerminatedJoin(k.comments, k.line);
    }
  }

  lemma LinesFirst(a: string, rest: string)
    requires '\n' !in a
    ensures Lines(a + "\n" + rest) == [a] + Lines(rest)
  {
    SplitFirst(a, '\n', rest);
    var parts := Split(rest, '\n');
    var all := [a] + parts;
    assert all[|all| - 1] == parts[|parts| - 1];
    assert all[..|all| - 1] == [a] + parts[..|parts| - 1];
  }

  lemma {:induction false} LinesOfTerminated(lines: seq<string>, rest: string)
    requires forall k | 0 <= k < |lines| :: '\n' !in lines[k]
    ensures Lines(Terminated(lines) + rest) == lines + Lines(rest)
  {
    if lines == [] {
      assert "" + rest == rest;
    } else {
      var later := Terminated(lines[1..]) + rest;
      TerminatedFirst(lines, rest);
      LinesFirst(lines[0], later);
      LinesOfTerminated(lines[1..], rest);
      HeadAndTail(lines, Lines(rest));
    }
  }

  lemma HeadAndTail<T>(s: seq<T>, t: seq<T>)
    requires s != []
    ensures s + t == [s[0]] + (s[1..] + t)
  {
  }

  lemma TerminatedFirst(lines: seq<string>, rest: string)
    requires lines != []
    ensures Terminated(lines) + rest == lines[0] + "\n" + (Terminated(lines[1..]) + rest)
  {
  }

  predicate CommentLine(line: string) { CleanLine(line) && IsComment(line) }

  lemma {:induction false} LoadComments(comments: seq<string>, pending: seq<string>, rest: seq<string>, ssh: Ssh)
    requires forall i | 0 <= i < |comments| :: CommentLine(comments[i])
    ensures LoadLines(comments + rest, pending, ssh) == LoadLines(rest, pending + comments, ssh)
    decreases |comments|
  {
    if comments == [] {
      assert comments + rest == rest && pending + comments == pending;
    } else {
      MoveFirst(comments, pending, rest);
      assert CommentLine(comments[0]);
      LoadComment(comments + rest, pending, ssh);
      LoadComments(comments[1..], pending + [comments[0]], rest, ssh);
    }
  }

  lemma MoveFirst<T>(a: seq<T>, before: seq<T>, after: seq<T>)
    requires a != []
    ensures (a + after)[0] == a[0] && (a + after)[1..] == a[1..] + after
    ensures before + [a[0]] + a[1..] == before + a
  {
  }

  lemma LoadComment(lines: seq<string>, pending: seq<string>, ssh: Ssh)
    requires lines != [] && IsTrimmed(lines[0]) && IsComment(lines[0])
    ensures LoadLines(lines, pending, ssh) == LoadLines(lines[1..], pending + [lines[0]], ssh)
  {
    assert TrimSpace(lines[0]) == lines[0] != "";
  }

  lemma LoadKeyLine(k: Key, rest: seq<string>, ssh: Ssh)
    requires ssh.Valid() && Clean(k, ssh)
    ensures LoadLines(KeyLines(k) + rest, [], ssh) ==
            var later := LoadLines(rest, [], ssh);
            if later.Err? then later else Ok([k] + later.value)
  {
    var tail := [k.line] + rest;
    assert tail[0] == k.line && tail[1..] == rest && TrimSpace(k.line) == k.line && k.line != "";
    if k.comments == [] {
      assert KeyLines(k) + rest == [""] + tail;
      assert ([""] + tail)[1..] == tail;
    } else {
      assert KeyLines(k) + rest == k.comments + tail;
      LoadComments(k.comments, [], tail, ssh);
      assert [] + k.comments == k.comments;
    }
  }

  lemma {:induction false} CleanRoundTrip(ks: seq<Key>, ssh: Ssh)
    requires ssh.Valid() && AllClean(ks, ssh)
    ensures LoadKeySet(WriteKeySet(ks), ssh) == Ok(ks)
  {
    if ks == [] {
      assert Split("", '\n') == [""] && Lines("") == [];
    } else {
      var k, rest := ks[0], WriteKeySet(ks[1..]);
      WrittenLines(k);
      assert forall i | 0 <= i < |KeyLines(k)| :: '\n' !in KeyLines(k)[i];
      LinesOfTerminated(KeyLines(k), rest);
      CleanRoundTrip(ks[1..], ssh);
      LoadKeyLine(k, Lines(rest), ssh);
      assert [k] + ks[1..] == ks;
    }
  }

  /** Whatever is loaded is clean. */
  lemma {:induction false} LoadedIsClean(lines: seq<string>, pending: seq<string>, ssh: Ssh)
    requires forall i | 0 <= i < |lines| :: '\n' !in lines[i]
    requires forall i | 0 <= i < |pending| :: CommentLine(pending[i])
    requires LoadLines(lines, pending, ssh).Ok?
    ensures AllClean(LoadLines(lines, pending, ssh).value, ssh)
    decreases |lines|
  {
    if lines != [] {
      var line := TrimSpace(lines[0]);
      TrimmedChars(lines[0], '\n');
      if line == "" && pending == [] {
        LoadedIsClean(lines[1..], pending, ssh);
      } else if IsComment(line) {
        LoadedIsClean(lines[1..], pending + [line], ssh);
      } else {
        LoadedIsClean(lines[1..], [], ssh);
      }
    }
  }

  lemma {:induction false} TrimmedChars(s: string, c: char)
    requires c !in s
    ensures c !in TrimSpace(s)
    decreases |s|
  {
    if s != "" {
      if IsSpace(s[0]) { TrimmedChars(s[1..], c); }
      else if IsSpace(s[|s| - 1]) { TrimmedChars(s[..|s| - 1], c); }
    }
  }

  /** A key set survives writing and loading exactly when all its keys are clean. */
  lemma RoundTripExactly(ks: seq<Key>, ssh: Ssh)
    requires ssh.Valid()
    ensures LoadKeySet(WriteKeySet(ks), ssh) == Ok(ks) <==> AllClean(ks, ssh)
  {
    if AllClean(ks, ssh) {
      CleanRoundTrip(ks, ssh);
    }
    SplitHasNoSeparator(WriteKeySet(ks), '\n');
    if LoadKeySet(WriteKeySet(ks), ssh) == Ok(ks) {
      LoadedIsClean(Lines(WriteKeySet(ks)), [], ssh);
    }
  }

  /** Loading, writing and loading again is loading. */
  lemma LoadWriteLoad(text: string, ssh: Ssh)
    requires ssh.Valid() && LoadKeySet(text, ssh).Ok?
    ensures LoadKeySet(WriteKeySet(LoadKeySet(text, ssh).value), ssh) == LoadKeySet(text, ssh)
  {
    SplitHasNoSeparator(text, '\n');
    LoadedIsClean(Lines(text), [], ssh);
    CleanRoundTrip(LoadKeySet(text, ssh).value, ssh);
  }

  // ---------- Edits ----------

  function ManagedLine(date: string, shortname: string, fingerprint: string): string {
    "# " + MANAGED_TAG + " (Added " + date + " as " + shortname + ") [" + fingerprint + "]"
  }

  function AddManagedComment(k: Key, date: string, shortname: string, ssh: Ssh): Key {
    if k.managed then k
    else k.(comments := k.comments + [ManagedLine(date, shortname, ssh.sha256(k.pubkey))], managed := true)
  }

  /** The line added says when and as what the key was added, and which key it is. */
  lemma ManagedLineReads(date: string, shortname: string, fingerprint: string)
    ensures var line, n, m := ManagedLine(date, shortname, fingerprint), |date|, |shortname|;
            && |line| == n + m + |fingerprint| + 28
            && line[..20] == "# sshkeymgr: (Added " && line[20..20 + n] == date
            && line[20 + n..24 + n] == " as " && line[24 + n..24 + n + m] == shortname
            && line[24 + n + m..27 + n + m] == ") [" && line[27 + n + m..|line| - 1] == fingerprint
            && line[|line| - 1] == ']'
  {
    var line := ManagedLine(date, shortname, fingerprint);
    assert line == ("# " + MANAGED_TAG + " (Added ") + date + " as " + shortname + ") [" + fingerprint + "]";
  }

  lemma ManagedLineIsTagged(date: string, shortname: string, fingerprint: string)
    ensures var line := ManagedLine(date, shortname, fingerprint);
            Contains(line, MANAGED_TAG) && IsComment(line) && IsTrimmed(line)
  {
    var line := ManagedLine(date, shortname, fingerprint);
    assert At(line, 2, MANAGED_TAG);
    assert line[0] == '#' && line[|line| - 1] == ']';
  }

  /** Marking a clean key as managed keeps it clean exactly when the line added is one line. */
  lemma ManagedStaysClean(k: Key, date: string, shortname: string, ssh: Ssh)
    requires Clean(k, ssh)
    ensures Clean(AddManagedComment(k, date, shortname, ssh), ssh) <==>
            k.managed || '\n' !in ManagedLine(date, shortname, ssh.sha256(k.pubkey))
  {
    if !k.managed {
      var line := ManagedLine(date, shortname, ssh.sha256(k.pubkey));
      ManagedLineIsTagged(date, shortname, ssh.sha256(k.pubkey));
      var k' := AddManagedComment(k, date, shortname, ssh);
      assert k'.comments[|k.comments|] == line;
    }
  }

  /** A loaded key has no shortname, so managing it keeps it clean, as dates and fingerprints are one line. */
  lemma ManagingLoadedKeys(text: string, i: nat, date: string, ssh: Ssh)
    requires ssh.Valid() && LoadKeySet(text, ssh).Ok? && i < |LoadKeySet(text, ssh).value|
    requires '\n' !in date && '\n' !in ssh.sha256(LoadKeySet(text, ssh).value[i].pubkey)
    ensures var ks := LoadKeySet(text, ssh).value;
            var managed := ks[i := AddManagedComment(ks[i], date, "", ssh)];
            AllClean(managed, ssh) && LoadKeySet(WriteKeySet(managed), ssh) == Ok(managed)
  {
    var ks := LoadKeySet(text, ssh).value;
    SplitHasNoSeparator(text, '\n');
    LoadedIsClean(Lines(text), [], ssh);
    ManagedStaysClean(ks[i], date, "", ssh);
    CleanRoundTrip(ks[i := AddManagedComment(ks[i], date, "", ssh)], ssh);
  }

  predicate MatchesFingerprint(pk: PubKey, fingerprint: string, ssh: Ssh) {
    ssh.sha256(pk) == fingerprint || ssh.md5(pk) == fingerprint
  }

  /** A spec that parses as a key stands for its fingerprint. */
  function FingerprintOf(spec: string, ssh: Ssh): string {
    match ssh.parse(spec)
    case Some(pk) => ssh.sha256(pk)
    case None => spec
  }

  /** The elements that do not match, in order. */
  function Unmatched<T>(ks: seq<T>, matches: T -> bool): seq<T> {
    if ks == [] then []
    else Unmatched(ks[..|ks| - 1], matches) + if matches(ks[|ks| - 1]) then [] else [ks[|ks| - 1]]
  }

  /** The positions of the elements that do not match. */
  function KeptAt<T>(ks: seq<T>, matches: T -> bool): (at: seq<nat>)
    ensures forall i | 0 <= i < |at| :: at[i] < |ks|
  {
    if ks == [] then []
    else KeptAt(ks[..|ks| - 1], matches) + if matches(ks[|ks| - 1]) then [] else [|ks| - 1]
  }

  lemma {:induction false} KeptAtExactly<T>(ks: seq<T>, matches: T -> bool)
    ensures var at := KeptAt(ks, matches);
            && (forall i, j | 0 <= i < j < |at| :: at[i] < at[j])
            && (forall k | 0 <= k < |ks| :: k in at <==> !matches(ks[k]))
  {
    if ks != [] {
      var front := ks[..|ks| - 1];
      KeptAtExactly(front, matches);
      var at := KeptAt(front, matches);
      assert forall k | 0 <= k < |front| :: matches(ks[k]) == matches(front[k]);
      assert forall k | k in at :: k < |front|;
    }
  }

  /** What is left is what does not match: all of it, once each, in order. */
  lemma {:induction false} UnmatchedExactly<T>(ks: seq<T>, matches: T -> bool)
    ensures var at, left := KeptAt(ks, matches), Unmatched(ks, matches);
            && |left| == |at| && (forall i | 0 <= i < |at| :: left[i] == ks[at[i]])
            && (forall i, j | 0 <= i < j < |at| :: at[i] < at[j])
            && (forall k | 0 <= k < |ks| :: k in at <==> !matches(ks[k]))
  {
    KeptAtExactly(ks, matches);
    if ks != [] {
      UnmatchedExactly(ks[..|ks| - 1], matches);
    }
  }

  /** What a spec names, in terms of the parser and the fingerprints alone: the fingerprint of the key it
      is, or the fingerprint it is. */
  predicate Names(spec: string, pk: PubKey, ssh: Ssh) {
    match ssh.parse(spec)
    case Some(key) => ssh.sha256(pk) == ssh.sha256(key) || ssh.md5(pk) == ssh.sha256(key)
    case None => ssh.sha256(pk) == spec || ssh.md5(pk) == spec
  }

  /** Removing by a spec leaves exactly the keys it does not name, in order; in particular no key that is
      the one given as spec, or has the SHA256 or MD5 fingerprint given. */
  lemma RemovedExactly(ks: seq<Key>, spec: string, ssh: Ssh)
    ensures var left := Apply(ks, Remove(spec), ssh);
            var at := KeptAt(ks, (k: Key) => Names(spec, k.pubkey, ssh));
            && |left| == |at| && (forall i | 0 <= i < |at| :: left[i] == ks[at[i]])
            && (forall i, j | 0 <= i < j < |at| :: at[i] < at[j])
            && (forall k | 0 <= k < |ks| :: k in at <==> !Names(spec, ks[k].pubkey, ssh))
            && (forall k | k in left :: Some(k.pubkey) != ssh.parse(spec))
            && (ssh.parse(spec).None? ==>
                  forall k | k in left :: ssh.sha256(k.pubkey) != spec && ssh.md5(k.pubkey) != spec)
  {
    var named := (k: Key) => Names(spec, k.pubkey, ssh);
    UnmatchedExactly(ks, named);
    SameUnmatched(ks, named, (k: Key) => MatchesFingerprint(k.pubkey, FingerprintOf(spec, ssh), ssh));
    var left, at := Unmatched(ks, named), KeptAt(ks, named);
    forall k | k in left ensures !Names(spec, k.pubkey, ssh) {
      var i :| 0 <= i < |left| && left[i] == k;
      assert at[i] in at;
    }
  }

  lemma {:induction false} SameUnmatched<T>(ks: seq<T>, m: T -> bool, m': T -> bool)
    requires forall i | 0 <= i < |ks| :: m(ks[i]) == m'(ks[i])
    ensures Unmatched(ks, m) == Unmatched(ks, m')
  {
    if ks != [] {
      SameUnmatched(ks[..|ks| - 1], m, m');
    }
  }

  datatype Edit = Manage(index: nat, date: string, shortname: string) | Remove(spec: string)

  function Apply(ks: seq<Key>, e: Edit, ssh: Ssh): seq<Key> {
    match e
    case Manage(i, date, shortname) =>
      if i < |ks| then ks[i := AddManagedComment(ks[i], date, shortname, ssh)] else ks
    case Remove(spec) =>
      Unmatched(ks, (k: Key) => MatchesFingerprint(k.pubkey, FingerprintOf(spec, ssh), ssh))
  }

  function ApplyAll(ks: seq<Key>, es: seq<Edit>, ssh: Ssh): seq<Key>
    decreases |es|
  {
    if es == [] then ks else ApplyAll(Apply(ks, es[0], ssh), es[1..], ssh)
  }

  lemma {:induction false} UnmatchedIsClean(ks: seq<Key>, matches: Key -> bool, ssh: Ssh)
    requires AllClean(ks, ssh)
    ensures AllClean(Unmatched(ks, matches), ssh)
  {
    if ks != [] {
      UnmatchedIsClean(ks[..|ks| - 1], matches, ssh);
    }
  }

  /** Edits of a loaded key set can be written and loaded again, as long as no date, shortname or
      fingerprint holds a line end. */
  lemma {:induction false} EditsRoundTrip(ks: seq<Key>, es: seq<Edit>, ssh: Ssh)
    requires ssh.Valid() && AllClean(ks, ssh)
    requires forall pk :: '\n' !in ssh.sha256(pk)
    requires forall i | 0 <= i < |es| :: es[i].Manage? ==> '\n' !in es[i].date && '\n' !in es[i].shortname
    ensures AllClean(ApplyAll(ks, es, ssh), ssh)
    ensures LoadKeySet(WriteKeySet(ApplyAll(ks, es, ssh)), ssh) == Ok(ApplyAll(ks, es, ssh))
    decreases |es|
  {
    if es == [] {
      CleanRoundTrip(ks, ssh);
    } else {
      match es[0] {
        case Manage(i, date, shortname) =>
          if i < |ks| {
            ManagedStaysClean(ks[i], date, shortname, ssh);
          }
        case Remove(spec) =>
          UnmatchedIsClean(ks, (k: Key) => MatchesFingerprint(k.pubkey, FingerprintOf(spec, ssh), ssh), ssh);
      }
      EditsRoundTrip(Apply(ks, es[0], ssh), es[1..], ssh);
    }
  }
}
