/** The key set as an object: a scanner it is read from, keys it changes in place, and a slice of keys
    it compacts in place. */
module KeyManager {
  import opened Options
  import opened Strings
  import opened KeySet

  class KeyData {
    var comments: seq<string>
    const pubkeyline: string
    const pubkey: PubKey
    var managed: bool
    const shortname: string

    constructor (comments: seq<string>, pubkeyline: string, pubkey: PubKey, managed: bool, shortname: string)
      ensures Value() == Key(comments, pubkeyline, pubkey, managed) && this.shortname == shortname
    {
      this.comments, this.pubkeyline, this.pubkey := comments, pubkeyline, pubkey;
      this.managed, this.shortname := managed, shortname;
    }

    function Value(): Key
      reads this
    {
      Key(comments, pubkeyline, pubkey, managed)
    }

    method WriteKeydata() returns (text: string)
      ensures text == KeySet.WriteKeydata(Value())
    {
      text := Join(comments, '\n') + "\n" + pubkeyline + "\n";
    }

    /** Adds the comment that marks a key as managed, once. */
    method AddManagedComment(date: string, ssh: Ssh)
      modifies this`comments, this`managed
      ensures Value() == KeySet.AddManagedComment(old(Value()), date, shortname, ssh)
    {
      if managed {
        return;
      }
      var line := ManagedLine(date, shortname, ssh.sha256(pubkey));
      comments := comments + [line];
      managed := true;
    }
  }

  /** A line scanner over the rest of a text. */
  class Scanner {
    var left: seq<string>

    constructor (text: string)
      ensures left == Lines(text)
    {
      left := Lines(text);
    }

    /** The next line, trimmed. */
    method Scan() returns (line: string)
      requires left != []
      modifies this
      ensures line == TrimSpace(old(left)[0]) && left == old(left)[1..]
    {
      line := TrimSpace(left[0]);
      left := left[1..];
    }
  }

  /** The index of the first line that is no comment; the number of lines when all are. */
  function FirstKeyLine(lines: seq<string>): (i: nat)
    ensures i <= |lines| && (i < |lines| ==> !IsComment(lines[i]))
    ensures forall k | 0 <= k < i :: IsComment(lines[k])
  {
    if lines == [] || !IsComment(lines[0]) then 0 else 1 + FirstKeyLine(lines[1..])
  }

  /** What the lines of a key mean: comments, and exactly one line with a key that parses. The first fault
      counts: a first key line that does not parse, or a second one, parsing or not. */
  function KeydataOf(lines: seq<string>, ssh: Ssh): Result<Key, Error> {
    var i := FirstKeyLine(lines);
    if i == |lines| then Err(NoKeyLine)
    else match ssh.parse(lines[i])
      case None => Err(BadKeyLine)
      case Some(pk) =>
        var later := lines[i + 1..];
        if FirstKeyLine(later) < |later| then Err(SeveralKeys)
        else Ok(Key(lines[..i] + later, lines[i], pk, AnyTagged(lines[..i] + later)))
  }

  /** The result is null of a key with an error. */
  method LoadKeydata(lines: seq<string>, ssh: Ssh) returns (kd: KeyData?, err: Error)
    ensures match KeydataOf(lines, ssh)
            case Err(e) => kd == null && err == e
            case Ok(k) => kd != null && fresh(kd) && kd.Value() == k && kd.shortname == ""
  {
    err := NoKeyLine;
    var comments: seq<string> := [];
    var managed := false;
    var key: Option<(string, PubKey)> := None;
    ghost var first := FirstKeyLine(lines);
    for i := 0 to |lines|
      invariant managed == AnyTagged(comments)
      invariant key.None? <==> i <= first
      invariant key.None? ==> comments == lines[..i]
      invariant key.Some? ==> key == KeyAt(lines, first, ssh) && comments == lines[..first] + lines[first + 1..i]
                              && forall k | first < k < i :: IsComment(lines[k])
    {
      var line := lines[i];
      if IsComment(line) {
        TagSnoc(comments, line);
        managed := managed || Contains(line, MANAGED_TAG);
        comments := comments + [line];
        continue;
      }
      if key.Some? {
        SecondKeyLine(lines, i);
        return null, SeveralKeys;
      }
      var pk := ssh.parse(line);
      if pk.None? {
        return null, BadKeyLine;
      }
      key := Some((line, pk.value));
      assert lines[first + 1..i + 1] == [] && comments + [] == comments;
    }
    if key.None? {
      return null, NoKeyLine;
    }
    OneKeyLine(lines);
    assert lines[first + 1..|lines|] == lines[first + 1..];
    kd := new KeyData(comments, key.value.0, key.value.1, managed, "");
  }

  function KeyAt(lines: seq<string>, i: nat, ssh: Ssh): Option<(string, PubKey)> {
    if i < |lines| && ssh.parse(lines[i]).Some? then Some((lines[i], ssh.parse(lines[i]).value)) else None
  }

  lemma SecondKeyLine(lines: seq<string>, i: nat)
    requires FirstKeyLine(lines) < i < |lines| && !IsComment(lines[i])
    ensures var later := lines[FirstKeyLine(lines) + 1..]; FirstKeyLine(later) < |later|
  {
    var first := FirstKeyLine(lines);
    assert lines[first + 1..][i - first - 1] == lines[i];
  }

  lemma OneKeyLine(lines: seq<string>)
    requires FirstKeyLine(lines) < |lines|
    requires forall k | FirstKeyLine(lines) < k < |lines| :: IsComment(lines[k])
    ensures var later := lines[FirstKeyLine(lines) + 1..]; FirstKeyLine(later) == |later|
  {
  }

  /** What the scanner hands over: comments only, and then one key line. */
  lemma KeyLineAtTheEnd(lines: seq<string>, ssh: Ssh)
    requires lines != [] && !IsComment(lines[|lines| - 1])
    requires forall k | 0 <= k < |lines| - 1 :: IsComment(lines[k])
    ensures var comments, line := lines[..|lines| - 1], lines[|lines| - 1];
            KeydataOf(lines, ssh) ==
            match ssh.parse(line)
            case None => Err(BadKeyLine)
            case Some(pk) => Ok(Key(comments, line, pk, AnyTagged(comments)))
  {
    var n := |lines| - 1;
    assert FirstKeyLine(lines) == n;
    assert lines[n + 1..] == [] && lines[..n] + [] == lines[..n];
  }

  lemma TagSnoc(comments: seq<string>, line: string)
    ensures AnyTagged(comments + [line]) <==> AnyTagged(comments) || Contains(line, MANAGED_TAG)
  {
    var more := comments + [line];
    assert more[|comments|] == line;
    if AnyTagged(comments) {
      var k :| 0 <= k < |comments| && Contains(comments[k], MANAGED_TAG);
      assert more[k] == comments[k];
    }
  }

  /** One key off the scanner, leaving it at the line after; null without an error at the end. */
  method ReadKeydataFromScanner(sc: Scanner, ssh: Ssh) returns (kd: KeyData?, err: Option<Error>)
    modifies sc
    ensures kd != null ==> fresh(kd) && err == None && |sc.left| < |old(sc.left)|
    ensures var whole := LoadLines(old(sc.left), [], ssh);
            if err.Some? then kd == null && whole == Err(err.value)
            else if kd == null then whole == Ok([])
            else whole == Cons(kd.Value(), LoadLines(sc.left, [], ssh))
  {
    var lines: seq<string> := [];
    while sc.left != []
      invariant forall i | 0 <= i < |lines| :: IsComment(lines[i])
      invariant LoadLines(old(sc.left), [], ssh) == LoadLines(sc.left, lines, ssh)
      invariant |sc.left| <= |old(sc.left)|
      decreases |sc.left|
    {
      var line := sc.Scan();
      if line == "" && |lines| == 0 {
        continue;
      }
      lines := lines + [line];
      if !IsComment(line) {
        assert lines[..|lines| - 1] + [line] == lines;
        var e: Error;
        KeyLineAtTheEnd(lines, ssh);
        kd, e := LoadKeydata(lines, ssh);
        err := if kd == null then Some(e) else None;
        return;
      }
    }
    if |lines| == 0 {
      return null, None;
    }
    return null, Some(NoKeydata);
  }

  function Cons(k: Key, later: Result<seq<Key>, Error>): Result<seq<Key>, Error> {
    if later.Err? then later else Ok([k] + later.value)
  }

  /** The keys in the first `count` slots of a slice. */
  class Keys {
    const slots: array<KeyData>
    var count: nat

    ghost predicate Valid()
      reads this
    {
      count <= slots.Length
    }

    constructor (keys: seq<KeyData>)
      ensures Valid() && fresh(slots) && Contents() == keys
    {
      slots := new KeyData[|keys|](i requires 0 <= i < |keys| => keys[i]);
      count := |keys|;
    }

    function Contents(): seq<KeyData>
      requires Valid()
      reads this, slots
    {
      slots[..count]
    }

    /** Compacts the slice in place to the keys that do not match the spec; leaves it alone when none does. */
    method RemoveKeyBySpec(spec: string, ssh: Ssh) returns (found: bool)
      requires Valid()
      modifies this`count, slots
      ensures Valid()
      ensures Contents() == Unmatched(old(Contents()), NamedBy(spec, ssh))
      ensures !found ==> slots[..] == old(slots[..]) && count == old(count)
      ensures found <==> exists k | k in old(Contents()) :: Names(spec, k.pubkey, ssh)
      ensures forall k | k in Contents() :: k in old(Contents()) && !Names(spec, k.pubkey, ssh)
      ensures forall k | k in old(Contents()) :: k in Contents() <==> !Names(spec, k.pubkey, ssh)
      ensures forall k | k in Contents() :: Some(k.pubkey) != ssh.parse(spec)
    {
      MatcherNames(spec, ssh);
      UnmatchedElements(Contents(), NamedBy(spec, ssh));
      SameUnmatched(Contents(), NamedBy(spec, ssh), Matcher(FingerprintOf(spec, ssh), ssh));
      var left: nat;
      left, found := Compact(slots, count, Matcher(FingerprintOf(spec, ssh), ssh));
      if found {
        count := left;
      }
    }
  }

  function NamedBy(spec: string, ssh: Ssh): KeyData -> bool { (k: KeyData) => Names(spec, k.pubkey, ssh) }

  function Matcher(fingerprint: string, ssh: Ssh): KeyData -> bool {
    (k: KeyData) => MatchesFingerprint(k.pubkey, fingerprint, ssh)
  }

  lemma MatcherNames(spec: string, ssh: Ssh)
    ensures forall k: KeyData :: Matcher(FingerprintOf(spec, ssh), ssh)(k) <==> Names(spec, k.pubkey, ssh)
  {
  }

  lemma {:induction false} UnmatchedElements<T>(ks: seq<T>, matches: T -> bool)
    ensures forall k | k in ks :: k in Unmatched(ks, matches) <==> !matches(k)
    ensures forall k | k in Unmatched(ks, matches) :: k in ks
  {
    if ks != [] {
      UnmatchedElements(ks[..|ks| - 1], matches);
      assert ks == ks[..|ks| - 1] + [ks[|ks| - 1]];
    }
  }

  /** The loop: keeps the elements that do not match, in the slots from the front on. */
  method Compact<T>(slots: array<T>, count: nat, matches: T -> bool) returns (left: nat, found: bool)
    requires count <= slots.Length
    modifies slots
    ensures left <= count && slots[..left] == Unmatched(old(slots[..count]), matches)
    ensures found <==> exists k | k in old(slots[..count]) :: matches(k)
    ensures !found ==> left == count && slots[..] == old(slots[..])
  {
    ghost var before := slots[..count];
    left, found := 0, false;
    for i := 0 to count
      invariant left <= i && slots[..left] == Unmatched(before[..i], matches)
      invariant forall k | i <= k < slots.Length :: slots[k] == old(slots[k])
      invariant !found ==> left == i && forall k | 0 <= k < slots.Length :: slots[k] == old(slots[k])
      invariant found <==> exists k | k in before[..i] :: matches(k)
    {
      UnmatchedNext(before, i, matches);
      var k := slots[i];
      assert before[..i + 1] == before[..i] + [before[i]];
      assert k == before[i];
      if matches(k) {
        found := true;
      } else {
        slots[left] := k;
        left := left + 1;
        assert slots[..left] == slots[..left - 1] + [k];
      }
    }
    assert before[..count] == before;
  }

  lemma UnmatchedNext<T>(ks: seq<T>, i: nat, matches: T -> bool)
    requires i < |ks|
    ensures Unmatched(ks[..i + 1], matches) == Unmatched(ks[..i], matches) + if matches(ks[i]) then [] else [ks[i]]
  {
    assert ks[..i + 1][..i] == ks[..i];
  }

  /** Reads keys until the scanner is at its end. */
  method LoadKeySet(text: string, ssh: Ssh) returns (ks: Keys?, err: Option<Error>)
    ensures match KeySet.LoadKeySet(text, ssh)
            case Err(e) => ks == null && err == Some(e)
            case Ok(keys) => ks != null && fresh(ks) && err == None && ks.Valid() && Values(ks.Contents()) == keys
  {
    var sc := new Scanner(text);
    var loaded: seq<KeyData> := [];
    ghost var values: seq<Key> := [];
    AppendNothing(KeySet.LoadKeySet(text, ssh));
    while true
      invariant fresh(sc) && Values(loaded) == values
      invariant KeySet.LoadKeySet(text, ssh) == Append(values, LoadLines(sc.left, [], ssh))
      decreases |sc.left|
    {
      var kd, e := ReadKeydataFromScanner(sc, ssh);
      if e.Some? {
        return null, e;
      }
      if kd == null {
        ks := new Keys(loaded);
        return ks, None;
      }
      AppendCons(values, kd.Value(), LoadLines(sc.left, [], ssh));
      loaded, values := loaded + [kd], values + [kd.Value()];
    }
  }

  function Append(keys: seq<Key>, later: Result<seq<Key>, Error>): Result<seq<Key>, Error> {
    if later.Err? then later else Ok(keys + later.value)
  }

  lemma AppendNothing(whole: Result<seq<Key>, Error>)
    ensures Append([], whole) == whole
  {
    assert whole.Ok? ==> [] + whole.value == whole.value;
  }

  lemma AppendCons(keys: seq<Key>, k: Key, later: Result<seq<Key>, Error>)
    ensures Append(keys, Cons(k, later)) == Append(keys + [k], later)
  {
    assert later.Ok? ==> keys + ([k] + later.value) == keys + [k] + later.value;
  }

  function Values(ks: seq<KeyData>): (vs: seq<Key>)
    reads ks
    ensures |vs| == |ks| && forall i | 0 <= i < |ks| :: vs[i] == ks[i].Value()
  {
    seq(|ks|, i requires 0 <= i < |ks| reads ks => ks[i].Value())
  }
}
