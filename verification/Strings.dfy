/** Strings as the C, Go and Python sources handle them: splitting and joining, trimming, and the printed
    and parsed forms of numbers. */
module Strings {
  import opened Options

  // ---------- Splitting and joining ----------

  /** Go's strings.Split for a separator of one character; never empty. */
  function Split(s: string, sep: char): (parts: seq<string>)
    ensures parts != []
  {
    if s == "" then [""]
    else if s[0] == sep then [""] + Split(s[1..], sep)
    else
      var rest := Split(s[1..], sep);
      [[s[0]] + rest[0]] + rest[1..]
  }

  function Join(parts: seq<string>, sep: char): string {
    if parts == [] then ""
    else if |parts| == 1 then parts[0]
    else parts[0] + [sep] + Join(parts[1..], sep)
  }

  lemma SplitFirst(a: string, sep: char, b: string)
    requires sep !in a
    ensures Split(a + [sep] + b, sep) == [a] + Split(b, sep)
  {
    if a == "" {
      assert (a + [sep] + b)[1..] == b;
    } else {
      assert (a + [sep] + b)[1..] == a[1..] + [sep] + b;
      SplitFirst(a[1..], sep, b);
      assert [a[0]] + a[1..] == a;
    }
  }

  lemma SplitNone(a: string, sep: char)
    requires sep !in a
    ensures Split(a, sep) == [a]
  {
    if a != "" {
      SplitNone(a[1..], sep);
      assert [a[0]] + a[1..] == a;
    }
  }

  /** Splitting undoes joining, for at least one part and parts without the separator. */
  lemma {:induction false} SplitJoin(parts: seq<string>, sep: char)
    requires parts != [] && forall k | 0 <= k < |parts| :: sep !in parts[k]
    ensures Split(Join(parts, sep), sep) == parts
  {
    if |parts| == 1 {
      SplitNone(parts[0], sep);
    } else {
      SplitFirst(parts[0], sep, Join(parts[1..], sep));
      SplitJoin(parts[1..], sep);
    }
  }

  lemma {:induction false} JoinAppend(a: seq<string>, b: seq<string>, sep: char)
    requires a != [] && b != []
    ensures Join(a + b, sep) == Join(a, sep) + [sep] + Join(b, sep)
  {
    if |a| == 1 {
      assert (a + b)[1..] == b;
    } else {
      assert (a + b)[1..] == a[1..] + b;
      JoinAppend(a[1..], b, sep);
    }
  }

  lemma {:induction false} SplitHasNoSeparator(s: string, sep: char)
    ensures forall k | 0 <= k < |Split(s, sep)| :: sep !in Split(s, sep)[k]
  {
    if s != "" {
      SplitHasNoSeparator(s[1..], sep);
      var rest := Split(s[1..], sep);
      if s[0] != sep {
        assert Split(s, sep) == [[s[0]] + rest[0]] + rest[1..];
        assert sep !in rest[0];
      }
    }
  }

  /** Splitting loses nothing. */
  lemma {:induction false} JoinSplit(s: string, sep: char)
    ensures Join(Split(s, sep), sep) == s
  {
    if s != "" {
      JoinSplit(s[1..], sep);
      var rest := Split(s[1..], sep);
      if s[0] == sep {
        assert ([""] + rest)[1..] == rest;
      } else {
        var parts := [[s[0]] + rest[0]] + rest[1..];
        assert parts[1..] == rest[1..];
        assert Join(parts, sep) == [s[0]] + Join(rest, sep);
      }
    }
  }

  /** Go's strings.TrimRight. */
  function TrimRight(s: string, cutset: string): string {
    if s != "" && s[|s| - 1] in cutset then TrimRight(s[..|s| - 1], cutset) else s
  }

  lemma TrimRightTail(s: string, tail: string, cutset: string)
    requires s == "" || s[|s| - 1] !in cutset
    requires forall k | 0 <= k < |tail| :: tail[k] in cutset
    ensures TrimRight(s + tail, cutset) == s
  {
    if tail == "" {
      assert s + tail == s;
    } else {
      assert (s + tail)[..|s + tail| - 1] == s + tail[..|tail| - 1];
      TrimRightTail(s, tail[..|tail| - 1], cutset);
    }
  }

  /** Go's unicode.IsSpace. */
  predicate IsSpace(c: char) {
    '\U{9}' <= c <= '\U{D}' || c in " \U{85}\U{A0}\U{1680}\U{2028}\U{2029}\U{202F}\U{205F}\U{3000}"
    || '\U{2000}' <= c <= '\U{200A}'
  }

  predicate IsTrimmed(s: string) { s == "" || (!IsSpace(s[0]) && !IsSpace(s[|s| - 1])) }

  /** Go's strings.TrimSpace. */
  function TrimSpace(s: string): (r: string)
    ensures IsTrimmed(r)
    ensures IsTrimmed(s) ==> r == s
    decreases |s|
  {
    if s == "" then s
    else if IsSpace(s[0]) then TrimSpace(s[1..])
    else if IsSpace(s[|s| - 1]) then TrimSpace(s[..|s| - 1])
    else s
  }

  /** What is between two runs of space, and has none at its own ends, is what is left. */
  lemma TrimSpaceOf(before: string, s: string, after: string)
    requires IsTrimmed(s) && s != "" && AllSpace(before) && AllSpace(after)
    ensures TrimSpace(before + (s + after)) == s
  {
    TrimFront(before, s + after);
    TrimBack(s, after);
  }

  predicate AllSpace(s: string) { forall k | 0 <= k < |s| :: IsSpace(s[k]) }

  lemma {:induction false} TrimFront(before: string, rest: string)
    requires AllSpace(before)
    ensures TrimSpace(before + rest) == TrimSpace(rest)
  {
    if before == "" {
      assert before + rest == rest;
    } else {
      assert (before + rest)[0] == before[0] && (before + rest)[1..] == before[1..] + rest;
      TrimFront(before[1..], rest);
    }
  }

  lemma {:induction false} TrimBack(s: string, after: string)
    requires IsTrimmed(s) && s != "" && AllSpace(after)
    ensures TrimSpace(s + after) == s
  {
    if after == "" {
      assert s + after == s;
    } else {
      var n := |after| - 1;
      assert s + after == (s + after[..n]) + [after[n]];
      TrimLast(s + after[..n], after[n]);
      TrimBack(s, after[..n]);
    }
  }

  lemma TrimLast(t: string, c: char)
    requires t != "" && !IsSpace(t[0]) && IsSpace(c)
    ensures TrimSpace(t + [c]) == TrimSpace(t)
  {
    assert (t + [c])[..|t|] == t;
  }

  // ---------- Searching and case ----------

  predicate At(s: string, i: nat, sub: string) { i + |sub| <= |s| && s[i..i + |sub|] == sub }

  predicate Contains(s: string, sub: string) { exists i | 0 <= i <= |s| :: At(s, i, sub) }

  predicate HasSuffix(s: string, end: string) { |end| <= |s| && s[|s| - |end|..] == end }

  function UpperChar(c: char): char { if 'a' <= c <= 'z' then (c as int - 32) as char else c }

  function LowerChar(c: char): char { if 'A' <= c <= 'Z' then (c as int + 32) as char else c }

  /** Go's strings.ToUpper and strings.ToLower of the ASCII letters; other characters stay as they are. */
  function Upper(s: string): string { seq(|s|, i requires 0 <= i < |s| => UpperChar(s[i])) }

  function Lower(s: string): string { seq(|s|, i requires 0 <= i < |s| => LowerChar(s[i])) }

  /** The same character, or the same ASCII letter in the other case. */
  predicate SameLetter(c: char, d: char) {
    c == d || ('a' <= c <= 'z' && d as int == c as int - 32) || ('a' <= d <= 'z' && c as int == d as int - 32)
  }

  predicate EqualFold(s: string, t: string) { |s| == |t| && forall i | 0 <= i < |s| :: SameLetter(s[i], t[i]) }

  /** Upper case forgets the case of the letters, and nothing else; so does lower case. */
  lemma CaseForgets(s: string, t: string)
    ensures Upper(s) == Upper(t) <==> EqualFold(s, t)
    ensures Lower(s) == Lower(t) <==> EqualFold(s, t)
    ensures EqualFold(Upper(s), s) && EqualFold(Lower(s), s)
    ensures forall i | 0 <= i < |s| :: !('a' <= Upper(s)[i] <= 'z') && !('A' <= Lower(s)[i] <= 'Z')
  {
    forall i | 0 <= i < |s| && |s| == |t|
      ensures UpperChar(s[i]) == UpperChar(t[i]) <==> SameLetter(s[i], t[i])
      ensures LowerChar(s[i]) == LowerChar(t[i]) <==> SameLetter(s[i], t[i])
    {
    }
    if Upper(s) == Upper(t) {
      forall i | 0 <= i < |s| ensures SameLetter(s[i], t[i]) {
        assert Upper(s)[i] == UpperChar(s[i]) && Upper(t)[i] == UpperChar(t[i]);
      }
    }
    if Lower(s) == Lower(t) {
      forall i | 0 <= i < |s| ensures SameLetter(s[i], t[i]) {
        assert Lower(s)[i] == LowerChar(s[i]) && Lower(t)[i] == LowerChar(t[i]);
      }
    }
  }

  lemma CaseIsIdempotent(s: string)
    ensures Upper(Upper(s)) == Upper(s) && Lower(Lower(s)) == Lower(s)
  {
  }

  // ---------- Numbers ----------

  const DIGITS := "0123456789abcdef"

  /** Decimal or hexadecimal; the arithmetic is spelled out so that it stays linear. */
  datatype Base = Dec | Hex {
    function Size(): nat { if Dec? then 10 else 16 }
    function Times(n: nat): nat { if Dec? then n * 10 else n * 16 }
    function Quotient(n: nat): nat { if Dec? then n / 10 else n / 16 }
    function Remainder(n: nat): nat { if Dec? then n % 10 else n % 16 }
  }

  /** The value of a digit, as strconv reads it: either case, below the base. */
  function DigitValue(c: char, base: Base): Option<nat> {
    var v := if '0' <= c <= '9' then c as nat - '0' as nat
             else if 'a' <= c <= 'f' then c as nat - 'a' as nat + 10
             else if 'A' <= c <= 'F' then c as nat - 'A' as nat + 10
             else 16;
    if v < base.Size() then Some(v) else None
  }

  /** The value of at least one digit. */
  function DigitsValue(s: string, base: Base): Option<nat> {
    if s == "" then None
    else
      var last := DigitValue(s[|s| - 1], base);
      if last.None? then None
      else if |s| == 1 then last
      else
        var high := DigitsValue(s[..|s| - 1], base);
        if high.None? then None else Some(base.Times(high.value) + last.value)
  }

  /** The case of hexadecimal digits does not matter. */
  lemma {:induction false} CaseOfDigits(s: string, base: Base)
    ensures DigitsValue(Upper(s), base) == DigitsValue(s, base)
  {
    if s != "" {
      CaseOfDigits(s[..|s| - 1], base);
      assert Upper(s)[..|s| - 1] == Upper(s[..|s| - 1]);
      assert DigitValue(UpperChar(s[|s| - 1]), base) == DigitValue(s[|s| - 1], base);
    }
  }

  /** The digits of a number, without leading zeros. */
  function Digits(n: nat, base: Base): (s: string)
    ensures s != ""
    decreases n
  {
    if n < base.Size() then [DIGITS[n]]
    else Digits(base.Quotient(n), base) + [DIGITS[base.Remainder(n)]]
  }

  lemma DigitRoundTrip(v: nat, base: Base)
    requires v < base.Size()
    ensures DigitValue(DIGITS[v], base) == Some(v)
  {
  }

  lemma {:induction false} DigitsRoundTrip(n: nat, base: Base)
    ensures DigitsValue(Digits(n, base), base) == Some(n)
  {
    if n < base.Size() {
      DigitRoundTrip(n, base);
    } else {
      DigitsRoundTrip(base.Quotient(n), base);
      ValueOfMore(Digits(base.Quotient(n), base), base.Remainder(n), base);
    }
  }

  lemma ValueOfMore(s: string, v: nat, base: Base)
    requires v < base.Size() && s != "" && DigitsValue(s, base).Some?
    ensures DigitsValue(s + [DIGITS[v]], base) == Some(base.Times(DigitsValue(s, base).value) + v)
  {
    DigitRoundTrip(v, base);
    assert (s + [DIGITS[v]])[..|s|] == s;
  }

  function Zeros(k: nat): (s: string)
    ensures |s| == k
  {
    seq(k, _ => '0')
  }

  /** Zero-padding on the left up to a width. */
  function Pad(width: nat, s: string): (r: string)
    ensures |r| == if |s| < width then width else |s|
  {
    if |s| < width then Zeros(width - |s|) + s else s
  }

  lemma {:induction false} LeadingZeros(k: nat, s: string, base: Base)
    requires s != ""
    ensures DigitsValue(Zeros(k) + s, base) == DigitsValue(s, base)
    decreases |s|
  {
    var t := Zeros(k) + s;
    assert t[|t| - 1] == s[|s| - 1] && t[..|t| - 1] == Zeros(k) + s[..|s| - 1];
    if |s| > 1 {
      LeadingZeros(k, s[..|s| - 1], base);
    } else if k > 0 {
      assert t[..|t| - 1] == Zeros(k);
      ZerosValue(k, base);
    }
  }

  lemma {:induction false} ZerosValue(k: nat, base: Base)
    requires k > 0
    ensures DigitsValue(Zeros(k), base) == Some(0)
  {
    if k > 1 {
      assert Zeros(k)[..k - 1] == Zeros(k - 1);
      ZerosValue(k - 1, base);
    }
  }

  lemma PadRoundTrip(width: nat, n: nat, base: Base)
    ensures DigitsValue(Pad(width, Digits(n, base)), base) == Some(n)
  {
    DigitsRoundTrip(n, base);
    var s := Digits(n, base);
    if |s| < width {
      LeadingZeros(width - |s|, s, base);
    }
  }

  /** Whatever is printed from digits consists of digits. */
  predicate AllDigits(s: string) { forall k | 0 <= k < |s| :: s[k] in DIGITS }

  lemma {:induction false} DigitsAreDigits(n: nat, base: Base)
    ensures AllDigits(Digits(n, base))
  {
    if n >= base.Size() {
      DigitsAreDigits(base.Quotient(n), base);
    }
  }

  lemma PadIsDigits(width: nat, n: nat, base: Base)
    ensures AllDigits(Pad(width, Digits(n, base))) && Pad(width, Digits(n, base)) != ""
  {
    DigitsAreDigits(n, base);
    assert Zeros(width) == seq(width, _ => DIGITS[0]);
  }

  function Power10(k: nat): nat { if k == 0 then 1 else 10 * Power10(k - 1) }

  lemma {:induction false} DecimalLength(n: nat, k: nat)
    requires k > 0 && n < Power10(k)
    ensures |Digits(n, Dec)| <= k
  {
    if n >= 10 {
      DecimalLength(n / 10, k - 1);
    }
  }

  /** Go's strconv.ParseInt(s, 10, 32); None is a syntax or a range error. */
  function ParseInt32(s: string): Option<int> {
    var signed := s != "" && s[0] in "+-";
    var v := DigitsValue(if signed then s[1..] else s, Dec);
    if v.None? then None
    else
      var n: int := if signed && s[0] == '-' then -(v.value as int) else v.value;
      if FitsInt32(n) then Some(n) else None
  }

  /** C's conversions %0<width>d and %0<width>u: the sign counts for the width. */
  function PrintPadded(width: nat, n: int): string {
    if n < 0 then "-" + Pad(if width == 0 then 0 else width - 1, Digits(-n, Dec)) else Pad(width, Digits(n, Dec))
  }

  lemma ParseNegative(t: string, m: nat)
    requires DigitsValue(t, Dec) == Some(m)
    ensures ParseInt32("-" + t) == if m <= 0x8000_0000 then Some(-(m as int)) else None
  {
    assert ("-" + t)[1..] == t;
  }

  lemma ParsePlain(t: string, m: nat)
    requires DigitsValue(t, Dec) == Some(m) && AllDigits(t)
    ensures ParseInt32(t) == if m < 0x8000_0000 then Some(m) else None
  {
    assert t[0] in DIGITS && '+' !in DIGITS && '-' !in DIGITS;
  }

  predicate FitsInt32(n: int) { -0x8000_0000 <= n < 0x8000_0000 }

  /** Reading back a printed number gives it again, exactly when it fits 32 bits. */
  lemma ParsePrinted(width: nat, n: int)
    ensures ParseInt32(PrintPadded(width, n)) == if FitsInt32(n) then Some(n) else None
  {
    if n < 0 {
      var w: nat := if width == 0 then 0 else width - 1;
      PadRoundTrip(w, -n, Dec);
      ParseNegative(Pad(w, Digits(-n, Dec)), -n);
    } else {
      PadRoundTrip(width, n, Dec);
      PadIsDigits(width, n, Dec);
      ParsePlain(Pad(width, Digits(n, Dec)), n);
    }
  }

  /** Printed numbers are free of everything but digits and a sign. */
  lemma PrintedChars(width: nat, n: int, c: char)
    requires c !in DIGITS && c != '-'
    ensures c !in PrintPadded(width, n)
    ensures PrintPadded(width, n) != ""
  {
    PadIsDigits(if n < 0 && width > 0 then width - 1 else width, if n < 0 then -n else n, Dec);
  }
}
