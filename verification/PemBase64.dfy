/** What the PEM scanner is for: a block around the base64 text of any bytes is found. */
module PemBase64 {
  import opened Options
  import opened PemScan
  import opened StreamScan

  type Octet = x: int | 0 <= x < 256

  /** The alphabet of RFC 4648, section 4: A to Z, a to z, 0 to 9, + and /. */
  function Char64(v: nat): char
    requires v < 64
  {
    if v < 26 then ('A' as int + v) as char
    else if v < 52 then ('a' as int + v - 26) as char
    else if v < 62 then ('0' as int + v - 52) as char
    else if v == 62 then '+'
    else '/'
  }

  /** The characters of the encoding, without the padding. */
  function Encoded(b: seq<Octet>): Bytes {
    if b == [] then ""
    else if |b| == 1 then [Char64(b[0] as nat / 4), Char64(b[0] as nat % 4 * 16)]
    else if |b| == 2 then
      [Char64(b[0] as nat / 4), Char64(b[0] as nat % 4 * 16 + b[1] as nat / 16), Char64(b[1] as nat % 16 * 4)]
    else
      [Char64(b[0] as nat / 4), Char64(b[0] as nat % 4 * 16 + b[1] as nat / 16),
       Char64(b[1] as nat % 16 * 4 + b[2] as nat / 64), Char64(b[2] as nat % 64)] + Encoded(b[3..])
  }

  function Padding(b: seq<Octet>): Bytes { if |b| % 3 == 1 then "==" else if |b| % 3 == 2 then "=" else "" }

  /** The text without its line ends. */
  function Unwrapped(text: Bytes): Bytes {
    if text == "" then ""
    else (if text[0] in "\r\n" then "" else [text[0]]) + Unwrapped(text[1..])
  }

  lemma AlphabetInBody(v: nat)
    requires v < 64
    ensures InBody(Char64(v))
  {
    assert '+' in "+/\n\r" && '/' in "+/\n\r";
  }

  lemma {:induction false} EncodedInBody(b: seq<Octet>)
    ensures forall k | 0 <= k < |Encoded(b)| :: InBody(Encoded(b)[k])
    ensures b != [] ==> Encoded(b) != ""
  {
    forall v: nat | v < 64 ensures InBody(Char64(v)) {
      AlphabetInBody(v);
    }
    if |b| > 2 {
      EncodedInBody(b[3..]);
    }
  }

  lemma {:induction false} WrappedInBody(text: Bytes)
    requires forall k | 0 <= k < |Unwrapped(text)| :: InBody(Unwrapped(text)[k])
    ensures forall k | 0 <= k < |text| :: InBody(text[k])
    ensures |text| >= |Unwrapped(text)|
  {
    if text != "" {
      var rest := Unwrapped(text[1..]);
      if text[0] in "\r\n" {
        assert Unwrapped(text) == rest;
      } else {
        assert Unwrapped(text)[0] == text[0] && Unwrapped(text)[1..] == rest;
        assert forall k | 0 <= k < |rest| :: rest[k] == Unwrapped(text)[k + 1];
      }
      WrappedInBody(text[1..]);
    }
  }

  /** Any bytes, wrapped into lines at will, padded, and with any line ends behind the padding, make a
      block that matches the pattern, and a scan of it finds the block. */
  lemma Base64BlockIsFound(name: Bytes, b: seq<Octet>, text: Bytes, ends: Bytes)
    requires name != "" && '-' !in name
    requires b != [] && Unwrapped(text) == Encoded(b) && forall k | 0 <= k < |ends| :: ends[k] in "\r\n"
    ensures var block := Block(name, text + Padding(b) + ends);
            Matches(block, 0, |block|) && FindAll(PEM, block, 0) == [block]
  {
    Base64IsBody(b, text, ends);
    OneBlock(name, text + Padding(b) + ends);
  }

  lemma Base64IsBody(b: seq<Octet>, text: Bytes, ends: Bytes)
    requires b != [] && Unwrapped(text) == Encoded(b) && forall k | 0 <= k < |ends| :: ends[k] in "\r\n"
    ensures IsBody(text + Padding(b) + ends)
  {
    var body := text + Padding(b) + ends;
    EncodedInBody(b);
    WrappedInBody(text);
    var n, m := |text|, |text| + |Padding(b)|;
    assert BodyParts(body, n, m) by {
      assert forall k | 0 <= k < n :: body[k] == text[k];
      assert forall k | n <= k < m :: body[k] == Padding(b)[k - n];
      assert forall k | m <= k < |body| :: body[k] == ends[k - m];
    }
  }

  lemma OneBlock(name: Bytes, body: Bytes)
    requires name != "" && '-' !in name && IsBody(body)
    ensures var block := Block(name, body); Matches(block, 0, |block|) && FindAll(PEM, block, 0) == [block]
  {
    var block := Block(name, body);
    assert block[0..|block|] == block && IsPem(block[0..|block|], name, body);
    MatchIsMatchEnd(block, 0, |block|);
    assert FindAll(PEM, block, |block|) == [];
    assert [block[0..|block|]] + [] == [block];
  }
}
