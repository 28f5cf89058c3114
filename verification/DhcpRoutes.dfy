/** DHCP option 121, RFC 3442 section "Classless Route Option Format": the octets of a route list, and the
    encoder and decoder of the Go and of the Python tool. */
module DhcpRoutes {
  import opened Arithmetic
  import opened Options

  type Octet = x: int | 0 <= x < 256

  type Ip4 = s: seq<Octet> | |s| == 4 witness [0, 0, 0, 0]

  /** A destination with its prefix length, and the router to it. */
  datatype Route = Route(ip: Ip4, prefix: Octet, router: Ip4)

  // ---------- Masks ----------

  /** The n high bits of an octet: what `&` with n ones and 8 - n zeros leaves of it. */
  function KeepBits(b: Octet, n: nat): (r: Octet)
    ensures r <= b
  {
    match n
    case 0 => 0
    case 1 => b / 128 * 128
    case 2 => b / 64 * 64
    case 3 => b / 32 * 32
    case 4 => b / 16 * 16
    case 5 => b / 8 * 8
    case 6 => b / 4 * 4
    case 7 => b / 2 * 2
    case _ => b
  }

  /** How many bits of octet i a prefix covers. */
  function CoveredBits(prefix: nat, i: nat): (n: nat)
    ensures n <= 8
  {
    if prefix >= 8 * i + 8 then 8 else if prefix <= 8 * i then 0 else prefix - 8 * i
  }

  /** Octet i of net.CIDRMask(prefix, 32). */
  function MaskOctet(prefix: nat, i: nat): Octet { KeepBits(255, CoveredBits(prefix, i)) }

  /** IP[i] & Mask[i]. */
  function MaskedOctet(ip: Ip4, prefix: nat, i: nat): Octet
    requires i < 4
  {
    KeepBits(ip[i], CoveredBits(prefix, i))
  }

  function Masked(ip: Ip4, prefix: nat): (r: Ip4)
    ensures forall i | 0 <= i < 4 :: r[i] == MaskedOctet(ip, prefix, i)
  {
    [MaskedOctet(ip, prefix, 0), MaskedOctet(ip, prefix, 1), MaskedOctet(ip, prefix, 2), MaskedOctet(ip, prefix, 3)]
  }

  /** RFC 3442: the significant octets of a prefix. */
  function SignificantOctets(prefix: nat): nat { (prefix + 7) / 8 }

  /** The non-zero octets of a mask are its first SignificantOctets ones. */
  lemma MaskOctetNonZero(prefix: nat, i: nat)
    requires prefix <= 32 && i < 4
    ensures MaskOctet(prefix, i) != 0 <==> i < SignificantOctets(prefix)
  {
  }

  lemma KeepBitsTwice(b: Octet, n: nat)
    ensures KeepBits(KeepBits(b, n), n) == KeepBits(b, n)
  {
    match n
    case 1 => assert b / 128 * 128 / 128 == b / 128;
    case 2 => assert b / 64 * 64 / 64 == b / 64;
    case 3 => assert b / 32 * 32 / 32 == b / 32;
    case 4 => assert b / 16 * 16 / 16 == b / 16;
    case 5 => assert b / 8 * 8 / 8 == b / 8;
    case 6 => assert b / 4 * 4 / 4 == b / 4;
    case 7 => assert b / 2 * 2 / 2 == b / 2;
    case _ =>
  }

  lemma MaskedTwice(ip: Ip4, prefix: nat)
    ensures Masked(Masked(ip, prefix), prefix) == Masked(ip, prefix)
  {
    KeepBitsTwice(ip[0], CoveredBits(prefix, 0));
    KeepBitsTwice(ip[1], CoveredBits(prefix, 1));
    KeepBitsTwice(ip[2], CoveredBits(prefix, 2));
    KeepBitsTwice(ip[3], CoveredBits(prefix, 3));
  }

  /** Zeros up to four octets. */
  function FillUp(head: seq<Octet>): Ip4 {
    if |head| >= 4 then head[..4]
    else if |head| == 3 then head + [0]
    else if |head| == 2 then head + [0, 0]
    else if |head| == 1 then head + [0, 0, 0]
    else [0, 0, 0, 0]
  }

  /** A masked address is its significant octets, filled up with zeros. */
  lemma MaskedIsFilledUp(ip: Ip4, prefix: nat)
    requires prefix <= 32
    ensures FillUp(Masked(ip, prefix)[..SignificantOctets(prefix)]) == Masked(ip, prefix)
  {
    var m, k := Masked(ip, prefix), SignificantOctets(prefix);
    assert k <= 1 ==> m[1] == 0;
    assert k <= 2 ==> m[2] == 0;
    assert k <= 3 ==> m[3] == 0;
    assert k == 0 ==> m[0] == 0;
  }

  // ---------- Masking as arithmetic ----------

  function Pow2(n: nat): (p: nat)
    ensures p > 0
  {
    if n == 0 then 1 else 2 * Pow2(n - 1)
  }

  /** The address as a number. */
  function Value(ip: Ip4): nat { Number(ip[0], ip[1], ip[2], ip[3]) }

  function Number(a: nat, b: nat, c: nat, d: nat): nat { ((a * 256 + b) * 256 + c) * 256 + d }

  lemma Powers()
    ensures Pow2(0) == 1 && Pow2(1) == 2 && Pow2(2) == 4 && Pow2(3) == 8 && Pow2(4) == 16
    ensures Pow2(5) == 32 && Pow2(6) == 64 && Pow2(7) == 128 && Pow2(8) == 256
  {
  }

  lemma {:induction false} Pow2Sum(a: nat, b: nat)
    ensures Pow2(a + b) == Pow2(a) * Pow2(b)
  {
    if a > 0 {
      Pow2Sum(a - 1, b);
      MulAssociative(2, Pow2(a - 1), Pow2(b));
    }
  }

  lemma KeptBits(b: Octet, n: nat)
    requires n <= 8
    ensures KeepBits(b, n) == b / Pow2(8 - n) * Pow2(8 - n)
  {
    Powers();
  }

  /** Clearing the low bits of a number whose last d-th parts are an octet and what follows it. */
  lemma CutNumber(high: nat, octet: Octet, low: nat, d: nat, e: nat, b: nat)
    requires d > 0 && d * e == 256 && b > 0 && low < b
    ensures ((high * 256 + octet) * b + low) / (d * b) * (d * b) == (high * 256 + octet / d * d) * b
  {
    var v, q, r := (high * 256 + octet) * b + low, high * e + octet / d, octet % d * b + low;
    assert octet == octet / d * d + octet % d;
    assert q * d == high * 256 + octet / d * d by {
      MulAssociative(high, e, d);
      assert (high * e + octet / d) * d == high * e * d + octet / d * d;
    }
    assert v == q * d * b + r by {
      assert (high * 256 + octet / d * d + octet % d) * b == (high * 256 + octet / d * d) * b + octet % d * b;
    }
    MulAssociative(q, d, b);
    assert r < d * b by {
      MulMono(b, octet % d + 1, d);
      assert (octet % d + 1) * b == octet % d * b + b;
    }
    DivisionIsUnique(v, q, r, d * b);
  }

  /** Masking clears the last 32 - p bits of the address, for every prefix length up to 32. */
  lemma MaskedValue(ip: Ip4, p: nat)
    requires p <= 32
    ensures Value(Masked(ip, p)) == Value(ip) / Pow2(32 - p) * Pow2(32 - p)
  {
    if p <= 8 { MaskedFirst(ip, p); }
    else if p <= 16 { MaskedSecond(ip, p - 8); }
    else if p <= 24 { MaskedThird(ip, p - 16); }
    else { MaskedFourth(ip, p - 24); }
  }

  lemma CutOctet(high: nat, octet: Octet, low: nat, k: nat, b: nat)
    requires k <= 8 && b > 0 && low < b
    ensures ((high * 256 + octet) * b + low) / (Pow2(8 - k) * b) * (Pow2(8 - k) * b)
         == (high * 256 + KeepBits(octet, k)) * b
  {
    Pow2Sum(8 - k, k);
    Powers();
    KeptBits(octet, k);
    CutNumber(high, octet, low, Pow2(8 - k), Pow2(k), b);
  }

  lemma MaskedFirst(ip: Ip4, k: nat)
    requires k <= 8
    ensures Value(Masked(ip, k)) == Value(ip) / Pow2(32 - k) * Pow2(32 - k)
  {
    Blocks();
    Pow2Sum(8 - k, 24);
    CutOctet(0, ip[0], Number(0, ip[1], ip[2], ip[3]), k, 0x1_000000);
  }

  lemma MaskedSecond(ip: Ip4, k: nat)
    requires k <= 8
    ensures Value(Masked(ip, 8 + k)) == Value(ip) / Pow2(24 - k) * Pow2(24 - k)
  {
    Blocks();
    Pow2Sum(8 - k, 16);
    CutOctet(ip[0], ip[1], Number(0, 0, ip[2], ip[3]), k, 0x1_0000);
  }

  lemma MaskedThird(ip: Ip4, k: nat)
    requires k <= 8
    ensures Value(Masked(ip, 16 + k)) == Value(ip) / Pow2(16 - k) * Pow2(16 - k)
  {
    Blocks();
    Pow2Sum(8 - k, 8);
    CutOctet(Number(0, 0, ip[0], ip[1]), ip[2], ip[3], k, 0x100);
  }

  lemma MaskedFourth(ip: Ip4, k: nat)
    requires k <= 8
    ensures Value(Masked(ip, 24 + k)) == Value(ip) / Pow2(8 - k) * Pow2(8 - k)
  {
    CutOctet(Number(0, ip[0], ip[1], ip[2]), ip[3], 0, k, 1);
  }

  lemma Blocks()
    ensures Pow2(24) == 0x1_000000 && Pow2(16) == 0x1_0000 && Pow2(8) == 0x100 && Pow2(0) == 1
  {
    Powers();
    Pow2Sum(8, 8);
    Pow2Sum(16, 8);
  }

  /** Two addresses are masked alike exactly when they agree on their first p bits. */
  lemma MaskedAlike(a: Ip4, b: Ip4, p: nat)
    requires p <= 32
    ensures Masked(a, p) == Masked(b, p) <==> Value(a) / Pow2(32 - p) == Value(b) / Pow2(32 - p)
  {
    var n, va, vb := Pow2(32 - p), Value(a) / Pow2(32 - p), Value(b) / Pow2(32 - p);
    MaskedValue(a, p);
    MaskedValue(b, p);
    if va * n == vb * n {
      DivisionIsUnique(va * n, va, 0, n);
      DivisionIsUnique(vb * n, vb, 0, n);
    }
    if va == vb {
      ValueIsUnique(Masked(a, p), Masked(b, p));
    }
  }

  lemma LastOctet(x: nat, p: Octet, y: nat, q: Octet)
    requires x * 256 + p == y * 256 + q
    ensures x == y && p == q
  {
  }

  lemma ValueIsUnique(a: Ip4, b: Ip4)
    requires Value(a) == Value(b)
    ensures a == b
  {
    LastOctet(Number(0, a[0], a[1], a[2]), a[3], Number(0, b[0], b[1], b[2]), b[3]);
    LastOctet(Number(0, 0, a[0], a[1]), a[2], Number(0, 0, b[0], b[1]), b[2]);
    LastOctet(a[0], a[1], b[0], b[1]);
    assert a == [a[0], a[1], a[2], a[3]] && b == [b[0], b[1], b[2], b[3]];
  }

  // ---------- The octets of a route list ----------

  /** No prefix longer than 32, no host bits. */
  predicate Canonical(r: Route) { r.prefix <= 32 && Masked(r.ip, r.prefix) == r.ip }

  predicate AllCanonical(rs: seq<Route>) { forall k | 0 <= k < |rs| :: Canonical(rs[k]) }

  function Cleared(r: Route): Route { r.(ip := Masked(r.ip, r.prefix)) }

  function ClearedAll(rs: seq<Route>): seq<Route> {
    if rs == [] then [] else [Cleared(rs[0])] + ClearedAll(rs[1..])
  }

  function EncodeRoute(r: Route): (octets: seq<Octet>)
    requires r.prefix <= 32
    ensures |octets| == 5 + SignificantOctets(r.prefix)
  {
    [r.prefix] + Masked(r.ip, r.prefix)[..SignificantOctets(r.prefix)] + r.router
  }

  function Encode(rs: seq<Route>): seq<Octet>
    requires forall k | 0 <= k < |rs| :: rs[k].prefix <= 32
  {
    if rs == [] then [] else EncodeRoute(rs[0]) + Encode(rs[1..])
  }

  lemma {:induction false} EncodeSnoc(rs: seq<Route>, r: Route)
    requires r.prefix <= 32 && forall k | 0 <= k < |rs| :: rs[k].prefix <= 32
    ensures Encode(rs + [r]) == Encode(rs) + EncodeRoute(r)
  {
    if rs == [] {
      assert (rs + [r])[1..] == [];
    } else {
      assert (rs + [r])[1..] == rs[1..] + [r];
      EncodeSnoc(rs[1..], r);
    }
  }

  // ---------- Decoding, as the Go tool does it ----------

  /** The fields of one route off the front, as they stand in the octets. */
  datatype Single = NoSingle | Single(route: Route, left: seq<Octet>)

  function NetLen(prefix: int): nat { (prefix + 7) % 256 / 8 }

  /** One route off the front. The prefix octet is unchecked, and adding 7 to it wraps at 256. */
  function ReadSingle(octets: seq<Octet>): (s: Single)
    ensures s.Single? ==> |s.left| <= |octets| - 5
  {
    if octets == [] then NoSingle else
    var netLen := NetLen(octets[0]);
    var rest := octets[1..];
    if |rest| < netLen + 4 then NoSingle
    else Single(Route(FillUp(rest[..netLen]), octets[0], rest[netLen..netLen + 4]), rest[netLen + 4..])
  }

  /** A route in Go's types: the length of its mask, None for the nil mask that net.CIDRMask(prefix, 32)
      gives for a prefix over 32. */
  datatype GoRoute = GoRoute(ip: Ip4, mask: Option<nat>, router: Ip4)

  function AsGo(r: Route): GoRoute { GoRoute(r.ip, if r.prefix <= 32 then Some(r.prefix) else None, r.router) }

  function AsGoAll(rs: seq<Route>): (gs: seq<GoRoute>)
    ensures |gs| == |rs|
  {
    if rs == [] then [] else [AsGo(rs[0])] + AsGoAll(rs[1..])
  }

  /** What `String` shows of a route: a nil mask has size 0. */
  function Shown(g: GoRoute): (Ip4, nat, Ip4) { (g.ip, if g.mask.Some? then g.mask.value else 0, g.router) }

  datatype GoSingle = NoGoSingle | GoSingle(route: GoRoute, left: seq<Octet>)

  function DecodeSingle(octets: seq<Octet>): (s: GoSingle)
    ensures s.GoSingle? ==> |s.left| <= |octets| - 5
  {
    var s := ReadSingle(octets);
    if s.NoSingle? then NoGoSingle else GoSingle(AsGo(s.route), s.left)
  }

  function GoDecode(octets: seq<Octet>): Option<seq<GoRoute>>
    decreases |octets|
  {
    if octets == [] then Some([])
    else
      var s := DecodeSingle(octets);
      if s.NoGoSingle? then None
      else
        var later := GoDecode(s.left);
        if later.None? then None else Some([s.route] + later.value)
  }

  // ---------- Decoding, as the Python tool does it ----------

  /** One route off the front; the prefix is checked, and ip_network refuses host bits. */
  function PyDecodeSingle(octets: seq<Octet>): (s: Single)
    ensures s.Single? ==> |s.left| <= |octets| - 5
  {
    var s := ReadSingle(octets);
    if s.Single? && Canonical(s.route) then s else NoSingle
  }

  function PyDecode(octets: seq<Octet>): Option<seq<Route>>
    decreases |octets|
  {
    if octets == [] then Some([])
    else
      var s := PyDecodeSingle(octets);
      if s.NoSingle? then None
      else
        var later := PyDecode(s.left);
        if later.None? then None else Some([s.route] + later.value)
  }

  // ---------- Round trips ----------

  lemma TakeApart(p: Octet, head: seq<Octet>, router: Ip4, more: seq<Octet>)
    ensures var octets := [p] + head + router + more;
            var rest := octets[1..];
            && octets[0] == p && |rest| >= |head| + 4
            && rest[..|head|] == head && rest[|head|..|head| + 4] == router && rest[|head| + 4..] == more
  {
    var octets := [p] + head + router + more;
    assert octets[1..] == head + router + more;
  }

  lemma DecodeEncoded(r: Route, more: seq<Octet>)
    requires r.prefix <= 32
    ensures ReadSingle(EncodeRoute(r) + more) == Single(Cleared(r), more)
  {
    var head := Masked(r.ip, r.prefix)[..SignificantOctets(r.prefix)];
    TakeApart(r.prefix, head, r.router, more);
    assert EncodeRoute(r) + more == [r.prefix] + head + r.router + more;
    assert NetLen(r.prefix) == |head|;
    MaskedIsFilledUp(r.ip, r.prefix);
  }

  /** Decoding what was encoded gives the routes back, with their host bits cleared. */
  lemma {:induction false} GoRoundTrip(rs: seq<Route>)
    requires forall k | 0 <= k < |rs| :: rs[k].prefix <= 32
    ensures GoDecode(Encode(rs)) == Some(AsGoAll(ClearedAll(rs)))
  {
    if rs != [] {
      DecodeEncoded(rs[0], Encode(rs[1..]));
      GoRoundTrip(rs[1..]);
      assert ClearedAll(rs)[1..] == ClearedAll(rs[1..]);
    }
  }

  lemma {:induction false} ClearedCanonical(rs: seq<Route>)
    requires AllCanonical(rs)
    ensures ClearedAll(rs) == rs
  {
    if rs != [] {
      ClearedCanonical(rs[1..]);
    }
  }

  lemma {:induction false} ClearedIsCanonical(rs: seq<Route>)
    requires forall k | 0 <= k < |rs| :: rs[k].prefix <= 32
    ensures |ClearedAll(rs)| == |rs| && AllCanonical(ClearedAll(rs)) && ClearedAll(ClearedAll(rs)) == ClearedAll(rs)
    ensures Encode(ClearedAll(rs)) == Encode(rs)
  {
    if rs != [] {
      MaskedTwice(rs[0].ip, rs[0].prefix);
      ClearedIsCanonical(rs[1..]);
      assert ClearedAll(rs)[1..] == ClearedAll(rs[1..]);
    }
  }

  /** What either encoder writes of routes up to /32, both decoders read alike. */
  lemma GoAndPythonAgree(rs: seq<Route>)
    requires forall k | 0 <= k < |rs| :: rs[k].prefix <= 32
    ensures PyDecode(Encode(rs)) == Some(ClearedAll(rs)) && GoDecode(Encode(rs)) == Some(AsGoAll(ClearedAll(rs)))
  {
    GoRoundTrip(rs);
    ClearedIsCanonical(rs);
    PyAcceptsExactly(Encode(rs), ClearedAll(rs));
  }

  /** A prefix over 32 is where the decoders differ: Python refuses, and Go yields a route without a mask,
      which it shows as a /0. From 249 on the number of octets wraps to none, and what is shown is the
      default route. */
  lemma LongPrefix(p: Octet, net: seq<Octet>, router: Ip4)
    requires p > 32 && |net| == NetLen(p)
    ensures GoDecode([p] + (net + router)) == Some([GoRoute(FillUp(net), None, router)])
    ensures PyDecode([p] + (net + router)) == None
    ensures Shown(GoRoute(FillUp(net), None, router)).1 == 0
    ensures p >= 249 ==> net == [] && GoDecode([0] + router) == Some([GoRoute([0, 0, 0, 0], Some(0), router)])
                         && Shown(GoRoute(FillUp(net), None, router)) == Shown(GoRoute([0, 0, 0, 0], Some(0), router))
  {
    OneGoRoute(p, net, router);
    if p >= 249 {
      OneGoRoute(0, [], router);
      assert [] + router == router;
    }
  }

  lemma OneGoRoute(p: Octet, net: seq<Octet>, router: Ip4)
    requires |net| == NetLen(p)
    ensures ReadSingle([p] + (net + router)) == Single(Route(FillUp(net), p, router), [])
    ensures GoDecode([p] + (net + router)) == Some([AsGo(Route(FillUp(net), p, router))])
  {
    OnlyRoute([p] + (net + router), p, net, router);
    var g := AsGo(Route(FillUp(net), p, router));
    assert GoDecode([]) == Some([]) && [g] + [] == [g];
  }

  lemma OnlyRoute(octets: seq<Octet>, p: Octet, net: seq<Octet>, router: Ip4)
    requires octets == [p] + (net + router) && |net| == NetLen(p)
    ensures ReadSingle(octets) == Single(Route(FillUp(net), p, router), [])
  {
    var rest := octets[1..];
    assert rest == net + router;
    assert rest[..|net|] == net && rest[|net|..|net| + 4] == router && rest[|net| + 4..] == [];
  }

  lemma EncodeDecoded(octets: seq<Octet>)
    requires ReadSingle(octets).Single? && Canonical(ReadSingle(octets).route)
    ensures var s := ReadSingle(octets);
            octets == EncodeRoute(s.route) + s.left
  {
    var r := ReadSingle(octets).route;
    DecodedParts(octets);
    CanonicalEncoding(r);
    OctetsApart(octets, SignificantOctets(r.prefix));
  }

  lemma DecodedParts(octets: seq<Octet>)
    requires ReadSingle(octets).Single? && ReadSingle(octets).route.prefix <= 32
    ensures var s, rest, k := ReadSingle(octets), octets[1..], SignificantOctets(octets[0]);
            && s.route.prefix == octets[0] && |rest| >= k + 4
            && s.route.ip[..k] == rest[..k] && s.route.router == rest[k..k + 4] && s.left == rest[k + 4..]
  {
    ShortPrefix(octets[0]);
    FilledUpFront(octets[1..][..NetLen(octets[0])]);
  }

  lemma ShortPrefix(p: Octet)
    requires p <= 32
    ensures NetLen(p) == SignificantOctets(p) <= 4
  {
  }

  lemma CanonicalEncoding(r: Route)
    requires Canonical(r)
    ensures EncodeRoute(r) == [r.prefix] + r.ip[..SignificantOctets(r.prefix)] + r.router
  {
  }

  lemma OctetsApart(octets: seq<Octet>, k: nat)
    requires |octets| >= k + 5
    ensures var rest := octets[1..];
            octets == [octets[0]] + rest[..k] + rest[k..k + 4] + rest[k + 4..]
  {
  }

  lemma FilledUpFront(head: seq<Octet>)
    requires |head| <= 4
    ensures FillUp(head)[..|head|] == head
  {
  }

  /** The Python decoder accepts what the Go decoder does, except masks that are nil and host bits; and
      encoding what it accepted gives the same octets again. */
  lemma {:induction false} PyAcceptsExactly(octets: seq<Octet>, rs: seq<Route>)
    ensures PyDecode(octets) == Some(rs) <==> GoDecode(octets) == Some(AsGoAll(rs)) && AllCanonical(rs)
    ensures PyDecode(octets) == Some(rs) ==> Encode(rs) == octets
    decreases |octets|
  {
    if octets != [] && rs != [] {
      var s := ReadSingle(octets);
      FirstRoute(octets, rs);
      if s.Single? && AsGo(s.route) == AsGo(rs[0]) {
        PyAcceptsExactly(s.left, rs[1..]);
        if Canonical(s.route) {
          EncodeDecoded(octets);
        }
      }
    }
  }

  /** What either decoder makes of the first route and of the rest. */
  lemma FirstRoute(octets: seq<Octet>, rs: seq<Route>)
    requires octets != [] && rs != []
    ensures var s := ReadSingle(octets);
            && (GoDecode(octets) == Some(AsGoAll(rs)) <==>
                s.Single? && AsGo(s.route) == AsGo(rs[0]) && GoDecode(s.left) == Some(AsGoAll(rs[1..])))
            && (PyDecode(octets) == Some(rs) <==>
                s.Single? && s.route == rs[0] && Canonical(rs[0]) && PyDecode(s.left) == Some(rs[1..]))
    ensures AllCanonical(rs) <==> Canonical(rs[0]) && AllCanonical(rs[1..])
  {
    var s := ReadSingle(octets);
    assert rs == [rs[0]] + rs[1..];
    if s.Single? && GoDecode(s.left).Some? {
      SameCons(AsGo(s.route), GoDecode(s.left).value, AsGo(rs[0]), AsGoAll(rs[1..]));
    }
    if s.Single? && PyDecode(s.left).Some? {
      SameCons(s.route, PyDecode(s.left).value, rs[0], rs[1..]);
    }
  }

  lemma SameCons<T>(x: T, s: seq<T>, y: T, t: seq<T>)
    ensures [x] + s == [y] + t <==> x == y && s == t
  {
    assert ([x] + s)[0] == x && ([x] + s)[1..] == s && ([y] + t)[0] == y && ([y] + t)[1..] == t;
  }

  /** For canonical routes both decoders invert the encoder. */
  lemma PyRoundTrip(rs: seq<Route>)
    requires AllCanonical(rs)
    ensures PyDecode(Encode(rs)) == Some(rs)
  {
    GoRoundTrip(rs);
    ClearedCanonical(rs);
    PyAcceptsExactly(Encode(rs), rs);
  }
}
