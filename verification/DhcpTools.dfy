/** The Go and the Python tool for DHCP option 121, over the octets of module DhcpRoutes. */
module DhcpTools {
  import opened Options
  import opened Strings
  import opened DhcpRoutes

  // ---------- Hexadecimal text ----------

  /** The conversion %02x. */
  function Hex2(o: Octet): string { Pad(2, Digits(o, Hex)) }

  function HexParts(octets: seq<Octet>): (parts: seq<string>)
    ensures |parts| == |octets| && forall k | 0 <= k < |octets| :: parts[k] == Hex2(octets[k])
  {
    seq(|octets|, k requires 0 <= k < |octets| => Hex2(octets[k]))
  }

  /** Octets in hexadecimal, separated by colons. */
  function HexText(octets: seq<Octet>): string { Join(HexParts(octets), ':') }

  /** Octets in hexadecimal, each followed by a colon. */
  function HexColons(octets: seq<Octet>): string {
    if octets == [] then ""
    else HexColons(octets[..|octets| - 1]) + Hex2(octets[|octets| - 1]) + ":"
  }

  lemma HexColonsSnoc(octets: seq<Octet>, o: Octet)
    ensures HexColons(octets + [o]) == HexColons(octets) + Hex2(o) + ":"
  {
    assert (octets + [o])[..|octets|] == octets;
  }

  lemma {:induction false} HexTextSnoc(octets: seq<Octet>, o: Octet)
    ensures HexText(octets + [o]) == HexColons(octets) + Hex2(o)
    decreases |octets|
  {
    if octets == [] {
      assert HexParts([o]) == [Hex2(o)];
    } else {
      var front, last := octets[..|octets| - 1], octets[|octets| - 1];
      assert octets == front + [last];
      HexTextSnoc(front, last);
      HexTextConcat(octets, [o]);
      assert HexParts([o]) == [Hex2(o)];
    }
  }

  lemma HexTextConcat(a: seq<Octet>, b: seq<Octet>)
    requires a != [] && b != []
    ensures HexText(a + b) == HexText(a) + ":" + HexText(b)
  {
    assert HexParts(a + b) == HexParts(a) + HexParts(b);
    JoinAppend(HexParts(a), HexParts(b), ':');
  }

  /** strconv.ParseUint(s, 16, 8). */
  function ParseOctet(s: string): Option<Octet> {
    var v := DigitsValue(s, Hex);
    if v.Some? && v.value < 256 then Some(v.value) else None
  }

  lemma OctetRoundTrip(o: Octet)
    ensures ParseOctet(Hex2(o)) == Some(o)
    ensures ':' !in Hex2(o) && IsTrimmed(Hex2(o)) && Hex2(o) != ""
  {
    PadRoundTrip(2, o, Hex);
    PadIsDigits(2, o, Hex);
    HexIsClean(Hex2(o));
  }

  /** Octets are read in either case, and with one digit or more. */
  lemma OctetsAreReadLoosely(o: Octet)
    ensures ParseOctet(Upper(Hex2(o))) == Some(o) && ParseOctet(Digits(o, Hex)) == Some(o)
  {
    OctetRoundTrip(o);
    CaseOfDigits(Hex2(o), Hex);
    DigitsRoundTrip(o, Hex);
  }

  lemma HexIsClean(s: string)
    requires AllDigits(s)
    ensures ':' !in s && IsTrimmed(s)
  {
    assert forall k | 0 <= k < 16 :: DIGITS[k] != ':' && !IsSpace(DIGITS[k]);
  }

  // ---------- The Go tool: building an option ----------

  datatype BuildError = BadNetwork(arg: string) | NoNetworks | BadGateway(arg: string)

  type Built = Result<seq<Route>, BuildError>

  datatype NetRaw = Net(ip: Ip4, prefix: Octet)

  /** An IPv4 network. */
  type Net = n: NetRaw | n.prefix <= 32 witness Net([0, 0, 0, 0], 0)

  /** An IPv4 address in the 16-octet form net.ParseIP returns. */
  type Ip16 = s: seq<Octet> | |s| == 16 witness [0, 0, 0, 0, 0, 0, 0, 0, 0, 0, 0, 0, 0, 0, 0, 0]

  function RouteTo(n: Net, router: Ip16): Route { Route(n.ip, n.prefix, router[12..]) }

  function RoutesTo(ns: seq<Net>, router: Ip16): (rs: seq<Route>)
    ensures |rs| == |ns| && forall k | 0 <= k < |ns| :: rs[k] == RouteTo(ns[k], router)
  {
    seq(|ns|, k requires 0 <= k < |ns| => RouteTo(ns[k], router))
  }

  /** The routes a command line means: networks wait for the next gateway; those after the last one
      are dropped. */
  function Routes(args: seq<string>, pending: seq<Net>, parseCidr: string -> Option<Net>,
                  parseIp: string -> Option<Ip16>): (r: Built)
    ensures r.Ok? ==> forall k | 0 <= k < |r.value| :: r.value[k].prefix <= 32
  {
    if args == [] then Ok([])
    else if '/' in args[0] then
      match parseCidr(args[0])
      case None => Err(BadNetwork(args[0]))
      case Some(n) => Routes(args[1..], pending + [n], parseCidr, parseIp)
    else if pending == [] then Err(NoNetworks)
    else
      match parseIp(args[0])
      case None => Err(BadGateway(args[0]))
      case Some(router) =>
        var later := Routes(args[1..], [], parseCidr, parseIp);
        if later.Err? then later else Ok(RoutesTo(pending, router) + later.value)
  }

  /** The number of networks on a command line. */
  function Networks(args: seq<string>): nat {
    if args == [] then 0 else Networks(args[1..]) + if '/' in args[0] then 1 else 0
  }

  /** No network is lost exactly when the command line does not end in one. */
  lemma {:induction false} NetworksLost(args: seq<string>, pending: seq<Net>, parseCidr: string -> Option<Net>,
                                        parseIp: string -> Option<Ip16>)
    requires Routes(args, pending, parseCidr, parseIp).Ok?
    ensures var n, m := |Routes(args, pending, parseCidr, parseIp).value|, |pending| + Networks(args);
            n <= m && (n == m <==> if args == [] then pending == [] else '/' !in args[|args| - 1])
    decreases |args|
  {
    if args != [] {
      if '/' in args[0] {
        NetworksLost(args[1..], pending + [parseCidr(args[0]).value], parseCidr, parseIp);
      } else {
        NetworksLost(args[1..], [], parseCidr, parseIp);
      }
    }
  }

  /** Networks behind the last gateway change nothing: not a single route, not even an error. */
  lemma {:induction false} TrailingNetworksAreDropped(args: seq<string>, nets: seq<string>, pending: seq<Net>,
                                                      parseCidr: string -> Option<Net>, parseIp: string -> Option<Ip16>)
    requires forall k | 0 <= k < |nets| :: '/' in nets[k] && parseCidr(nets[k]).Some?
    ensures Routes(args + nets, pending, parseCidr, parseIp) == Routes(args, pending, parseCidr, parseIp)
    decreases |args| + |nets|
  {
    if args != [] {
      assert (args + nets)[1..] == args[1..] + nets;
      TrailingNetworksAreDropped(args[1..], nets, [], parseCidr, parseIp);
      if '/' in args[0] && parseCidr(args[0]).Some? {
        TrailingNetworksAreDropped(args[1..], nets, pending + [parseCidr(args[0]).value], parseCidr, parseIp);
      }
    } else if nets != [] {
      assert args + nets == nets && [] + nets[1..] == nets[1..];
      TrailingNetworksAreDropped([], nets[1..], pending + [parseCidr(nets[0]).value], parseCidr, parseIp);
    }
  }

  /** Command lines that lose networks without complaint: networks only, and one behind its gateway. */
  lemma LosingCommandLines(parseCidr: string -> Option<Net>, parseIp: string -> Option<Ip16>)
    requires parseCidr("10.0.0.0/8").Some? && parseCidr("172.16.0.0/12").Some? && parseIp("10.0.0.1").Some?
    ensures Routes(["10.0.0.0/8", "172.16.0.0/12"], [], parseCidr, parseIp) == Ok([])
    ensures Routes(["10.0.0.0/8", "10.0.0.1", "172.16.0.0/12"], [], parseCidr, parseIp) ==
            Ok([RouteTo(parseCidr("10.0.0.0/8").value, parseIp("10.0.0.1").value)])
  {
    var a, g, b := "10.0.0.0/8", "10.0.0.1", "172.16.0.0/12";
    assert a[8] == '/' && b[10] == '/' && '/' !in g;
    TrailingNetworksAreDropped([], [a, b], [], parseCidr, parseIp);
    TrailingNetworksAreDropped([a, g], [b], [], parseCidr, parseIp);
    assert [] + [a, b] == [a, b] && [a, g] + [b] == [a, g, b];
    OneNetwork(a, g, parseCidr, parseIp);
  }

  lemma OneNetwork(a: string, g: string, parseCidr: string -> Option<Net>, parseIp: string -> Option<Ip16>)
    requires '/' in a && '/' !in g && parseCidr(a).Some? && parseIp(g).Some?
    ensures Routes([a, g], [], parseCidr, parseIp) == Ok([RouteTo(parseCidr(a).value, parseIp(g).value)])
  {
    var args := [a, g];
    var n: Net := parseCidr(a).value;
    var r := RouteTo(n, parseIp(g).value);
    assert args[1..] == [g] && args[1..][1..] == [] && [] + [n] == [n];
    assert Routes([], [], parseCidr, parseIp) == Ok([]);
    assert Routes(args[1..], [n], parseCidr, parseIp) == Ok(RoutesTo([n], parseIp(g).value) + []);
    assert RoutesTo([n], parseIp(g).value) + [] == [r];
  }

  /** Appends an octet in hexadecimal and a colon. */
  method AppendHex(res: string, ghost done: seq<Octet>, o: Octet) returns (res': string)
    requires res == HexColons(done)
    ensures res' == HexColons(done + [o])
  {
    HexColonsSnoc(done, o);
    res' := res + Hex2(o) + ":";
  }

  method FormatDHCP(n: Net, router: Ip16) returns (res: string)
    ensures res == HexText(EncodeRoute(RouteTo(n, router)))
  {
    res := FormatNet(n);
    res := AppendRouter(res, [n.prefix] + Masked(n.ip, n.prefix)[..SignificantOctets(n.prefix)], router);
  }

  /** The last four octets of the router's 16-octet form. */
  method AppendRouter(start: string, ghost net: seq<Octet>, router: Ip16) returns (res: string)
    requires start == HexColons(net)
    ensures res == HexText(net + router[12..])
  {
    res := start;
    assert net + router[12..12] == net;
    for j := 0 to 3
      invariant res == HexColons(net + router[12..12 + j])
    {
      assert net + router[12..12 + j + 1] == net + router[12..12 + j] + [router[j + 12]];
      res := AppendHex(res, net + router[12..12 + j], router[j + 12]);
    }
    HexTextSnoc(net + router[12..15], router[15]);
    res := res + Hex2(router[15]);
    assert router[12..] == router[12..15] + [router[15]];
    assert net + router[12..15] + [router[15]] == net + router[12..];
  }

  /** One octet of a network: is the mask over, and what is left of the address under it. */
  method OctetUnderMask(n: Net, i: nat) returns (beyond: bool, o: Octet)
    requires i < 4
    ensures beyond <==> i >= SignificantOctets(n.prefix)
    ensures o == Masked(n.ip, n.prefix)[i]
  {
    MaskOctetNonZero(n.prefix, i);
    beyond := MaskOctet(n.prefix, i) == 0;
    o := MaskedOctet(n.ip, n.prefix, i);
  }

  /** The first part of formatDHCP: the prefix length, then the octets under the mask. */
  method FormatNet(n: Net) returns (res: string)
    ensures res == HexColons([n.prefix] + Masked(n.ip, n.prefix)[..SignificantOctets(n.prefix)])
  {
    ghost var masked := Masked(n.ip, n.prefix);
    res := AppendHex("", [], n.prefix);
    assert [] + [n.prefix] == [n.prefix] + masked[..0];
    var i := 0;
    while i < 4
      invariant 0 <= i <= 4 && i <= SignificantOctets(n.prefix)
      invariant res == HexColons([n.prefix] + masked[..i])
    {
      var beyond, o := OctetUnderMask(n, i);
      if beyond {
        break;
      }
      assert [n.prefix] + masked[..i + 1] == [n.prefix] + masked[..i] + [o];
      res := AppendHex(res, [n.prefix] + masked[..i], o);
      i := i + 1;
    }
  }

  /** What Join makes of the texts of routes is the text of all their octets. */
  method BuildOpt(args: seq<string>, parseCidr: string -> Option<Net>, parseIp: string -> Option<Ip16>)
    returns (r: Result<string, BuildError>)
    ensures match Routes(args, [], parseCidr, parseIp)
            case Err(e) => r == Err(e)
            case Ok(rs) => r == Ok(HexText(Encode(rs)))
  {
    var inputs: seq<Net> := [];
    var outputs: seq<string> := [];
    ghost var done: seq<Route> := [];
    assert args[0..] == args;
    StartFollows(Routes(args, [], parseCidr, parseIp));
    for i := 0 to |args|
      invariant forall k | 0 <= k < |done| :: done[k].prefix <= 32
      invariant |outputs| == |done| && forall k | 0 <= k < |done| :: outputs[k] == HexText(EncodeRoute(done[k]))
      invariant Follows(Routes(args, [], parseCidr, parseIp), done, Routes(args[i..], inputs, parseCidr, parseIp))
    {
      var arg := args[i];
      assert args[i..][0] == arg && args[i..][1..] == args[i + 1..];
      if '/' in arg {
        var n := parseCidr(arg);
        if n.None? {
          return Err(BadNetwork(arg));
        }
        inputs := inputs + [n.value];
      } else {
        if |inputs| == 0 {
          return Err(NoNetworks);
        }
        var router := parseIp(arg);
        if router.None? {
          return Err(BadGateway(arg));
        }
        ghost var before, later := done, Routes(args[i + 1..], [], parseCidr, parseIp);
        for k := 0 to |inputs|
          invariant done == before + RoutesTo(inputs, router.value)[..k]
          invariant |outputs| == |done|
          invariant forall k | 0 <= k < |done| :: done[k].prefix <= 32 && outputs[k] == HexText(EncodeRoute(done[k]))
        {
          var text := FormatDHCP(inputs[k], router.value);
          done := done + [RouteTo(inputs[k], router.value)];
          outputs := outputs + [text];
        }
        ghost var added := RoutesTo(inputs, router.value);
        assert added[..|inputs|] == added;
        NextFollows(Routes(args, [], parseCidr, parseIp), before, added, later);
        inputs := [];
      }
    }
    assert args[|args|..] == [];
    EndFollows(Routes(args, [], parseCidr, parseIp), done);
    JoinedRoutes(done, outputs);
    r := Ok(Join(outputs, ':'));
  }

  /** `whole` is what comes of the routes done so far and of the rest. */
  ghost predicate Follows(whole: Built, done: seq<Route>, rest: Built) {
    whole == if rest.Ok? then Ok(done + rest.value) else rest
  }

  lemma StartFollows(whole: Built)
    ensures Follows(whole, [], whole)
  {
    assert whole.Ok? ==> [] + whole.value == whole.value;
  }

  lemma EndFollows(whole: Built, done: seq<Route>)
    requires Follows(whole, done, Ok([]))
    ensures whole == Ok(done)
  {
    assert done + [] == done;
  }

  lemma NextFollows(whole: Built, done: seq<Route>, added: seq<Route>, later: Built)
    requires Follows(whole, done, if later.Err? then later else Ok(added + later.value))
    ensures Follows(whole, done + added, later)
  {
    assert later.Ok? ==> done + (added + later.value) == (done + added) + later.value;
  }

  lemma {:induction false} JoinedRoutes(rs: seq<Route>, texts: seq<string>)
    requires |texts| == |rs|
    requires forall k | 0 <= k < |rs| :: rs[k].prefix <= 32 && texts[k] == HexText(EncodeRoute(rs[k]))
    ensures Join(texts, ':') == HexText(Encode(rs))
  {
    if |rs| == 1 {
      assert Encode(rs[1..]) == [];
      assert Encode(rs) == EncodeRoute(rs[0]);
    } else if |rs| > 1 {
      JoinedRoutes(rs[1..], texts[1..]);
      HexTextConcat(EncodeRoute(rs[0]), Encode(rs[1..]));
    }
  }

  // ---------- The Go tool: decoding an option ----------

  /** All parts as octets, unless one of them is none. */
  function ParseOctets(parts: seq<string>): Option<seq<Octet>> {
    if parts == [] then Some([])
    else
      var front := ParseOctets(parts[..|parts| - 1]);
      var last := ParseOctet(parts[|parts| - 1]);
      if front.None? || last.None? then None else Some(front.value + [last.value])
  }

  function DecodeOption(text: string): Option<seq<GoRoute>> {
    var octets := ParseOctets(Split(TrimSpace(text), ':'));
    if octets.None? then None else GoDecode(octets.value)
  }

  method DecodeDHCPOption(text: string) returns (r: Option<seq<GoRoute>>)
    ensures r == DecodeOption(text)
  {
    var parts := Split(TrimSpace(text), ':');
    var octets: seq<Octet> := [];
    for i := 0 to |parts|
      invariant ParseOctets(parts[..i]) == Some(octets)
    {
      assert parts[..i + 1][..i] == parts[..i];
      var v := ParseOctet(parts[i]);
      if v.None? {
        OneBadPart(parts, i);
        return None;
      }
      octets := octets + [v.value];
    }
    assert parts[..|parts|] == parts;
    r := DecodeRoutes(octets);
  }

  /** The second loop: decodes routes off the front until nothing is left. */
  method DecodeRoutes(all: seq<Octet>) returns (r: Option<seq<GoRoute>>)
    ensures r == GoDecode(all)
  {
    var octets := all;
    var results: seq<GoRoute> := [];
    StartDecodeFollows(GoDecode(all));
    while |octets| > 0
      invariant DecodeFollows(GoDecode(all), results, GoDecode(octets))
      decreases |octets|
    {
      var s := DecodeSingle(octets);
      if s.NoGoSingle? {
        return None;
      }
      NextDecodeFollows(GoDecode(all), results, s.route, GoDecode(s.left));
      octets, results := s.left, results + [s.route];
    }
    assert results + [] == results;
    r := Some(results);
  }

  lemma {:induction false} OneBadPart(parts: seq<string>, i: nat)
    requires i < |parts| && ParseOctet(parts[i]).None?
    ensures ParseOctets(parts).None?
    decreases |parts|
  {
    if i < |parts| - 1 {
      OneBadPart(parts[..|parts| - 1], i);
    }
  }

  lemma {:induction false} ParseHexParts(octets: seq<Octet>)
    ensures ParseOctets(HexParts(octets)) == Some(octets)
  {
    if octets != [] {
      var front, last := octets[..|octets| - 1], octets[|octets| - 1];
      ParseHexParts(front);
      OctetRoundTrip(last);
      assert HexParts(octets)[..|octets| - 1] == HexParts(front);
      assert octets == front + [last];
    }
  }

  lemma HexTextIsTrimmed(octets: seq<Octet>)
    ensures IsTrimmed(HexText(octets))
  {
    if octets != [] {
      var front, last := octets[..|octets| - 1], octets[|octets| - 1];
      assert octets == front + [last];
      HexTextSnoc(front, last);
      OctetRoundTrip(last);
      if front != [] {
        var first, more := octets[0], octets[1..];
        assert octets == [first] + more;
        HexTextConcat([first], more);
        OctetRoundTrip(first);
        assert HexParts([first]) == [Hex2(first)];
      }
    }
  }

  lemma DecodedText(octets: seq<Octet>)
    ensures DecodeOption(HexText(octets)) == if octets == [] then None else GoDecode(octets)
  {
    HexTextIsTrimmed(octets);
    if octets != [] {
      forall k | 0 <= k < |octets| ensures ':' !in HexParts(octets)[k] {
        OctetRoundTrip(octets[k]);
      }
      SplitJoin(HexParts(octets), ':');
      ParseHexParts(octets);
    } else {
      assert Split("", ':') == [""];
      assert ParseOctets([""]).None?;
    }
  }

  /** What the Go tool builds it decodes to the same routes, host bits cleared, unless it built nothing:
      the empty option is refused. */
  lemma OptionRoundTrip(rs: seq<Route>)
    requires forall k | 0 <= k < |rs| :: rs[k].prefix <= 32
    ensures DecodeOption(HexText(Encode(rs))) == if rs == [] then None else Some(AsGoAll(ClearedAll(rs)))
  {
    DecodedText(Encode(rs));
    GoRoundTrip(rs);
  }

  // ---------- The Python tool ----------

  datatype PyNetRaw = PyNet(packed: seq<Octet>, prefix: nat)

  /** A network that ip_network accepts, IPv4 without host bits or IPv6. */
  predicate StrictNet(n: PyNetRaw) {
    if |n.packed| == 4 then n.prefix <= 32 && Masked(n.packed, n.prefix) == n.packed
    else |n.packed| == 16 && n.prefix <= 128
  }

  type PyNet = n: PyNetRaw | StrictNet(n) witness PyNet([0, 0, 0, 0], 0)

  /** An address that ip_address accepts. */
  type PyAddress = s: seq<Octet> | |s| == 4 || |s| == 16 witness [0, 0, 0, 0]

  /** The pairs of a command line of networks and routers in turn; None is a raised exception. */
  function PyPairs(args: seq<string>, network: string -> Option<PyNet>, address: string -> Option<PyAddress>):
    Option<seq<(PyNet, PyAddress)>>
  {
    if args == [] then Some([])
    else if |args| == 1 || network(args[0]).None? || address(args[1]).None? then None
    else
      var later := PyPairs(args[2..], network, address);
      if later.None? then None else Some([(network(args[0]).value, address(args[1]).value)] + later.value)
  }

  /** The octets written for a pair: of the network as many as its prefix covers. */
  function PyOctets(pair: (PyNet, PyAddress)): seq<Octet> {
    [pair.0.prefix] + pair.0.packed[..SignificantOctets(pair.0.prefix)] + pair.1
  }

  function PyAll(pairs: seq<(PyNet, PyAddress)>): seq<Octet> {
    if pairs == [] then [] else PyAll(pairs[..|pairs| - 1]) + PyOctets(pairs[|pairs| - 1])
  }

  predicate IsIpv4(pair: (PyNet, PyAddress)) { |pair.0.packed| == 4 && |pair.1| == 4 }

  function RouteOf(pair: (PyNet, PyAddress)): (r: Route)
    requires IsIpv4(pair)
    ensures Canonical(r) && EncodeRoute(r) == PyOctets(pair)
  {
    Route(pair.0.packed, pair.0.prefix, pair.1)
  }

  function RoutesOf(pairs: seq<(PyNet, PyAddress)>): (rs: seq<Route>)
    requires forall k | 0 <= k < |pairs| :: IsIpv4(pairs[k])
    ensures |rs| == |pairs| && AllCanonical(rs)
  {
    if pairs == [] then [] else RoutesOf(pairs[..|pairs| - 1]) + [RouteOf(pairs[|pairs| - 1])]
  }

  /** For IPv4 pairs Python writes what the Go encoder writes. */
  lemma {:induction false} PyEncodesIpv4(pairs: seq<(PyNet, PyAddress)>)
    requires forall k | 0 <= k < |pairs| :: IsIpv4(pairs[k])
    ensures PyAll(pairs) == Encode(RoutesOf(pairs))
  {
    if pairs != [] {
      var n := |pairs| - 1;
      PyEncodesIpv4(pairs[..n]);
      EncodeSnoc(RoutesOf(pairs[..n]), RouteOf(pairs[n]));
    }
  }

  /** And reads it back as those pairs. */
  lemma PyReadsBack(pairs: seq<(PyNet, PyAddress)>)
    requires forall k | 0 <= k < |pairs| :: IsIpv4(pairs[k])
    ensures PyDecode(PyAll(pairs)) == Some(RoutesOf(pairs))
  {
    PyEncodesIpv4(pairs);
    PyRoundTrip(RoutesOf(pairs));
  }

  method PyEncode(args: seq<string>, network: string -> Option<PyNet>, address: string -> Option<PyAddress>)
    returns (r: Option<seq<Octet>>)
    ensures match PyPairs(args, network, address)
            case None => r == None
            case Some(pairs) => r == Some(PyAll(pairs))
  {
    var left := args;
    var rv: seq<Octet> := [];
    ghost var done: seq<(PyNet, PyAddress)> := [];
    StartDecodeFollows(PyPairs(args, network, address));
    while |left| > 0
      invariant rv == PyAll(done)
      invariant DecodeFollows(PyPairs(args, network, address), done, PyPairs(left, network, address))
      decreases |left|
    {
      if |left| == 1 {
        return None;
      }
      var route, router := network(left[0]), address(left[1]);
      if route.None? || router.None? {
        return None;
      }
      var routeLen := (route.value.prefix + 7) / 8;
      var res := [route.value.prefix] + route.value.packed[..routeLen] + router.value;
      ghost var pair := (route.value, router.value);
      NextDecodeFollows(PyPairs(args, network, address), done, pair, PyPairs(left[2..], network, address));
      assert (done + [pair])[..|done|] == done;
      done := done + [pair];
      rv := rv + res;
      left := left[2..];
    }
    assert done + [] == done;
    r := Some(rv);
  }

  ghost predicate DecodeFollows<T>(whole: Option<seq<T>>, done: seq<T>, rest: Option<seq<T>>) {
    whole == if rest.Some? then Some(done + rest.value) else None
  }

  lemma StartDecodeFollows<T>(whole: Option<seq<T>>)
    ensures DecodeFollows(whole, [], whole)
  {
    assert whole.Some? ==> [] + whole.value == whole.value;
  }

  lemma NextDecodeFollows<T>(whole: Option<seq<T>>, done: seq<T>, one: T, later: Option<seq<T>>)
    requires DecodeFollows(whole, done, if later.None? then None else Some([one] + later.value))
    ensures DecodeFollows(whole, done + [one], later)
  {
    assert later.Some? ==> done + ([one] + later.value) == (done + [one]) + later.value;
  }

  /** Python's s[:n]. */
  function Take(s: seq<Octet>, n: nat): seq<Octet> { if n <= |s| then s[..n] else s }
  function Drop(s: seq<Octet>, n: nat): seq<Octet> { if n <= |s| then s[n..] else [] }

  method PyDecodeOctets(input: seq<Octet>) returns (r: Option<seq<Route>>)
    ensures r == PyDecode(input)
  {
    var octets := input;
    var routes: seq<Route> := [];
    StartDecodeFollows(PyDecode(input));
    while |octets| > 0
      invariant DecodeFollows(PyDecode(input), routes, PyDecode(octets))
      decreases |octets|
    {
      var s := PyDecodeOne(octets);
      if s.NoSingle? {
        return None;
      }
      NextDecodeFollows(PyDecode(input), routes, s.route, PyDecode(s.left));
      routes := routes + [s.route];
      octets := s.left;
    }
    assert routes + [] == routes;
    r := Some(routes);
  }

  lemma NextFour(s: seq<Octet>, n: nat)
    requires n + 4 <= |s|
    ensures Take(Drop(s, n), 4) == s[n..n + 4] && Drop(Drop(s, n), 4) == s[n + 4..]
  {
  }

  /** The body of the decoding loop: an assertion or an exception is no route. */
  method PyDecodeOne(octets: seq<Octet>) returns (s: Single)
    requires octets != []
    ensures s == PyDecodeSingle(octets)
  {
    var prefixLen, rest := octets[0], octets[1..];
    if prefixLen > 32 {
      return NoSingle;
    }
    var routeLen := (prefixLen + 7) / 8;
    assert NetLen(prefixLen) == routeLen;
    var routeFull := Take(rest, routeLen) + seq(4 - routeLen, _ => 0);
    if |routeFull| != 4 {
      return NoSingle;
    }
    assert routeFull == FillUp(rest[..routeLen]);
    var routerBytes := Take(Drop(rest, routeLen), 4);
    if |routerBytes| != 4 {
      return NoSingle;
    }
    assert |rest| >= routeLen + 4;
    NextFour(rest, routeLen);
    if Masked(routeFull, prefixLen) != routeFull {
      return NoSingle;
    }
    var left := Drop(Drop(rest, routeLen), 4);
    s := Single(Route(routeFull, prefixLen, routerBytes), left);
  }
}
