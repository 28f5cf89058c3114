/** One direction of the lossy UDP relay: datagrams are dropped, held back for shuffling, or sent, and
    none is lost or duplicated beyond that. */
module UdpRelay {
  import opened Datagrams

  lemma TotalRemove(ds: seq<Dgram>, n: nat)
    requires n < |ds|
    ensures Total(ds) == Total(ds[..n] + ds[n + 1..]) + |ds[n]|
    ensures multiset(ds) == multiset(ds[..n] + ds[n + 1..]) + multiset{ds[n]}
  {
    assert ds == ds[..n] + [ds[n]] + ds[n + 1..];
    TotalConcat(ds[..n] + [ds[n]], ds[n + 1..]);
    TotalConcat(ds[..n], [ds[n]]);
    TotalConcat(ds[..n], ds[n + 1..]);
    TotalOne(ds[n]);
  }

  /** The datagrams whose flag is `want`, in order. */
  function Select(ds: seq<Dgram>, flags: seq<bool>, want: bool): seq<Dgram>
    requires |flags| == |ds|
  {
    if ds == [] then []
    else
      var n := |ds| - 1;
      Select(ds[..n], flags[..n], want) + if flags[n] == want then [ds[n]] else []
  }

  lemma SelectSnoc(ds: seq<Dgram>, flags: seq<bool>, d: Dgram, flag: bool, want: bool)
    requires |flags| == |ds|
    ensures Select(ds + [d], flags + [flag], want) == Select(ds, flags, want) + if flag == want then [d] else []
  {
    assert (ds + [d])[..|ds|] == ds && (flags + [flag])[..|ds|] == flags;
  }

  lemma {:induction false} SelectSplits(ds: seq<Dgram>, flags: seq<bool>)
    requires |flags| == |ds|
    ensures multiset(ds) == multiset(Select(ds, flags, true)) + multiset(Select(ds, flags, false))
  {
    if ds != [] {
      var n := |ds| - 1;
      SelectSplits(ds[..n], flags[..n]);
      assert ds == ds[..n] + [ds[n]];
    }
  }

  lemma {:induction false} SelectTotals(ds: seq<Dgram>, flags: seq<bool>)
    requires |flags| == |ds|
    ensures Total(ds) == Total(Select(ds, flags, true)) + Total(Select(ds, flags, false))
  {
    if ds != [] {
      var n := |ds| - 1;
      SelectTotals(ds[..n], flags[..n]);
      assert ds == ds[..n] + [ds[n]];
      TotalConcat(ds[..n], [ds[n]]);
      var same, other := Select(ds[..n], flags[..n], flags[n]), Select(ds[..n], flags[..n], !flags[n]);
      TotalConcat(same, [ds[n]]);
      assert Select(ds, flags, flags[n]) == same + [ds[n]];
      assert other + [] == other && Select(ds, flags, !flags[n]) == other;
    }
  }

  /** `RandPercentCheck`, with the random number it drew. */
  predicate RandPercentCheck(pct: real, roll: real) {
    if pct < 0.0001 then false else if pct > 0.9999 then true else roll <= pct
  }

  /** What wakes the loop: a datagram, with its two random numbers, or the ticker. The end of the inputs
      is the closed channel. */
  datatype Input = Arrive(dgram: Dgram, dropRoll: real, swapRoll: real) | Tick

  function Arrivals(inputs: seq<Input>): seq<Dgram> {
    if inputs == [] then []
    else
      var n := |inputs| - 1;
      Arrivals(inputs[..n]) + if inputs[n].Arrive? then [inputs[n].dgram] else []
  }

  function Drops(inputs: seq<Input>, dropPct: real): (flags: seq<bool>)
    ensures |flags| == |Arrivals(inputs)|
  {
    if inputs == [] then []
    else
      var n := |inputs| - 1;
      Drops(inputs[..n], dropPct) +
      if inputs[n].Arrive? then [RandPercentCheck(dropPct, inputs[n].dropRoll)] else []
  }

  /** The datagrams that survive the dropping, in order of arrival. */
  function Survivors(inputs: seq<Input>, dropPct: real): seq<Dgram> {
    Select(Arrivals(inputs), Drops(inputs, dropPct), false)
  }

  function Dropped(inputs: seq<Input>, dropPct: real): seq<Dgram> {
    Select(Arrivals(inputs), Drops(inputs, dropPct), true)
  }

  function Brought(input: Input): seq<Dgram> { if input.Arrive? then [input.dgram] else [] }

  function Surviving(input: Input, dropPct: real): seq<Dgram> {
    if input.Arrive? && RandPercentCheck(dropPct, input.dropRoll) then [] else Brought(input)
  }

  lemma OneMoreInput(inputs: seq<Input>, i: nat, dropPct: real)
    requires i < |inputs|
    ensures Arrivals(inputs[..i + 1]) == Arrivals(inputs[..i]) + Brought(inputs[i])
    ensures Survivors(inputs[..i + 1], dropPct) == Survivors(inputs[..i], dropPct) + Surviving(inputs[i], dropPct)
  {
    assert inputs[..i + 1][..i] == inputs[..i];
    if inputs[i].Tick? {
      assert Arrivals(inputs[..i]) + [] == Arrivals(inputs[..i]);
      assert Drops(inputs[..i], dropPct) + [] == Drops(inputs[..i], dropPct);
    } else {
      var flag := RandPercentCheck(dropPct, inputs[i].dropRoll);
      SelectSnoc(Arrivals(inputs[..i]), Drops(inputs[..i], dropPct), inputs[i].dgram, flag, false);
    }
  }

  /** The chance itself: never at 0, always at 1, in between when the roll is at most the percentage. */
  lemma Chances(pct: real, roll: real)
    ensures pct < 0.0001 ==> !RandPercentCheck(pct, roll)
    ensures pct > 0.9999 ==> RandPercentCheck(pct, roll)
    ensures 0.0001 <= pct <= 0.9999 ==> (RandPercentCheck(pct, roll) <==> roll <= pct)
  {
  }

  lemma {:induction false} NothingDropped(inputs: seq<Input>, dropPct: real)
    requires dropPct < 0.0001
    ensures Dropped(inputs, dropPct) == [] && Survivors(inputs, dropPct) == Arrivals(inputs)
  {
    if inputs != [] {
      var n := |inputs| - 1;
      NothingDropped(inputs[..n], dropPct);
      DropsNext(inputs, dropPct);
    }
  }

  lemma {:induction false} AllDropped(inputs: seq<Input>, dropPct: real)
    requires dropPct > 0.9999
    ensures Dropped(inputs, dropPct) == Arrivals(inputs) && Survivors(inputs, dropPct) == []
  {
    if inputs != [] {
      var n := |inputs| - 1;
      AllDropped(inputs[..n], dropPct);
      DropsNext(inputs, dropPct);
    }
  }

  lemma DropsNext(inputs: seq<Input>, dropPct: real)
    requires inputs != []
    ensures var n := |inputs| - 1;
            var flag := inputs[n].Arrive? && RandPercentCheck(dropPct, inputs[n].dropRoll);
            && Dropped(inputs, dropPct) == Dropped(inputs[..n], dropPct) + (if flag then Brought(inputs[n]) else [])
            && Survivors(inputs, dropPct) == Survivors(inputs[..n], dropPct) + (if flag then [] else Brought(inputs[n]))
            && Arrivals(inputs) == Arrivals(inputs[..n]) + Brought(inputs[n])
  {
    var n := |inputs| - 1;
    var front := inputs[..n];
    if inputs[n].Tick? {
      assert Arrivals(front) + [] == Arrivals(front) && Drops(front, dropPct) + [] == Drops(front, dropPct);
    } else {
      var flag := RandPercentCheck(dropPct, inputs[n].dropRoll);
      SelectSnoc(Arrivals(front), Drops(front, dropPct), inputs[n].dgram, flag, true);
      SelectSnoc(Arrivals(front), Drops(front, dropPct), inputs[n].dgram, flag, false);
    }
  }

  /** A higher percentage never keeps what a lower one drops, for the same rolls. */
  lemma {:induction false} MoreDropsMore(inputs: seq<Input>, p: real, q: real)
    requires p <= q
    ensures forall k | 0 <= k < |Drops(inputs, p)| :: Drops(inputs, p)[k] ==> Drops(inputs, q)[k]
  {
    if inputs != [] {
      MoreDropsMore(inputs[..|inputs| - 1], p, q);
    }
  }

  class Relay {
    const dropPct: real
    const swapPct: real
    var shuffler: seq<Dgram>
    var bytesIn: nat
    var bytesOut: nat
    /** Datagrams handed to the socket, in order; and whether the socket took all of each. */
    ghost var sent: seq<Dgram>
    ghost var fullWrites: bool

    constructor (dropPct: real, swapPct: real)
      ensures this.dropPct == dropPct && this.swapPct == swapPct
      ensures shuffler == [] && bytesIn == 0 && bytesOut == 0 && sent == [] && fullWrites
    {
      this.dropPct, this.swapPct := dropPct, swapPct;
      shuffler, bytesIn, bytesOut, sent, fullWrites := [], 0, 0, [], true;
    }

    ghost predicate BytesOutOk()
      reads this
    {
      bytesOut <= Total(sent) && (fullWrites ==> bytesOut == Total(sent))
    }

    /** Of the survivors so far, all before the held ones have been sent, in some
        order; the held ones are the latest, in order of arrival. */
    ghost predicate Tracks(survivors: seq<Dgram>)
      reads this
    {
      && |sent| <= |survivors|
      && survivors[|sent|..] == shuffler
      && multiset(survivors[..|sent|]) == multiset(sent)
      && Total(survivors[..|sent|]) == Total(sent)
    }

    /** The socket takes a datagram, part of it, or fails. */
    method SendDgram(d: Dgram)
      requires BytesOutOk()
      modifies this`bytesOut, this`sent, this`fullWrites
      ensures BytesOutOk() && sent == old(sent) + [d]
    {
      TotalConcat(sent, [d]);
      TotalOne(d);
      sent := sent + [d];
      var failed: bool := *;
      var n: nat :| n <= |d|;
      if failed {
        fullWrites := false;
      } else {
        bytesOut := bytesOut + n;
        fullWrites := n == |d| && fullWrites;
      }
    }

    /** Sends what is held, in any order. */
    method Flush()
      requires BytesOutOk()
      modifies this`bytesOut, this`sent, this`fullWrites, this`shuffler
      ensures BytesOutOk() && shuffler == []
      ensures exists order :: sent == old(sent) + order && multiset(order) == multiset(old(shuffler))
                              && Total(order) == Total(old(shuffler))
    {
      ghost var order: seq<Dgram> := [];
      var left := shuffler;
      assert old(sent) + order == sent;
      while left != []
        invariant BytesOutOk() && sent == old(sent) + order && shuffler == old(shuffler)
        invariant multiset(order) + multiset(left) == multiset(old(shuffler))
        invariant Total(order) + Total(left) == Total(old(shuffler))
        decreases |left|
      {
        var n :| 0 <= n < |left|;
        TotalRemove(left, n);
        TotalConcat(order, [left[n]]);
        TotalOne(left[n]);
        SendDgram(left[n]);
        assert old(sent) + order + [left[n]] == old(sent) + (order + [left[n]]);
        order := order + [left[n]];
        left := left[..n] + left[n + 1..];
      }
      shuffler := [];
    }

    /** Flushing keeps track: afterwards all survivors have been sent. */
    method FlushTracking(ghost survivors: seq<Dgram>)
      requires BytesOutOk() && Tracks(survivors)
      modifies this`bytesOut, this`sent, this`fullWrites, this`shuffler
      ensures BytesOutOk() && Tracks(survivors) && shuffler == []
      ensures old(shuffler) == [] ==> sent == old(sent)
    {
      ghost var n := |sent|;
      assert survivors == survivors[..n] + survivors[n..];
      Flush();
      ghost var order :| sent == old(sent) + order && multiset(order) == multiset(old(shuffler))
                         && Total(order) == Total(old(shuffler));
      assert |multiset(order)| == |order| && |multiset(old(shuffler))| == |old(shuffler)|;
      TotalConcat(old(sent), order);
      TotalConcat(survivors[..n], survivors[n..]);
      assert survivors[..|sent|] == survivors;
    }

    /** `dgramsToSocket`: consumes the inputs and returns when the channel is closed. */
    method DgramsToSocket(inputs: seq<Input>)
      requires shuffler == [] && sent == [] && bytesIn == 0 && bytesOut == 0 && fullWrites
      modifies this
      ensures shuffler == []
      ensures multiset(Arrivals(inputs)) == multiset(Dropped(inputs, dropPct)) + multiset(sent)
      ensures bytesIn == Total(Arrivals(inputs)) == Total(Dropped(inputs, dropPct)) + Total(sent)
      ensures bytesOut <= Total(sent) && (fullWrites ==> bytesOut == Total(sent))
      ensures swapPct < 0.0001 ==> sent == Survivors(inputs, dropPct)
    {
      for i := 0 to |inputs|
        invariant BytesOutOk() && Tracks(Survivors(inputs[..i], dropPct))
        invariant bytesIn == Total(Arrivals(inputs[..i]))
        invariant swapPct < 0.0001 ==> sent == Survivors(inputs[..i], dropPct) && shuffler == []
      {
        OneMoreInput(inputs, i, dropPct);
        TotalConcat(Arrivals(inputs[..i]), Brought(inputs[i]));
        HandleInput(Survivors(inputs[..i], dropPct), inputs[i]);
      }
      assert inputs[..|inputs|] == inputs;
      FlushTracking(Survivors(inputs, dropPct));
      SelectSplits(Arrivals(inputs), Drops(inputs, dropPct));
      SelectTotals(Arrivals(inputs), Drops(inputs, dropPct));
      AllSent(Survivors(inputs, dropPct));
    }

    lemma AllSent(survivors: seq<Dgram>)
      requires Tracks(survivors) && shuffler == []
      ensures multiset(sent) == multiset(survivors) && Total(sent) == Total(survivors)
    {
      assert survivors[..|sent|] == survivors;
    }

    /** One turn of the loop. */
    method HandleInput(ghost survivors: seq<Dgram>, input: Input)
      requires BytesOutOk() && Tracks(survivors)
      modifies this
      ensures BytesOutOk() && Tracks(survivors + Surviving(input, dropPct))
      ensures bytesIn == old(bytesIn) + Total(Brought(input))
      ensures swapPct < 0.0001 && old(shuffler) == [] ==>
                sent == old(sent) + Surviving(input, dropPct) && shuffler == []
    {
      match input {
        case Arrive(d, dropRoll, swapRoll) =>
          TotalOne(d);
          bytesIn := bytesIn + |d|;
          if RandPercentCheck(dropPct, dropRoll) {
            assert survivors + [] == survivors;
          } else if RandPercentCheck(swapPct, swapRoll) {
            StoreTracks(survivors, d);
          } else {
            SendTracking(survivors, d);
          }
        case Tick =>
          assert survivors + [] == survivors;
          FlushTracking(survivors);
      }
    }

    method StoreTracks(ghost survivors: seq<Dgram>, d: Dgram)
      requires BytesOutOk() && Tracks(survivors)
      modifies this`shuffler
      ensures BytesOutOk() && Tracks(survivors + [d])
    {
      shuffler := shuffler + [d];
      assert (survivors + [d])[|sent|..] == survivors[|sent|..] + [d];
      assert (survivors + [d])[..|sent|] == survivors[..|sent|];
    }

    /** A datagram that is not held goes out at once, and everything held right after it. */
    method SendTracking(ghost survivors: seq<Dgram>, d: Dgram)
      requires BytesOutOk() && Tracks(survivors)
      modifies this`bytesOut, this`sent, this`fullWrites, this`shuffler
      ensures BytesOutOk() && Tracks(survivors + [d]) && shuffler == []
      ensures old(shuffler) == [] ==> sent == old(sent) + [d]
    {
      ghost var n, held := |sent|, shuffler;
      SendDgram(d);
      Flush();
      ghost var order :| sent == old(sent) + [d] + order && multiset(order) == multiset(held)
                         && Total(order) == Total(held);
      assert |multiset(order)| == |order| && |multiset(held)| == |held|;
      TotalConcat(old(sent) + [d], order);
      TotalConcat(old(sent), [d]);
      TotalConcat(survivors, [d]);
      TotalConcat(survivors[..n], survivors[n..]);
      assert survivors == survivors[..n] + survivors[n..];
      assert (survivors + [d])[..|sent|] == survivors + [d];
    }
  }
}
