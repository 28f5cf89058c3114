/** The worker table of the UDP relay: no byte counted at the listening socket is lost as workers take
    datagrams, are garbage collected, and are shut down. */
module UdpMux {
  import opened Datagrams

  type Key = string

  const INCOMING_CHAN_CAP := 10240

  // ---------- Byte counters and their sums over a table ----------

  datatype Bytes = Bytes(clientIn: nat, clientOut: nat, destIn: nat, destOut: nat)

  const NOTHING := Bytes(0, 0, 0, 0)

  function Plus(a: Bytes, b: Bytes): Bytes {
    Bytes(a.clientIn + b.clientIn, a.clientOut + b.clientOut, a.destIn + b.destIn, a.destOut + b.destOut)
  }

  lemma PlusNothing(a: Bytes)
    ensures Plus(NOTHING, a) == Plus(a, NOTHING) == a
  {
  }

  /** The same bytes with more received from the client. */
  function More(a: Bytes, n: nat): Bytes {
    a.(clientIn := a.clientIn + n)
  }

  lemma PlusMore(a: Bytes, b: Bytes, n: nat)
    ensures Plus(a, More(b, n)) == More(Plus(a, b), n)
  {
  }

  lemma PlusPlus(a: Bytes, b: Bytes, c: Bytes)
    ensures Plus(a, Plus(b, c)) == Plus(Plus(a, b), c)
  {
  }

  ghost function SumOf(m: map<Key, Bytes>): Bytes
    decreases |m|
  {
    if m == map[] then NOTHING
    else
      var k :| k in m;
      Plus(m[k], SumOf(m - {k}))
  }

  lemma {:induction false} SumRemove(m: map<Key, Bytes>, k: Key)
    requires k in m
    ensures SumOf(m) == Plus(m[k], SumOf(m - {k}))
    decreases |m|
  {
    var p :| p in m && SumOf(m) == Plus(m[p], SumOf(m - {p}));
    if p != k {
      var rest := m - {p} - {k};
      assert rest == m - {k} - {p};
      SumRemove(m - {p}, k);
      SumRemove(m - {k}, p);
      assert SumOf(m) == Plus(m[p], Plus(m[k], SumOf(rest))) == Plus(m[k], Plus(m[p], SumOf(rest)));
    }
  }

  lemma SumInsert(m: map<Key, Bytes>, k: Key)
    requires k !in m
    ensures SumOf(m[k := NOTHING]) == SumOf(m)
  {
    SumRemove(m[k := NOTHING], k);
    assert m[k := NOTHING] - {k} == m;
    PlusNothing(SumOf(m));
  }

  lemma SumMore(m: map<Key, Bytes>, k: Key, n: nat)
    requires k in m
    ensures SumOf(m[k := More(m[k], n)]) == More(SumOf(m), n)
  {
    SumRemove(m[k := More(m[k], n)], k);
    assert m[k := More(m[k], n)] - {k} == m - {k};
    SumRemove(m, k);
  }

  lemma SumPlus(m: map<Key, Bytes>, k: Key, v: Bytes)
    requires k in m
    ensures SumOf(m[k := Plus(m[k], v)]) == Plus(SumOf(m), v)
  {
    SumRemove(m[k := Plus(m[k], v)], k);
    assert m[k := Plus(m[k], v)] - {k} == m - {k};
    SumRemove(m, k);
  }

  lemma KeysOfUpdate<K, V>(m: map<K, V>, k: K, v: V)
    ensures m[k := v].Keys == m.Keys + {k}
  {
  }

  // ---------- Workers ----------

  class Worker {
    var incoming: seq<Dgram>
    var closed: bool
    var clientBytesIn: nat
    var clientBytesOut: nat
    var destBytesIn: nat
    var destBytesOut: nat

    constructor ()
      ensures incoming == [] && !closed
      ensures clientBytesIn == clientBytesOut == destBytesIn == destBytesOut == 0
    {
      incoming, closed := [], false;
      clientBytesIn, clientBytesOut, destBytesIn, destBytesOut := 0, 0, 0, 0;
    }

    /** Bytes received from the client: those the loop has taken and those still queued. */
    ghost function Received(): nat
      reads this
    {
      clientBytesIn + Total(incoming)
    }

    /** The four counters, with the queued bytes counted as received. */
    ghost function Counted(): Bytes
      reads this
    {
      Bytes(Received(), clientBytesOut, destBytesIn, destBytesOut)
    }

    ghost predicate Open()
      reads this
    {
      !closed && |incoming| <= INCOMING_CHAN_CAP
    }

    /** The datagram is the last one in the queue. */
    ghost predicate JustGot(d: Dgram)
      reads this`incoming
    {
      incoming != [] && incoming[|incoming| - 1] == d
    }

    /** The worker's loop takes a datagram from its queue. */
    method TakeOne()
      requires incoming != []
      modifies this`incoming, this`clientBytesIn
      ensures incoming == old(incoming)[1..] && clientBytesIn == old(clientBytesIn) + |old(incoming)[0]|
      ensures Received() == old(Received())
    {
      clientBytesIn := clientBytesIn + |incoming[0]|;
      incoming := incoming[1..];
    }

    /** Counts what the loops have written to the destination, read from it, and written to the client. */
    method Moved(b: Bytes)
      requires b.clientIn == 0
      modifies this`clientBytesOut, this`destBytesIn, this`destBytesOut
      ensures Counted() == Plus(old(Counted()), b)
    {
      clientBytesOut := clientBytesOut + b.clientOut;
      destBytesIn := destBytesIn + b.destIn;
      destBytesOut := destBytesOut + b.destOut;
    }

    /** Queues a datagram; a full queue makes the sender wait until the loop has taken one. */
    method DispatchIncoming(d: Dgram)
      requires Open()
      modifies this`incoming, this`clientBytesIn
      ensures Open() && JustGot(d)
      ensures Received() == old(Received()) + |d|
    {
      if |incoming| == INCOMING_CHAN_CAP {
        TakeOne();
      }
      TotalConcat(incoming, [d]);
      TotalOne(d);
      incoming := incoming + [d];
    }

    /** Closes the queue; the loop ends once it has taken all that is left. */
    method Shutdown()
      requires Open()
      modifies this`incoming, this`closed, this`clientBytesIn
      ensures closed && incoming == [] && clientBytesIn == old(Received())
    {
      closed := true;
      while incoming != []
        invariant closed && Received() == old(Received())
        decreases |incoming|
      {
        TakeOne();
      }
    }
  }

  // ---------- The mux ----------

  class ListenMux {
    var workers: map<Key, Worker>
    var totalListenBytes: nat
    var clientBytesIn: nat
    var clientBytesOut: nat
    var destBytesIn: nat
    var destBytesOut: nat

    /** One open worker for each peer. */
    ghost predicate Table()
      reads this`workers, workers.Values
    {
      && (forall k | k in workers :: workers[k].Open())
      && (forall j, k | j in workers && k in workers && j != k :: workers[j] != workers[k])
    }

    ghost function Shares(): map<Key, Bytes>
      reads this`workers, workers.Values
    {
      map k | k in workers :: workers[k].Counted()
    }

    /** What the live workers account for. */
    ghost function Live(): Bytes
      reads this`workers, workers.Values
    {
      SumOf(Shares())
    }

    /** The mux's own counters. */
    ghost function Own(): Bytes
      reads this
    {
      Bytes(clientBytesIn, clientBytesOut, destBytesIn, destBytesOut)
    }

    /** What the mux and the live workers account for together. */
    ghost function Account(): Bytes
      reads this, workers.Values
    {
      Plus(Own(), Live())
    }

    /** Conservation: what was received at the socket is what the mux and the live workers account for. */
    ghost predicate Valid()
      reads this, workers.Values
    {
      Table() && totalListenBytes == clientBytesIn + Live().clientIn
    }

    constructor ()
      ensures Valid() && workers == map[] && totalListenBytes == 0 && Own() == NOTHING
    {
      workers, totalListenBytes := map[], 0;
      clientBytesIn, clientBytesOut, destBytesIn, destBytesOut := 0, 0, 0, 0;
      new;
      assert Shares() == map[];
      assert Live() == NOTHING;
    }

    lemma AccountOfNobody()
      requires workers == map[]
      ensures Account() == Own()
    {
      assert Shares() == map[];
      assert Live() == NOTHING;
      PlusNothing(Own());
    }

    /** The worker of a peer, made at need; null when no socket can be opened. */
    method GetWorker(key: Key, canDial: bool) returns (w: Worker?)
      requires Valid()
      modifies this`workers
      ensures Valid() && Account() == old(Account())
      ensures w == null <==> key !in old(workers) && !canDial
      ensures w == null ==> workers == old(workers)
      ensures w != null ==> workers == old(workers)[key := w]
      ensures w != null ==> if key in old(workers) then w == old(workers)[key] else fresh(w)
    {
      if key in workers {
        w := workers[key];
        assert workers[key := w] == workers;
        return;
      }
      if !canDial {
        return null;
      }
      w := Attach(key);
    }

    method Attach(key: Key) returns (w: Worker)
      requires Valid() && key !in workers
      modifies this`workers
      ensures Valid() && fresh(w) && workers == old(workers)[key := w] && Account() == old(Account())
    {
      w := new Worker();
      assert Table() && Account() == old(Account());
      Join(key, w);
    }

    method Join(key: Key, w: Worker)
      requires Table() && key !in workers && w !in workers.Values && w.Open() && w.Counted() == NOTHING
      modifies this`workers
      ensures Table() && workers == old(workers)[key := w] && Account() == old(Account())
    {
      SumInsert(Shares(), key);
      Add(key, w);
    }

    method Add(key: Key, w: Worker)
      requires Table() && key !in workers && w !in workers.Values && w.Open() && w.Counted() == NOTHING
      modifies this`workers
      ensures Table() && workers == old(workers)[key := w]
      ensures Shares() == old(Shares())[key := NOTHING] && Own() == old(Own())
    {
      workers := workers[key := w];
    }

    /** A datagram arrives at the listening socket and is queued for its peer's worker. */
    method Receive(key: Key, d: Dgram, canDial: bool)
      requires Valid()
      modifies this, workers.Values
      ensures Valid()
      ensures totalListenBytes == old(totalListenBytes) + if key in old(workers) || canDial then |d| else 0
      ensures Account() == More(old(Account()), totalListenBytes - old(totalListenBytes))
      ensures key in old(workers) || canDial ==> workers.Keys == old(workers).Keys + {key} && workers[key].JustGot(d)
      ensures key !in old(workers) && !canDial ==> workers == old(workers)
    {
      var w := GetWorker(key, canDial);
      if w != null {
        KeysOfUpdate(old(workers), key, w);
        Dispatch(key, d);
      }
    }

    method Dispatch(key: Key, d: Dgram)
      requires Valid() && key in workers
      modifies this`totalListenBytes, workers[key]
      ensures Valid() && totalListenBytes == old(totalListenBytes) + |d| && Account() == More(old(Account()), |d|)
      ensures workers[key].JustGot(d)
    {
      Count(|d|);
      Enqueue(key, d);
      PlusMore(Own(), old(Live()), |d|);
    }

    method Count(n: nat)
      requires Table()
      modifies this`totalListenBytes
      ensures Table() && Live() == old(Live()) && Own() == old(Own()) && totalListenBytes == old(totalListenBytes) + n
    {
      totalListenBytes := totalListenBytes + n;
    }

    method Enqueue(key: Key, d: Dgram)
      requires Table() && key in workers
      modifies workers[key]
      ensures Table() && Live() == More(old(Live()), |d|)
      ensures Own() == old(Own()) && totalListenBytes == old(totalListenBytes)
      ensures workers[key].JustGot(d)
    {
      SumMore(Shares(), key, |d|);
      Push(key, d);
    }

    method Push(key: Key, d: Dgram)
      requires Table() && key in workers
      modifies workers[key]
      ensures Table() && Shares() == old(Shares())[key := More(old(Shares())[key], |d|)]
      ensures workers[key].JustGot(d)
    {
      ghost var shares := Shares();
      workers[key].DispatchIncoming(d);
      assert workers[key].Counted() == More(shares[key], |d|);
      assert Shares() == shares[key := More(shares[key], |d|)];
    }

    /** The loop of one worker takes a datagram. */
    method WorkerTakes(key: Key)
      requires Valid() && key in workers && workers[key].incoming != []
      modifies workers[key]
      ensures Valid() && totalListenBytes == old(totalListenBytes) && Account() == old(Account())
    {
      ghost var shares := Shares();
      workers[key].TakeOne();
      assert Shares() == shares;
    }

    /** The loops of one worker write to either side, or read from the destination. */
    method WorkerMoves(key: Key, b: Bytes)
      requires Valid() && key in workers && b.clientIn == 0
      modifies workers[key]
      ensures Valid() && totalListenBytes == old(totalListenBytes) && Account() == Plus(old(Account()), b)
    {
      SumPlus(Shares(), key, b);
      Move(key, b);
      PlusPlus(Own(), old(Live()), b);
    }

    method Move(key: Key, b: Bytes)
      requires Table() && key in workers && b.clientIn == 0
      modifies workers[key]
      ensures Table() && Shares() == old(Shares())[key := Plus(old(Shares())[key], b)]
    {
      ghost var shares := Shares();
      workers[key].Moved(b);
      assert workers[key].Counted() == Plus(shares[key], b);
      assert Shares() == shares[key := Plus(shares[key], b)];
    }

    /** Takes a worker off the table; its bytes are then accounted for by neither side. */
    method Detach(key: Key) returns (w: Worker)
      requires Table() && key in workers
      modifies this`workers
      ensures Table() && workers == old(workers) - {key} && w == old(workers)[key] && w !in workers.Values && w.Open()
      ensures old(Account()) == Plus(w.Counted(), Account())
    {
      w := workers[key];
      SumRemove(Shares(), key);
      Remove(key);
    }

    method Remove(key: Key)
      requires Table() && key in workers
      modifies this`workers
      ensures Table() && workers == old(workers) - {key} && old(workers)[key] !in workers.Values
      ensures Shares() == old(Shares()) - {key}
    {
      workers := workers - {key};
    }

    /** Closes a detached worker and moves its counters to the mux. */
    method Absorb(w: Worker)
      requires Table() && w !in workers.Values && w.Open()
      modifies this`clientBytesIn, this`clientBytesOut, this`destBytesIn, this`destBytesOut, w
      ensures Table() && w.closed
      ensures Own() == Plus(old(w.Counted()), old(Own())) && Live() == old(Live())
    {
      ghost var shares := Shares();
      w.Shutdown();
      AddCounters(w);
      assert Shares() == shares;
    }

    method AddCounters(w: Worker)
      modifies this`clientBytesIn, this`clientBytesOut, this`destBytesIn, this`destBytesOut
      ensures clientBytesIn == old(clientBytesIn) + w.clientBytesIn
      ensures clientBytesOut == old(clientBytesOut) + w.clientBytesOut
      ensures destBytesIn == old(destBytesIn) + w.destBytesIn
      ensures destBytesOut == old(destBytesOut) + w.destBytesOut
    {
      clientBytesIn := clientBytesIn + w.clientBytesIn;
      clientBytesOut := clientBytesOut + w.clientBytesOut;
      destBytesIn := destBytesIn + w.destBytesIn;
      destBytesOut := destBytesOut + w.destBytesOut;
    }

    /** Collects the workers that have been idle for too long. */
    method GcOnce(idle: set<Key>)
      requires Valid()
      modifies this, workers.Values
      ensures Valid() && workers == old(workers) - idle
      ensures totalListenBytes == old(totalListenBytes) && Account() == old(Account())
    {
      ghost var start := workers;
      var cleanup := idle * workers.Keys;
      while cleanup != {}
        invariant cleanup <= idle * start.Keys
        invariant Valid() && totalListenBytes == old(totalListenBytes) && Account() == old(Account())
        invariant forall k :: k in workers <==> k in start && (k !in idle || k in cleanup)
        invariant forall k | k in workers :: workers[k] == start[k]
        decreases |cleanup|
      {
        var key :| key in cleanup;
        assert key in workers && workers[key] == start[key];
        Collect(key);
        cleanup := cleanup - {key};
      }
      assert workers == start - idle;
    }

    /** Off the table, then closed and absorbed. */
    method Collect(key: Key)
      requires Valid() && key in workers
      modifies this, workers[key]
      ensures Valid() && workers == old(workers) - {key} && totalListenBytes == old(totalListenBytes)
      ensures old(workers)[key].closed && Own() == Plus(old(workers[key].Counted()), old(Own()))
      ensures Account() == old(Account())
    {
      var w := Detach(key);
      Absorb(w);
    }

    /** Collects all workers: in the end the mux alone accounts for every byte. */
    method Shutdown()
      requires Valid()
      modifies this, workers.Values
      ensures workers == map[] && totalListenBytes == old(totalListenBytes) == clientBytesIn
      ensures Own() == old(Account())
    {
      GcOnce(workers.Keys);
      assert workers == map[];
      AccountOfNobody();
    }
  }
}
