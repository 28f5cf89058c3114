/** Datagrams and the bytes in them. */
module Datagrams {
  type Dgram = seq<char>

  function Total(ds: seq<Dgram>): nat {
    if ds == [] then 0 else |ds[0]| + Total(ds[1..])
  }

  lemma {:induction false} TotalConcat(a: seq<Dgram>, b: seq<Dgram>)
    ensures Total(a + b) == Total(a) + Total(b)
  {
    if a == [] {
      assert a + b == b;
    } else {
      assert (a + b)[1..] == a[1..] + b;
      TotalConcat(a[1..], b);
    }
  }

  lemma TotalOne(d: Dgram)
    ensures Total([d]) == |d|
  {
    assert [d][1..] == [];
  }
}
