/** What several of the models need. */
module Common {

  type Byte = bv8

  datatype Option<+T> = None | Some(value: T)

  function Min(a: nat, b: nat): (m: nat)
    ensures m <= a && m <= b && (m == a || m == b)
  {
    if a <= b then a else b
  }

  function Bit(b: bool): nat {
    if b then 1 else 0
  }

  /** Two balances, one after the other: what comes in on the left goes out on the right. */
  lemma Swap<T>(a: seq<T>, b: seq<T>, x: seq<T>, c: seq<T>, d: seq<T>, y: seq<T>, e: seq<T>)
    requires a + b == c + d && d + x == y + e
    ensures a + (b + x) == (c + y) + e
  {
    assert a + (b + x) == (a + b) + x;
    assert (c + d) + x == c + (d + x);
    assert c + (y + e) == (c + y) + e;
  }
}
