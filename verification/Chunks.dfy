// Byte strings and the chunk lists that the forwarders pass around.
module Chunks {
  newtype Byte = x: int | 0 <= x < 256
  type Bytes = seq<Byte>

  /** The argument of every `read` call of the forwarders. */
  const READ_SIZE: nat := 8192

  datatype Option<+T> = None | Some(value: T)

  /** The byte stream that a list of chunks stands for. */
  function Flat(cs: seq<Bytes>): Bytes
  {
    if cs == [] then [] else Flat(cs[..|cs| - 1]) + cs[|cs| - 1]
  }

  function Size(cs: seq<Bytes>): nat
  {
    |Flat(cs)|
  }

  lemma Regroup<T>(a: seq<T>, b: seq<T>, c: seq<T>)
    ensures (a + b) + c == a + (b + c)
  {
  }

  lemma FlatSnoc(cs: seq<Bytes>, c: Bytes)
    ensures Flat(cs + [c]) == Flat(cs) + c
  {
  }

  lemma {:induction false} FlatConcat(a: seq<Bytes>, b: seq<Bytes>)
    ensures Flat(a + b) == Flat(a) + Flat(b)
  {
    if b == [] {
      assert a + b == a;
    } else {
      var init, last := b[..|b| - 1], b[|b| - 1];
      FlatConcat(a, init);
      assert a + b == (a + init) + [last];
      FlatSnoc(a + init, last);
      assert Flat(b) == Flat(init) + last;
      assert (Flat(a) + Flat(init)) + last == Flat(a) + (Flat(init) + last);
    }
  }

  lemma FlatHead(cs: seq<Bytes>)
    requires cs != []
    ensures Flat(cs) == cs[0] + Flat(cs[1..])
  {
    assert cs == [cs[0]] + cs[1..];
    FlatConcat([cs[0]], cs[1..]);
    FlatSnoc([], cs[0]);
    assert [] + [cs[0]] == [cs[0]];
  }

  lemma FlatPrefix(a: seq<Bytes>, b: seq<Bytes>)
    requires a <= b
    ensures Flat(a) <= Flat(b)
  {
    assert b == a + b[|a|..];
    FlatConcat(a, b[|a|..]);
  }
}
