/** Bytes, and parts of a longer text found at an offset. */
module Bytes {
  type byte = x: int | 0 <= x < 0x100
  type Bytes = seq<byte>

  /** Two bytes, high one first. */
  function Put16(n: int): (r: Bytes)
    requires 0 <= n < 0x10000
    ensures |r| == 2 && (r[0] as int) * 0x100 + r[1] == n
  {
    [n / 0x100, n % 0x100]
  }

  function Word(data: Bytes, i: nat): nat
    requires i + 2 <= |data|
  {
    (data[i] as int) * 0x100 + data[i + 1]
  }

  /** `part` stands in `data` at `o`. */
  predicate At<T(==)>(data: seq<T>, o: nat, part: seq<T>) {
    o + |part| <= |data| && data[o..o + |part|] == part
  }

  lemma AtSplit<T>(data: seq<T>, o: nat, a: seq<T>, b: seq<T>)
    requires At(data, o, a + b)
    ensures At(data, o, a) && At(data, o + |a|, b)
  {
    assert data[o..o + |a|] == data[o..o + |a + b|][..|a|] == a;
    assert data[o + |a|..o + |a| + |b|] == data[o..o + |a + b|][|a|..] == b;
  }

  lemma AtIndex<T>(data: seq<T>, o: nat, part: seq<T>, i: nat)
    requires At(data, o, part) && i < |part|
    ensures o + i < |data| && data[o + i] == part[i]
  {
    assert data[o + i] == data[o..o + |part|][i];
  }

  lemma WordAt(data: Bytes, o: nat, part: Bytes, i: nat)
    requires At(data, o, part) && i + 2 <= |part|
    ensures o + i + 2 <= |data| && Word(data, o + i) == Word(part, i)
  {
    AtIndex(data, o, part, i);
    AtIndex(data, o, part, i + 1);
  }
}
