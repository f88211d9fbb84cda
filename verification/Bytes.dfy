/** Bytes, optional values and the machine-integer bounds shared by every module.
    A byte is written as the character that carries its code, so that ASCII text
    can be given as a literal. */
module Bytes {

  type byte = c: char | (c as int) < 256

  type bytes = seq<byte>

  datatype Option<+T> = None | Some(value: T)

  const U64_MAX: int := 0xFFFF_FFFF_FFFF_FFFF

  type u64 = n: int | 0 <= n <= U64_MAX

  const LF: byte := '\n'
  const CR: byte := '\r'

  /** The byte with code `n`. */
  function Byte(n: int): (b: byte)
    requires 0 <= n < 256
    ensures b as int == n
  {
    n as char
  }

  predicate IsDigit(b: byte) {
    '0' <= b <= '9'
  }

  lemma Regroup(a: bytes, b: bytes, c: bytes)
    ensures a + b + c == a + (b + c)
  {
  }

  function Concat(chunks: seq<bytes>): (r: bytes)
  {
    if chunks == [] then [] else chunks[0] + Concat(chunks[1..])
  }

  lemma {:induction false} ConcatAppend(a: seq<bytes>, b: seq<bytes>)
    ensures Concat(a + b) == Concat(a) + Concat(b)
  {
    if a == [] {
      assert a + b == b;
    } else {
      ConcatAppend(a[1..], b);
      assert (a + b)[1..] == a[1..] + b;
    }
  }

  lemma ConcatSnoc(a: seq<bytes>, c: bytes)
    ensures Concat(a + [c]) == Concat(a) + c
  {
    ConcatAppend(a, [c]);
    assert Concat([c]) == c + Concat([]);
  }
}
