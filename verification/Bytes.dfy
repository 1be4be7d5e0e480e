// Octets, and an optional value.
module Bytes {
  type byte = bv8

  datatype Option<+T> = None | Some(value: T)

  function Zeros(n: nat): (r: seq<byte>)
    ensures |r| == n
  {
    if n == 0 then [] else Zeros(n - 1) + [0]
  }

  // The octet with a given value, by counting: no conversion from integers to bit vectors.
  function Octet(n: nat): (b: byte)
    requires n < 0x100
    ensures b as nat == n
  {
    if n == 0 then 0 else Octet(n - 1) + 1
  }

  lemma SameValue(b: byte, c: byte)
    requires b as nat == c as nat
    ensures b == c
  {
  }
}
