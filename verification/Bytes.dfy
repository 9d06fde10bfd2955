/** The unit of data that every channel, buffer and message in this project carries. */
module Bytes {
  type byte = x: int | 0 <= x < 256

  // The capacity of the line buffers that the servers and clients pass to read.
  const BUFSIZE: nat := 1024

  function Max(a: int, b: int): int {
    if a > b then a else b
  }

  function Min(a: int, b: int): int {
    if a < b then a else b
  }

  // The result of a blocking read when `data` is all there is: 0 only at the end.
  predicate ReadCount(data: seq<byte>, n: nat) {
    n <= |data| && n <= BUFSIZE && (n == 0 ==> data == [])
  }

  lemma Cut(data: seq<byte>, n: nat)
    requires n <= |data|
    ensures data == data[..n] + data[n..]
  {
  }

  lemma Regroup(a: seq<byte>, b: seq<byte>, c: seq<byte>)
    ensures (a + b) + c == a + (b + c)
  {
  }
}
