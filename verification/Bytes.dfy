/** Bytes and the parts a buffer is put together from. */
module Bytes {
  type Byte = b: nat | b < 256

  function Concat(parts: seq<seq<Byte>>): seq<Byte> {
    if parts == [] then [] else Concat(parts[..|parts| - 1]) + parts[|parts| - 1]
  }

  lemma ConcatSnoc(parts: seq<seq<Byte>>, a: seq<Byte>)
    ensures Concat(parts + [a]) == Concat(parts) + a
  {
    assert (parts + [a])[..|parts|] == parts;
  }
}
