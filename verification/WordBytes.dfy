/** Pointers as they lie in memory: eight bytes, least significant first. */
module WordBytes {

  type Byte = n: nat | n < 256

  function Pow256(w: nat): nat
  {
    if w == 0 then 1 else 256 * Pow256(w - 1)
  }

  function Encode(n: nat, w: nat): (bytes: seq<Byte>)
    ensures |bytes| == w
  {
    if w == 0 then [] else [n % 256] + Encode(n / 256, w - 1)
  }

  function Decode(bytes: seq<Byte>): nat
  {
    if bytes == [] then 0 else bytes[0] + 256 * Decode(bytes[1..])
  }

  /** A value that fits is read back as it was stored. */
  lemma {:induction false} DecodeEncode(n: nat, w: nat)
    requires n < Pow256(w)
    ensures Decode(Encode(n, w)) == n
  {
    if w == 0 {
    } else {
      DecodeEncode(n / 256, w - 1);
      assert Encode(n, w)[1..] == Encode(n / 256, w - 1);
    }
  }

  lemma Pow256Word()
    ensures Pow256(8) == 0x1_0000_0000_0000_0000
  {
    assert Pow256(4) == 0x1_0000_0000;
    assert Pow256(6) == 0x1_0000_0000_0000;
  }
}
