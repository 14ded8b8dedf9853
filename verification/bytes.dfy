// Integers as little-endian bytes.

module Bytes {
  newtype byte = x: int | 0 <= x < 256

  const WORD: nat := 0x1_0000_0000_0000_0000

  function ToBytes(value: nat, n: nat): (bytes: seq<byte>)
    ensures |bytes| == n
  {
    if n == 0 then [] else [(value % 256) as byte] + ToBytes(value / 256, n - 1)
  }

  function FromBytes(bytes: seq<byte>): nat {
    if bytes == [] then 0 else bytes[0] as nat + 256 * FromBytes(bytes[1..])
  }

  function Power256(n: nat): nat {
    if n == 0 then 1 else 256 * Power256(n - 1)
  }

  lemma {:induction false} BytesRoundTrip(value: nat, n: nat)
    requires value < Power256(n)
    ensures FromBytes(ToBytes(value, n)) == value
    decreases n
  {
    if n > 0 {
      var bytes := ToBytes(value, n);
      assert bytes[1..] == ToBytes(value / 256, n - 1);
      BytesRoundTrip(value / 256, n - 1);
    }
  }

  lemma WordRoundTrip(value: nat)
    requires value < WORD
    ensures FromBytes(ToBytes(value, 8)) == value
  {
    assert Power256(8) == WORD by {
      assert Power256(4) == 0x1_0000_0000;
    }
    BytesRoundTrip(value, 8);
  }

  lemma {:induction false} ZeroBytes(n: nat)
    ensures FromBytes(Zeros(n)) == 0
  {
    if n > 0 {
      var bytes := Zeros(n);
      assert bytes[0] == 0 && bytes[1..] == Zeros(n - 1);
      ZeroBytes(n - 1);
    }
  }

  function Zeros(n: nat): seq<byte> {
    seq(n, _ => 0)
  }

  // The other way round: bytes are recovered from the number they make.
  lemma {:induction false} NumberRoundTrip(bytes: seq<byte>)
    ensures ToBytes(FromBytes(bytes), |bytes|) == bytes
    ensures FromBytes(bytes) < Power256(|bytes|)
  {
    if bytes != [] {
      NumberRoundTrip(bytes[1..]);
      assert bytes == [bytes[0]] + bytes[1..];
    }
  }
}
