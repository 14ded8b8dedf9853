// What the codec writes, bit by bit: section 4 of RFC 4648 takes the bytes' bits six at a
// time and spells each six as one letter of its alphabet.

module Base64Bits {
  import opened Basics
  import opened Base64

  // ---- the alphabet ------------------------------------------------------------------

  const UPPER: string := "ABCDEFGHIJKLMNOPQRSTUVWXYZ"
  const LOWER: string := "abcdefghijklmnopqrstuvwxyz"
  const DIGITS: string := "0123456789"
  const ALPHABET: string := UPPER + LOWER + DIGITS + "+/"

  lemma UpperAt(i: nat)
    requires i < 26
    ensures |UPPER| == 26 && UPPER[i] as int == 'A' as int + i
  {
  }

  lemma LowerAt(i: nat)
    requires i < 26
    ensures |LOWER| == 26 && LOWER[i] as int == 'a' as int + i
  {
  }

  lemma DigitAt(i: nat)
    requires i < 10
    ensures |DIGITS| == 10 && DIGITS[i] as int == '0' as int + i
  {
  }

  lemma SymbolAsNumber(v: bv6)
    ensures var i := v as int;
            Symbol(v) as int ==
              if i < 26 then 65 + i else if i < 52 then 71 + i else if i < 62 then i - 4 else if i == 62 then 43 else 47
  {
    var w := v as bv8;
    assert w as int == v as int;
    assert v < 26 ==> (65 + w) as int == 65 + w as int;
  }

  // The symbol of a value is the letter at its place in the alphabet, and the pad is '='.
  lemma SpelledByTheAlphabet(v: bv6)
    ensures |ALPHABET| == 64 && Symbol(v) as int == ALPHABET[v as int] as int && PAD as int == '=' as int
  {
    var i := v as int;
    SymbolAsNumber(v);
    UpperAt(if i < 26 then i else 0);
    LowerAt(if 26 <= i < 52 then i - 26 else 0);
    DigitAt(if 52 <= i < 62 then i - 52 else 0);
  }

  // ---- bits --------------------------------------------------------------------------

  function ByteBits(b: Byte): (bits: seq<bool>)
    ensures |bits| == 8
  {
    [b & 128 != 0, b & 64 != 0, b & 32 != 0, b & 16 != 0, b & 8 != 0, b & 4 != 0, b & 2 != 0, b & 1 != 0]
  }

  function SixBits(v: bv6): (bits: seq<bool>)
    ensures |bits| == 6
  {
    [v & 32 != 0, v & 16 != 0, v & 8 != 0, v & 4 != 0, v & 2 != 0, v & 1 != 0]
  }

  // The bits of a byte string.
  function Bits(bytes: seq<Byte>): seq<bool> {
    if bytes == [] then [] else ByteBits(bytes[0]) + Bits(bytes[1..])
  }

  // The bits a text spells, six to a letter.
  function Spelled(text: seq<Byte>): seq<bool> {
    if text == [] then []
    else (if Value(text[0]).Some? then SixBits(Value(text[0]).value) else []) + Spelled(text[1..])
  }

  predicate AllZero(bits: seq<bool>) {
    forall i :: 0 <= i < |bits| ==> !bits[i]
  }

  lemma {:induction false} BitsJoin(a: seq<Byte>, b: seq<Byte>)
    ensures Bits(a + b) == Bits(a) + Bits(b)
  {
    if a == [] {
      assert a + b == b;
    } else {
      assert (a + b)[1..] == a[1..] + b;
      BitsJoin(a[1..], b);
    }
  }

  lemma {:induction false} SpelledJoin(a: seq<Byte>, b: seq<Byte>)
    ensures Spelled(a + b) == Spelled(a) + Spelled(b)
  {
    if a == [] {
      assert a + b == b;
    } else {
      assert (a + b)[1..] == a[1..] + b;
      SpelledJoin(a[1..], b);
    }
  }

  lemma {:induction false} BitsLength(bytes: seq<Byte>)
    ensures |Bits(bytes)| == 8 * |bytes|
  {
    if bytes != [] {
      BitsLength(bytes[1..]);
    }
  }

  lemma {:induction false} SpelledLength(text: seq<Byte>)
    requires InAlphabet(text)
    ensures |Spelled(text)| == 6 * |text|
  {
    if text != [] {
      SpelledLength(text[1..]);
    }
  }

  // ---- one group ---------------------------------------------------------------------

  function First(v: bv6, b0: Byte): bool {
    && (v & 32 != 0) == (b0 & 128 != 0) && (v & 16 != 0) == (b0 & 64 != 0) && (v & 8 != 0) == (b0 & 32 != 0)
    && (v & 4 != 0) == (b0 & 16 != 0) && (v & 2 != 0) == (b0 & 8 != 0) && (v & 1 != 0) == (b0 & 4 != 0)
  }

  function Second(v: bv6, b0: Byte, b1: Byte): bool {
    && (v & 32 != 0) == (b0 & 2 != 0) && (v & 16 != 0) == (b0 & 1 != 0) && (v & 8 != 0) == (b1 & 128 != 0)
    && (v & 4 != 0) == (b1 & 64 != 0) && (v & 2 != 0) == (b1 & 32 != 0) && (v & 1 != 0) == (b1 & 16 != 0)
  }

  function Third(v: bv6, b1: Byte, b2: Byte): bool {
    && (v & 32 != 0) == (b1 & 8 != 0) && (v & 16 != 0) == (b1 & 4 != 0) && (v & 8 != 0) == (b1 & 2 != 0)
    && (v & 4 != 0) == (b1 & 1 != 0) && (v & 2 != 0) == (b2 & 128 != 0) && (v & 1 != 0) == (b2 & 64 != 0)
  }

  function Fourth(v: bv6, b2: Byte): bool {
    && (v & 32 != 0) == (b2 & 32 != 0) && (v & 16 != 0) == (b2 & 16 != 0) && (v & 8 != 0) == (b2 & 8 != 0)
    && (v & 4 != 0) == (b2 & 4 != 0) && (v & 2 != 0) == (b2 & 2 != 0) && (v & 1 != 0) == (b2 & 1 != 0)
  }

  // Four sixes have the bits of three bytes.
  predicate SameBits(v0: bv6, v1: bv6, v2: bv6, v3: bv6, b0: Byte, b1: Byte, b2: Byte) {
    First(v0, b0) && Second(v1, b0, b1) && Third(v2, b1, b2) && Fourth(v3, b2)
  }

  lemma CutBits(b0: Byte, b1: Byte, b2: Byte)
    ensures var v := Cut(Packed(b0, b1, b2)); SameBits(v[0], v[1], v[2], v[3], b0, b1, b2)
  {
  }

  lemma PastedBits(v0: bv6, v1: bv6, v2: bv6, v3: bv6)
    ensures var b := Bytes24(Pasted(v0, v1, v2, v3)); SameBits(v0, v1, v2, v3, b[0], b[1], b[2])
  {
  }

  lemma FirstIs(v: bv6, b0: Byte)
    requires First(v, b0)
    ensures SixBits(v) == ByteBits(b0)[..6]
  {
  }

  lemma SecondIs(v: bv6, b0: Byte, b1: Byte)
    requires Second(v, b0, b1)
    ensures SixBits(v) == ByteBits(b0)[6..] + ByteBits(b1)[..4]
  {
  }

  lemma ThirdIs(v: bv6, b1: Byte, b2: Byte)
    requires Third(v, b1, b2)
    ensures SixBits(v) == ByteBits(b1)[4..] + ByteBits(b2)[..2]
  {
  }

  lemma FourthIs(v: bv6, b2: Byte)
    requires Fourth(v, b2)
    ensures SixBits(v) == ByteBits(b2)[2..]
  {
  }

  lemma Regrouped(x: seq<bool>, y: seq<bool>, z: seq<bool>)
    requires |x| == 8 && |y| == 8 && |z| == 8
    ensures x[..6] + (x[6..] + y[..4]) + (y[4..] + z[..2]) + z[2..] == x + y + z
  {
  }

  lemma SameSequence(v0: bv6, v1: bv6, v2: bv6, v3: bv6, b0: Byte, b1: Byte, b2: Byte)
    requires SameBits(v0, v1, v2, v3, b0, b1, b2)
    ensures SixBits(v0) + SixBits(v1) + SixBits(v2) + SixBits(v3) == ByteBits(b0) + ByteBits(b1) + ByteBits(b2)
  {
    FirstIs(v0, b0);
    SecondIs(v1, b0, b1);
    ThirdIs(v2, b1, b2);
    FourthIs(v3, b2);
    Regrouped(ByteBits(b0), ByteBits(b1), ByteBits(b2));
  }

  // ---- sequences of sixes ------------------------------------------------------------

  function Sixes(values: seq<bv6>): seq<bool> {
    if values == [] then [] else SixBits(values[0]) + Sixes(values[1..])
  }

  // What the symbols of some values spell is the values' bits.
  lemma {:induction false} SpelledIsSixes(text: seq<Byte>, values: seq<bv6>)
    requires |text| == |values| && forall i :: 0 <= i < |text| ==> Value(text[i]) == Some(values[i])
    ensures Spelled(text) == Sixes(values)
    decreases |text|
  {
    if text != [] {
      SpelledIsSixes(text[1..], values[1..]);
    }
  }

  lemma {:induction false} SixesPrefix(values: seq<bv6>, k: nat)
    requires k <= |values|
    ensures |Sixes(values)| == 6 * |values| && Sixes(values[..k]) == Sixes(values)[..6 * k]
    decreases |values|
  {
    if k > 0 {
      SixesPrefix(values[1..], k - 1);
      assert values[..k][1..] == values[1..][..k - 1];
    } else if values != [] {
      SixesPrefix(values[1..], 0);
    }
  }

  lemma BitsPrefix(bytes: seq<Byte>, k: nat)
    requires k <= |bytes|
    ensures |Bits(bytes)| == 8 * |bytes| && Bits(bytes[..k]) == Bits(bytes)[..8 * k]
    ensures Bits(bytes[k..]) == Bits(bytes)[8 * k..]
  {
    assert bytes[..k] + bytes[k..] == bytes;
    BitsJoin(bytes[..k], bytes[k..]);
    BitsLength(bytes[..k]);
    BitsLength(bytes);
  }

  lemma Nested(a: seq<bool>, b: seq<bool>, c: seq<bool>, d: seq<bool>)
    ensures a + (b + (c + (d + []))) == a + b + c + d
  {
  }

  lemma SixesFront(v: seq<bv6>, k: nat)
    requires k < |v|
    ensures Sixes(v[k..]) == SixBits(v[k]) + Sixes(v[k + 1..])
  {
    assert v[k..][1..] == v[k + 1..];
  }

  lemma BitsFront(b: seq<Byte>, k: nat)
    requires k < |b|
    ensures Bits(b[k..]) == ByteBits(b[k]) + Bits(b[k + 1..])
  {
    assert b[k..][1..] == b[k + 1..];
  }

  lemma FourSixes(v: seq<bv6>, a: seq<bool>, b: seq<bool>, c: seq<bool>, d: seq<bool>)
    requires |v| == 4 && a == SixBits(v[0]) && b == SixBits(v[1]) && c == SixBits(v[2]) && d == SixBits(v[3])
    ensures Sixes(v) == a + b + c + d
  {
    SixesFront(v, 0);
    SixesFront(v, 1);
    SixesFront(v, 2);
    SixesFront(v, 3);
    assert v[0..] == v && v[4..] == [];
    Nested(a, b, c, d);
  }

  lemma ThreeBytes(v: seq<Byte>, a: seq<bool>, b: seq<bool>, c: seq<bool>)
    requires |v| == 3 && a == ByteBits(v[0]) && b == ByteBits(v[1]) && c == ByteBits(v[2])
    ensures Bits(v) == a + b + c
  {
    BitsFront(v, 0);
    BitsFront(v, 1);
    BitsFront(v, 2);
    assert v[0..] == v && v[3..] == [];
    Nested(a, b, c, []);
    assert c + ([] + []) == c + [] && a + b + c + [] == a + b + c;
  }

  lemma WholeGroup(v: seq<bv6>, b: seq<Byte>)
    requires |v| == 4 && |b| == 3 && SameBits(v[0], v[1], v[2], v[3], b[0], b[1], b[2])
    ensures Sixes(v) == Bits(b)
  {
    FourSixes(v, SixBits(v[0]), SixBits(v[1]), SixBits(v[2]), SixBits(v[3]));
    ThreeBytes(b, ByteBits(b[0]), ByteBits(b[1]), ByteBits(b[2]));
    SameSequence(v[0], v[1], v[2], v[3], b[0], b[1], b[2]);
  }

  lemma {:induction false} ZeroBits(bytes: seq<Byte>)
    requires forall i :: 0 <= i < |bytes| ==> bytes[i] == 0
    ensures AllZero(Bits(bytes))
  {
    if bytes != [] {
      ZeroBits(bytes[1..]);
    }
  }

  // ---- encoding ----------------------------------------------------------------------

  // The bits spelled are the bytes', and after them fewer than a letter's worth of zeros.
  predicate Spells(text: seq<Byte>, bytes: seq<Byte>) {
    && |Bits(bytes)| <= |Spelled(text)| < |Bits(bytes)| + 6
    && Spelled(text)[..|Bits(bytes)|] == Bits(bytes) && AllZero(Spelled(text)[|Bits(bytes)|..])
  }

  lemma GroupSpells(chunk: seq<Byte>)
    requires 1 <= |chunk| <= 3
    ensures Spells(EncodeGroup(chunk)[..|chunk| + 1], chunk)
  {
    var n := |chunk|;
    var full, v := [At(chunk, 0), At(chunk, 1), At(chunk, 2)], Cut(Packed(At(chunk, 0), At(chunk, 1), At(chunk, 2)));
    CutBits(full[0], full[1], full[2]);
    WholeGroup(v, full);
    GroupValues(chunk, v);
    SpelledIsSixes(EncodeGroup(chunk)[..n + 1], v[..n + 1]);
    SixesPrefix(v, n + 1);
    BitsPrefix(full, n);
    ZeroBits(full[n..]);
    assert full[..n] == chunk;
    ZerosAfter(Bits(full), 8 * n, 6 * (n + 1));
  }

  lemma GroupValues(chunk: seq<Byte>, v: seq<bv6>)
    requires 1 <= |chunk| <= 3 && v == Cut(Packed(At(chunk, 0), At(chunk, 1), At(chunk, 2)))
    ensures forall i :: 0 <= i <= |chunk| ==> Value(EncodeGroup(chunk)[i]) == Some(v[i])
  {
    SymbolsAreNotPads(v[0]);
    SymbolsAreNotPads(v[1]);
    SymbolsAreNotPads(v[2]);
    SymbolsAreNotPads(v[3]);
  }

  lemma ZerosAfter(bits: seq<bool>, from: nat, to: nat)
    requires from <= to <= |bits| && AllZero(bits[from..])
    ensures bits[..to][..from] == bits[..from] && AllZero(bits[..to][from..])
  {
    forall i | 0 <= i < to - from
      ensures !bits[..to][from..][i]
    {
      assert bits[..to][from..][i] == bits[from..][i];
    }
  }

  lemma SpellsMore(group: seq<Byte>, chunk: seq<Byte>, text: seq<Byte>, rest: seq<Byte>)
    requires Spelled(group) == Bits(chunk) && Spells(text, rest)
    ensures Spells(group + text, chunk + rest)
  {
    SpelledJoin(group, text);
    BitsJoin(chunk, rest);
    var n := |Bits(chunk)|;
    assert Spelled(group + text)[n..] == Spelled(text);
    assert Spelled(group + text)[n + |Bits(rest)|..] == Spelled(text)[|Bits(rest)|..];
  }

  lemma WholeChunkSpells(chunk: seq<Byte>)
    requires |chunk| == 3
    ensures Spelled(EncodeGroup(chunk)) == Bits(chunk)
  {
    GroupSpells(chunk);
    var group := EncodeGroup(chunk);
    assert group[..4] == group;
    var v := Cut(Packed(chunk[0], chunk[1], chunk[2]));
    GroupValues(chunk, v);
    SpelledIsSixes(group, v);
    SixesPrefix(v, 4);
    BitsLength(chunk);
  }

  lemma {:induction false} UnpaddedSpells(bytes: seq<Byte>)
    ensures Spells(Unpadded(bytes), bytes)
    decreases |bytes|
  {
    if bytes == [] {
    } else if |bytes| <= 3 {
      GroupSpells(bytes);
    } else {
      var chunk := bytes[..3];
      UnpaddedSpells(bytes[3..]);
      WholeChunkSpells(chunk);
      SpellsMore(EncodeGroup(chunk), chunk, Unpadded(bytes[3..]), bytes[3..]);
      assert chunk + bytes[3..] == bytes;
    }
  }

  lemma GroupsOfFour(n: nat)
    ensures n / 3 * 4 + (if n % 3 == 0 then 0 else n % 3 + 1) + (if n % 3 == 0 then 0 else 3 - n % 3) == (n + 2) / 3 * 4
  {
    var q, r := n / 3, n % 3;
    assert n == 3 * q + r;
    assert (n + 2) / 3 == if r == 0 then q else q + 1;
  }

  // An encoding is as long as the groups of three bytes call for.
  lemma EncodeLength(bytes: seq<Byte>)
    ensures |Encode(bytes)| == (|bytes| + 2) / 3 * 4
  {
    EncodeIsUnpaddedPadded(bytes);
    UnpaddedLength(bytes);
    GroupsOfFour(|bytes|);
  }

  // And, its pads aside, spells the bytes' bits and fills up its last letter with zeros.
  lemma EncodeSpells(bytes: seq<Byte>)
    ensures Spells(Strip(Encode(bytes)), bytes)
  {
    EncodeIsUnpaddedPadded(bytes);
    StripRemovesPads(Unpadded(bytes), PadsFor(bytes));
    UnpaddedSpells(bytes);
  }

  // ---- decoding ----------------------------------------------------------------------

  lemma GroupReads(chunk: seq<Byte>)
    requires 2 <= |chunk| <= 4 && InAlphabet(chunk)
    ensures DecodeGroup(chunk).Some? && |DecodeGroup(chunk).value| == |chunk| - 1
    ensures |Spelled(chunk)| == 6 * |chunk|
    ensures Bits(DecodeGroup(chunk).value) == Spelled(chunk)[..8 * (|chunk| - 1)]
  {
    var n := |chunk|;
    ValuesExactly(chunk);
    var values := Values(chunk).value;
    forall i | 0 <= i < n
      ensures Value(chunk[i]) == Some(values[i])
    {
      SymbolsOf(chunk, i);
      SymbolsAreNotPads(values[i]);
    }
    SpelledIsSixes(chunk, values);
    PaddedGroup(values);
  }

  lemma PartOfGroup(full: seq<bv6>, b: seq<Byte>, n: nat)
    requires |full| == 4 && |b| == 3 && Sixes(full) == Bits(b) && 2 <= n <= 4
    ensures |Sixes(full[..n])| == 6 * n && Bits(b[..n - 1]) == Sixes(full[..n])[..8 * (n - 1)]
  {
    SixesPrefix(full, n);
    BitsPrefix(b, n - 1);
    assert Sixes(full)[..6 * n][..8 * (n - 1)] == Sixes(full)[..8 * (n - 1)];
  }

  lemma FullGroup(v0: bv6, v1: bv6, v2: bv6, v3: bv6)
    ensures Sixes([v0, v1, v2, v3]) == Bits(Bytes24(Pasted(v0, v1, v2, v3)))
  {
    PastedBits(v0, v1, v2, v3);
    WholeGroup([v0, v1, v2, v3], Bytes24(Pasted(v0, v1, v2, v3)));
  }

  lemma PaddedGroup(values: seq<bv6>)
    requires 2 <= |values| <= 4
    ensures |Sixes(values)| == 6 * |values|
    ensures Bits(Bytes24(PastedAll(values))[..|values| - 1]) == Sixes(values)[..8 * (|values| - 1)]
  {
    var v0, v1, v2, v3 := Piece(values, 0), Piece(values, 1), Piece(values, 2), Piece(values, 3);
    FullGroup(v0, v1, v2, v3);
    PartOfGroup([v0, v1, v2, v3], Bytes24(PastedAll(values)), |values|);
    assert [v0, v1, v2, v3][..|values|] == values;
  }

  // The bytes' bits are those the text spells, less than a byte left over.
  predicate ReadsOff(text: seq<Byte>, bytes: seq<Byte>) {
    Bits(bytes) <= Spelled(text) && |Spelled(text)| < |Bits(bytes)| + 8
  }

  lemma ReadsMore(group: seq<Byte>, chunk: seq<Byte>, text: seq<Byte>, rest: seq<Byte>)
    requires Spelled(group) == Bits(chunk) && ReadsOff(text, rest)
    ensures ReadsOff(group + text, chunk + rest)
  {
    SpelledJoin(group, text);
    BitsJoin(chunk, rest);
  }

  lemma {:induction false} BodyReads(chars: seq<Byte>)
    requires InAlphabet(chars) && |chars| % 4 != 1
    ensures DecodeBody(chars).Some? && ReadsOff(chars, DecodeBody(chars).value)
    decreases |chars|
  {
    BodyDecodesExactly(chars);
    if chars == [] {
    } else if |chars| <= 4 {
      GroupReads(chars);
      OneGroupDecodes(chars);
      BitsLength(DecodeGroup(chars).value);
    } else {
      var first, rest := chars[..4], chars[4..];
      GroupReads(first);
      BodyReads(rest);
      BodyDecodesExactly(rest);
      FirstChunk(chars, DecodeGroup(first).value, DecodeBody(rest).value);
      BitsLength(DecodeGroup(first).value);
      ReadsMore(first, DecodeGroup(first).value, rest, DecodeBody(rest).value);
      assert first + rest == chars;
    }
  }

  // Whatever text decodes, canonical or not, decodes to the bits it spells.
  lemma DecodeReadsOff(text: seq<Byte>)
    requires Decode(text).Some?
    ensures ReadsOff(Strip(text), Decode(text).value)
  {
    BodyDecodesExactly(Strip(text));
    BodyReads(Strip(text));
  }
}
