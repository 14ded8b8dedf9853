// Base64 with padding, section 4 of RFC 4648: the codec that carries request bodies inside
// XML. Text is the bytes of an ASCII string.

module Base64 {
  import opened Basics

  type Byte = bv8

  const PAD: Byte := 61

  // ---- the alphabet ------------------------------------------------------------------

  function Symbol(v: bv6): Byte {
    var w := v as bv8;
    if w < 26 then 65 + w else if w < 52 then 97 + (w - 26) else if w < 62 then 48 + (w - 52)
    else if w == 62 then 43 else 47
  }

  function Value(c: Byte): Option<bv6> {
    if 65 <= c < 91 then Some((c - 65) as bv6)
    else if 97 <= c < 123 then Some((c - 97 + 26) as bv6)
    else if 48 <= c < 58 then Some((c - 48 + 52) as bv6)
    else if c == 43 then Some(62)
    else if c == 47 then Some(63)
    else None
  }

  lemma AlphabetIsABijection(v: bv6, c: Byte)
    ensures Value(c) == Some(v) <==> c == Symbol(v)
    ensures Value(PAD) == None
  {
  }

  lemma SymbolsAreNotPads(v: bv6)
    ensures Symbol(v) != PAD && Value(Symbol(v)) == Some(v)
  {
    AlphabetIsABijection(v, Symbol(v));
  }

  // ---- one group ---------------------------------------------------------------------

  function At(chunk: seq<Byte>, i: nat): Byte {
    if i < |chunk| then chunk[i] else 0
  }

  // Three bytes as one number, and the number cut into six-bit pieces.
  function Packed(b0: Byte, b1: Byte, b2: Byte): bv32 {
    ((b0 as bv32) << 16) | ((b1 as bv32) << 8) | (b2 as bv32)
  }

  function Cut(n: bv32): (r: seq<bv6>)
    ensures |r| == 4
  {
    [((n >> 18) & 0x3f) as bv6, ((n >> 12) & 0x3f) as bv6, ((n >> 6) & 0x3f) as bv6, (n & 0x3f) as bv6]
  }

  function EncodeGroup(chunk: seq<Byte>): (r: seq<Byte>)
    requires 1 <= |chunk| <= 3
    ensures |r| == 4
  {
    var v := Cut(Packed(At(chunk, 0), At(chunk, 1), At(chunk, 2)));
    [Symbol(v[0]), Symbol(v[1]), if |chunk| > 1 then Symbol(v[2]) else PAD, if |chunk| > 2 then Symbol(v[3]) else PAD]
  }

  // Four six-bit pieces as one number, and its three low bytes.
  function Pasted(v0: bv6, v1: bv6, v2: bv6, v3: bv6): bv32 {
    ((v0 as bv32) << 18) | ((v1 as bv32) << 12) | ((v2 as bv32) << 6) | (v3 as bv32)
  }

  function Bytes24(n: bv32): (r: seq<Byte>)
    ensures |r| == 3
  {
    [((n >> 16) & 0xff) as bv8, ((n >> 8) & 0xff) as bv8, (n & 0xff) as bv8]
  }

  function Piece(values: seq<bv6>, i: nat): bv6 {
    if i < |values| then values[i] else 0
  }

  function PastedAll(values: seq<bv6>): bv32 {
    Pasted(Piece(values, 0), Piece(values, 1), Piece(values, 2), Piece(values, 3))
  }

  function Values(chunk: seq<Byte>): Option<seq<bv6>> {
    if chunk == [] then Some([])
    else
      var rest := Values(chunk[..|chunk| - 1]);
      var last := Value(chunk[|chunk| - 1]);
      if rest.None? || last.None? then None else Some(rest.value + [last.value])
  }

  function DecodeGroup(chunk: seq<Byte>): Option<seq<Byte>>
    requires |chunk| <= 4
  {
    if |chunk| < 2 then None
    else
      var values := Values(chunk);
      if values.None? || |values.value| != |chunk| then None
      else Some(Bytes24(PastedAll(values.value))[..|chunk| - 1])
  }

  // ---- whole texts -------------------------------------------------------------------

  function Encode(bytes: seq<Byte>): seq<Byte> {
    if bytes == [] then []
    else
      var n := Least(3, |bytes|);
      EncodeGroup(bytes[..n]) + Encode(bytes[n..])
  }

  function Strip(text: seq<Byte>): seq<Byte> {
    if text != [] && text[|text| - 1] == PAD then Strip(text[..|text| - 1]) else text
  }

  function Joining(out: seq<Byte>, rest: Option<seq<Byte>>): Option<seq<Byte>> {
    if rest.None? then None else Some(out + rest.value)
  }

  function DecodeBody(chars: seq<Byte>): Option<seq<Byte>> {
    if chars == [] then Some([])
    else
      var n := Least(4, |chars|);
      var first := DecodeGroup(chars[..n]);
      if first.None? then None else Joining(first.value, DecodeBody(chars[n..]))
  }

  function Decode(text: seq<Byte>): Option<seq<Byte>> {
    DecodeBody(Strip(text))
  }

  // ---- the loops ---------------------------------------------------------------------

  // One pass of the encoding loop.
  method EncodeChunk(chunk: seq<Byte>) returns (out: seq<Byte>)
    requires 1 <= |chunk| <= 3
    ensures out == EncodeGroup(chunk)
  {
    var n := Packed(At(chunk, 0), At(chunk, 1), At(chunk, 2));
    var v := Cut(n);
    out := [Symbol(v[0])];
    out := out + [Symbol(v[1])];
    out := out + [if |chunk| > 1 then Symbol(v[2]) else PAD];
    out := out + [if |chunk| > 2 then Symbol(v[3]) else PAD];
  }

  // What a pass leaves is what it found but for its group.
  lemma EncodeNext(bytes: seq<Byte>, i: nat, end: nat)
    requires i < |bytes| && end == Least(i + 3, |bytes|)
    ensures Encode(bytes[i..]) == EncodeGroup(bytes[i..end]) + Encode(bytes[end..])
  {
    var left, n := bytes[i..], end - i;
    assert left[..n] == bytes[i..end] && left[n..] == bytes[end..];
  }

  method Base64Encode(bytes: seq<Byte>) returns (out: seq<Byte>)
    ensures out == Encode(bytes)
  {
    out := [];
    var i := 0;
    assert bytes[0..] == bytes;
    while i < |bytes|
      invariant 0 <= i <= |bytes|
      invariant Encode(bytes) == out + Encode(bytes[i..])
    {
      var end := Least(i + 3, |bytes|);
      var group := EncodeChunk(bytes[i..end]);
      EncodeNext(bytes, i, end);
      out := out + group;
      i := end;
    }
  }

  method TrimPadding(text: seq<Byte>) returns (body: seq<Byte>)
    ensures body == Strip(text)
  {
    var n := |text|;
    assert text[..n] == text;
    while n > 0 && text[n - 1] == PAD
      invariant 0 <= n <= |text|
      invariant Strip(text) == Strip(text[..n])
    {
      assert text[..n][..n - 1] == text[..n - 1];
      n := n - 1;
    }
    assert Strip(text[..n]) == text[..n];
    body := text[..n];
  }

  function Joined(values: seq<bv6>): bv32 {
    if values == [] then 0 else ShiftIn(Joined(values[..|values| - 1]), values[|values| - 1])
  }

  // The symbols' values shifted together, moved to the top of the 24 bits.
  function Aligned(n: bv32, count: nat): bv32 {
    if count == 4 then n else if count == 3 then n << 6 else n << 12
  }

  function ShiftIn(n: bv32, v: bv6): bv32 {
    (n << 6) | (v as bv32)
  }

  lemma ShiftedIn2(v0: bv6, v1: bv6)
    ensures ShiftIn(ShiftIn(0, v0), v1) << 12 == Pasted(v0, v1, 0, 0)
  {
  }

  lemma ShiftedIn3(v0: bv6, v1: bv6, v2: bv6)
    ensures ShiftIn(ShiftIn(ShiftIn(0, v0), v1), v2) << 6 == Pasted(v0, v1, v2, 0)
  {
  }

  lemma ShiftedIn4(v0: bv6, v1: bv6, v2: bv6, v3: bv6)
    ensures ShiftIn(ShiftIn(ShiftIn(ShiftIn(0, v0), v1), v2), v3) == Pasted(v0, v1, v2, v3)
  {
  }

  lemma JoinedSnoc(values: seq<bv6>, n: nat)
    requires n < |values|
    ensures Joined(values[..n + 1]) == ShiftIn(Joined(values[..n]), values[n])
  {
    assert values[..n + 1][..n] == values[..n];
  }

  function Shifts(values: seq<bv6>): bv32
    requires 2 <= |values| <= 4
  {
    var two := ShiftIn(ShiftIn(0, values[0]), values[1]);
    if |values| == 2 then two
    else if |values| == 3 then ShiftIn(two, values[2])
    else ShiftIn(ShiftIn(two, values[2]), values[3])
  }

  lemma JoinedByShifts(values: seq<bv6>)
    requires 2 <= |values| <= 4
    ensures Joined(values) == Shifts(values)
  {
    var n := |values|;
    JoinedSnoc(values, 0);
    JoinedSnoc(values, 1);
    if n > 2 {
      JoinedSnoc(values, 2);
    }
    if n > 3 {
      JoinedSnoc(values, 3);
    }
    assert values[..n] == values;
  }

  lemma ShiftsAlign2(values: seq<bv6>)
    requires |values| == 2
    ensures Aligned(Shifts(values), 2) == PastedAll(values)
  {
    ShiftedIn2(values[0], values[1]);
  }

  lemma ShiftsAlign3(values: seq<bv6>)
    requires |values| == 3
    ensures Aligned(Shifts(values), 3) == PastedAll(values)
  {
    ShiftedIn3(values[0], values[1], values[2]);
  }

  lemma ShiftsAlign4(values: seq<bv6>)
    requires |values| == 4
    ensures Aligned(Shifts(values), 4) == PastedAll(values)
  {
    ShiftedIn4(values[0], values[1], values[2], values[3]);
  }

  // Shifting values in one by one and aligning the result puts each in its place.
  lemma JoinedIsPasted(values: seq<bv6>)
    requires 2 <= |values| <= 4
    ensures Aligned(Joined(values), |values|) == PastedAll(values)
  {
    JoinedByShifts(values);
    if |values| == 2 {
      ShiftsAlign2(values);
    } else if |values| == 3 {
      ShiftsAlign3(values);
    } else {
      ShiftsAlign4(values);
    }
  }

  lemma NoValues(chunk: seq<Byte>, k: nat)
    requires k < |chunk| && Value(chunk[k]).None?
    ensures Values(chunk).None?
    decreases |chunk|
  {
    if k < |chunk| - 1 {
      NoValues(chunk[..|chunk| - 1], k);
    }
  }

  method ShiftTogether(chunk: seq<Byte>) returns (n: Option<bv32>)
    ensures n == if Values(chunk).None? then None else Some(Joined(Values(chunk).value))
  {
    var bits: bv32 := 0;
    var i := 0;
    while i < |chunk|
      invariant 0 <= i <= |chunk|
      invariant Values(chunk[..i]).Some? && bits == Joined(Values(chunk[..i]).value)
    {
      var v := Value(chunk[i]);
      if v.None? {
        NoValues(chunk, i);
        return None;
      }
      assert chunk[..i + 1][..i] == chunk[..i];
      ghost var before, longer := Values(chunk[..i]).value, Values(chunk[..i + 1]).value;
      assert longer[..|longer| - 1] == before;
      bits := (bits << 6) | (v.value as bv32);
      i := i + 1;
    }
    assert chunk[..i] == chunk;
    n := Some(bits);
  }

  // One pass of the decoding loop: the symbols shifted in one by one, then aligned.
  method DecodeChunk(chunk: seq<Byte>) returns (r: Option<seq<Byte>>)
    requires 1 <= |chunk| <= 4
    ensures r == DecodeGroup(chunk)
  {
    if |chunk| < 2 {
      return None;
    }
    var n := ShiftTogether(chunk);
    if n.None? {
      return None;
    }
    ValuesExactly(chunk);
    JoinedIsPasted(Values(chunk).value);
    r := Some(Bytes24(Aligned(n.value, |chunk|))[..|chunk| - 1]);
  }

  lemma JoiningLaws(out: seq<Byte>, more: seq<Byte>, rest: Option<seq<Byte>>)
    ensures Joining([], rest) == rest
    ensures Joining(out, Some([])) == Some(out)
    ensures Joining(out, Joining(more, rest)) == Joining(out + more, rest)
  {
    if rest.Some? {
      assert [] + rest.value == rest.value;
      assert out + (more + rest.value) == out + more + rest.value;
    }
    assert out + [] == out;
  }

  lemma DecodeBodyStep(chars: seq<Byte>, i: nat, end: nat)
    requires i < |chars| && end == Least(i + 4, |chars|)
    ensures var group := DecodeGroup(chars[i..end]);
            DecodeBody(chars[i..]) == if group.None? then None else Joining(group.value, DecodeBody(chars[end..]))
  {
    var left := chars[i..];
    assert chars[i..end] == left[..end - i] && chars[end..] == left[end - i..];
  }

  method Base64Decode(text: seq<Byte>) returns (r: Option<seq<Byte>>)
    ensures r == Decode(text)
  {
    var chars := TrimPadding(text);
    var out: seq<Byte> := [];
    var i := 0;
    assert chars[0..] == chars;
    JoiningLaws([], [], DecodeBody(chars));
    while i < |chars|
      invariant 0 <= i <= |chars|
      invariant Decode(text) == Joining(out, DecodeBody(chars[i..]))
    {
      var end := Least(i + 4, |chars|);
      DecodeBodyStep(chars, i, end);
      var bytes := DecodeChunk(chars[i..end]);
      if bytes.None? {
        return None;
      }
      JoiningLaws(out, bytes.value, DecodeBody(chars[end..]));
      out := out + bytes.value;
      i := end;
    }
    assert chars[i..] == [];
    JoiningLaws(out, [], Some([]));
    r := Some(out);
  }

  // ---- round trips -------------------------------------------------------------------

  lemma {:induction false} ValuesAre(chunk: seq<Byte>, values: seq<bv6>)
    requires |values| == |chunk| && forall i :: 0 <= i < |chunk| ==> Value(chunk[i]) == Some(values[i])
    ensures Values(chunk) == Some(values)
    decreases |chunk|
  {
    if chunk != [] {
      var n := |chunk| - 1;
      ValuesAre(chunk[..n], values[..n]);
      assert values[..n] + [values[n]] == values;
    }
  }

  // Three bytes, two and one: cutting and pasting undo each other, unused bits being zero.
  lemma CutPastes3(b0: Byte, b1: Byte, b2: Byte)
    ensures var v := Cut(Packed(b0, b1, b2)); Bytes24(Pasted(v[0], v[1], v[2], v[3])) == [b0, b1, b2]
  {
  }

  lemma CutPastes2(b0: Byte, b1: Byte)
    ensures var v := Cut(Packed(b0, b1, 0)); v[2] & 3 == 0 && Bytes24(Pasted(v[0], v[1], v[2], 0))[..2] == [b0, b1]
  {
  }

  lemma CutPastes1(b0: Byte)
    ensures var v := Cut(Packed(b0, 0, 0)); v[1] & 15 == 0 && Bytes24(Pasted(v[0], v[1], 0, 0))[..1] == [b0]
  {
  }

  lemma PasteCuts4(v0: bv6, v1: bv6, v2: bv6, v3: bv6)
    ensures var b := Bytes24(Pasted(v0, v1, v2, v3)); Cut(Packed(b[0], b[1], b[2])) == [v0, v1, v2, v3]
  {
  }

  lemma PasteCuts3(v0: bv6, v1: bv6, v2: bv6)
    requires v2 & 3 == 0
    ensures var b := Bytes24(Pasted(v0, v1, v2, 0)); Cut(Packed(b[0], b[1], 0))[..3] == [v0, v1, v2]
  {
  }

  lemma PasteCuts2(v0: bv6, v1: bv6)
    requires v1 & 15 == 0
    ensures var b := Bytes24(Pasted(v0, v1, 0, 0)); Cut(Packed(b[0], 0, 0))[..2] == [v0, v1]
  {
  }

  lemma PastedBack(chunk: seq<Byte>, values: seq<bv6>)
    requires 1 <= |chunk| <= 3 && values == Cut(Packed(At(chunk, 0), At(chunk, 1), At(chunk, 2)))[..|chunk| + 1]
    ensures Bytes24(PastedAll(values))[..|chunk|] == chunk
  {
    if |chunk| == 3 {
      CutPastes3(chunk[0], chunk[1], chunk[2]);
    } else if |chunk| == 2 {
      CutPastes2(chunk[0], chunk[1]);
    } else {
      CutPastes1(chunk[0]);
    }
  }

  // A group decodes to what was encoded, its padding aside.
  lemma GroupRoundTrip(chunk: seq<Byte>)
    requires 1 <= |chunk| <= 3
    ensures DecodeGroup(EncodeGroup(chunk)[..|chunk| + 1]) == Some(chunk)
  {
    var cut := Cut(Packed(At(chunk, 0), At(chunk, 1), At(chunk, 2)));
    var symbols, values := EncodeGroup(chunk)[..|chunk| + 1], cut[..|chunk| + 1];
    forall i | 0 <= i < |symbols|
      ensures Value(symbols[i]) == Some(values[i])
    {
      SymbolsAreNotPads(values[i]);
    }
    ValuesAre(symbols, values);
    PastedBack(chunk, values);
  }

  // What encoding leaves once its padding is stripped.
  function Unpadded(bytes: seq<Byte>): seq<Byte> {
    if bytes == [] then []
    else if |bytes| <= 3 then EncodeGroup(bytes)[..|bytes| + 1]
    else EncodeGroup(bytes[..3]) + Unpadded(bytes[3..])
  }

  function Pads(n: nat): (r: seq<Byte>)
    ensures |r| == n && forall i :: 0 <= i < n ==> r[i] == PAD
  {
    seq(n, _ => PAD)
  }

  lemma {:induction false} StripRemovesPads(body: seq<Byte>, n: nat)
    requires body != [] ==> body[|body| - 1] != PAD
    ensures Strip(body + Pads(n)) == body
  {
    var text := body + Pads(n);
    if n == 0 {
      assert text == body;
    } else {
      assert text[..|text| - 1] == body + Pads(n - 1);
      StripRemovesPads(body, n - 1);
    }
  }

  // Groups of three are padded not at all, a last group of two or one by one or two.
  function PadsFor(bytes: seq<Byte>): nat {
    if |bytes| % 3 == 0 then 0 else 3 - |bytes| % 3
  }

  lemma GroupIsPadded(chunk: seq<Byte>)
    requires 1 <= |chunk| <= 3
    ensures EncodeGroup(chunk) == EncodeGroup(chunk)[..|chunk| + 1] + Pads(3 - |chunk|)
    ensures EncodeGroup(chunk)[|chunk|] != PAD
  {
    assert EncodeGroup(chunk)[|chunk| + 1..] == Pads(3 - |chunk|);
  }

  lemma Regroup(group: seq<Byte>, body: seq<Byte>, pads: seq<Byte>)
    ensures group + (body + pads) == group + body + pads
    ensures body != [] ==> group + body != [] && (group + body)[|group + body| - 1] == body[|body| - 1]
  {
  }

  // One group and the rest, as long as there is more than one group.
  lemma MoreGroups(bytes: seq<Byte>) returns (group: seq<Byte>, rest: seq<Byte>)
    requires |bytes| > 3
    ensures rest == bytes[3..] && |group| == 4 && PadsFor(bytes) == PadsFor(rest)
    ensures Encode(bytes) == group + Encode(rest) && Unpadded(bytes) == group + Unpadded(rest)
  {
    group, rest := EncodeGroup(bytes[..3]), bytes[3..];
  }

  lemma {:induction false} UnpaddedLength(bytes: seq<Byte>)
    ensures |Unpadded(bytes)| == |bytes| / 3 * 4 + (if |bytes| % 3 == 0 then 0 else |bytes| % 3 + 1)
    decreases |bytes|
  {
    if |bytes| > 3 {
      var group, rest := MoreGroups(bytes);
      UnpaddedLength(rest);
    }
  }

  lemma {:induction false} EncodeIsUnpaddedPadded(bytes: seq<Byte>)
    ensures Encode(bytes) == Unpadded(bytes) + Pads(PadsFor(bytes))
    ensures Unpadded(bytes) != [] ==> Unpadded(bytes)[|Unpadded(bytes)| - 1] != PAD
    decreases |bytes|
  {
    if bytes == [] {
    } else if |bytes| <= 3 {
      assert bytes[..|bytes|] == bytes && bytes[|bytes|..] == [];
      GroupIsPadded(bytes);
      assert Encode(bytes) == EncodeGroup(bytes) + [];
    } else {
      var group, rest := MoreGroups(bytes);
      EncodeIsUnpaddedPadded(rest);
      UnpaddedLength(rest);
      Regroup(group, Unpadded(rest), Pads(PadsFor(rest)));
    }
  }

  lemma {:induction false} UnpaddedDecodes(bytes: seq<Byte>)
    ensures DecodeBody(Unpadded(bytes)) == Some(bytes)
    decreases |bytes|
  {
    if bytes == [] {
    } else if |bytes| <= 3 {
      GroupRoundTrip(bytes);
      var body := Unpadded(bytes);
      assert body[..|body|] == body && body[|body|..] == [];
      JoiningLaws(bytes, [], Some([]));
    } else {
      var first, rest := bytes[..3], bytes[3..];
      UnpaddedDecodes(rest);
      GroupRoundTrip(first);
      var body := Unpadded(bytes);
      assert EncodeGroup(first)[..4] == EncodeGroup(first);
      assert body[..4] == EncodeGroup(first) && body[4..] == Unpadded(rest);
      assert first + rest == bytes;
    }
  }

  // Decoding undoes encoding, for every byte string.
  lemma DecodeUndoesEncode(bytes: seq<Byte>)
    ensures Decode(Encode(bytes)) == Some(bytes)
  {
    EncodeIsUnpaddedPadded(bytes);
    StripRemovesPads(Unpadded(bytes), PadsFor(bytes));
    UnpaddedDecodes(bytes);
  }

  // ---- when decoding fails -----------------------------------------------------------

  predicate InAlphabet(chars: seq<Byte>) {
    forall i :: 0 <= i < |chars| ==> Value(chars[i]).Some?
  }

  lemma {:induction false} ValuesExactly(chunk: seq<Byte>)
    ensures Values(chunk).Some? <==> InAlphabet(chunk)
    ensures Values(chunk).Some? ==> |Values(chunk).value| == |chunk|
    decreases |chunk|
  {
    if chunk != [] {
      ValuesExactly(chunk[..|chunk| - 1]);
    }
  }

  lemma {:induction false} BodyDecodesExactly(chars: seq<Byte>)
    ensures DecodeBody(chars).Some? <==> InAlphabet(chars) && |chars| % 4 != 1
    decreases |chars|
  {
    if chars != [] {
      var n := Least(4, |chars|);
      var first, rest := chars[..n], chars[n..];
      ValuesExactly(first);
      BodyDecodesExactly(rest);
      assert chars == first + rest;
      assert InAlphabet(chars) <==> InAlphabet(first) && InAlphabet(rest);
      if |chars| >= 4 {
        assert |chars| % 4 == |rest| % 4;
      }
    }
  }

  // Decoding fails exactly on a character outside the alphabet or a stripped length of one
  // more than a multiple of four.
  lemma DecodeFailsExactly(text: seq<Byte>)
    ensures Decode(text).None? <==> !InAlphabet(Strip(text)) || |Strip(text)| % 4 == 1
  {
    BodyDecodesExactly(Strip(text));
  }

  // ---- which texts are encodings -----------------------------------------------------

  // The bits of the last character that no byte uses.
  predicate TrailingBitsZero(chars: seq<Byte>) {
    var last := if chars == [] then None else Value(chars[|chars| - 1]);
    && (|chars| % 4 == 2 && last.Some? ==> last.value & 15 == 0)
    && (|chars| % 4 == 3 && last.Some? ==> last.value & 3 == 0)
  }

  // Padded to a multiple of four by at most two pads, with unused bits zero.
  predicate Canonical(text: seq<Byte>) {
    |text| % 4 == 0 && |text| - |Strip(text)| <= 2 && TrailingBitsZero(Strip(text))
  }

  lemma {:induction false} StripSplits(text: seq<Byte>)
    ensures |Strip(text)| <= |text| && text == Strip(text) + Pads(|text| - |Strip(text)|)
    ensures Strip(text) != [] ==> Strip(text)[|Strip(text)| - 1] != PAD
    decreases |text|
  {
    if text != [] && text[|text| - 1] == PAD {
      StripSplits(text[..|text| - 1]);
      assert text == text[..|text| - 1] + [PAD];
    }
  }

  lemma {:induction false} SymbolsOf(chunk: seq<Byte>, i: nat)
    requires Values(chunk).Some? && |Values(chunk).value| == |chunk| && i < |chunk|
    ensures chunk[i] == Symbol(Values(chunk).value[i])
    decreases |chunk|
  {
    var n := |chunk| - 1;
    ValuesExactly(chunk[..n]);
    if i < n {
      SymbolsOf(chunk[..n], i);
    } else {
      AlphabetIsABijection(Value(chunk[n]).value, chunk[n]);
    }
  }

  predicate UnusedBitsZero(values: seq<bv6>)
    requires 2 <= |values| <= 4
  {
    (|values| == 2 ==> values[1] & 15 == 0) && (|values| == 3 ==> values[2] & 3 == 0)
  }

  lemma ValuesBack(values: seq<bv6>)
    requires 2 <= |values| <= 4 && UnusedBitsZero(values)
    ensures var bytes := Bytes24(PastedAll(values))[..|values| - 1];
            Cut(Packed(At(bytes, 0), At(bytes, 1), At(bytes, 2)))[..|values|] == values
  {
    if |values| == 4 {
      PasteCuts4(values[0], values[1], values[2], values[3]);
    } else if |values| == 3 {
      PasteCuts3(values[0], values[1], values[2]);
    } else {
      PasteCuts2(values[0], values[1]);
    }
  }

  lemma GroupSymbols(bytes: seq<Byte>, values: seq<bv6>)
    requires 1 <= |bytes| <= 3 && |values| == |bytes| + 1
    requires Cut(Packed(At(bytes, 0), At(bytes, 1), At(bytes, 2)))[..|values|] == values
    ensures forall i :: 0 <= i < |values| ==> EncodeGroup(bytes)[i] == Symbol(values[i])
  {
    var cut := Cut(Packed(At(bytes, 0), At(bytes, 1), At(bytes, 2)));
    assert forall i :: 0 <= i < |values| ==> values[i] == cut[i];
  }

  // A group with its unused bits zero is what its bytes encode to.
  lemma GroupBack(chunk: seq<Byte>)
    requires 2 <= |chunk| <= 4 && InAlphabet(chunk) && TrailingBitsZero(chunk)
    ensures DecodeGroup(chunk).Some? && |DecodeGroup(chunk).value| == |chunk| - 1
    ensures EncodeGroup(DecodeGroup(chunk).value)[..|chunk|] == chunk
  {
    ValuesExactly(chunk);
    var values := Values(chunk).value;
    forall i | 0 <= i < |chunk|
      ensures chunk[i] == Symbol(values[i])
    {
      SymbolsOf(chunk, i);
    }
    SymbolsAreNotPads(values[|chunk| - 1]);
    ValuesBack(values);
    GroupSymbols(DecodeGroup(chunk).value, values);
  }

  lemma FirstGroup(b: seq<Byte>, more: seq<Byte>)
    requires |b| == 3 && more != []
    ensures Unpadded(b + more) == EncodeGroup(b) + Unpadded(more) && PadsFor(b + more) == PadsFor(more)
  {
    var bytes := b + more;
    assert bytes[..3] == b && bytes[3..] == more;
  }

  lemma FirstChunk(chars: seq<Byte>, b: seq<Byte>, more: seq<Byte>)
    requires |chars| > 4 && DecodeGroup(chars[..4]) == Some(b) && DecodeBody(chars[4..]) == Some(more)
    ensures DecodeBody(chars) == Some(b + more)
  {
  }

  lemma SplitBody(chars: seq<Byte>, b: seq<Byte>, rest: seq<Byte>, more: seq<Byte>)
    requires |chars| > 4 && rest == chars[4..]
    requires DecodeGroup(chars[..4]) == Some(b) && |b| == 3 && DecodeBody(rest) == Some(more)
    requires EncodeGroup(b) == chars[..4] && Unpadded(more) == rest
    ensures DecodeBody(chars) == Some(b + more) && Unpadded(b + more) == chars && PadsFor(b + more) == PadsFor(more)
  {
    FirstChunk(chars, b, more);
    UnpaddedLength(more);
    FirstGroup(b, more);
    assert chars == chars[..4] + rest;
  }

  lemma SplitAlphabet(chars: seq<Byte>)
    requires |chars| > 4 && InAlphabet(chars) && TrailingBitsZero(chars)
    ensures InAlphabet(chars[..4]) && TrailingBitsZero(chars[..4])
    ensures InAlphabet(chars[4..]) && TrailingBitsZero(chars[4..]) && |chars[4..]| % 4 == |chars| % 4
  {
    var rest := chars[4..];
    assert rest[|rest| - 1] == chars[|chars| - 1];
  }

  lemma {:induction false} BodyBack(chars: seq<Byte>)
    requires InAlphabet(chars) && |chars| % 4 != 1 && TrailingBitsZero(chars)
    ensures DecodeBody(chars).Some? && Unpadded(DecodeBody(chars).value) == chars
    ensures PadsFor(DecodeBody(chars).value) == (if |chars| % 4 == 0 then 0 else 4 - |chars| % 4)
    decreases |chars|
  {
    if chars == [] {
    } else if |chars| <= 4 {
      OneGroupBack(chars);
    } else {
      var rest := chars[4..];
      SplitAlphabet(chars);
      GroupBack(chars[..4]);
      BodyBack(rest);
      var b := DecodeGroup(chars[..4]).value;
      assert EncodeGroup(b)[..4] == EncodeGroup(b);
      SplitBody(chars, b, rest, DecodeBody(rest).value);
    }
  }

  lemma OneGroupDecodes(chars: seq<Byte>)
    requires 2 <= |chars| <= 4 && DecodeGroup(chars).Some?
    ensures DecodeBody(chars) == DecodeGroup(chars)
  {
    assert chars[..|chars|] == chars && chars[|chars|..] == [];
    JoiningLaws(DecodeGroup(chars).value, [], Some([]));
  }

  lemma OneGroupUnpadded(b: seq<Byte>)
    requires 1 <= |b| <= 3
    ensures Unpadded(b) == EncodeGroup(b)[..|b| + 1]
  {
  }

  lemma OneGroupPads(b: seq<Byte>)
    requires 1 <= |b| <= 3
    ensures PadsFor(b) == 3 - |b|
  {
  }

  lemma OneGroupBack(chars: seq<Byte>)
    requires 2 <= |chars| <= 4 && InAlphabet(chars) && TrailingBitsZero(chars)
    ensures DecodeBody(chars).Some? && Unpadded(DecodeBody(chars).value) == chars
    ensures PadsFor(DecodeBody(chars).value) == 4 - |chars|
  {
    GroupBack(chars);
    OneGroupDecodes(chars);
    OneGroupUnpadded(DecodeGroup(chars).value);
    OneGroupPads(DecodeGroup(chars).value);
  }

  lemma GroupEndsInZeros(chunk: seq<Byte>)
    requires 1 <= |chunk| <= 3
    ensures TrailingBitsZero(EncodeGroup(chunk)[..|chunk| + 1])
  {
    SymbolsAreNotPads(Cut(Packed(At(chunk, 0), At(chunk, 1), At(chunk, 2)))[|chunk|]);
    if |chunk| == 2 {
      CutPastes2(chunk[0], chunk[1]);
    } else if |chunk| == 1 {
      CutPastes1(chunk[0]);
    }
  }

  lemma TrailingBitsOfLast(group: seq<Byte>, rest: seq<Byte>)
    requires |group| == 4 && rest != [] && TrailingBitsZero(rest)
    ensures TrailingBitsZero(group + rest)
  {
    var all := group + rest;
    assert all[|all| - 1] == rest[|rest| - 1] && |all| % 4 == |rest| % 4;
  }

  lemma {:induction false} UnpaddedIsCanonical(bytes: seq<Byte>)
    ensures TrailingBitsZero(Unpadded(bytes))
    decreases |bytes|
  {
    if bytes == [] {
    } else if |bytes| <= 3 {
      GroupEndsInZeros(bytes);
    } else {
      var group, rest := MoreGroups(bytes);
      UnpaddedIsCanonical(rest);
      UnpaddedLength(rest);
      TrailingBitsOfLast(group, Unpadded(rest));
    }
  }

  lemma LengthsAlign(n: nat)
    ensures (n / 3 * 4 + (if n % 3 == 0 then 0 else n % 3 + 1) + (if n % 3 == 0 then 0 else 3 - n % 3)) % 4 == 0
  {
    if n % 3 != 0 {
      assert n % 3 + 1 + (3 - n % 3) == 4;
    }
  }

  lemma EncodingsAreCanonical(bytes: seq<Byte>)
    ensures Canonical(Encode(bytes))
  {
    EncodeIsUnpaddedPadded(bytes);
    StripRemovesPads(Unpadded(bytes), PadsFor(bytes));
    UnpaddedIsCanonical(bytes);
    UnpaddedLength(bytes);
    LengthsAlign(|bytes|);
  }

  lemma PadArithmetic(whole: nat, body: nat)
    requires body <= whole <= body + 2 && whole % 4 == 0 && body % 4 != 1
    ensures whole - body == if body % 4 == 0 then 0 else 4 - body % 4
  {
  }

  lemma CanonicalEncodesBack(text: seq<Byte>)
    requires Decode(text).Some? && Canonical(text)
    ensures Encode(Decode(text).value) == text
  {
    var body := Strip(text);
    StripSplits(text);
    BodyDecodesExactly(body);
    BodyBack(body);
    EncodeIsUnpaddedPadded(DecodeBody(body).value);
    PadArithmetic(|text|, |body|);
  }

  // A text that decodes is the encoding of what it decodes to exactly when it is canonical.
  lemma EncodeUndoesDecodeExactly(text: seq<Byte>)
    requires Decode(text).Some?
    ensures Encode(Decode(text).value) == text <==> Canonical(text)
  {
    EncodingsAreCanonical(Decode(text).value);
    if Canonical(text) {
      CanonicalEncodesBack(text);
    }
  }
}
