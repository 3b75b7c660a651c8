/** The text form of a cursor: base64url (RFC 4648 section 5) with its padding dropped. */
module CursorCodec {
  import opened Entities

  type Byte = b: nat | b < 256
  type Sextet = v: nat | v < 64

  datatype Letter = Symbol(v: Sextet) | Pad

  type Letters = seq<Letter>

  function ToChar(letter: Letter): char {
    match letter
    case Pad => '='
    case Symbol(v) =>
      if v < 26 then 'A' + v as char
      else if v < 52 then 'a' + (v - 26) as char
      else if v < 62 then '0' + (v - 52) as char
      else if v == 62 then '-'
      else '_'
  }

  function FromChar(c: char): Option<Letter> {
    if 'A' <= c <= 'Z' then Some(Symbol((c - 'A') as int))
    else if 'a' <= c <= 'z' then Some(Symbol((c - 'a') as int + 26))
    else if '0' <= c <= '9' then Some(Symbol((c - '0') as int + 52))
    else if c == '-' then Some(Symbol(62))
    else if c == '_' then Some(Symbol(63))
    else if c == '=' then Some(Pad)
    else None
  }

  lemma CharsStandForLetters(letter: Letter, c: char)
    ensures FromChar(c) == Some(letter) <==> c == ToChar(letter)
  {
  }

  function Second(b0: Byte, b1: Byte): Sextet { b0 % 4 * 16 + b1 / 16 }

  function Third(b1: Byte, b2: Byte): Sextet { b1 % 16 * 4 + b2 / 64 }

  /** Four letters for three bytes; one or two bytes at the end are padded to four letters
      (RFC 4648 section 3.2). */
  function Encode(bytes: seq<Byte>): Letters {
    if bytes == [] then []
    else if |bytes| == 1 then [Symbol(bytes[0] / 4), Symbol(bytes[0] % 4 * 16), Pad, Pad]
    else if |bytes| == 2 then
      [Symbol(bytes[0] / 4), Symbol(Second(bytes[0], bytes[1])), Symbol(bytes[1] % 16 * 4), Pad]
    else
      [Symbol(bytes[0] / 4), Symbol(Second(bytes[0], bytes[1])), Symbol(Third(bytes[1], bytes[2])),
       Symbol(bytes[2] % 64)]
        + Encode(bytes[3..])
  }

  function FirstByte(v0: Sextet, v1: Sextet): Byte { v0 * 4 + v1 / 16 }

  function MiddleByte(v1: Sextet, v2: Sextet): Byte { v1 % 16 * 16 + v2 / 4 }

  function LastByte(v2: Sextet, v3: Sextet): Byte { v2 % 4 * 64 + v3 }

  function DecodeGroup(a: Letter, b: Letter, c: Letter, d: Letter): Option<seq<Byte>> {
    match (a, b, c, d)
    case (Symbol(v0), Symbol(v1), Pad, Pad) => Some([FirstByte(v0, v1)])
    case (Symbol(v0), Symbol(v1), Symbol(v2), Pad) => Some([FirstByte(v0, v1), MiddleByte(v1, v2)])
    case (Symbol(v0), Symbol(v1), Symbol(v2), Symbol(v3)) =>
      Some([FirstByte(v0, v1), MiddleByte(v1, v2), LastByte(v2, v3)])
    case _ => None
  }

  /** Padding is accepted in the last group only. */
  function Decode(text: Letters): Option<seq<Byte>> {
    if text == [] then Some([])
    else if |text| < 4 then None
    else
      var first := DecodeGroup(text[0], text[1], text[2], text[3]);
      if |text| == 4 || first == None then first
      else if |first.value| != 3 then None
      else
        var rest := Decode(text[4..]);
        if rest == None then None else Some(first.value + rest.value)
  }

  function StripPads(text: Letters): Letters {
    if text != [] && text[|text| - 1] == Pad then StripPads(text[..|text| - 1]) else text
  }

  function Pads(n: nat): Letters { seq(n, _ => Pad) }

  function Repad(text: Letters): Letters { text + Pads((0 - |text|) % 4) }

  function CursorText(bytes: seq<Byte>): Letters { StripPads(Encode(bytes)) }

  function CursorBytes(text: Letters): Option<seq<Byte>> { Decode(Repad(text)) }

  /** No padding, and nothing in the bits of the last letter that no byte uses. */
  predicate Clean(text: Letters) {
    && Pad !in text
    && if |text| >= 4 then Clean(text[4..])
       else |text| != 1 && (|text| == 2 ==> text[1].v % 16 == 0) && (|text| == 3 ==> text[2].v % 4 == 0)
  }

  // ----- the padding is recovered -----

  lemma {:induction false} StripPadsRemovesPads(text: Letters, n: nat)
    requires Pad !in text
    ensures StripPads(text + Pads(n)) == text
  {
    if n == 0 {
      assert text + Pads(0) == text;
    } else {
      assert (text + Pads(n))[..|text| + n - 1] == text + Pads(n - 1);
      StripPadsRemovesPads(text, n - 1);
    }
  }

  lemma LeftoverIsClean(bytes: seq<Byte>)
    requires 1 <= |bytes| <= 2
    ensures |Encode(bytes)| == 4 && Clean(Encode(bytes)[..|bytes| + 1])
    ensures Encode(bytes) == Encode(bytes)[..|bytes| + 1] + Pads(3 - |bytes|)
  {
  }

  /** An encoding is whole groups: a clean text, then at most two pads. */
  lemma {:induction false} EncodingEndsInPads(bytes: seq<Byte>) returns (letters: Letters, pads: nat)
    ensures Encode(bytes) == letters + Pads(pads) && Clean(letters) && pads <= 2
    ensures |Encode(bytes)| % 4 == 0
  {
    if bytes == [] {
      letters, pads := [], 0;
    } else if |bytes| <= 2 {
      LeftoverIsClean(bytes);
      letters, pads := Encode(bytes)[..|bytes| + 1], 3 - |bytes|;
    } else {
      letters, pads := EncodingEndsInPads(bytes[3..]);
      var group := Encode(bytes)[..4];
      assert Encode(bytes) == group + Encode(bytes[3..]);
      assert (group + letters)[4..] == letters;
      letters := group + letters;
    }
  }

  lemma MissingToWholeGroups(length: nat, missing: nat)
    requires (length + missing) % 4 == 0 && missing < 4
    ensures (0 - length) % 4 == missing
  {
  }

  /** Dropping the padding and adding back (-length) mod 4 pads restores the exact encoding. */
  lemma PaddingIsRecovered(bytes: seq<Byte>)
    ensures Repad(CursorText(bytes)) == Encode(bytes)
    ensures Clean(CursorText(bytes))
  {
    var letters, pads := EncodingEndsInPads(bytes);
    StripPadsRemovesPads(letters, pads);
    MissingToWholeGroups(|letters|, pads);
  }

  // ----- decoding inverts encoding -----

  lemma SextetsAssemble(b0: Byte, b1: Byte, b2: Byte)
    ensures FirstByte(b0 / 4, Second(b0, b1)) == b0
    ensures MiddleByte(Second(b0, b1), Third(b1, b2)) == b1
    ensures LastByte(Third(b1, b2), b2 % 64) == b2
  {
  }

  lemma DecodeGroupThenRest(group: Letters, rest: Letters)
    requires |group| == 4 && Decode(rest).Some?
    requires var first := DecodeGroup(group[0], group[1], group[2], group[3]); first.Some? && |first.value| == 3
    ensures Decode(group + rest) == Some(DecodeGroup(group[0], group[1], group[2], group[3]).value + Decode(rest).value)
  {
    var first := DecodeGroup(group[0], group[1], group[2], group[3]).value;
    assert (group + rest)[4..] == rest;
    assert rest == [] ==> first + Decode(rest).value == first;
  }

  lemma SingleDecodes(b0: Byte)
    ensures Decode(Encode([b0])) == Some([b0])
  {
    assert FirstByte(b0 / 4, b0 % 4 * 16) == b0;
  }

  lemma PairDecodes(b0: Byte, b1: Byte)
    ensures Decode(Encode([b0, b1])) == Some([b0, b1])
  {
    assert FirstByte(b0 / 4, Second(b0, b1)) == b0;
    assert MiddleByte(Second(b0, b1), b1 % 16 * 4) == b1;
  }

  lemma GroupDecodes(b0: Byte, b1: Byte, b2: Byte, rest: seq<Byte>)
    requires Decode(Encode(rest)) == Some(rest)
    ensures Decode(Encode([b0, b1, b2] + rest)) == Some([b0, b1, b2] + rest)
  {
    SextetsAssemble(b0, b1, b2);
    var group := [Symbol(b0 / 4), Symbol(Second(b0, b1)), Symbol(Third(b1, b2)), Symbol(b2 % 64)];
    assert ([b0, b1, b2] + rest)[3..] == rest;
    DecodeGroupThenRest(group, Encode(rest));
  }

  lemma {:induction false} DecodeInvertsEncode(bytes: seq<Byte>)
    ensures Decode(Encode(bytes)) == Some(bytes)
  {
    if |bytes| == 1 {
      assert bytes == [bytes[0]];
      SingleDecodes(bytes[0]);
    } else if |bytes| == 2 {
      assert bytes == [bytes[0], bytes[1]];
      PairDecodes(bytes[0], bytes[1]);
    } else if bytes != [] {
      assert bytes == [bytes[0], bytes[1], bytes[2]] + bytes[3..];
      DecodeInvertsEncode(bytes[3..]);
      GroupDecodes(bytes[0], bytes[1], bytes[2], bytes[3..]);
    }
  }

  /** Every cursor that was handed out is read back as it was. */
  lemma CursorRoundTrips(bytes: seq<Byte>)
    ensures CursorBytes(CursorText(bytes)) == Some(bytes)
  {
    PaddingIsRecovered(bytes);
    DecodeInvertsEncode(bytes);
  }

  // ----- which texts are cursors -----

  lemma BytesDisassemble(v0: Sextet, v1: Sextet, v2: Sextet, v3: Sextet)
    ensures FirstByte(v0, v1) / 4 == v0
    ensures Second(FirstByte(v0, v1), MiddleByte(v1, v2)) == v1
    ensures Third(MiddleByte(v1, v2), LastByte(v2, v3)) == v2
    ensures LastByte(v2, v3) % 64 == v3
  {
  }

  lemma PairDisassembles(v0: Sextet, v1: Sextet)
    requires v1 % 16 == 0
    ensures FirstByte(v0, v1) / 4 == v0 && FirstByte(v0, v1) % 4 * 16 == v1
  {
  }

  lemma TripleDisassembles(v0: Sextet, v1: Sextet, v2: Sextet)
    requires v2 % 4 == 0
    ensures FirstByte(v0, v1) / 4 == v0
    ensures Second(FirstByte(v0, v1), MiddleByte(v1, v2)) == v1
    ensures MiddleByte(v1, v2) % 16 * 4 == v2
  {
  }

  lemma PairIsReencoded(v0: Sextet, v1: Sextet)
    requires v1 % 16 == 0
    ensures CursorBytes([Symbol(v0), Symbol(v1)]) == Some([FirstByte(v0, v1)])
    ensures Encode([FirstByte(v0, v1)]) == Repad([Symbol(v0), Symbol(v1)])
  {
    PairDisassembles(v0, v1);
    assert Repad([Symbol(v0), Symbol(v1)]) == [Symbol(v0), Symbol(v1), Pad, Pad];
  }

  lemma TripleIsReencoded(v0: Sextet, v1: Sextet, v2: Sextet)
    requires v2 % 4 == 0
    ensures CursorBytes([Symbol(v0), Symbol(v1), Symbol(v2)]) == Some([FirstByte(v0, v1), MiddleByte(v1, v2)])
    ensures Encode([FirstByte(v0, v1), MiddleByte(v1, v2)]) == Repad([Symbol(v0), Symbol(v1), Symbol(v2)])
  {
    TripleDisassembles(v0, v1, v2);
    assert Repad([Symbol(v0), Symbol(v1), Symbol(v2)]) == [Symbol(v0), Symbol(v1), Symbol(v2), Pad];
  }

  lemma GroupIsReencoded(v0: Sextet, v1: Sextet, v2: Sextet, v3: Sextet, rest: seq<Byte>)
    ensures DecodeGroup(Symbol(v0), Symbol(v1), Symbol(v2), Symbol(v3))
         == Some([FirstByte(v0, v1), MiddleByte(v1, v2), LastByte(v2, v3)])
    ensures Encode([FirstByte(v0, v1), MiddleByte(v1, v2), LastByte(v2, v3)] + rest)
         == [Symbol(v0), Symbol(v1), Symbol(v2), Symbol(v3)] + Encode(rest)
  {
    BytesDisassemble(v0, v1, v2, v3);
    assert ([FirstByte(v0, v1), MiddleByte(v1, v2), LastByte(v2, v3)] + rest)[3..] == rest;
  }

  lemma RepadRest(group: Letters, rest: Letters)
    requires |group| == 4
    ensures Repad(group + rest) == group + Repad(rest)
  {
    assert (0 - |group + rest|) % 4 == (0 - |rest|) % 4;
  }

  /** A clean text decodes, and encoding the bytes gives the padded text back. */
  lemma {:induction false} EncodeInvertsDecode(text: Letters)
    requires Clean(text)
    ensures CursorBytes(text).Some? && Encode(CursorBytes(text).value) == Repad(text)
  {
    if |text| >= 4 {
      var group, rest := text[..4], text[4..];
      assert text == group + rest;
      EncodeInvertsDecode(rest);
      RepadRest(group, rest);
      GroupIsReencoded(text[0].v, text[1].v, text[2].v, text[3].v, CursorBytes(rest).value);
      DecodeGroupThenRest(group, Repad(rest));
      assert group == [Symbol(text[0].v), Symbol(text[1].v), Symbol(text[2].v), Symbol(text[3].v)];
    } else if |text| == 3 {
      assert text == [Symbol(text[0].v), Symbol(text[1].v), Symbol(text[2].v)];
      TripleIsReencoded(text[0].v, text[1].v, text[2].v);
    } else if |text| == 2 {
      assert text == [Symbol(text[0].v), Symbol(text[1].v)];
      PairIsReencoded(text[0].v, text[1].v);
    }
  }

  /** The cursor of some bytes is exactly the clean text that decodes to them. */
  lemma CursorsAreTheCleanTexts(text: Letters, bytes: seq<Byte>)
    ensures text == CursorText(bytes) <==> Clean(text) && CursorBytes(text) == Some(bytes)
  {
    if Clean(text) {
      EncodeInvertsDecode(text);
      StripPadsRemovesPads(text, (0 - |text|) % 4);
    }
    if text == CursorText(bytes) {
      CursorRoundTrips(bytes);
      PaddingIsRecovered(bytes);
    }
  }
}
