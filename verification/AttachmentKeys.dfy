/** The attachment key table: unpadded base64url, the environment variable
    id:key,id:key,... and the checks every table passes. */
module AttachmentKeys {
  import opened Text

  const MATERIAL_BYTES := 32

  // ----- Base64url without padding (section 5 of RFC 4648) -----

  function Symbol(v: int): (c: char)
    requires 0 <= v < 64
    ensures SymbolValue(c) == Some(v)
  {
    if v < 26 then (v + 'A' as int) as char
    else if v < 52 then (v - 26 + 'a' as int) as char
    else if v < 62 then (v - 52 + '0' as int) as char
    else if v == 62 then '-' else '_'
  }

  function SymbolValue(c: char): (r: Option<int>)
    ensures r.Some? ==> 0 <= r.value < 64
  {
    if 'A' <= c <= 'Z' then Some(c as int - 'A' as int)
    else if 'a' <= c <= 'z' then Some(c as int - 'a' as int + 26)
    else if '0' <= c <= '9' then Some(c as int - '0' as int + 52)
    else if c == '-' then Some(62)
    else if c == '_' then Some(63)
    else None
  }

  lemma SymbolOfValue(c: char)
    requires SymbolValue(c).Some?
    ensures Symbol(SymbolValue(c).value) == c
  {
  }

  // Three bytes as four six-bit values, and back.

  function Six0(b0: Byte): (v: int) ensures 0 <= v < 64 { b0 / 4 }
  function Six1(b0: Byte, b1: Byte): (v: int) ensures 0 <= v < 64 { b0 % 4 * 16 + b1 / 16 }
  function Six2(b1: Byte, b2: Byte): (v: int) ensures 0 <= v < 64 { b1 % 16 * 4 + b2 / 64 }
  function Six3(b2: Byte): (v: int) ensures 0 <= v < 64 { b2 % 64 }

  type Six = v: int | 0 <= v < 64

  function Byte0(v0: Six, v1: Six): Byte { v0 * 4 + v1 / 16 }
  function Byte1(v1: Six, v2: Six): Byte { v1 % 16 * 16 + v2 / 4 }
  function Byte2(v2: Six, v3: Six): Byte { v2 % 4 * 64 + v3 }

  lemma Ungroup(b0: Byte, b1: Byte, b2: Byte)
    ensures Byte0(Six0(b0), Six1(b0, b1)) == b0
    ensures Byte1(Six1(b0, b1), Six2(b1, b2)) == b1
    ensures Byte2(Six2(b1, b2), Six3(b2)) == b2
  {
  }

  lemma Regroup(v0: Six, v1: Six, v2: Six, v3: Six)
    ensures Six0(Byte0(v0, v1)) == v0
    ensures Six1(Byte0(v0, v1), Byte1(v1, v2)) == v1
    ensures Six2(Byte1(v1, v2), Byte2(v2, v3)) == v2
    ensures Six3(Byte2(v2, v3)) == v3
  {
  }

  /** Four six-bit values and three bytes are the same 24 bits, high end first. */
  lemma SameBits(b0: Byte, b1: Byte, b2: Byte)
    ensures ((Six0(b0) * 64 + Six1(b0, b1)) * 64 + Six2(b1, b2)) * 64 + Six3(b2) == (b0 * 256 + b1) * 256 + b2
  {
  }

  /** The alphabet: letters, digits, hyphen and underscore, in the order of the RFC. */
  lemma Alphabet()
    ensures Symbol(0) == 'A' && Symbol(25) == 'Z' && Symbol(26) == 'a' && Symbol(51) == 'z'
    ensures Symbol(52) == '0' && Symbol(61) == '9' && Symbol(62) == '-' && Symbol(63) == '_'
    ensures forall v | 0 <= v < 61 && v !in {25, 51} :: Symbol(v + 1) as int == Symbol(v) as int + 1
  {
  }

  function Encode(bytes: seq<Byte>): string {
    if bytes == [] then ""
    else if |bytes| == 1 then [Symbol(Six0(bytes[0])), Symbol(Six1(bytes[0], 0))]
    else if |bytes| == 2 then
      [Symbol(Six0(bytes[0])), Symbol(Six1(bytes[0], bytes[1])), Symbol(Six2(bytes[1], 0))]
    else
      [Symbol(Six0(bytes[0])), Symbol(Six1(bytes[0], bytes[1])),
       Symbol(Six2(bytes[1], bytes[2])), Symbol(Six3(bytes[2]))] + Encode(bytes[3..])
  }

  predicate AllSymbols(s: string) { forall i | 0 <= i < |s| :: SymbolValue(s[i]).Some? }

  /** Rejects foreign characters, impossible lengths and stray bits in the last symbol. */
  function Decode(s: string): Option<seq<Byte>> {
    if s == "" then Some([])
    else if |s| == 1 || !AllSymbols(s[..if |s| < 4 then |s| else 4]) then None
    else
      var v0, v1 := SymbolValue(s[0]).value, SymbolValue(s[1]).value;
      if |s| == 2 then (if Byte1(v1, 0) == 0 then Some([Byte0(v0, v1)]) else None)
      else
        var v2 := SymbolValue(s[2]).value;
        if |s| == 3 then
          (if Byte2(v2, 0) == 0 then Some([Byte0(v0, v1), Byte1(v1, v2)]) else None)
        else
          var v3 := SymbolValue(s[3]).value;
          match Decode(s[4..])
          case None => None
          case Some(rest) => Some([Byte0(v0, v1), Byte1(v1, v2), Byte2(v2, v3)] + rest)
  }

  lemma ZeroTails(b: Byte)
    ensures Byte1(Six1(b, 0), 0) == 0 && Byte2(Six2(b, 0), 0) == 0 && Six2(0, 0) == 0 && Six3(0) == 0
  {
  }

  lemma DecodeOne(bytes: seq<Byte>)
    requires |bytes| == 1
    ensures Decode(Encode(bytes)) == Some(bytes)
  {
    hide Symbol, SymbolValue, Six0, Six1, Six2, Six3, Byte0, Byte1, Byte2;
    Ungroup(bytes[0], 0, 0);
    ZeroTails(bytes[0]);
    var s := Encode(bytes);
    assert |s| == 2 && s[..2] == s;
    assert SymbolValue(s[0]) == Some(Six0(bytes[0])) && SymbolValue(s[1]) == Some(Six1(bytes[0], 0));
    assert bytes == [bytes[0]];
  }

  lemma DecodeTwo(bytes: seq<Byte>)
    requires |bytes| == 2
    ensures Decode(Encode(bytes)) == Some(bytes)
  {
    hide Symbol, SymbolValue, Six0, Six1, Six2, Six3, Byte0, Byte1, Byte2;
    Ungroup(bytes[0], bytes[1], 0);
    ZeroTails(bytes[1]);
    var s := Encode(bytes);
    assert |s| == 3 && s[..3] == s;
    assert SymbolValue(s[0]) == Some(Six0(bytes[0])) && SymbolValue(s[1]) == Some(Six1(bytes[0], bytes[1]));
    assert SymbolValue(s[2]) == Some(Six2(bytes[1], 0));
    assert bytes == [bytes[0], bytes[1]];
  }

  lemma {:induction false} DecodeEncode(bytes: seq<Byte>)
    ensures Decode(Encode(bytes)) == Some(bytes)
  {
    hide Symbol, SymbolValue, Six0, Six1, Six2, Six3, Byte0, Byte1, Byte2;
    if |bytes| == 1 {
      DecodeOne(bytes);
    } else if |bytes| == 2 {
      DecodeTwo(bytes);
    } else if |bytes| >= 3 {
      hide Encode, Decode;
      DecodeEncode(bytes[3..]);
      Ungroup(bytes[0], bytes[1], bytes[2]);
      EncodeGroup(bytes);
      DecodeGroup(Encode(bytes), Six0(bytes[0]), Six1(bytes[0], bytes[1]), Six2(bytes[1], bytes[2]), Six3(bytes[2]), bytes[3..]);
      assert bytes == [bytes[0], bytes[1], bytes[2]] + bytes[3..];
    }
  }

  lemma EncodeGroup(bytes: seq<Byte>)
    requires |bytes| >= 3
    ensures var s := Encode(bytes);
      && |s| >= 4 && s[4..] == Encode(bytes[3..])
      && SymbolValue(s[0]) == Some(Six0(bytes[0])) && SymbolValue(s[1]) == Some(Six1(bytes[0], bytes[1]))
      && SymbolValue(s[2]) == Some(Six2(bytes[1], bytes[2])) && SymbolValue(s[3]) == Some(Six3(bytes[2]))
  {
    hide Symbol, SymbolValue, Six0, Six1, Six2, Six3;
  }

  lemma DecodeGroup(s: string, v0: Six, v1: Six, v2: Six, v3: Six, rest: seq<Byte>)
    requires |s| >= 4 && Decode(s[4..]) == Some(rest)
    requires SymbolValue(s[0]) == Some(v0) && SymbolValue(s[1]) == Some(v1)
    requires SymbolValue(s[2]) == Some(v2) && SymbolValue(s[3]) == Some(v3)
    ensures Decode(s) == Some([Byte0(v0, v1), Byte1(v1, v2), Byte2(v2, v3)] + rest)
  {
    hide SymbolValue, Byte0, Byte1, Byte2;
    assert AllSymbols(s[..4]);
  }

  lemma EncodeTwo(s: string)
    requires |s| == 2 && Decode(s).Some?
    ensures Encode(Decode(s).value) == s
  {
    hide Symbol, SymbolValue, Six0, Six1, Six2, Six3, Byte0, Byte1, Byte2;
    assert s[..2] == s;
    SymbolOfValue(s[0]);
    SymbolOfValue(s[1]);
    Regroup(SymbolValue(s[0]).value, SymbolValue(s[1]).value, 0, 0);
    assert s == [s[0], s[1]];
  }

  lemma EncodeThree(s: string)
    requires |s| == 3 && Decode(s).Some?
    ensures Encode(Decode(s).value) == s
  {
    hide Symbol, SymbolValue, Six0, Six1, Six2, Six3, Byte0, Byte1, Byte2;
    assert s[..3] == s;
    SymbolOfValue(s[0]);
    SymbolOfValue(s[1]);
    SymbolOfValue(s[2]);
    Regroup(SymbolValue(s[0]).value, SymbolValue(s[1]).value, SymbolValue(s[2]).value, 0);
    assert s == [s[0], s[1], s[2]];
  }

  /** The encoding is canonical: a text decodes to bytes only if it is their encoding. */
  lemma {:induction false} EncodeDecode(s: string)
    requires Decode(s).Some?
    ensures Encode(Decode(s).value) == s
  {
    hide Symbol, SymbolValue, Six0, Six1, Six2, Six3, Byte0, Byte1, Byte2;
    if |s| == 2 {
      EncodeTwo(s);
    } else if |s| == 3 {
      EncodeThree(s);
    } else if |s| >= 4 {
      EncodeDecode(s[4..]);
      var bytes := Decode(s).value;
      assert bytes[3..] == Decode(s[4..]).value;
      assert forall i | 0 <= i < 4 :: s[..4][i] == s[i];
      SymbolOfValue(s[0]);
      SymbolOfValue(s[1]);
      SymbolOfValue(s[2]);
      SymbolOfValue(s[3]);
      Regroup(SymbolValue(s[0]).value, SymbolValue(s[1]).value, SymbolValue(s[2]).value, SymbolValue(s[3]).value);
      assert s == [s[0], s[1], s[2], s[3]] + s[4..];
    }
  }
}
