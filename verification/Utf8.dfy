/** UTF-8 as section 4 of RFC 3629 gives it: the encoding, strict decoding, and
    lossy decoding, which puts U+FFFD for each maximal ill-formed part. */
module Utf8 {
  import opened Text

  // ----- One character -----

  function High(n: nat): nat {
    n / 64
  }

  function Low(n: nat): (r: nat)
    ensures r < 64 && High(n) * 64 + r == n
  {
    n % 64
  }

  function Two(n: nat): (b: seq<Byte>)
    requires n < 0x800
  {
    [0xC0 + High(n), 0x80 + Low(n)]
  }

  function Three(n: nat): (b: seq<Byte>)
    requires n < 0x1_0000
  {
    [0xE0 + High(High(n)), 0x80 + Low(High(n)), 0x80 + Low(n)]
  }

  function Four(n: nat): (b: seq<Byte>)
    requires n < 0x11_0000
  {
    [0xF0 + High(High(High(n))), 0x80 + Low(High(High(n))), 0x80 + Low(High(n)), 0x80 + Low(n)]
  }

  function EncodeChar(c: char): (b: seq<Byte>)
    ensures 1 <= |b| <= 4
  {
    var n := c as int;
    if n < 0x80 then [n]
    else if n < 0x800 then Two(n)
    else if n < 0x1_0000 then Three(n)
    else Four(n)
  }

  predicate Tail(b: Byte) {
    0x80 <= b <= 0xBF
  }

  /** How many bytes a leading byte announces; 0 for a byte that cannot lead. */
  function Width(b: Byte): nat {
    if b <= 0x7F then 1
    else if 0xC2 <= b <= 0xDF then 2
    else if 0xE0 <= b <= 0xEF then 3
    else if 0xF0 <= b <= 0xF4 then 4
    else 0
  }

  /** Which second byte may follow a leading byte. */
  predicate Second(first: Byte, b: Byte) {
    match first
    case 0xE0 => 0xA0 <= b <= 0xBF
    case 0xED => 0x80 <= b <= 0x9F
    case 0xF0 => 0x90 <= b <= 0xBF
    case 0xF4 => 0x80 <= b <= 0x8F
    case _ => Tail(b)
  }

  predicate WellFormed(b: seq<Byte>)
    requires b != []
  {
    var w := Width(b[0]);
    && 1 <= w <= |b|
    && (w >= 2 ==> Second(b[0], b[1]))
    && (w >= 3 ==> Tail(b[2]))
    && (w >= 4 ==> Tail(b[3]))
  }

  function Scalar(b: seq<Byte>): (n: nat)
    requires b != [] && WellFormed(b)
    ensures n < 0xD800 || 0xE000 <= n < 0x11_0000
  {
    var x: seq<int> := b;
    match Width(b[0])
    case 1 => x[0]
    case 2 => 64 * (x[0] - 0xC0) + (x[1] - 0x80)
    case 3 => 64 * (64 * (x[0] - 0xE0) + (x[1] - 0x80)) + (x[2] - 0x80)
    case _ => 64 * (64 * (64 * (x[0] - 0xF0) + (x[1] - 0x80)) + (x[2] - 0x80)) + (x[3] - 0x80)
  }

  /** The first character, which the first Width(b[0]) bytes spell. */
  function First(b: seq<Byte>): char
    requires b != [] && WellFormed(b)
  {
    Scalar(b) as char
  }

  lemma HighAndLow(h: nat, l: nat)
    requires l < 64
    ensures High(64 * h + l) == h && Low(64 * h + l) == l
  {
  }

  lemma TwoSpelled(b0: Byte, b1: Byte)
    requires Width(b0) == 2 && Second(b0, b1)
    ensures var n := 64 * (b0 as int - 0xC0) + (b1 as int - 0x80); 0x80 <= n < 0x800 && Two(n) == [b0, b1]
  {
    hide High, Low;
    HighAndLow(b0 - 0xC0, b1 - 0x80);
  }

  lemma ThreeSpelled(b0: Byte, b1: Byte, b2: Byte)
    requires Width(b0) == 3 && Second(b0, b1) && Tail(b2)
    ensures var n := 64 * (64 * (b0 as int - 0xE0) + (b1 as int - 0x80)) + (b2 as int - 0x80);
      0x800 <= n < 0x1_0000 && Three(n) == [b0, b1, b2]
  {
    hide High, Low;
    var n1: int := 64 * (b0 as int - 0xE0) + (b1 as int - 0x80);
    HighAndLow(b0 - 0xE0, b1 - 0x80);
    HighAndLow(n1, b2 - 0x80);
  }

  lemma FourSpelled(b0: Byte, b1: Byte, b2: Byte, b3: Byte)
    requires Width(b0) == 4 && Second(b0, b1) && Tail(b2) && Tail(b3)
    ensures var n := 64 * (64 * (64 * (b0 as int - 0xF0) + (b1 as int - 0x80)) + (b2 as int - 0x80)) + (b3 as int - 0x80);
      0x1_0000 <= n < 0x11_0000 && Four(n) == [b0, b1, b2, b3]
  {
    hide High, Low;
    var n1: int := 64 * (b0 as int - 0xF0) + (b1 as int - 0x80);
    var n2: int := 64 * n1 + (b2 as int - 0x80);
    assert 0x10 <= n1 < 0x110;
    HighAndLow(b0 - 0xF0, b1 - 0x80);
    HighAndLow(n1, b2 - 0x80);
    HighAndLow(n2, b3 - 0x80);
  }

  lemma FirstSpelled(b: seq<Byte>)
    requires b != [] && WellFormed(b)
    ensures EncodeChar(First(b)) == b[..Width(b[0])]
  {
    hide Two, Three, Four, Second;
    match Width(b[0])
    case 1 => assert b[..1] == [b[0]];
    case 2 =>
      TwoSpelled(b[0], b[1]);
      assert b[..2] == [b[0], b[1]];
    case 3 =>
      ThreeSpelled(b[0], b[1], b[2]);
      assert b[..3] == [b[0], b[1], b[2]];
    case 4 =>
      FourSpelled(b[0], b[1], b[2], b[3]);
      assert b[..4] == [b[0], b[1], b[2], b[3]];
  }

  lemma FirstOfEncoded(c: char, rest: seq<Byte>)
    ensures var b := EncodeChar(c) + rest; WellFormed(b) && Width(b[0]) == |EncodeChar(c)| && First(b) == c
  {
    hide High, Low;
    var e := EncodeChar(c);
    var b := e + rest;
    assert forall i | 0 <= i < |e| :: b[i] == e[i];
  }

  // ----- Strings -----

  function Encode(s: string): seq<Byte> {
    if s == "" then [] else EncodeChar(s[0]) + Encode(s[1..])
  }

  function Decode(b: seq<Byte>): Option<string>
    decreases |b|
  {
    if b == [] then Some("")
    else if !WellFormed(b) then None
    else
      match Decode(b[Width(b[0])..])
      case Some(rest) => Some([First(b)] + rest)
      case None => None
  }

  lemma {:induction false} DecodeEncode(s: string)
    ensures Decode(Encode(s)) == Some(s)
  {
    hide EncodeChar, WellFormed, Width, First;
    if s == "" {
    } else {
      var b := Encode(s);
      FirstOfEncoded(s[0], Encode(s[1..]));
      assert b[|EncodeChar(s[0])|..] == Encode(s[1..]);
      DecodeEncode(s[1..]);
      assert s == [s[0]] + s[1..];
    }
  }

  lemma {:induction false} EncodeDecode(b: seq<Byte>)
    requires Decode(b).Some?
    ensures Encode(Decode(b).value) == b
    decreases |b|
  {
    hide EncodeChar, First;
    if b == [] {
    } else {
      var w := Width(b[0]);
      EncodeDecode(b[w..]);
      FirstSpelled(b);
      var rest := Decode(b[w..]).value;
      assert ([First(b)] + rest)[1..] == rest;
      assert b == b[..w] + b[w..];
    }
  }

  // ----- Lossy decoding -----

  /** How much one U+FFFD stands for: the bytes that could still have started a
      character, or the first byte alone. */
  function Skipped(b: seq<Byte>): (n: nat)
    requires b != [] && !WellFormed(b)
    ensures 1 <= n <= |b|
  {
    var w := Width(b[0]);
    if w < 2 || |b| < 2 || !Second(b[0], b[1]) then 1
    else if |b| < 3 || !Tail(b[2]) then 2
    else 3
  }

  /** One U+FFFD stands for the longest part that some further bytes could have
      completed, or for a byte that could not even lead. */
  lemma SkippedIsMaximal(b: seq<Byte>)
    requires b != [] && !WellFormed(b)
    ensures var n := Skipped(b);
      && (n > 1 ==> exists c: seq<Byte> :: c != [] && WellFormed(c) && b[..n] <= c)
      && (n < |b| ==> forall c: seq<Byte> | c != [] && WellFormed(c) :: !(b[..n + 1] <= c))
  {
    var n := Skipped(b);
    if n == 2 { assert WellFormed(b[..2] + [0x80, 0x80]); }
    if n == 3 { assert WellFormed(b[..3] + [0x80]); }
  }

  function Lossy(b: seq<Byte>): string
    decreases |b|
  {
    if b == [] then ""
    else if WellFormed(b) then [First(b)] + Lossy(b[Width(b[0])..])
    else ['\U{FFFD}'] + Lossy(b[Skipped(b)..])
  }

  /** Lossy decoding loses nothing exactly on well-formed input, where it is
      strict decoding. */
  lemma {:induction false} LossyExactIff(b: seq<Byte>)
    ensures Decode(b).Some? ==> Lossy(b) == Decode(b).value
    ensures Encode(Lossy(b)) == b <==> Decode(b).Some?
  {
    if Decode(b).Some? {
      LossyIsStrict(b);
      EncodeDecode(b);
    } else {
      DecodeEncode(Lossy(b));
    }
  }

  lemma {:induction false} LossyIsStrict(b: seq<Byte>)
    requires Decode(b).Some?
    ensures Lossy(b) == Decode(b).value
    decreases |b|
  {
    hide First;
    if b == [] {
    } else {
      LossyIsStrict(b[Width(b[0])..]);
    }
  }
}
