/** Strings as the server handles them: splitting and joining on one separator,
    Unicode white space, decimal numbers. */
module Text {
  type Byte = b: int | 0 <= b < 256

  const U64_MAX: nat := 0xFFFF_FFFF_FFFF_FFFF

  datatype Option<+T> = None | Some(value: T)

  datatype Result<+T, +E> = Ok(value: T) | Err(error: E)

  // ----- Splitting and joining -----

  /** All maximal separator-free stretches of s, in order; never empty. */
  function Split<T(==)>(s: seq<T>, sep: T): (parts: seq<seq<T>>)
    ensures |parts| >= 1
    ensures forall p | p in parts :: sep !in p
  {
    if s == [] then [[]]
    else
      var rest := Split(s[1..], sep);
      if s[0] == sep then [[]] + rest else [[s[0]] + rest[0]] + rest[1..]
  }

  function Join<T>(parts: seq<seq<T>>, sep: T): seq<T>
  {
    if parts == [] then []
    else if |parts| == 1 then parts[0]
    else parts[0] + [sep] + Join(parts[1..], sep)
  }

  lemma {:induction false} JoinSplit<T>(s: seq<T>, sep: T)
    ensures Join(Split(s, sep), sep) == s
  {
    if s == [] {
    } else {
      JoinSplit(s[1..], sep);
      var rest := Split(s[1..], sep);
      if s[0] == sep {
        assert ([[]] + rest)[1..] == rest;
      } else if |rest| > 1 {
        assert ([[s[0]] + rest[0]] + rest[1..])[1..] == rest[1..];
      }
    }
  }

  lemma {:induction false} SplitHead<T>(head: seq<T>, tail: seq<T>, sep: T)
    requires sep !in head
    ensures Split(head + [sep] + tail, sep) == [head] + Split(tail, sep)
  {
    var s := head + [sep] + tail;
    if head == [] {
      assert s[1..] == tail;
    } else {
      SplitHead(head[1..], tail, sep);
      assert s[1..] == head[1..] + [sep] + tail;
      assert [head[0]] + head[1..] == head;
    }
  }

  lemma {:induction false} SplitWhole<T>(s: seq<T>, sep: T)
    requires sep !in s
    ensures Split(s, sep) == [s]
  {
    if s == [] {
    } else {
      SplitWhole(s[1..], sep);
      assert [s[0]] + s[1..] == s;
    }
  }

  lemma {:induction false} SplitJoin<T>(parts: seq<seq<T>>, sep: T)
    requires parts != []
    requires forall p | p in parts :: sep !in p
    ensures Split(Join(parts, sep), sep) == parts
  {
    if |parts| == 1 {
      SplitWhole(parts[0], sep);
    } else {
      SplitHead(parts[0], Join(parts[1..], sep), sep);
      SplitJoin(parts[1..], sep);
    }
  }

  /** Two texts cut at their first separator agree piece by piece. */
  lemma {:induction false} FirstCutUnique<T>(a: seq<T>, x: seq<T>, b: seq<T>, y: seq<T>, sep: T)
    requires sep !in a && sep !in b
    requires a + [sep] + x == b + [sep] + y
    ensures a == b && x == y
  {
    var s := a + [sep] + x;
    assert s[|a|] == sep && s[|b|] == sep;
    assert a == s[..|a|] && b == s[..|b|];
    assert x == s[|a| + 1..] && y == s[|b| + 1..];
  }

  /** Two texts cut at their last separator agree piece by piece. */
  lemma {:induction false} LastCutUnique<T>(a: seq<T>, x: seq<T>, b: seq<T>, y: seq<T>, sep: T)
    requires sep !in x && sep !in y
    requires a + [sep] + x == b + [sep] + y
    ensures a == b && x == y
  {
    var s := a + [sep] + x;
    assert s[|a|] == sep && s[|b|] == sep;
    assert a == s[..|a|] && b == s[..|b|];
    assert x == s[|a| + 1..] && y == s[|b| + 1..];
  }

  // ----- White space -----

  /** The characters with the Unicode White_Space property. */
  predicate IsSpace(c: char) {
    var n := c as int;
    9 <= n <= 13 || n == 32 || n == 0x85 || n == 0xA0 || n == 0x1680
    || 0x2000 <= n <= 0x200A || n == 0x2028 || n == 0x2029 || n == 0x202F
    || n == 0x205F || n == 0x3000
  }

  lemma Assoc<T>(a: seq<T>, b: seq<T>, c: seq<T>)
    ensures (a + b) + c == a + (b + c)
  {
  }

  lemma SpaceIs(c: char)
    ensures IsSpace(c) <==> c in "\t\n\U{B}\U{C}\r \U{85}\U{A0}\U{1680}\U{2028}\U{2029}\U{202F}\U{205F}\U{3000}" || '\U{2000}' <= c <= '\U{200A}'
  {
    var spaces := "\t\n\U{B}\U{C}\r \U{85}\U{A0}\U{1680}\U{2028}\U{2029}\U{202F}\U{205F}\U{3000}";
    assert |spaces| == 14;
    assert forall i | 0 <= i < 14 :: IsSpace(spaces[i]);
    assert spaces[0] as int == 9 && spaces[1] as int == 10 && spaces[2] as int == 11 && spaces[3] as int == 12;
    assert spaces[4] as int == 13 && spaces[5] as int == 32 && spaces[6] as int == 0x85 && spaces[7] as int == 0xA0;
    assert spaces[8] as int == 0x1680 && spaces[9] as int == 0x2028 && spaces[10] as int == 0x2029 && spaces[11] as int == 0x202F;
    assert spaces[12] as int == 0x205F && spaces[13] as int == 0x3000;
  }

  function TrimStart(s: string): string {
    if s != "" && IsSpace(s[0]) then TrimStart(s[1..]) else s
  }

  function TrimEnd(s: string): string {
    if s != "" && IsSpace(s[|s| - 1]) then TrimEnd(s[..|s| - 1]) else s
  }

  function Trim(s: string): string { TrimEnd(TrimStart(s)) }

  predicate Blank(s: string) {
    forall c | c in s :: IsSpace(c)
  }

  lemma {:induction false} TrimStartCuts(s: string) returns (a: string)
    ensures s == a + TrimStart(s) && Blank(a)
    ensures TrimStart(s) != "" ==> !IsSpace(TrimStart(s)[0])
  {
    hide IsSpace;
    if s == "" || !IsSpace(s[0]) {
      a := "";
    } else {
      var rest := TrimStartCuts(s[1..]);
      a := [s[0]] + rest;
    }
  }

  lemma {:induction false} TrimEndCuts(s: string) returns (b: string)
    ensures s == TrimEnd(s) + b && Blank(b)
    ensures TrimEnd(s) != "" ==> !IsSpace(TrimEnd(s)[|TrimEnd(s)| - 1]) && TrimEnd(s)[0] == s[0]
  {
    hide IsSpace;
    if s == "" || !IsSpace(s[|s| - 1]) {
      b := "";
    } else {
      var rest := TrimEndCuts(s[..|s| - 1]);
      b := rest + [s[|s| - 1]];
    }
  }

  /** Trimming takes off white space at both ends and nothing else, as much as
      there is. */
  lemma TrimCuts(s: string)
    ensures exists a, b :: s == a + Trim(s) + b && Blank(a) && Blank(b)
    ensures Trim(s) != "" ==> !IsSpace(Trim(s)[0]) && !IsSpace(Trim(s)[|Trim(s)| - 1])
    ensures Trim(s) == "" <==> Blank(s)
  {
    hide IsSpace;
    var a := TrimStartCuts(s);
    var b := TrimEndCuts(TrimStart(s));
    hide TrimStart, TrimEnd;
    assert s == a + Trim(s) + b;
    if Trim(s) == "" {
      assert s == a + b;
    } else {
      assert s[|a|] == Trim(s)[0];
    }
  }

  // ----- Decimal numbers -----

  predicate IsDigit(c: char) { '0' <= c <= '9' }

  predicate AllDigits(s: string) {
    forall i | 0 <= i < |s| :: IsDigit(s[i])
  }

  function DigitValue(c: char): (d: nat)
    requires IsDigit(c)
    ensures d < 10
  {
    c as int - '0' as int
  }

  function Digit(d: nat): (c: char)
    requires d < 10
    ensures IsDigit(c) && DigitValue(c) == d
  {
    ('0' as int + d) as char
  }

  function Decimal(n: nat): (s: string)
    ensures |s| >= 1 && AllDigits(s)
  {
    if n < 10 then [Digit(n)] else Decimal(n / 10) + [Digit(n % 10)]
  }

  function Value(s: string): nat
    requires AllDigits(s)
  {
    if s == "" then 0 else Value(s[..|s| - 1]) * 10 + DigitValue(s[|s| - 1])
  }

  lemma {:induction false} ValueOfDecimal(n: nat)
    ensures Value(Decimal(n)) == n
  {
    var s := Decimal(n);
    if n < 10 {
      assert s[..0] == "";
    } else {
      ValueOfDecimal(n / 10);
      assert s[..|s| - 1] == Decimal(n / 10);
    }
  }

  lemma DecimalInjective(m: nat, n: nat)
    requires Decimal(m) == Decimal(n)
    ensures m == n
  {
    ValueOfDecimal(m);
    ValueOfDecimal(n);
  }

  /** Zero padding on the left up to a width. */
  function Padded(n: nat, width: nat): (s: string)
    ensures AllDigits(s) && |s| >= 1
  {
    Zeros(width - |Decimal(n)|) + Decimal(n)
  }

  function Zeros(count: int): (s: string)
    ensures AllDigits(s) && |s| == if count > 0 then count else 0
  {
    if count <= 0 then "" else "0" + Zeros(count - 1)
  }

  lemma {:induction false} ValueOfPadded(n: nat, width: nat)
    ensures Value(Padded(n, width)) == n
  {
    ValueOfDecimal(n);
    LeadingZeros(width - |Decimal(n)|, Decimal(n));
  }

  lemma {:induction false} LeadingZeros(count: int, s: string)
    requires AllDigits(s)
    ensures AllDigits(Zeros(count) + s)
    ensures Value(Zeros(count) + s) == Value(s)
    decreases |s|, count
  {
    var t := Zeros(count) + s;
    if s != "" {
      LeadingZeros(count, s[..|s| - 1]);
      assert t[..|t| - 1] == Zeros(count) + s[..|s| - 1];
    } else if count > 0 {
      LeadingZeros(count - 1, s);
      ZerosEnd(count);
      assert t == Zeros(count);
      assert t[..|t| - 1] == Zeros(count - 1) + s;
    } else {
      assert t == s;
    }
  }

  lemma {:induction false} ZerosEnd(count: nat)
    requires count > 0
    ensures Zeros(count) == Zeros(count - 1) + "0"
  {
    if count > 1 { ZerosEnd(count - 1); }
  }

  lemma {:induction false} DecimalLength(n: nat)
    ensures n < 100 ==> |Decimal(n)| <= 2
    ensures n < 10000 ==> |Decimal(n)| <= 4
  {
    if n >= 10 && n < 10000 {
      assert |Decimal(n)| == |Decimal(n / 10)| + 1;
      if n >= 100 {
        assert |Decimal(n / 10)| == |Decimal(n / 10 / 10)| + 1;
        if n >= 1000 { assert |Decimal(n / 10 / 10)| == |Decimal(n / 10 / 10 / 10)| + 1; }
      }
    }
  }

  /** An unsigned number as the standard library reads it: an optional plus
      sign, then at least one digit, and no overflow past max. */
  function ParseUnsigned(s: string, max: nat): (r: Option<nat>)
  {
    var digits := if s != "" && s[0] == '+' then s[1..] else s;
    if digits != "" && AllDigits(digits) && Value(digits) <= max then Some(Value(digits)) else None
  }

  lemma ParseDecimal(n: nat, max: nat)
    requires n <= max
    ensures ParseUnsigned(Decimal(n), max) == Some(n)
  {
    ValueOfDecimal(n);
    assert IsDigit(Decimal(n)[0]);
  }

  lemma DecimalMore(m: nat, d: nat)
    requires d < 10
    ensures Decimal(10 * m + d) == if m == 0 then [Digit(d)] else Decimal(m) + [Digit(d)]
  {
    var n := 10 * m + d;
    assert n / 10 == m && n % 10 == d;
  }

  lemma ValueMore(init: string, last: char)
    requires AllDigits(init) && IsDigit(last)
    ensures AllDigits(init + [last]) && Value(init + [last]) == 10 * Value(init) + DigitValue(last)
  {
    assert (init + [last])[..|init|] == init;
  }

  /** Digits are zeros and then the numeral of their value. */
  lemma {:induction false} NumeralIs(digits: string) returns (zeros: nat)
    requires digits != "" && AllDigits(digits)
    ensures digits == Zeros(zeros) + Decimal(Value(digits))
  {
    var init, last := digits[..|digits| - 1], digits[|digits| - 1];
    assert digits == init + [last];
    ValueMore(init, last);
    DecimalMore(Value(init), DigitValue(last));
    assert Digit(DigitValue(last)) == last;
    if init == "" {
      zeros := 0;
    } else {
      zeros := NumeralIs(init);
      if Value(init) == 0 {
        assert Decimal(0) == "0";
        hide Value, Zeros, Digit, Decimal;
        ZerosEnd(zeros + 1);
        zeros := zeros + 1;
      } else {
        hide Value, Zeros, Digit, Decimal;
      }
    }
  }

  lemma ParsedNumeral(s: string, max: nat, zeros: nat, n: nat)
    requires n <= max && (s == Zeros(zeros) + Decimal(n) || s == "+" + (Zeros(zeros) + Decimal(n)))
    ensures ParseUnsigned(s, max) == Some(n)
  {
    hide Decimal, Value, Zeros;
    var digits := Zeros(zeros) + Decimal(n);
    LeadingZeros(zeros, Decimal(n));
    ValueOfDecimal(n);
    assert IsDigit(digits[0]);
    if s != digits { assert s[1..] == digits; }
  }

  /** Exactly the numerals are read, with an optional plus sign and leading zeros. */
  lemma ParsedIff(s: string, max: nat, n: nat)
    ensures ParseUnsigned(s, max) == Some(n) <==>
            n <= max && exists zeros: nat :: s == Zeros(zeros) + Decimal(n) || s == "+" + (Zeros(zeros) + Decimal(n))
  {
    hide Decimal, Value, Zeros;
    if ParseUnsigned(s, max) == Some(n) {
      var digits := if s != "" && s[0] == '+' then s[1..] else s;
      var zeros := NumeralIs(digits);
      assert s == digits || s == "+" + digits;
      assert s == Zeros(zeros) + Decimal(n) || s == "+" + (Zeros(zeros) + Decimal(n));
    }
    if n <= max && exists zeros: nat :: s == Zeros(zeros) + Decimal(n) || s == "+" + (Zeros(zeros) + Decimal(n)) {
      var zeros: nat :| s == Zeros(zeros) + Decimal(n) || s == "+" + (Zeros(zeros) + Decimal(n));
      ParsedNumeral(s, max, zeros, n);
    }
  }
}
