/** Calendar dates and the names of archived log files: how they are written,
    how the purge reads them back, and which one rotation picks. */
module ArchiveNames {
  import opened Text

  // ----- Dates -----

  const MIN_YEAR := -262143
  const MAX_YEAR := 262142
  const U32_MAX := 0xFFFF_FFFF

  datatype Date = Date(y: int, m: int, d: int)

  predicate Leap(y: int) { y % 4 == 0 && (y % 100 != 0 || y % 400 == 0) }

  function DaysInMonth(y: int, m: int): int {
    if m == 2 then (if Leap(y) then 29 else 28)
    else if m in {4, 6, 9, 11} then 30 else 31
  }

  predicate IsDate(t: Date) {
    MIN_YEAR <= t.y <= MAX_YEAR && 1 <= t.m <= 12 && 1 <= t.d <= DaysInMonth(t.y, t.m)
  }

  predicate Before(a: Date, b: Date) {
    a.y < b.y || (a.y == b.y && (a.m < b.m || (a.m == b.m && a.d < b.d)))
  }

  function PreviousDay(t: Date): Option<Date> {
    if t.d > 1 then Some(Date(t.y, t.m, t.d - 1))
    else if t.m > 1 then Some(Date(t.y, t.m - 1, DaysInMonth(t.y, t.m - 1)))
    else if t.y > MIN_YEAR then Some(Date(t.y - 1, 12, 31))
    else None
  }

  /** n days earlier, if the calendar goes back that far. */
  function MinusDays(t: Date, n: nat): Option<Date>
    decreases n
  {
    if n == 0 then Some(t)
    else match PreviousDay(t)
         case None => None
         case Some(p) => MinusDays(p, n - 1)
  }

  lemma PreviousIsNext(t: Date, a: Date)
    requires IsDate(t) && IsDate(a)
    ensures PreviousDay(t).Some? ==> IsDate(PreviousDay(t).value) && Before(PreviousDay(t).value, t)
    ensures Before(a, t) ==> PreviousDay(t).Some? && (a == PreviousDay(t).value || Before(a, PreviousDay(t).value))
  {
  }

  lemma {:induction false} MinusDaysIsDate(t: Date, n: nat)
    requires IsDate(t) && MinusDays(t, n).Some?
    ensures IsDate(MinusDays(t, n).value)
    ensures MinusDays(t, n).value == t || Before(MinusDays(t, n).value, t)
    decreases n
  {
    if n == 0 {
    } else {
      PreviousIsNext(t, t);
      MinusDaysIsDate(PreviousDay(t).value, n - 1);
    }
  }

  /** a is today or one of the days - 1 days before it. */
  predicate InLastDays(today: Date, a: Date, days: nat) {
    exists k: nat :: k < days && MinusDays(today, k) == Some(a)
  }

  lemma InLastDaysShift(today: Date, p: Date, a: Date, days: nat)
    requires days > 0 && PreviousDay(today) == Some(p)
    ensures InLastDays(today, a, days) <==> a == today || InLastDays(p, a, days - 1)
  {
    if InLastDays(p, a, days - 1) {
      var k: nat :| k < days - 1 && MinusDays(p, k) == Some(a);
      assert MinusDays(today, k + 1) == Some(a);
    }
    if InLastDays(today, a, days) && a != today {
      var k: nat :| k < days && MinusDays(today, k) == Some(a);
      var j: nat := k - 1;
      assert MinusDays(p, j) == Some(a);
    }
    if a == today { assert MinusDays(today, 0) == Some(a); }
  }

  /** Keeping what is not before today minus (days - 1) keeps exactly the last
      days days, today included, and anything dated in the future. */
  lemma {:induction false} WindowIsLastDays(today: Date, a: Date, days: nat)
    requires IsDate(today) && IsDate(a) && days > 0 && MinusDays(today, days - 1).Some?
    ensures !Before(a, MinusDays(today, days - 1).value) <==> Before(today, a) || InLastDays(today, a, days)
    decreases days
  {
    if days == 1 {
      assert MinusDays(today, 0) == Some(today);
    } else {
      PreviousIsNext(today, a);
      var p := PreviousDay(today).value;
      WindowIsLastDays(p, a, days - 1);
      MinusDaysIsDate(p, days - 2);
      InLastDaysShift(today, p, a, days);
    }
  }

  lemma {:induction false} WindowCoversAll(today: Date, a: Date, days: nat)
    requires IsDate(today) && IsDate(a) && days > 0 && MinusDays(today, days - 1).None? && !Before(today, a)
    ensures InLastDays(today, a, days)
    decreases days
  {
    PreviousIsNext(today, a);
    if a == today {
      assert MinusDays(today, 0) == Some(a);
    } else {
      var p := PreviousDay(today).value;
      WindowCoversAll(p, a, days - 1);
      InLastDaysShift(today, p, a, days);
    }
  }

  /** The twelve months, and the Gregorian leap years. */
  lemma MonthLengths(y: int)
    ensures forall m | m in {1, 3, 5, 7, 8, 10, 12} :: DaysInMonth(y, m) == 31
    ensures forall m | m in {4, 6, 9, 11} :: DaysInMonth(y, m) == 30
    ensures DaysInMonth(y, 2) == if Leap(y) then 29 else 28
    ensures Leap(y) <==> y % 400 == 0 || (y % 4 == 0 && y % 100 != 0)
    ensures IsDate(Date(y, 12, 31)) <==> -262143 <= y <= 262142
  {
    hide Leap;
    LeapIs(y);
  }

  lemma LeapIs(y: int)
    ensures Leap(y) <==> y % 400 == 0 || (y % 4 == 0 && y % 100 != 0)
  {
    if y % 400 == 0 { FourDivides(y / 400, y); }
  }

  lemma FourDivides(q: int, y: int)
    requires y == 400 * q
    ensures y % 4 == 0
  {
  }

  // ----- Writing a date -----

  function FormatYear(y: int): string {
    if 0 <= y <= 9999 then Padded(y, 4)
    else if y < 0 then "-" + Padded(-y, 4)
    else "+" + Padded(y, 4)
  }

  /** The pattern %Y-%m-%d. */
  function FormatDate(t: Date): string
    requires IsDate(t)
  {
    FormatYear(t.y) + "-" + Padded(t.m, 2) + "-" + Padded(t.d, 2)
  }

  // ----- Reading a date -----

  /** How many of the first max characters are leading digits. */
  function LeadingDigits(s: string, max: nat): (n: nat)
    ensures n <= max && n <= |s| && AllDigits(s[..n])
  {
    if max == 0 || s == "" || !IsDigit(s[0]) then 0
    else
      var n := 1 + LeadingDigits(s[1..], max - 1);
      assert s[..n] == [s[0]] + s[1..][..n - 1];
      n
  }

  /** One to max digits, greedily, and the rest. */
  function Number(s: string, max: nat): Option<(nat, string)> {
    var n := LeadingDigits(s, max);
    if n == 0 then None else Some((Value(s[..n]), s[n..]))
  }

  function ReadYear(s: string): Option<(int, string)> {
    var t := TrimStart(s);
    if t != "" && t[0] == '-' then
      match Number(t[1..], |t|)
      case None => None
      case Some((v, rest)) => Some((-(v as int), rest))
    else if t != "" && t[0] == '+' then
      match Number(t[1..], |t|)
      case None => None
      case Some((v, rest)) => Some((v, rest))
    else
      match Number(t, 4)
      case None => None
      case Some((v, rest)) => Some((v, rest))
  }

  function ReadDash(s: string): Option<string> {
    if s != "" && s[0] == '-' then Some(s[1..]) else None
  }

  function ReadTwo(s: string): Option<(nat, string)> { Number(TrimStart(s), 2) }

  /** The same pattern read back, as leniently as the date library reads it:
      white space before a number, one or two digits for month and day, a year of
      up to four digits or signed and of any length. */
  function ParseDate(s: string): (r: Option<Date>)
    ensures r.Some? ==> IsDate(r.value)
  {
    match ReadYear(s)
    case None => None
    case Some((y, s1)) =>
      match ReadDash(s1)
      case None => None
      case Some(s2) =>
        match ReadTwo(s2)
        case None => None
        case Some((m, s3)) =>
          match ReadDash(s3)
          case None => None
          case Some(s4) =>
            match ReadTwo(s4)
            case None => None
            case Some((d, s5)) =>
              if s5 == "" && IsDate(Date(y, m, d)) then Some(Date(y, m, d)) else None
  }

  lemma {:induction false} LeadingDigitsOf(digits: string, rest: string, max: nat)
    requires AllDigits(digits) && |digits| <= max
    requires |digits| == max || rest == "" || !IsDigit(rest[0])
    ensures LeadingDigits(digits + rest, max) == |digits|
  {
    if digits == "" {
      assert digits + rest == rest;
    } else {
      LeadingDigitsOf(digits[1..], rest, max - 1);
      assert (digits + rest)[1..] == digits[1..] + rest;
    }
  }

  lemma NumberOf(digits: string, rest: string, max: nat)
    requires AllDigits(digits) && 1 <= |digits| <= max
    requires |digits| == max || rest == "" || !IsDigit(rest[0])
    ensures Number(digits + rest, max) == Some((Value(digits), rest))
  {
    LeadingDigitsOf(digits, rest, max);
    assert (digits + rest)[..|digits|] == digits && (digits + rest)[|digits|..] == rest;
  }

  // ----- Exactly what is read as a date -----

  predicate Digits(digits: string, max: nat, v: int) {
    1 <= |digits| <= max && AllDigits(digits) && Value(digits) == v
  }

  /** Up to four digits, or a sign and any number of them. */
  predicate YearIs(sign: string, digits: string, y: int) {
    || (sign == "" && Digits(digits, 4, y))
    || (sign == "-" && Digits(digits, |digits|, -y))
    || (sign == "+" && Digits(digits, |digits|, y))
  }

  datatype Spelling = Spelling(w0: string, sign: string, year: string, w1: string, month: string, w2: string, day: string)

  /** A year, a month and a day with hyphens between, and white space before each. */
  predicate Spelled(s: string, p: Spelling, t: Date) {
    && s == p.w0 + p.sign + p.year + ("-" + (p.w1 + p.month + ("-" + (p.w2 + p.day + ""))))
    && Blank(p.w0) && Blank(p.w1) && Blank(p.w2)
    && YearIs(p.sign, p.year, t.y) && Digits(p.month, 2, t.m) && Digits(p.day, 2, t.d)
  }

  lemma {:induction false} TrimStartOf(w: string, t: string)
    requires Blank(w) && t != "" && !IsSpace(t[0])
    ensures TrimStart(w + t) == t
  {
    hide IsSpace;
    if w == "" {
      assert w + t == t;
    } else {
      TrimStartOf(w[1..], t);
      assert (w + t)[1..] == w[1..] + t;
    }
  }

  lemma ReadTwoOf(w: string, digits: string, rest: string, v: int)
    requires Blank(w) && Digits(digits, 2, v) && (rest == "" || !IsDigit(rest[0]))
    ensures ReadTwo(w + digits + rest) == Some((v, rest))
  {
    assert IsDigit(digits[0]) && !IsSpace(digits[0]);
    TrimStartOf(w, digits + rest);
    assert w + digits + rest == w + (digits + rest);
    hide Number, TrimStart, IsSpace;
    NumberOf(digits, rest, 2);
  }

  lemma ReadUnsignedOf(t: string, digits: string, rest: string, y: int)
    requires t == digits + rest && Digits(digits, 4, y) && rest != "" && !IsDigit(rest[0]) && TrimStart(t) == t
    ensures ReadYear(t) == Some((y, rest))
  {
    hide Number, TrimStart, Value;
    assert IsDigit(t[0]);
    NumberOf(digits, rest, 4);
  }

  lemma ReadSignedOf(t: string, sign: char, digits: string, rest: string, v: int)
    requires t == [sign] + (digits + rest) && Digits(digits, |digits|, v) && TrimStart(t) == t
    requires rest != "" && !IsDigit(rest[0]) && (sign == '-' || sign == '+')
    ensures ReadYear(t) == Some((if sign == '-' then -v else v, rest))
  {
    hide Number, TrimStart, Value;
    assert t[1..] == digits + rest;
    NumberOf(digits, rest, |t|);
  }

  lemma YearStarts(sign: string, digits: string, rest: string, y: int)
    requires YearIs(sign, digits, y)
    ensures var t := sign + (digits + rest); t != "" && !IsSpace(t[0])
  {
    hide Value;
    assert IsDigit(digits[0]);
    if sign == "" { assert sign + (digits + rest) == digits + rest; }
  }

  lemma ReadYearHere(sign: string, digits: string, rest: string, y: int)
    requires YearIs(sign, digits, y) && rest != "" && !IsDigit(rest[0])
    requires var t := sign + (digits + rest); TrimStart(t) == t
    ensures ReadYear(sign + (digits + rest)) == Some((y, rest))
  {
    hide TrimStart, Value, ReadYear;
    var t := sign + (digits + rest);
    if sign == "" {
      assert t == digits + rest;
      ReadUnsignedOf(t, digits, rest, y);
    } else {
      ReadSignedOf(t, sign[0], digits, rest, if sign == "-" then -y else y);
    }
  }

  lemma ReadYearOf(w: string, sign: string, digits: string, rest: string, y: int)
    requires Blank(w) && YearIs(sign, digits, y) && rest != "" && !IsDigit(rest[0])
    ensures ReadYear(w + sign + digits + rest) == Some((y, rest))
  {
    hide TrimStart, IsSpace, YearIs, ReadYear;
    var t := sign + (digits + rest);
    YearStarts(sign, digits, rest, y);
    TrimStartOf(w, t);
    assert Blank("") && "" + t == t;
    TrimStartOf("", t);
    ReadYearHere(sign, digits, rest, y);
    SameAfterBlank(w, t);
    Regrouped(w, sign, digits, rest);
  }

  lemma Regrouped(a: string, b: string, c: string, d: string)
    ensures a + b + c + d == a + (b + (c + d))
  {
  }

  lemma SameAfterBlank(w: string, t: string)
    requires TrimStart(w + t) == t == TrimStart(t)
    ensures ReadYear(w + t) == ReadYear(t)
  {
    hide TrimStart, Number;
  }

  lemma ReadTwoCuts(s: string) returns (w: string, digits: string)
    requires ReadTwo(s).Some?
    ensures Blank(w) && Digits(digits, 2, ReadTwo(s).value.0) && s == w + digits + ReadTwo(s).value.1
  {
    w := TrimStartCuts(s);
    var t := TrimStart(s);
    digits := t[..LeadingDigits(t, 2)];
  }

  lemma ReadYearCuts(s: string) returns (w: string, sign: string, digits: string)
    requires ReadYear(s).Some?
    ensures Blank(w) && YearIs(sign, digits, ReadYear(s).value.0) && s == w + sign + digits + ReadYear(s).value.1
  {
    w := TrimStartCuts(s);
    var t := TrimStart(s);
    hide TrimStart;
    if t != "" && (t[0] == '-' || t[0] == '+') {
      sign := [t[0]];
      digits := t[1..][..LeadingDigits(t[1..], |t|)];
    } else {
      sign := "";
      digits := t[..LeadingDigits(t, 4)];
    }
  }

  lemma SpelledIsRead(s: string, p: Spelling, t: Date)
    requires Spelled(s, p, t) && IsDate(t)
    ensures ParseDate(s) == Some(t)
  {
    var s4 := p.w2 + p.day + "";
    var s3 := "-" + s4;
    var s2 := p.w1 + p.month + s3;
    var s1 := "-" + s2;
    ReadYearOf(p.w0, p.sign, p.year, s1, t.y);
    ReadTwoOf(p.w1, p.month, s3, t.m);
    ReadTwoOf(p.w2, p.day, "", t.d);
    assert s1[1..] == s2 && s3[1..] == s4;
    hide ReadYear, ReadTwo, Spelled, IsDate;
  }

  lemma ReadIsSpelled(s: string) returns (p: Spelling)
    requires ParseDate(s).Some?
    ensures Spelled(s, p, ParseDate(s).value)
  {
    hide ReadYear, ReadTwo, YearIs, Digits, Blank, IsDate;
    var w0, sign, year := ReadYearCuts(s);
    var s1 := ReadYear(s).value.1;
    assert s1 == "-" + s1[1..];
    var w1, month := ReadTwoCuts(s1[1..]);
    var s3 := ReadTwo(s1[1..]).value.1;
    assert s3 == "-" + s3[1..];
    var w2, day := ReadTwoCuts(s3[1..]);
    p := Spelling(w0, sign, year, w1, month, w2, day);
  }

  /** A text is read as a date exactly if it spells one, with white space allowed
      before each number, one or two digits for month and day, and a year of up
      to four digits or signed. */
  lemma ReadIffSpelled(s: string, t: Date)
    ensures ParseDate(s) == Some(t) <==> IsDate(t) && exists p :: Spelled(s, p, t)
  {
    hide ParseDate, IsDate, Spelled;
    if ParseDate(s) == Some(t) {
      var p := ReadIsSpelled(s);
    }
    if IsDate(t) {
      forall p | Spelled(s, p, t) ensures ParseDate(s) == Some(t) { SpelledIsRead(s, p, t); }
    }
  }

  lemma PaddedDigits(n: nat, width: nat)
    ensures Digits(Padded(n, width), |Padded(n, width)|, n)
    ensures (width == 2 && n < 100) || (width == 4 && n < 10000) ==> |Padded(n, width)| == width
  {
    ValueOfPadded(n, width);
    DecimalLength(n);
    hide Value, Decimal;
  }

  lemma YearIsFormatted(y: int) returns (sign: string, digits: string)
    ensures YearIs(sign, digits, y) && sign + digits == FormatYear(y)
  {
    var size := if y < 0 then -y else y;
    sign := if y < 0 then "-" else if y > 9999 then "+" else "";
    digits := Padded(size, 4);
    PaddedDigits(size, 4);
    hide Padded, Value;
  }

  lemma ParseFormatted(t: Date)
    requires IsDate(t)
    ensures ParseDate(FormatDate(t)) == Some(t)
  {
    var sign, year := YearIsFormatted(t.y);
    PaddedDigits(t.m, 2);
    PaddedDigits(t.d, 2);
    var p := Spelling("", sign, year, "", Padded(t.m, 2), "", Padded(t.d, 2));
    hide Padded, Value, YearIs, FormatYear, FormatDate, ParseDate;
    FormatIsSpelled(t, p);
    SpelledIsRead(FormatDate(t), p, t);
  }

  lemma FormatIsSpelled(t: Date, p: Spelling)
    requires IsDate(t) && p.w0 == p.w1 == p.w2 == "" && p.sign + p.year == FormatYear(t.y)
    requires p.month == Padded(t.m, 2) && p.day == Padded(t.d, 2)
    ensures FormatDate(t) == p.w0 + p.sign + p.year + ("-" + (p.w1 + p.month + ("-" + (p.w2 + p.day + ""))))
  {
    hide FormatYear, Padded;
    assert "" + p.month == p.month && "" + p.day + "" == p.day && "" + p.sign == p.sign;
    Regrouped(FormatYear(t.y), "-", p.month, "-" + p.day);
    assert FormatDate(t) == FormatYear(t.y) + "-" + p.month + ("-" + p.day);
  }

  // ----- Names of archives -----

  /** server.log.2026-08-01, then server.log.2026-08-01.1 and so on. */
  function ArchiveName(filename: string, t: Date, index: Option<nat>): string
    requires IsDate(t)
  {
    filename + "." + FormatDate(t) + (if index.Some? then "." + Decimal(index.value) else "")
  }

  /** The date the purge takes from a name: what follows the base name and a
      dot, up to the next dot. */
  function DateOfName(filename: string, name: string): Option<Date> {
    if filename + "." <= name
    then ParseDate(Split(name[|filename| + 1..], '.')[0])
    else None
  }

  lemma NoDots(s: string)
    requires AllDigits(s)
    ensures '.' !in s
  {
  }

  lemma NoDotInDate(t: Date)
    requires IsDate(t)
    ensures '.' !in FormatDate(t)
  {
  }

  /** What follows the base name in an archive name splits into the date and the index. */
  lemma SplitArchiveName(filename: string, t: Date, index: Option<nat>)
    requires IsDate(t)
    ensures var rest := ArchiveName(filename, t, index)[|filename| + 1..];
      Split(rest, '.') == if index.Some? then [FormatDate(t), Decimal(index.value)] else [FormatDate(t)]
  {
    hide Split, FormatDate, Decimal, ArchiveName;
    NoDotInDate(t);
    AfterBaseName(filename, t, index);
    if index.Some? {
      NoDots(Decimal(index.value));
      SplitHead(FormatDate(t), Decimal(index.value), '.');
      SplitWhole(Decimal(index.value), '.');
    } else {
      SplitWhole(FormatDate(t), '.');
    }
  }

  lemma AfterBaseName(filename: string, t: Date, index: Option<nat>)
    requires IsDate(t)
    ensures |ArchiveName(filename, t, index)| > |filename|
    ensures var rest := ArchiveName(filename, t, index)[|filename| + 1..];
      rest == if index.Some? then FormatDate(t) + ['.'] + Decimal(index.value) else FormatDate(t)
  {
    hide FormatDate, Decimal;
  }

  /** Every name rotation can produce is read back by the purge as the same date. */
  lemma NameKeepsDate(filename: string, t: Date, index: Option<nat>)
    requires IsDate(t)
    ensures DateOfName(filename, ArchiveName(filename, t, index)) == Some(t)
  {
    var name := ArchiveName(filename, t, index);
    assert name == filename + "." + (FormatDate(t) + (if index.Some? then "." + Decimal(index.value) else ""));
    SplitArchiveName(filename, t, index);
    ParseFormatted(t);
  }

  /** Date and index can be told from the name. */
  lemma NamesDiffer(filename: string, t: Date, i: Option<nat>, u: Date, j: Option<nat>)
    requires IsDate(t) && IsDate(u) && ArchiveName(filename, t, i) == ArchiveName(filename, u, j)
    ensures t == u && i == j
  {
    NameKeepsDate(filename, t, i);
    NameKeepsDate(filename, u, j);
    SplitArchiveName(filename, t, i);
    SplitArchiveName(filename, u, j);
    if i.Some? && j.Some? { DecimalInjective(i.value, j.value); }
  }

  /** No index, or a positive one of 32 bits. */
  predicate IndexOk(i: Option<nat>) {
    i.None? || 1 <= i.value <= U32_MAX
  }

  /** The names rotation itself can give. */
  ghost predicate OwnName(filename: string, name: string) {
    exists t: Date, i: Option<nat> :: IsDate(t) && IndexOk(i) && name == ArchiveName(filename, t, i)
  }

  // ----- Picking the next archive name -----

  predicate FreeIndex(names: set<string>, filename: string, t: Date, i: nat)
    requires IsDate(t)
  {
    1 <= i <= U32_MAX && ArchiveName(filename, t, Some(i)) !in names
  }

  function SaturatingInc(i: nat): nat { if i < U32_MAX then i + 1 else i }

  /** The index after k turns of the loop. */
  function IndexAfter(k: nat): nat {
    if k == 0 then 1 else SaturatingInc(IndexAfter(k - 1))
  }

  lemma {:induction false} IndexAfterIs(k: nat)
    ensures IndexAfter(k) == if k < U32_MAX then k + 1 else U32_MAX
  {
    if k == 0 {
    } else {
      IndexAfterIs(k - 1);
    }
  }

  /** The loop over the indexes ends exactly when some 32-bit index is free. */
  lemma SearchEndsIff(names: set<string>, filename: string, t: Date)
    requires IsDate(t)
    ensures (exists k: nat :: ArchiveName(filename, t, Some(IndexAfter(k))) !in names) <==>
            (exists i: nat :: FreeIndex(names, filename, t, i))
  {
    hide ArchiveName, IndexAfter;
    if k: nat :| ArchiveName(filename, t, Some(IndexAfter(k))) !in names {
      IndexAfterIs(k);
      assert FreeIndex(names, filename, t, IndexAfter(k));
    }
    if i: nat :| FreeIndex(names, filename, t, i) {
      IndexAfterIs(i - 1);
      assert ArchiveName(filename, t, Some(IndexAfter(i - 1))) !in names;
    }
  }

  function Indexed(filename: string, t: Date, n: nat): (s: set<string>)
    requires IsDate(t)
  {
    if n == 0 then {} else Indexed(filename, t, n - 1) + {ArchiveName(filename, t, Some(n))}
  }

  lemma {:induction false} IndexedHas(filename: string, t: Date, n: nat, name: string)
    requires IsDate(t)
    ensures name in Indexed(filename, t, n) <==> exists i: nat :: 1 <= i <= n && name == ArchiveName(filename, t, Some(i))
  {
    hide ArchiveName;
    if n == 0 {
    } else {
      IndexedHas(filename, t, n - 1, name);
    }
  }

  lemma {:induction false} IndexedSize(filename: string, t: Date, n: nat)
    requires IsDate(t)
    ensures |Indexed(filename, t, n)| == n
  {
    hide ArchiveName;
    if n == 0 {
    } else {
      IndexedSize(filename, t, n - 1);
      var last := ArchiveName(filename, t, Some(n));
      assert last !in Indexed(filename, t, n - 1) by {
        IndexedHas(filename, t, n - 1, last);
        if i: nat :| 1 <= i <= n - 1 && last == ArchiveName(filename, t, Some(i)) {
          NamesDiffer(filename, t, Some(n), t, Some(i));
        }
      }
    }
  }

  lemma SubsetSize<T>(a: set<T>, b: set<T>)
    requires a <= b
    ensures |a| <= |b|
  {
    assert b == a + (b - a);
  }

  /** Some index is free exactly when fewer than 2^32 - 1 of the indexed names of
      that date are taken. */
  lemma FreeIndexIff(names: set<string>, filename: string, t: Date)
    requires IsDate(t)
    ensures (exists i: nat :: FreeIndex(names, filename, t, i)) <==> |names * Indexed(filename, t, U32_MAX)| < U32_MAX
  {
    hide ArchiveName, Indexed;
    var all := Indexed(filename, t, U32_MAX);
    IndexedSize(filename, t, U32_MAX);
    if i: nat :| FreeIndex(names, filename, t, i) {
      var name := ArchiveName(filename, t, Some(i));
      IndexedHas(filename, t, U32_MAX, name);
      SubsetSize(names * all, all - {name});
    } else {
      forall name | name in all
        ensures name in names
      {
        IndexedHas(filename, t, U32_MAX, name);
        var i: nat :| 1 <= i <= U32_MAX && name == ArchiveName(filename, t, Some(i));
        assert !FreeIndex(names, filename, t, i);
      }
      assert names * all == all;
    }
  }

  /** The search for a name ends. */
  predicate NameFree(names: set<string>, filename: string, t: Date)
    requires IsDate(t)
  {
    ArchiveName(filename, t, None) !in names || exists i: nat | 1 <= i <= U32_MAX :: FreeIndex(names, filename, t, i)
  }

  /** The first free name: the plain one, else the lowest free index. */
  method NextArchiveName(names: set<string>, filename: string, t: Date) returns (name: string, ghost index: Option<nat>)
    requires IsDate(t) && NameFree(names, filename, t)
    ensures name !in names && IndexOk(index) && name == ArchiveName(filename, t, index)
    ensures index.Some? ==>
      && ArchiveName(filename, t, None) in names && 1 <= index.value <= U32_MAX
      && forall i | 1 <= i < index.value :: ArchiveName(filename, t, Some(i)) in names
  {
    hide ArchiveName;
    name, index := ArchiveName(filename, t, None), None;
    if name !in names { return; }
    ghost var bound: nat :| 1 <= bound <= U32_MAX && FreeIndex(names, filename, t, bound);
    var idx: nat := 1;
    ghost var turns := 0;
    while ArchiveName(filename, t, Some(idx)) in names
      invariant 1 <= idx <= bound && idx == IndexAfter(turns)
      invariant forall i | 1 <= i < idx :: ArchiveName(filename, t, Some(i)) in names
      decreases bound - idx
    {
      idx, turns := SaturatingInc(idx), turns + 1;
    }
    return ArchiveName(filename, t, Some(idx)), Some(idx);
  }
}
