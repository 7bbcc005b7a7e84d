/** The formats a channel transfer must have: its request id and its route. */
module TransferValidation {
  import opened Text

  const MAX_REQUEST_ID: nat := 64
  const MAX_ROUTE: nat := 256
  const SLASH: Byte := 0x2F
  const HYPHEN: Byte := 0x2D

  datatype Fault =
    | RequestIdEmpty
    | RequestIdTooLong(len: nat)
    | RequestIdBadChar
    | RequestIdLowEntropy
    | RouteEmpty
    | RouteTooLong(len: nat)
    | RouteLeadingSlash
    | RouteShape
    | RouteEmptySegment
    | RouteSegmentBadChar

  predicate Alnum(b: Byte) {
    0x41 <= b <= 0x5A || 0x61 <= b <= 0x7A || 0x30 <= b <= 0x39
  }

  predicate UrlSafe(b: Byte) {
    Alnum(b) || b == HYPHEN || b == 0x5F
  }

  predicate HexDigit(b: Byte) {
    0x41 <= b <= 0x46 || 0x61 <= b <= 0x66 || 0x30 <= b <= 0x39
  }

  function AlnumCount(s: seq<Byte>): nat {
    if s == [] then 0 else (if Alnum(s[0]) then 1 else 0) + AlnumCount(s[1..])
  }

  // ----- Request id -----

  predicate HyphenAt(i: int) {
    i == 8 || i == 13 || i == 18 || i == 23
  }

  predicate UuidV4Shape(s: seq<Byte>) {
    && (forall i | 0 <= i < |s| :: if HyphenAt(i) then s[i] == HYPHEN else HexDigit(s[i]))
    && |s| > 14 && s[14] == 0x34
  }

  function ValidateRequestId(id: seq<Byte>): Result<(), Fault> {
    if id == [] then Err(RequestIdEmpty)
    else if |id| > MAX_REQUEST_ID then Err(RequestIdTooLong(|id|))
    else if exists b | b in id :: !UrlSafe(b) then Err(RequestIdBadChar)
    else if |id| == 36 && UuidV4Shape(id) then Ok(())
    else if AlnumCount(id) < 16 then Err(RequestIdLowEntropy)
    else Ok(())
  }

  lemma {:induction false} AlnumCountSplit(a: seq<Byte>, b: seq<Byte>)
    ensures AlnumCount(a + b) == AlnumCount(a) + AlnumCount(b)
  {
    if a == [] {
      assert a + b == b;
    } else {
      AlnumCountSplit(a[1..], b);
      assert (a + b)[1..] == a[1..] + b;
    }
  }

  lemma {:induction false} AlnumCountAll(s: seq<Byte>)
    requires forall i | 0 <= i < |s| :: Alnum(s[i])
    ensures AlnumCount(s) == |s|
  {
    if s == [] {
    } else {
      AlnumCountAll(s[1..]);
    }
  }

  /** The last group alone has twelve hex digits, the first another eight. */
  lemma UuidHasEntropy(s: seq<Byte>)
    requires |s| == 36 && UuidV4Shape(s)
    ensures AlnumCount(s) >= 16
  {
    var head, mid, tail := s[..8], s[8..24], s[24..];
    assert s == head + (mid + tail);
    AlnumCountSplit(head, mid + tail);
    AlnumCountSplit(mid, tail);
    AlnumCountAll(head);
    AlnumCountAll(tail);
  }

  /** The UUID branch never changes the answer. */
  lemma RequestIdAcceptedIff(id: seq<Byte>)
    ensures ValidateRequestId(id).Ok? <==>
            1 <= |id| <= 64 && (forall b | b in id :: UrlSafe(b)) && AlnumCount(id) >= 16
  {
    hide UuidV4Shape, AlnumCount, UrlSafe;
    if |id| == 36 && UuidV4Shape(id) {
      UuidHasEntropy(id);
    }
  }

  /** The character classes, and the letters and digits as a number of positions. */
  lemma CharacterClasses(b: Byte)
    ensures var c := b as char;
      && (UrlSafe(b) <==> 'A' <= c <= 'Z' || 'a' <= c <= 'z' || '0' <= c <= '9' || c == '-' || c == '_')
      && (Alnum(b) <==> 'A' <= c <= 'Z' || 'a' <= c <= 'z' || '0' <= c <= '9')
      && (HexDigit(b) <==> '0' <= c <= '9' || 'a' <= c <= 'f' || 'A' <= c <= 'F')
      && (KebabChar(b) <==> 'a' <= c <= 'z' || '0' <= c <= '9' || c == '-')
    ensures SLASH as char == '/' && HYPHEN as char == '-'
  {
  }

  lemma {:induction false} AlnumCountIs(s: seq<Byte>)
    ensures AlnumCount(s) == |set i | 0 <= i < |s| && Alnum(s[i])|
  {
    hide Alnum;
    if s != [] {
      var init, n := s[..|s| - 1], |s| - 1;
      AlnumCountIs(init);
      assert s == init + [s[n]];
      AlnumCountSplit(init, [s[n]]);
      var all, most := set i | 0 <= i < |s| && Alnum(s[i]), set i | 0 <= i < |init| && Alnum(init[i]);
      assert all == if Alnum(s[n]) then most + {n} else most;
    }
  }

  predicate Hex(s: seq<Byte>, from: nat, to: nat)
    requires from <= to <= |s|
  {
    forall i | from <= i < to :: HexDigit(s[i])
  }

  /** Hex groups of 8, 4, 4, 4 and 12 digits between hyphens, the third one
      beginning with 4. */
  lemma UuidV4ShapeIs(s: seq<Byte>)
    requires |s| == 36
    ensures UuidV4Shape(s) <==>
            && Hex(s, 0, 8) && Hex(s, 9, 13) && Hex(s, 14, 18) && Hex(s, 19, 23) && Hex(s, 24, 36)
            && s[8] == s[13] == s[18] == s[23] == 0x2D && s[14] == 0x34
  {
    hide HexDigit;
  }

  /** The reason given for a refused request id is the first that applies. */
  lemma RequestIdFaults(id: seq<Byte>)
    ensures var r := ValidateRequestId(id);
      && (r == Err(RequestIdEmpty) <==> id == [])
      && (r == Err(RequestIdTooLong(|id|)) <==> |id| > 64)
      && (r == Err(RequestIdBadChar) <==> 1 <= |id| <= 64 && exists b | b in id :: !UrlSafe(b))
      && (r == Err(RequestIdLowEntropy) <==> 1 <= |id| <= 64 && (forall b | b in id :: UrlSafe(b)) && AlnumCount(id) < 16)
  {
    hide UuidV4Shape, AlnumCount, UrlSafe;
    if |id| == 36 && UuidV4Shape(id) {
      UuidHasEntropy(id);
    }
  }

  // ----- Route -----

  predicate KebabChar(b: Byte) {
    0x61 <= b <= 0x7A || 0x30 <= b <= 0x39 || b == HYPHEN
  }

  predicate IsKebabLower(seg: seq<Byte>) {
    if seg != [] && (seg[0] == HYPHEN || seg[|seg| - 1] == HYPHEN) then false
    else forall b | b in seg :: KebabChar(b)
  }

  /** What the first faulty segment is refused for. */
  function SegmentFault(segments: seq<seq<Byte>>): Option<Fault> {
    if segments == [] then None
    else if segments[0] == [] then Some(RouteEmptySegment)
    else if !IsKebabLower(segments[0]) then Some(RouteSegmentBadChar)
    else SegmentFault(segments[1..])
  }

  function ValidateRoute(route: seq<Byte>): Result<(), Fault> {
    if route == [] then Err(RouteEmpty)
    else if |route| > MAX_ROUTE then Err(RouteTooLong(|route|))
    else if route[0] == SLASH then Err(RouteLeadingSlash)
    else
      var segments := Split(route, SLASH);
      if |segments| != 3 then Err(RouteShape)
      else
        match SegmentFault(segments)
        case Some(f) => Err(f)
        case None => Ok(())
  }

  predicate Segment(s: seq<Byte>) {
    s != [] && (forall b | b in s :: KebabChar(b)) && s[0] != HYPHEN && s[|s| - 1] != HYPHEN
  }

  function Route(a: seq<Byte>, b: seq<Byte>, c: seq<Byte>): seq<Byte> {
    a + [SLASH] + (b + [SLASH] + c)
  }

  ghost predicate IsRoute(route: seq<Byte>) {
    |route| <= 256 && exists a, b, c :: route == Route(a, b, c) && Segment(a) && Segment(b) && Segment(c)
  }

  lemma {:induction false} NoFaultIff(segments: seq<seq<Byte>>)
    ensures SegmentFault(segments).None? <==> forall s | s in segments :: Segment(s)
  {
    hide KebabChar;
    if segments == [] {
    } else {
      NoFaultIff(segments[1..]);
      assert Segment(segments[0]) <==> segments[0] != [] && IsKebabLower(segments[0]);
      assert segments == [segments[0]] + segments[1..];
      assert forall s :: s in segments <==> s == segments[0] || s in segments[1..];
    }
  }

  /** The segment refused: all before it are well-formed. */
  ghost predicate FirstBad(segments: seq<seq<Byte>>, k: nat) {
    k < |segments| && !Segment(segments[k]) && forall j | 0 <= j < k :: Segment(segments[j])
  }

  lemma {:induction false} SegmentFaultIs(segments: seq<seq<Byte>>, k: nat)
    requires FirstBad(segments, k)
    ensures SegmentFault(segments) == Some(if segments[k] == [] then RouteEmptySegment else RouteSegmentBadChar)
    decreases k
  {
    hide KebabChar;
    assert Segment(segments[0]) <==> segments[0] != [] && IsKebabLower(segments[0]);
    if k > 0 { SegmentFaultIs(segments[1..], k - 1); }
  }

  /** The reason given for a refused route is the first that applies. */
  lemma RouteFaults(route: seq<Byte>)
    ensures var r, parts := ValidateRoute(route), Split(route, 0x2F);
      && (r == Err(RouteEmpty) <==> route == [])
      && (r == Err(RouteTooLong(|route|)) <==> |route| > 256)
      && (r == Err(RouteLeadingSlash) <==> 1 <= |route| <= 256 && route[0] == 0x2F)
      && (r == Err(RouteShape) <==> 1 <= |route| <= 256 && route[0] != 0x2F && |parts| != 3)
      && (1 <= |route| <= 256 && route[0] != 0x2F && |parts| == 3 ==>
          forall k: nat | FirstBad(parts, k) :: r == Err(if parts[k] == [] then RouteEmptySegment else RouteSegmentBadChar))
  {
    hide SegmentFault, FirstBad, Split;
    var parts := Split(route, 0x2F);
    forall k: nat | FirstBad(parts, k)
      ensures k < |parts| && SegmentFault(parts) == Some(if parts[k] == [] then RouteEmptySegment else RouteSegmentBadChar)
    {
      BadInside(parts, k);
      SegmentFaultIs(parts, k);
    }
    FaultKinds(parts);
  }

  lemma BadInside(segments: seq<seq<Byte>>, k: nat)
    requires FirstBad(segments, k)
    ensures k < |segments|
  {
  }

  lemma {:induction false} FaultKinds(segments: seq<seq<Byte>>)
    ensures SegmentFault(segments) in {None, Some(RouteEmptySegment), Some(RouteSegmentBadChar)}
  {
    hide IsKebabLower;
    if segments != [] { FaultKinds(segments[1..]); }
  }

  lemma JoinThree(parts: seq<seq<Byte>>)
    requires |parts| == 3
    ensures Join(parts, SLASH) == Route(parts[0], parts[1], parts[2])
  {
    assert parts[1..][1..] == parts[2..] == [parts[2]];
    assert Join(parts[1..], SLASH) == parts[1] + [SLASH] + parts[2];
  }

  /** Accepted: exactly service/module/action of three well-formed segments. */
  lemma RouteAcceptedIff(route: seq<Byte>)
    ensures ValidateRoute(route).Ok? <==> IsRoute(route)
  {
    hide IsKebabLower, Segment, SegmentFault, Split, Join;
    if ValidateRoute(route).Ok? {
      var parts := Split(route, SLASH);
      NoFaultIff(parts);
      JoinSplit(route, SLASH);
      JoinThree(parts);
      assert Segment(parts[0]) && Segment(parts[1]) && Segment(parts[2]);
    }
    if IsRoute(route) {
      var a, b, c :| route == Route(a, b, c) && Segment(a) && Segment(b) && Segment(c);
      RouteAccepted(a, b, c);
    }
  }

  lemma RouteAccepted(a: seq<Byte>, b: seq<Byte>, c: seq<Byte>)
    requires Segment(a) && Segment(b) && Segment(c)
    requires |Route(a, b, c)| <= 256
    ensures ValidateRoute(Route(a, b, c)).Ok?
  {
    hide IsKebabLower, SegmentFault, Split, Join;
    assert SLASH !in a && SLASH !in b && SLASH !in c;
    assert a[0] != SLASH;
    var parts := [a, b, c];
    JoinThree(parts);
    SplitJoin(parts, SLASH);
    NoFaultIff(parts);
  }
}
