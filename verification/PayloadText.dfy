/** From message payload bytes to what is stored: the typed envelope when it
    decodes, a legacy JSON envelope, or plain text kept byte for byte. */
module PayloadText {
  import opened Text
  import opened JsonValue
  import opened Utf8

  datatype MessageSource = MessageSource(kind: string, id: string)

  datatype FriendRequestSource =
    | Search(session: nat)
    | Group(group: nat)
    | CardShare(share: nat)
    | Qrcode(qrcode: string)
    | Phone(phone: string)

  datatype Envelope = Envelope(
    content: string,
    metadata: Option<string>,
    replyTo: Option<nat>,
    mentioned: seq<nat>,
    source: Option<MessageSource>)

  datatype LegacyEnvelope = LegacyEnvelope(
    content: string,
    metadata: Option<string>,
    replyTo: Option<string>,
    mentioned: Option<seq<nat>>,
    source: Option<MessageSource>)

  datatype Parsed = Parsed(
    content: string,
    metadata: Option<string>,
    replyTo: Option<string>,
    mentioned: seq<nat>,
    source: Option<FriendRequestSource>)

  datatype Refusal = NeitherEnvelopeNorText

  /** The decoders of other libraries; any functions will do. */
  datatype Decoders = Decoders(
    envelope: seq<Byte> -> Option<Envelope>,
    json: string -> Option<Json>,
    legacy: Json -> Option<LegacyEnvelope>)

  // ----- The guard -----

  predicate ControlByte(b: Byte) {
    b < 0x20 && b != 9 && b != 10 && b != 13
  }

  predicate LooksBinary(payload: seq<Byte>) {
    Decode(payload).None? || exists b | b in payload :: ControlByte(b)
  }

  predicate ControlChar(c: char) {
    c < ' ' && c != '\t' && c != '\n' && c != '\r'
  }

  lemma ControlOfChar(c: char)
    ensures (exists b | b in EncodeChar(c) :: ControlByte(b)) <==> ControlChar(c)
  {
    hide High, Low;
    var e := EncodeChar(c);
    if |e| == 1 {
      assert e == [c as int];
      assert c as int in e;
    }
  }

  lemma {:induction false} ControlOfText(s: string)
    ensures (exists b | b in Encode(s) :: ControlByte(b)) <==> exists c | c in s :: ControlChar(c)
  {
    hide EncodeChar, ControlByte, ControlChar;
    if s == "" {
    } else {
      ControlOfChar(s[0]);
      ControlOfText(s[1..]);
      var head, tail := EncodeChar(s[0]), Encode(s[1..]);
      assert forall b :: b in Encode(s) <==> b in head || b in tail;
      assert s == [s[0]] + s[1..];
      assert forall c :: c in s <==> c == s[0] || c in s[1..];
    }
  }

  /** The guard scans bytes; on well-formed text that is a scan of characters. */
  lemma TextIffNoControl(payload: seq<Byte>)
    ensures !LooksBinary(payload) <==>
            Decode(payload).Some? && forall c | c in Decode(payload).value :: !ControlChar(c)
  {
    hide ControlByte, ControlChar;
    if Decode(payload).Some? {
      EncodeDecode(payload);
      ControlOfText(Decode(payload).value);
    }
  }

  // ----- Stripping NUL -----

  function StripNul(s: string): (r: string)
    ensures '\0' !in r
    ensures r == s <==> '\0' !in s
  {
    if s == "" then ""
    else
      assert s == [s[0]] + s[1..];
      if s[0] == '\0' then StripNul(s[1..]) else [s[0]] + StripNul(s[1..])
  }

  function Concat(parts: seq<string>): string {
    if parts == [] then "" else parts[0] + Concat(parts[1..])
  }

  /** What is left are the stretches between the NULs, in order. */
  lemma {:induction false} StrippedIsPieces(s: string)
    ensures StripNul(s) == Concat(Split(s, '\0'))
  {
    if s == "" {
      assert [""][1..] == [];
    } else {
      StrippedIsPieces(s[1..]);
      var rest := Split(s[1..], '\0');
      if s[0] == '\0' {
        assert ([""] + rest)[1..] == rest;
      } else {
        var parts := [[s[0]] + rest[0]] + rest[1..];
        assert parts[1..] == rest[1..];
        assert [s[0]] + (rest[0] + Concat(rest[1..])) == ([s[0]] + rest[0]) + Concat(rest[1..]);
      }
    }
  }

  // ----- Parsing -----

  function SourceOf(src: MessageSource): Option<FriendRequestSource> {
    var id := ParseUnsigned(src.id, U64_MAX);
    if src.kind == "search" then (if id.Some? then Some(Search(id.value)) else None)
    else if src.kind == "group" then (if id.Some? then Some(Group(id.value)) else None)
    else if src.kind == "card_share" then (if id.Some? then Some(CardShare(id.value)) else None)
    else if src.kind == "qrcode" then Some(Qrcode(src.id))
    else if src.kind == "phone" then Some(Phone(src.id))
    else None
  }

  function SourceIn(src: Option<MessageSource>): Option<FriendRequestSource> {
    if src.Some? then SourceOf(src.value) else None
  }

  predicate LegacyShape(v: Json) {
    && v.Obj?
    && (var content := Member(v.fields, "content"); content.Some? && content.value.Str?)
    && exists k | k in ["metadata", "reply_to_message_id", "mentioned_user_ids", "message_source"] ::
         Member(v.fields, k).Some?
  }

  function ParseLegacy(d: Decoders, text: string): Option<Parsed> {
    match d.json(Trim(text))
    case None => None
    case Some(v) =>
      if !LegacyShape(v) then None
      else
        match d.legacy(v)
        case None => None
        case Some(e) =>
          Some(Parsed(StripNul(e.content), e.metadata, e.replyTo,
                      if e.mentioned.Some? then e.mentioned.value else [], SourceIn(e.source)))
  }

  function Plain(text: string): Parsed {
    Parsed(text, None, None, [], None)
  }

  function ParsePayload(d: Decoders, payload: seq<Byte>): Result<Parsed, Refusal> {
    match d.envelope(payload)
    case Some(e) =>
      Ok(Parsed(StripNul(e.content), e.metadata,
                if e.replyTo.Some? then Some(Decimal(e.replyTo.value)) else None, e.mentioned, SourceIn(e.source)))
    case None =>
      if LooksBinary(payload) then Err(NeitherEnvelopeNorText)
      else
        var text := StripNul(Lossy(payload));
        match ParseLegacy(d, text)
        case Some(parsed) => Ok(parsed)
        case None => Ok(Plain(text))
  }

  // ----- What is accepted, and what is then stored -----

  /** Refused: exactly what is neither an envelope nor text. */
  lemma AcceptedIff(d: Decoders, payload: seq<Byte>)
    ensures ParsePayload(d, payload).Ok? <==>
            || d.envelope(payload).Some?
            || (Decode(payload).Some? && forall c | c in Decode(payload).value :: c as int >= 32 || c in "\t\n\r")
  {
    TextIffNoControl(payload);
    forall c: char ensures ControlChar(c) <==> !(c as int >= 32 || c in "\t\n\r") { ControlCharIs(c); }
    hide ControlChar;
  }

  lemma ControlCharIs(c: char)
    ensures ControlChar(c) <==> c as int < 32 && c !in "\t\n\r"
  {
    assert "\t\n\r"[0] == '\t' && "\t\n\r"[1] == '\n' && "\t\n\r"[2] == '\r';
  }

  lemma TextSurvives(payload: seq<Byte>)
    requires !LooksBinary(payload)
    ensures Encode(StripNul(Lossy(payload))) == payload
    ensures Decode(payload) == Some(StripNul(Lossy(payload)))
  {
    hide ControlByte;
    TextIffNoControl(payload);
    LossyExactIff(payload);
    var s := Decode(payload).value;
    assert ControlChar('\0');
  }

  /** A payload taken as plain text is stored byte for byte. */
  lemma PlainTextIsExact(d: Decoders, payload: seq<Byte>)
    requires d.envelope(payload).None? && !LooksBinary(payload)
    requires ParseLegacy(d, Decode(payload).value).None?
    ensures ParsePayload(d, payload).Ok?
    ensures var p := ParsePayload(d, payload).value; p == Plain(p.content) && Encode(p.content) == payload
  {
    hide ParseLegacy, Encode, Lossy;
    TextSurvives(payload);
  }

  /** Every text free of control characters comes back unchanged, unless an
      envelope claims it. */
  lemma TextRoundTrip(d: Decoders, s: string)
    requires d.envelope(Encode(s)).None? && ParseLegacy(d, s).None?
    requires forall c | c in s :: !ControlChar(c)
    ensures ParsePayload(d, Encode(s)) == Ok(Plain(s))
  {
    hide ControlChar, ParseLegacy, LooksBinary;
    DecodeEncode(s);
    TextIffNoControl(Encode(s));
    TextSurvives(Encode(s));
  }

  /** The five kinds of message source; a numeric id that is none drops the source. */
  lemma SourceKinds(kind: string, id: string)
    ensures var r, n := SourceOf(MessageSource(kind, id)), ParseUnsigned(id, 0xFFFF_FFFF_FFFF_FFFF);
      && (kind == "search" ==> r == if n.Some? then Some(Search(n.value)) else None)
      && (kind == "group" ==> r == if n.Some? then Some(Group(n.value)) else None)
      && (kind == "card_share" ==> r == if n.Some? then Some(CardShare(n.value)) else None)
      && (kind == "qrcode" ==> r == Some(Qrcode(id)))
      && (kind == "phone" ==> r == Some(Phone(id)))
      && (kind !in {"search", "group", "card_share", "qrcode", "phone"} ==> r == None)
  {
  }

  /** Of a decoded envelope everything is kept: the content but for its NULs, the
      metadata, the reply id as decimal text, the mentions and the source. */
  lemma EnvelopeIsKept(d: Decoders, payload: seq<Byte>)
    requires d.envelope(payload).Some?
    ensures ParsePayload(d, payload).Ok?
    ensures var e, p := d.envelope(payload).value, ParsePayload(d, payload).value;
      && p.content == Concat(Split(e.content, '\0'))
      && p.metadata == e.metadata && p.mentioned == e.mentioned
      && (e.replyTo == None ==> p.replyTo == None)
      && (forall n, max | e.replyTo == Some(n) && n <= max :: p.replyTo.Some? && ParseUnsigned(p.replyTo.value, max) == Some(n))
      && (p.source == if e.source.Some? then SourceOf(e.source.value) else None)
  {
    var e := d.envelope(payload).value;
    StrippedIsPieces(e.content);
    if e.replyTo.Some? {
      forall max | e.replyTo.value <= max
        ensures ParseUnsigned(Decimal(e.replyTo.value), max) == Some(e.replyTo.value)
      {
        ParseDecimal(e.replyTo.value, max);
      }
    }
  }

  /** What a JSON object has to be for a legacy envelope: a text content and at
      least one of the four other members. */
  predicate HasText(v: Json, key: string) {
    v.Obj? && Member(v.fields, key).Some? && Member(v.fields, key).value.Str?
  }

  predicate Has(v: Json, key: string) {
    v.Obj? && exists f :: f in v.fields && f.key == key
  }

  lemma LegacyShapeIff(v: Json)
    ensures LegacyShape(v) <==>
            && HasText(v, "content")
            && exists k :: k in {"metadata", "reply_to_message_id", "mentioned_user_ids", "message_source"} && Has(v, k)
  {
    if v.Obj? {
      var keys := ["metadata", "reply_to_message_id", "mentioned_user_ids", "message_source"];
      assert keys[0] in keys && keys[1] in keys && keys[2] in keys && keys[3] in keys;
      assert forall k | k in keys :: Member(v.fields, k).Some? <==> Has(v, k);
    }
  }

  /** Text that is a legacy envelope is taken apart; text that is not stays text. */
  lemma LegacyIsKept(d: Decoders, payload: seq<Byte>)
    requires d.envelope(payload) == None && !LooksBinary(payload)
    ensures Decode(payload).Some? && ParsePayload(d, payload).Ok?
    ensures var text, p := Decode(payload).value, ParsePayload(d, payload).value;
      var v := d.json(Trim(text));
      if v.Some? && LegacyShape(v.value) && d.legacy(v.value).Some? then
        var e := d.legacy(v.value).value;
        && p.content == Concat(Split(e.content, '\0'))
        && p.metadata == e.metadata && p.replyTo == e.replyTo
        && p.mentioned == (if e.mentioned.Some? then e.mentioned.value else [])
        && p.source == (if e.source.Some? then SourceOf(e.source.value) else None)
      else p == Plain(text)
  {
    hide LegacyShape, LooksBinary, Lossy, Decode, Trim, SourceOf;
    TextSurvives(payload);
    var v := d.json(Trim(Decode(payload).value));
    if v.Some? && d.legacy(v.value).Some? { StrippedIsPieces(d.legacy(v.value).value.content); }
  }

  /** No path stores a NUL, which the text column cannot hold. */
  lemma StoredTextHasNoNul(d: Decoders, payload: seq<Byte>)
    requires ParsePayload(d, payload).Ok?
    ensures '\0' !in ParsePayload(d, payload).value.content
  {
  }
}
