/** What of an inbound payload may reach the log: field-wise redaction of JSON,
    nothing of anything else, and truncation. */
module LogRedaction {
  import opened Text
  import opened JsonValue
  import Utf8

  type Secret = string -> bool

  const STARS := Str("***")

  // ----- Redaction -----

  function Redact(v: Json, secret: Secret): Json
    decreases v, 0
  {
    match v
    case Arr(items) => Arr(RedactItems(items, secret))
    case Obj(fields) => Obj(RedactFields(fields, secret))
    case _ => v
  }

  function RedactItems(items: seq<Json>, secret: Secret): (r: seq<Json>)
    ensures |r| == |items|
    decreases items, 1
  {
    if items == [] then [] else [Redact(items[0], secret)] + RedactItems(items[1..], secret)
  }

  function RedactFields(fields: seq<Field>, secret: Secret): (r: seq<Field>)
    ensures |r| == |fields|
    decreases fields, 1
  {
    if fields == [] then []
    else
      var f := fields[0];
      [Field(f.key, if secret(f.key) then STARS else Redact(f.value, secret))] + RedactFields(fields[1..], secret)
  }

  // ----- Equal but for what lies beneath secret keys -----

  predicate Alike(a: Json, b: Json, secret: Secret)
    decreases a, 0
  {
    match a
    case Arr(items) => b.Arr? && ItemsAlike(items, b.items, secret)
    case Obj(fields) => b.Obj? && FieldsAlike(fields, b.fields, secret)
    case _ => a == b
  }

  predicate ItemsAlike(a: seq<Json>, b: seq<Json>, secret: Secret)
    decreases a, 1
  {
    |a| == |b| && (a == [] || (Alike(a[0], b[0], secret) && ItemsAlike(a[1..], b[1..], secret)))
  }

  predicate FieldsAlike(a: seq<Field>, b: seq<Field>, secret: Secret)
    decreases a, 1
  {
    |a| == |b| &&
    (a == [] || (a[0].key == b[0].key && (secret(a[0].key) || Alike(a[0].value, b[0].value, secret))
                 && FieldsAlike(a[1..], b[1..], secret)))
  }

  /** Redaction hides exactly what lies beneath secret keys, at any depth: two
      values become equal if and only if they agree everywhere else. */
  lemma {:induction false} RedactedEqualIff(a: Json, b: Json, secret: Secret)
    ensures Redact(a, secret) == Redact(b, secret) <==> Alike(a, b, secret)
    decreases a, 0
  {
    if a.Arr? && b.Arr? { ItemsEqualIff(a.items, b.items, secret); }
    if a.Obj? && b.Obj? { FieldsEqualIff(a.fields, b.fields, secret); }
  }

  lemma {:induction false} ItemsEqualIff(a: seq<Json>, b: seq<Json>, secret: Secret)
    ensures RedactItems(a, secret) == RedactItems(b, secret) <==> ItemsAlike(a, b, secret)
    decreases a, 1
  {
    if a == [] || b == [] {
    } else {
      RedactedEqualIff(a[0], b[0], secret);
      ItemsEqualIff(a[1..], b[1..], secret);
      SameCons(Redact(a[0], secret), RedactItems(a[1..], secret), Redact(b[0], secret), RedactItems(b[1..], secret));
    }
  }

  lemma {:induction false} FieldsEqualIff(a: seq<Field>, b: seq<Field>, secret: Secret)
    ensures RedactFields(a, secret) == RedactFields(b, secret) <==> FieldsAlike(a, b, secret)
    decreases a, 1
  {
    if a == [] || b == [] {
    } else {
      RedactedEqualIff(a[0].value, b[0].value, secret);
      FieldsEqualIff(a[1..], b[1..], secret);
      SameCons(RedactFields(a, secret)[0], RedactFields(a[1..], secret), RedactFields(b, secret)[0], RedactFields(b[1..], secret));
    }
  }

  lemma SameCons<T>(x: T, xs: seq<T>, y: T, ys: seq<T>)
    ensures [x] + xs == [y] + ys <==> x == y && xs == ys
  {
    if [x] + xs == [y] + ys {
      assert ([x] + xs)[0] == ([y] + ys)[0];
      assert xs == ([x] + xs)[1..] == ([y] + ys)[1..] == ys;
    }
  }

  // ----- Redacting again, or more -----

  /** A wider redaction after a narrower one is the wider one alone. With the
      same keys twice: redaction is idempotent. */
  lemma {:induction false} WiderAbsorbs(v: Json, narrow: Secret, wide: Secret)
    requires forall k :: narrow(k) ==> wide(k)
    ensures Redact(Redact(v, narrow), wide) == Redact(v, wide)
    decreases v, 0
  {
    if v.Arr? { WiderAbsorbsItems(v.items, narrow, wide); }
    if v.Obj? { WiderAbsorbsFields(v.fields, narrow, wide); }
  }

  lemma {:induction false} WiderAbsorbsItems(items: seq<Json>, narrow: Secret, wide: Secret)
    requires forall k :: narrow(k) ==> wide(k)
    ensures RedactItems(RedactItems(items, narrow), wide) == RedactItems(items, wide)
    decreases items, 1
  {
    if items == [] {
    } else {
      WiderAbsorbs(items[0], narrow, wide);
      WiderAbsorbsItems(items[1..], narrow, wide);
      assert RedactItems(items, narrow)[1..] == RedactItems(items[1..], narrow);
    }
  }

  lemma {:induction false} WiderAbsorbsFields(fields: seq<Field>, narrow: Secret, wide: Secret)
    requires forall k :: narrow(k) ==> wide(k)
    ensures RedactFields(RedactFields(fields, narrow), wide) == RedactFields(fields, wide)
    decreases fields, 1
  {
    if fields == [] {
    } else {
      WiderAbsorbs(fields[0].value, narrow, wide);
      WiderAbsorbsFields(fields[1..], narrow, wide);
      assert RedactFields(fields, narrow)[1..] == RedactFields(fields[1..], narrow);
    }
  }

  // ----- Nothing else changes -----

  /** The value reached by child positions, while no secret key is passed. */
  function Open(v: Json, path: seq<nat>, secret: Secret): Option<Json>
    decreases |path|
  {
    if path == [] then Some(v)
    else if v.Arr? && path[0] < |v.items| then Open(v.items[path[0]], path[1..], secret)
    else if v.Obj? && path[0] < |v.fields| && !secret(v.fields[path[0]].key)
    then Open(v.fields[path[0]].value, path[1..], secret)
    else None
  }

  lemma {:induction false} RedactItemsAt(items: seq<Json>, i: nat, secret: Secret)
    requires i < |items|
    ensures RedactItems(items, secret)[i] == Redact(items[i], secret)
    decreases i
  {
    if i == 0 {
    } else {
      RedactItemsAt(items[1..], i - 1, secret);
    }
  }

  lemma {:induction false} RedactFieldsAt(fields: seq<Field>, i: nat, secret: Secret)
    requires i < |fields|
    ensures RedactFields(fields, secret)[i].key == fields[i].key
    ensures RedactFields(fields, secret)[i].value == if secret(fields[i].key) then Str("***") else Redact(fields[i].value, secret)
    decreases i
  {
    if i == 0 {
    } else {
      RedactFieldsAt(fields[1..], i - 1, secret);
    }
  }

  /** Outside secret keys the shape is kept and every scalar is left as it was. */
  lemma {:induction false} OpenPartsKept(v: Json, path: seq<nat>, secret: Secret)
    ensures Open(Redact(v, secret), path, secret).Some? <==> Open(v, path, secret).Some?
    ensures Open(v, path, secret).Some? ==>
      Open(Redact(v, secret), path, secret) == Some(Redact(Open(v, path, secret).value, secret))
    decreases |path|
  {
    if path == [] {
    } else {
      if v.Arr? && path[0] < |v.items| {
        RedactItemsAt(v.items, path[0], secret);
        OpenPartsKept(v.items[path[0]], path[1..], secret);
      } else if v.Obj? && path[0] < |v.fields| {
        RedactFieldsAt(v.fields, path[0], secret);
        OpenPartsKept(v.fields[path[0]].value, path[1..], secret);
      }
    }
  }

  // ----- The traversal -----

  /** Rewrites every member and element in turn, as the server does on the value
      it owns. */
  method RedactFieldsOf(value: Json, secret: Secret) returns (r: Json)
    ensures r == Redact(value, secret)
    decreases value
  {
    match value {
      case Obj(fields) =>
        var out := fields;
        for i := 0 to |fields|
          invariant |out| == |fields|
          invariant forall k | 0 <= k < i :: out[k] == RedactFields(fields, secret)[k]
          invariant out[i..] == fields[i..]
        {
          RedactFieldsAt(fields, i, secret);
          assert out[i] == out[i..][0] == fields[i..][0] == fields[i];
          assert out[i + 1..] == fields[i + 1..] by {
            assert out[i + 1..] == out[i..][1..] == fields[i..][1..];
          }
          if secret(out[i].key) {
            out := out[i := out[i].(value := STARS)];
          } else {
            var child := RedactFieldsOf(fields[i].value, secret);
            out := out[i := out[i].(value := child)];
          }
        }
        assert out == RedactFields(fields, secret);
        r := Obj(out);
      case Arr(items) =>
        var out := items;
        for i := 0 to |items|
          invariant |out| == |items|
          invariant forall k | 0 <= k < i :: out[k] == RedactItems(items, secret)[k]
          invariant out[i..] == items[i..]
        {
          RedactItemsAt(items, i, secret);
          var child := RedactFieldsOf(items[i], secret);
          assert out[i + 1..] == out[i..][1..] == items[i..][1..] == items[i + 1..];
          out := out[i := child];
        }
        assert out == RedactItems(items, secret);
        r := Arr(out);
      case _ =>
        r := value;
    }
  }

  // ----- Which keys are secret -----

  function LowerChar(c: char): char {
    if 'A' <= c <= 'Z' then (c as int + 32) as char else c
  }

  function Lower(s: string): string {
    seq(|s|, i requires 0 <= i < |s| => LowerChar(s[i]))
  }

  predicate EndsWith(s: string, suffix: string) {
    |s| >= |suffix| && s[|s| - |suffix|..] == suffix
  }

  predicate Contains(s: string, part: string) {
    exists i | 0 <= i <= |s| :: part <= s[i..]
  }

  const SECRET_KEYS := {
    "param", "token", "access_token", "refresh_token", "qr_token", "confirm_token", "upload_token",
    "authorization", "password", "secret", "signature", "cek", "thumbnail_cek"}

  predicate IsSensitiveLogKey(key: string) {
    var k := Lower(key);
    k in SECRET_KEYS || EndsWith(k, "_token") || Contains(k, "jwt") || Contains(k, "secret") || Contains(k, "password")
  }

  predicate IsCekKey(key: string) {
    key == "cek" || key == "thumbnail_cek"
  }

  ghost predicate HasPart(s: string, part: string) {
    exists a, b :: s == a + part + b
  }

  lemma ContainsIff(s: string, part: string)
    ensures Contains(s, part) <==> HasPart(s, part)
  {
    if i :| 0 <= i <= |s| && part <= s[i..] {
      assert s == s[..i] + part + s[i + |part|..];
    }
    if a, b :| s == a + part + b {
      assert part <= s[|a|..];
    }
  }

  /** Keys are compared without regard to the case of the letters A to Z. */
  lemma LowerIs(s: string, i: nat)
    requires i < |s|
    ensures |Lower(s)| == |s|
    ensures 'A' <= s[i] <= 'Z' ==> Lower(s)[i] as int - 'a' as int == s[i] as int - 'A' as int
    ensures !('A' <= s[i] <= 'Z') ==> Lower(s)[i] == s[i]
  {
  }

  /** The secret keys: the listed ones, those ending in _token, and those with
      jwt, secret or password in them. */
  lemma SensitiveIff(key: string)
    ensures IsSensitiveLogKey(key) <==>
            var k := Lower(key);
            || k in {"param", "token", "access_token", "refresh_token", "qr_token", "confirm_token", "upload_token",
                     "authorization", "password", "secret", "signature", "cek", "thumbnail_cek"}
            || (exists head :: k == head + "_token")
            || HasPart(k, "jwt") || HasPart(k, "secret") || HasPart(k, "password")
  {
    var k := Lower(key);
    hide Lower;
    ContainsIff(k, "jwt");
    ContainsIff(k, "secret");
    ContainsIff(k, "password");
    hide Contains, HasPart;
    if EndsWith(k, "_token") { assert k == k[..|k| - 6] + "_token"; }
  }

  lemma CekIsSensitive(key: string)
    requires IsCekKey(key)
    ensures IsSensitiveLogKey(key)
  {
    assert Lower(key) == key;
  }

  /** The log redaction subsumes the attachment-key redaction, and each repeated
      is itself. */
  lemma RedactionsCompose(v: Json)
    ensures Redact(Redact(v, IsCekKey), IsSensitiveLogKey) == Redact(v, IsSensitiveLogKey)
    ensures Redact(Redact(v, IsSensitiveLogKey), IsSensitiveLogKey) == Redact(v, IsSensitiveLogKey)
    ensures Redact(Redact(v, IsCekKey), IsCekKey) == Redact(v, IsCekKey)
  {
    hide IsSensitiveLogKey, IsCekKey;
    forall k | IsCekKey(k) ensures IsSensitiveLogKey(k) { CekIsSensitive(k); }
    WiderAbsorbs(v, IsCekKey, IsSensitiveLogKey);
    WiderAbsorbs(v, IsSensitiveLogKey, IsSensitiveLogKey);
    WiderAbsorbs(v, IsCekKey, IsCekKey);
  }

  // ----- Truncation -----

  const MAX_CHARS := 512

  function Truncate(s: string, max: nat): string {
    if |s| <= max then s else s[..max] + "...<truncated " + Decimal(|s|) + " chars>"
  }

  /** Truncation shows the first max characters and the true length, no more and
      no less. */
  lemma TruncatedEqualIff(a: string, b: string, max: nat)
    ensures Truncate(a, max) == Truncate(b, max) <==>
            a == b || (|a| == |b| && |a| > max && a[..max] == b[..max])
  {
    hide Decimal;
    var ta, tb := Truncate(a, max), Truncate(b, max);
    if ta == tb && |a| > max {
      assert |tb| > max;
      assert a[..max] == ta[..max] == tb[..max] == b[..max];
      assert ta[max + 14..|ta| - 7] == Decimal(|a|);
      assert tb[max + 14..|tb| - 7] == Decimal(|b|);
      DecimalInjective(|a|, |b|);
    }
  }

  /** Text within the limit is left alone; longer text keeps its first max
      characters and gains a note. */
  lemma TruncatedStarts(s: string, max: nat)
    ensures if |s| <= max then Truncate(s, max) == s else s[..max] < Truncate(s, max)
  {
  }

  // ----- What is logged -----

  function DotCount(s: string): nat {
    if s == "" then 0 else (if s[0] == '.' then 1 else 0) + DotCount(s[1..])
  }

  predicate LooksLikeJwt(payload: string) {
    var t := Trim(payload);
    DotCount(t) == 2 && "eyJ" <= t
  }

  /** A token: three dotless parts, the first beginning with eyJ. */
  ghost predicate ThreeParts(t: string, a: string, b: string, c: string) {
    t == a + "." + b + "." + c && "eyJ" <= a && '.' !in a && '.' !in b && '.' !in c
  }

  lemma {:induction false} DotsCut(s: string)
    ensures DotCount(s) == |Split(s, '.')| - 1
  {
    if s != "" { DotsCut(s[1..]); }
  }

  lemma JoinThree(a: string, b: string, c: string)
    ensures Join([a, b, c], '.') == a + "." + b + "." + c
  {
    assert [a, b, c][1..] == [b, c] && [b, c][1..] == [c];
    assert Join([b, c], '.') == b + ['.'] + c;
  }

  lemma JwtIff(payload: string)
    ensures LooksLikeJwt(payload) <==> exists a, b, c :: ThreeParts(Trim(payload), a, b, c)
  {
    hide Trim, DotCount, Split;
    var t := Trim(payload);
    DotsCut(t);
    if LooksLikeJwt(payload) {
      var parts := Split(t, '.');
      JoinSplit(t, '.');
      assert parts[0] in parts && parts[1] in parts && parts[2] in parts;
      JoinThree(parts[0], parts[1], parts[2]);
      assert parts == [parts[0], parts[1], parts[2]];
      assert t == parts[0] + "." + parts[1] + "." + parts[2];
      FirstDotAfter(parts[0], "." + parts[1] + "." + parts[2]);
      assert ThreeParts(t, parts[0], parts[1], parts[2]);
    }
    if a, b, c :| ThreeParts(t, a, b, c) {
      assert t == a + ['.'] + (b + ['.'] + c);
      SplitHead(a, b + ['.'] + c, '.');
      SplitHead(b, c, '.');
      SplitWhole(c, '.');
    }
  }

  lemma FirstDotAfter(a: string, rest: string)
    requires rest != "" && rest[0] == '.' && "eyJ" <= a + rest
    ensures "eyJ" <= a
  {
    assert "eyJ"[0] != '.' && "eyJ"[1] != '.' && "eyJ"[2] != '.';
    assert forall i | 0 <= i < 3 :: (a + rest)[i] == "eyJ"[i];
    assert |a| < |a + rest| && (a + rest)[|a|] == '.';
  }

  /** JSON reading and printing are the library's; any functions will do. */
  datatype Library = Library(parse: string -> Option<Json>, show: Json -> string)

  function SanitizeForLog(lib: Library, payload: string): string {
    var text :=
      match lib.parse(payload)
      case Some(v) => lib.show(Redact(v, IsSensitiveLogKey))
      case None =>
        if LooksLikeJwt(payload) then "<redacted jwt-like payload>"
        else "<" + Decimal(|Utf8.Encode(payload)|) + " bytes non-json payload>";
    Truncate(text, MAX_CHARS)
  }

  function RedactMetadataForLog(lib: Library, metadata: Option<string>): string {
    match metadata
    case None => "None"
    case Some(s) =>
      match lib.parse(s)
      case Some(v) => lib.show(Redact(v, IsCekKey))
      case None => "<unparseable metadata redacted>"
  }

  /** Two inbound payloads that an observer of the log may not tell apart. */
  predicate Indistinct(lib: Library, a: string, b: string) {
    match (lib.parse(a), lib.parse(b))
    case (Some(v), Some(w)) => Alike(v, w, IsSensitiveLogKey)
    case (None, None) => LooksLikeJwt(a) == LooksLikeJwt(b) && (LooksLikeJwt(a) || |Utf8.Encode(a)| == |Utf8.Encode(b)|)
    case _ => false
  }

  /** Nothing beneath a secret key, at any depth, and nothing but the size of a
      payload that is not JSON, reaches the log line. */
  lemma LogIsBlindToSecrets(lib: Library, a: string, b: string)
    requires Indistinct(lib, a, b)
    ensures SanitizeForLog(lib, a) == SanitizeForLog(lib, b)
  {
    hide IsSensitiveLogKey, LooksLikeJwt, Truncate;
    if lib.parse(a).Some? {
      RedactedEqualIff(lib.parse(a).value, lib.parse(b).value, IsSensitiveLogKey);
    }
  }

  /** What the log line does show: redacted JSON in full up to 512 characters, and
      of anything else its kind or its size in bytes. */
  lemma LogShows(lib: Library, payload: string)
    ensures var r := SanitizeForLog(lib, payload);
      match lib.parse(payload)
      case Some(v) =>
        var text := lib.show(Redact(v, IsSensitiveLogKey));
        if |text| <= 512 then r == text else text[..512] < r
      case None =>
        && (LooksLikeJwt(payload) ==> r == "<redacted jwt-like payload>")
        && (!LooksLikeJwt(payload) ==>
            r == Truncate("<" + Decimal(|Utf8.Encode(payload)|) + " bytes non-json payload>", 512))
  {
    hide IsSensitiveLogKey, LooksLikeJwt;
  }

  /** Given a faithful printer, two JSON payloads logged in full read the same
      exactly when they agree outside the secret keys. */
  lemma LogTellsRest(lib: Library, a: string, b: string)
    requires lib.parse(a).Some? && lib.parse(b).Some?
    requires forall v, w :: lib.show(v) == lib.show(w) ==> v == w
    requires |lib.show(Redact(lib.parse(a).value, IsSensitiveLogKey))| <= 512
    requires |lib.show(Redact(lib.parse(b).value, IsSensitiveLogKey))| <= 512
    ensures SanitizeForLog(lib, a) == SanitizeForLog(lib, b) <==>
            Alike(lib.parse(a).value, lib.parse(b).value, IsSensitiveLogKey)
  {
    hide IsSensitiveLogKey, LooksLikeJwt;
    RedactedEqualIff(lib.parse(a).value, lib.parse(b).value, IsSensitiveLogKey);
  }

  /** Absent metadata, attachment keys hidden, anything unreadable withheld. */
  lemma MetadataLogShows(lib: Library, s: string)
    ensures RedactMetadataForLog(lib, None) == "None"
    ensures lib.parse(s).None? ==> RedactMetadataForLog(lib, Some(s)) == "<unparseable metadata redacted>"
    ensures lib.parse(s).Some? ==> RedactMetadataForLog(lib, Some(s)) == lib.show(Redact(lib.parse(s).value, IsCekKey))
    ensures forall key :: IsCekKey(key) <==> key in {"cek", "thumbnail_cek"}
  {
  }

  lemma MetadataLogIsBlindToKeys(lib: Library, a: string, b: string)
    requires lib.parse(a).Some? <==> lib.parse(b).Some?
    requires lib.parse(a).Some? ==> Alike(lib.parse(a).value, lib.parse(b).value, IsCekKey)
    ensures RedactMetadataForLog(lib, Some(a)) == RedactMetadataForLog(lib, Some(b))
  {
    if lib.parse(a).Some? {
      RedactedEqualIff(lib.parse(a).value, lib.parse(b).value, IsCekKey);
    }
  }
}
