/** Signing and checking tokens, and the issue, refresh, introspect and revoke
    operations over the device table and the refresh-token table. */
module UnifiedTokens {
  import opened Text
  import opened DeviceSessions
  import Lifetimes = TokenLifetimes

  const ACCESS := "access"
  const REFRESH := "refresh"
  const LEEWAY_SECS := 5
  const I64_MAX := 0x7FFF_FFFF_FFFF_FFFF

  // ----- Tokens -----

  datatype Algorithm = Hs256 | Rs256

  datatype Claims = Claims(iss: string, sub: string, aud: seq<string>, iat: int, exp: int, jti: string,
                           typ: string, device: string, version: int, scope: seq<string>,
                           businessSystem: string, app: string)

  /** A text that is no JWT, or claims sealed with a key. */
  datatype Jwt = Malformed(text: string) | Sealed(alg: Algorithm, kid: Option<string>, key: nat, claims: Claims)

  datatype Config = Config(alg: Algorithm, kid: string, key: nat, issuer: string, audience: seq<string>,
                           accessTtl: int, refreshTtl: int)

  datatype VerifyError = Invalid | Expired | UnknownKid

  datatype IssueClaims = IssueClaims(user: nat, device: string, version: int, scope: seq<string>,
                                     audience: seq<string>, businessSystem: string, app: string)

  predicate Meets(a: seq<string>, b: seq<string>) { exists x :: x in a && x in b }

  /** Signature first, then expiry with its leeway, issuer and audience, and the
      token type last. */
  function VerifyJwt(c: Config, token: Jwt, typ: string, now: int): Result<Claims, VerifyError> {
    if token.Malformed? || token.alg != c.alg then Err(Invalid)
    else if c.alg.Rs256? && token.kid.Some? && token.kid.value != c.kid then Err(UnknownKid)
    else if token.key != c.key then Err(Invalid)
    else if token.claims.exp < now - LEEWAY_SECS then Err(Expired)
    else if token.claims.iss != c.issuer || !Meets(token.claims.aud, c.audience) then Err(Invalid)
    else if token.claims.typ != typ then Err(Invalid)
    else Ok(token.claims)
  }

  function IssueJwt(c: Config, p: IssueClaims, typ: string, ttl: int, now: int, jti: string): Jwt {
    Sealed(c.alg, Some(c.kid), c.key,
           Claims(c.issuer, Decimal(p.user), p.audience, now, now + ttl, jti, typ, p.device, p.version,
                  p.scope, p.businessSystem, p.app))
  }

  /** A token passes exactly when it is sealed with the configured key and
      algorithm, under the configured key id if it names one, for this issuer, an
      audience of ours and the type asked for, and has not expired by more than
      five seconds; each refusal has its own exact reason. */
  lemma VerifiedIff(c: Config, t: Jwt, typ: string, now: int)
    ensures var known := t.Sealed? && t.alg == c.alg && (c.alg == Hs256 || t.kid == None || t.kid == Some(c.kid));
      && (VerifyJwt(c, t, typ, now).Ok? <==>
            && known && t.key == c.key && now <= t.claims.exp + 5
            && t.claims.iss == c.issuer && (exists a :: a in t.claims.aud && a in c.audience) && t.claims.typ == typ)
      && (VerifyJwt(c, t, typ, now).Ok? ==> VerifyJwt(c, t, typ, now).value == t.claims)
      && (VerifyJwt(c, t, typ, now) == Err(UnknownKid) <==> t.Sealed? && t.alg == c.alg && !known)
      && (VerifyJwt(c, t, typ, now) == Err(Expired) <==> known && t.key == c.key && now > t.claims.exp + 5)
  {
  }

  /** An issued token carries what it was issued for. */
  lemma IssuedCarries(c: Config, p: IssueClaims, typ: string, ttl: int, now: int, jti: string)
    requires p.user <= U64_MAX
    ensures var t := IssueJwt(c, p, typ, ttl, now, jti);
      && t.Sealed? && t.kid == Some(c.kid) && ParseUnsigned(t.claims.sub, U64_MAX) == Some(p.user)
      && (t.claims.jti, t.claims.typ, t.claims.iat, t.claims.exp) == (jti, typ, now, now + ttl)
      && (t.claims.device, t.claims.version, t.claims.scope, t.claims.aud, t.claims.businessSystem, t.claims.app)
         == (p.device, p.version, p.scope, p.audience, p.businessSystem, p.app)
  {
    ParseDecimal(p.user, U64_MAX);
  }

  /** An issued token is accepted for its own type alone, until its expiry plus
      the leeway, provided its audience meets the configured one. */
  lemma IssuedIsAccepted(c: Config, p: IssueClaims, typ: string, ttl: int, at: int, jti: string, asked: string, now: int)
    ensures var token := IssueJwt(c, p, typ, ttl, at, jti);
      VerifyJwt(c, token, asked, now) == Ok(token.claims) <==>
      asked == typ && now <= at + ttl + LEEWAY_SECS && Meets(p.audience, c.audience)
    ensures VerifyJwt(c, IssueJwt(c, p, typ, ttl, at, jti), asked, now) != Err(UnknownKid)
  {
  }

  // ----- Constant-time comparison -----

  lemma OrXorZero(d: bv8, x: bv8, y: bv8)
    ensures d | (x ^ y) == 0 <==> d == 0 && x == y
  {
  }

  method CtEq(a: seq<bv8>, b: seq<bv8>) returns (same: bool)
    ensures same <==> a == b
  {
    if |a| != |b| { return false; }
    var diff: bv8 := 0;
    var i := 0;
    while i < |a|
      invariant 0 <= i <= |a|
      invariant diff == 0 <==> a[..i] == b[..i]
    {
      OrXorZero(diff, a[i], b[i]);
      assert a[..i + 1] == a[..i] + [a[i]] && b[..i + 1] == b[..i] + [b[i]];
      diff := diff | (a[i] ^ b[i]);
      i := i + 1;
    }
    assert a[..i] == a && b[..i] == b;
    return diff == 0;
  }

  // ----- The refresh-token table -----

  datatype Record = Record(user: nat, device: string, hash: seq<bv8>, version: int, expiresAt: int,
                           revokedAt: Option<int>, createdAt: int, lastUsedAt: Option<int>)

  type Records = map<string, Record>

  datatype RecordOp =
    | Insert(jti: string, record: Record)       // fails on an existing jti
    | Touch(jti: string, now: int)
    | RevokeJti(jti: string, now: int)
    | RevokeHash(hash: seq<bv8>, now: int)
    | RevokeUserDevice(user: nat, device: string, now: int)
    | RevokeUser(user: nat, now: int)

  function Marked(r: Record, hit: bool, now: int): Record {
    if hit && r.revokedAt.None? then r.(revokedAt := Some(now)) else r
  }

  function RecordAfter(op: RecordOp, jti: string, r: Record): Record {
    match op
    case Insert(_, _) => r
    case Touch(j, now) => if j == jti then r.(lastUsedAt := Some(now)) else r
    case RevokeJti(j, now) => Marked(r, j == jti, now)
    case RevokeHash(h, now) => Marked(r, h == r.hash, now)
    case RevokeUserDevice(u, d, now) => Marked(r, u == r.user && d == r.device, now)
    case RevokeUser(u, now) => Marked(r, u == r.user, now)
  }

  function ExecRecord(records: Records, op: RecordOp): (after: Records)
    ensures forall j | j in records :: j in after && after[j] == RecordAfter(op, j, records[j])
    ensures forall j | j in after && j !in records :: op.Insert? && op.jti == j && after[j] == op.record
  {
    var updated := map j | j in records :: RecordAfter(op, j, records[j]);
    if op.Insert? && op.jti !in records then updated[op.jti := op.record] else updated
  }

  lemma InsertAdds(records: Records, jti: string, record: Record)
    requires jti !in records
    ensures ExecRecord(records, Insert(jti, record)) == records[jti := record]
  {
  }

  function ExecRecords(records: Records, ops: seq<RecordOp>): Records
    decreases |ops|
  {
    if ops == [] then records else ExecRecords(ExecRecord(records, ops[0]), ops[1..])
  }

  /** Each revocation marks the live records it names, at that time, and no other. */
  lemma RevocationsMark(records: Records, user: nat, device: string, now: int)
    ensures var t := ExecRecord(records, RevokeUserDevice(user, device, now));
      t.Keys == records.Keys && forall j | j in records ::
        t[j] == if records[j].user == user && records[j].device == device && records[j].revokedAt == None
                then records[j].(revokedAt := Some(now)) else records[j]
    ensures var t := ExecRecord(records, RevokeUser(user, now));
      t.Keys == records.Keys && forall j | j in records ::
        t[j] == if records[j].user == user && records[j].revokedAt == None
                then records[j].(revokedAt := Some(now)) else records[j]
  {
  }

  // ----- Refresh and introspect -----

  /** What the two pipelines share: configuration, UUID parsing, token hashing. */
  datatype Service = Service(config: Config, parseUuid: string -> Option<nat>, hash: Jwt -> seq<bv8>)

  datatype RefreshError =
    | RefreshTokenExpired
    | InvalidToken
    | TokenRevoked
    | BadSubject
    | BadDevice
    | SessionRefused(why: VerifyResult)
    | Unavailable

  function SessionOf(svc: Service, rows: Rows, user: nat, claims: Claims): Result<VerifyResult, Error> {
    match svc.parseUuid(claims.device)
    case None => Err(BadRequest)
    case Some(id) => Ok(Verify(rows, Key(user, id), claims.version))
  }

  /** The checks of refresh, in their order; on success the claims to sign. */
  function Refresh(svc: Service, rows: Rows, records: Records, token: Jwt, device: string, nowMs: int)
    : Result<IssueClaims, RefreshError>
  {
    match VerifyJwt(svc.config, token, REFRESH, nowMs / 1000)
    case Err(Expired) => Err(RefreshTokenExpired)
    case Err(_) => Err(InvalidToken)
    case Ok(claims) =>
      if claims.device != device then Err(InvalidToken)
      else if claims.jti !in records then Err(TokenRevoked)
      else if svc.hash(token) != records[claims.jti].hash then Err(InvalidToken)
      else if records[claims.jti].revokedAt.Some? then Err(TokenRevoked)
      else if nowMs >= records[claims.jti].expiresAt then Err(RefreshTokenExpired)
      else match ParseUnsigned(claims.sub, U64_MAX)
           case None => Err(BadSubject)
           case Some(user) =>
             match SessionOf(svc, rows, user, claims)
             case Err(_) => Err(BadDevice)
             case Ok(Valid(current)) =>
               Ok(IssueClaims(user, claims.device, current, claims.scope, claims.aud, claims.businessSystem, claims.app))
             case Ok(why) => Err(SessionRefused(why))
  }

  datatype Introspection = ActiveToken(user: nat, claims: Claims) | Inactive(reason: string)

  /** Either type is accepted; session first, refresh record last. */
  function Introspect(svc: Service, rows: Rows, records: Records, token: Jwt, nowMs: int): Introspection {
    var asAccess := VerifyJwt(svc.config, token, ACCESS, nowMs / 1000);
    var verified := if asAccess == Err(Invalid) then VerifyJwt(svc.config, token, REFRESH, nowMs / 1000) else asAccess;
    match verified
    case Err(Expired) => Inactive("expired")
    case Err(UnknownKid) => Inactive("unknown_kid")
    case Err(Invalid) => Inactive("signature_invalid")
    case Ok(claims) =>
      match ParseUnsigned(claims.sub, U64_MAX)
      case None => Inactive("signature_invalid")
      case Some(user) =>
        match SessionOf(svc, rows, user, claims)
        case Err(_) => Inactive("not_found")
        case Ok(DeviceNotFound) => Inactive("not_found")
        case Ok(SessionInactive(_)) => Inactive("revoked")
        case Ok(VersionMismatch(_, _)) => Inactive("version_mismatch")
        case Ok(Valid(_)) =>
          if claims.typ != REFRESH then ActiveToken(user, claims)
          else if claims.jti !in records || records[claims.jti].revokedAt.Some? then Inactive("revoked")
          else if nowMs >= records[claims.jti].expiresAt then Inactive("expired")
          else ActiveToken(user, claims)
  }

  /** The record holds the hash of this very token. */
  predicate HashStored(svc: Service, records: Records, token: Jwt) {
    token.Sealed? && token.claims.jti in records && records[token.claims.jti].hash == svc.hash(token)
  }

  /** The claims a refresh mints are those of its token, at the row's version. */
  lemma MintedFrom(svc: Service, rows: Rows, records: Records, token: Jwt, device: string, nowMs: int)
    requires Refresh(svc, rows, records, token, device, nowMs).Ok?
    ensures token.Sealed? && svc.parseUuid(device).Some?
    ensures var p, c := Refresh(svc, rows, records, token, device, nowMs).value, token.claims;
      && Some(p.user) == ParseUnsigned(c.sub, U64_MAX) && p.device == c.device == device
      && Key(p.user, svc.parseUuid(device).value) in rows && p.version == rows[Key(p.user, svc.parseUuid(device).value)].version
      && (p.scope, p.audience, p.businessSystem, p.app) == (c.scope, c.aud, c.businessSystem, c.app)
  {
  }

  /** The device row a token speaks of, if its subject and device can be read. */
  function KeyOf(svc: Service, token: Jwt): Option<Key>
    requires token.Sealed?
  {
    var user, id := ParseUnsigned(token.claims.sub, U64_MAX), svc.parseUuid(token.claims.device);
    if user.Some? && id.Some? then Some(Key(user.value, id.value)) else None
  }

  /** The token passes as an access or as a refresh token. */
  predicate Passes(svc: Service, token: Jwt, nowMs: int) {
    VerifyJwt(svc.config, token, "access", nowMs / 1000).Ok? || VerifyJwt(svc.config, token, "refresh", nowMs / 1000).Ok?
  }

  /** Introspection says active exactly of a token that passes, whose device row is
      Active and not ahead of it, and which, if it is a refresh token, has a live
      record. */
  lemma ActiveIff(svc: Service, rows: Rows, records: Records, token: Jwt, nowMs: int)
    ensures var r := Introspect(svc, rows, records, token, nowMs);
      && (r.ActiveToken? <==>
            && Passes(svc, token, nowMs) && KeyOf(svc, token).Some? && KeyOf(svc, token).value in rows
            && rows[KeyOf(svc, token).value].state == 0 && rows[KeyOf(svc, token).value].version <= token.claims.version
            && (token.claims.typ == "refresh" ==>
                  token.claims.jti in records && records[token.claims.jti].revokedAt == None
                  && nowMs < records[token.claims.jti].expiresAt))
      && (r.ActiveToken? ==> r == ActiveToken(KeyOf(svc, token).value.user, token.claims))
  {
    hide ParseUnsigned;
  }

  /** The reason given for an inactive token says what is wrong with it. */
  lemma InactiveBecause(svc: Service, rows: Rows, records: Records, token: Jwt, nowMs: int)
    requires Introspect(svc, rows, records, token, nowMs).Inactive?
    ensures var why := Introspect(svc, rows, records, token, nowMs).reason;
      var v := VerifyJwt(svc.config, token, "access", nowMs / 1000);
      if !Passes(svc, token, nowMs) then
        why == if v == Err(Expired) then "expired" else if v == Err(UnknownKid) then "unknown_kid" else "signature_invalid"
      else if ParseUnsigned(token.claims.sub, U64_MAX).None? then why == "signature_invalid"
      else if KeyOf(svc, token).None? || KeyOf(svc, token).value !in rows then why == "not_found"
      else if rows[KeyOf(svc, token).value].state != 0 then why == "revoked"
      else if token.claims.version < rows[KeyOf(svc, token).value].version then why == "version_mismatch"
      else token.claims.typ == "refresh" &&
           if token.claims.jti !in records || records[token.claims.jti].revokedAt.Some? then why == "revoked" else why == "expired"
  {
  }

  /** The token itself passes, for this device. */
  predicate Presented(svc: Service, token: Jwt, device: string, nowMs: int) {
    VerifyJwt(svc.config, token, REFRESH, nowMs / 1000).Ok? && token.claims.device == device
  }

  /** Its record is this token's, in force, and names a user and a device. */
  predicate RecordGood(svc: Service, records: Records, token: Jwt, nowMs: int) {
    && HashStored(svc, records, token)
    && records[token.claims.jti].revokedAt.None? && nowMs < records[token.claims.jti].expiresAt
    && ParseUnsigned(token.claims.sub, U64_MAX).Some? && svc.parseUuid(token.claims.device).Some?
  }

  /** The two pipelines agree although they check in different orders: a refresh
      succeeds exactly when introspection calls the token active, it is a refresh
      token of that device, and its hash is the stored one. */
  lemma RefreshIffActive(svc: Service, rows: Rows, records: Records, token: Jwt, device: string, nowMs: int)
    ensures Refresh(svc, rows, records, token, device, nowMs).Ok? <==>
      && Introspect(svc, rows, records, token, nowMs).ActiveToken?
      && token.claims.typ == REFRESH && token.claims.device == device
      && HashStored(svc, records, token)
  {
  }

  /** A refresh never signs a version above that of its refresh token. */
  lemma RefreshNeverRaises(svc: Service, rows: Rows, records: Records, token: Jwt, device: string, nowMs: int)
    requires Refresh(svc, rows, records, token, device, nowMs).Ok?
    ensures token.Sealed? && Refresh(svc, rows, records, token, device, nowMs).value.version <= token.claims.version
  {
  }

  /** A revoked record stays revoked under every later operation, so its token
      is refused by both pipelines whatever the device table says. */
  lemma {:induction false} RevokedStaysRevoked(svc: Service, records: Records, ops: seq<RecordOp>, jti: string,
                                               rows: Rows, token: Jwt, device: string, nowMs: int)
    requires jti in records && records[jti].revokedAt.Some?
    requires token.Sealed? && token.claims.jti == jti && token.claims.typ == REFRESH
    ensures jti in ExecRecords(records, ops) && ExecRecords(records, ops)[jti].revokedAt == records[jti].revokedAt
    ensures Refresh(svc, rows, ExecRecords(records, ops), token, device, nowMs).Err?
    ensures Introspect(svc, rows, ExecRecords(records, ops), token, nowMs).Inactive?
    decreases |ops|
  {
    if ops == [] {
    } else {
      RevokedStaysRevoked(svc, ExecRecord(records, ops[0]), ops[1..], jti, rows, token, device, nowMs);
    }
  }

  // ----- Issue -----

  function SaturatingMillis(secs: int): int {
    if secs * 1000 > I64_MAX then I64_MAX else secs * 1000
  }

  datatype Issued = Issued(access: Jwt, refresh: Jwt, created: bool, version: int)

  datatype IssueError = ZeroUser | BadDeviceId | UpsertFailed | InsertFailed

  /** Which calls to the database answer during a refresh. */
  datatype Answers = Answers(find: bool, session: bool, touch: bool)

  datatype RevokeRequest = ByJti(jti: string) | ByRefreshToken(token: Jwt)

  function RevokeOp(svc: Service, req: RevokeRequest, nowMs: int): RecordOp {
    match req
    case ByJti(jti) => RevokeJti(jti, nowMs)
    case ByRefreshToken(token) => RevokeHash(svc.hash(token), nowMs)
  }

  predicate Meant(svc: Service, req: RevokeRequest, jti: string, r: Record) {
    match req
    case ByJti(j) => j == jti
    case ByRefreshToken(token) => svc.hash(token) == r.hash
  }

  class UnifiedTokenService {
    const svc: Service
    const devices: DeviceManagerDb
    var records: Records

    constructor (svc: Service, devices: DeviceManagerDb, records: Records)
      requires devices.parseUuid == svc.parseUuid
      ensures this.svc == svc && this.devices == devices && this.records == records
    {
      this.svc := svc;
      this.devices := devices;
      this.records := records;
    }

    /** Upsert the device, sign both tokens with the version it returned, store
        the hash of the refresh token. A missing or blank device id is replaced
        by the generated one, an empty audience by the configured one. */
    method Issue(p: IssueClaims, requested: Option<string>, generated: string, nowMs: int, accessJti: string, refreshJti: string,
                 upserts: bool, inserts: bool)
      returns (r: Result<Issued, IssueError>)
      requires devices.parseUuid == svc.parseUuid && svc.parseUuid(generated).Some?
      modifies this, devices
      ensures r.Err? ==> records == old(records)
      ensures var id := svc.parseUuid(ChosenDevice(requested, generated));
        && (r == Err(ZeroUser) <==> p.user == 0)
        && (r == Err(BadDeviceId) <==> p.user != 0 && id.None?)
        && (r == Err(UpsertFailed) <==> p.user != 0 && id.Some? && !upserts)
        && (r == Err(InsertFailed) <==> p.user != 0 && id.Some? && upserts && (!inserts || refreshJti in old(records)))
        && (r.Ok? || r == Err(InsertFailed) ==> devices.rows == Exec(old(devices.rows), Register(Key(p.user, id.value))))
      ensures r.Err? && r != Err(InsertFailed) ==> devices.rows == old(devices.rows)
      ensures r.Ok? ==>
        var device := ChosenDevice(requested, generated);
        && svc.parseUuid(device).Some?
        && IssuedInto(svc, old(devices.rows), devices.rows, old(records), records, p.(device := device), nowMs,
                      accessJti, refreshJti, r.value)
    {
      hide Exec, Trim, ExecRecord;
      if p.user == 0 { return Err(ZeroUser); }
      var device := ChosenDevice(requested, generated);
      if svc.parseUuid(device).None? { return Err(BadDeviceId); }
      var reg := devices.RegisterOrUpdateDevice(p.user, device, upserts);
      if reg.Err? { return Err(UpsertFailed); }
      var signed := p.(device := device, version := reg.value.1,
                       audience := if p.audience == [] then svc.config.audience else p.audience);
      var now := nowMs / 1000;
      var access := IssueJwt(svc.config, signed, ACCESS, svc.config.accessTtl, now, accessJti);
      var refresh := IssueJwt(svc.config, signed, REFRESH, svc.config.refreshTtl, now, refreshJti);
      if !inserts || refreshJti in records { return Err(InsertFailed); }
      var record := Record(p.user, device, svc.hash(refresh), signed.version,
                           SaturatingMillis(refresh.claims.exp), None, nowMs, None);
      InsertAdds(records, refreshJti, record);
      records := ExecRecord(records, Insert(refreshJti, record));
      return Ok(Issued(access, refresh, reg.value.0, signed.version));
    }

    /** A successful refresh signs a new access token and marks the record used;
        it changes nothing else, and a refused one changes nothing. It is
        unavailable exactly when every check before a call passed and that call
        did not answer. */
    method RefreshToken(token: Jwt, device: string, nowMs: int, jti: string, up: Answers) returns (r: Result<Jwt, RefreshError>)
      modifies this`records
      ensures var spec := Refresh(svc, devices.rows, old(records), token, device, nowMs);
        && (r.Ok? <==> spec.Ok? && up == Answers(true, true, true))
        && (r.Ok? ==> r.value == IssueJwt(svc.config, spec.value, ACCESS, svc.config.accessTtl, nowMs / 1000, jti))
        && (r.Err? && r.error != Unavailable ==> spec.Err? && r.error == spec.error)
        && (r == Err(Unavailable) <==>
              Presented(svc, token, device, nowMs) &&
              (!up.find || (RecordGood(svc, old(records), token, nowMs) && (!up.session || (spec.Ok? && !up.touch)))))
      ensures r.Ok? ==>
        && token.Sealed? && token.claims.jti in old(records)
        && records == old(records)[token.claims.jti := old(records)[token.claims.jti].(lastUsedAt := Some(nowMs))]
      ensures r.Err? ==> records == old(records)
    {
      hide ParseUnsigned, Verify, IssueJwt;
      var v := VerifyJwt(svc.config, token, REFRESH, nowMs / 1000);
      if v.Err? { return Err(if v.error.Expired? then RefreshTokenExpired else InvalidToken); }
      var claims := v.value;
      if claims.device != device { return Err(InvalidToken); }
      if !up.find { return Err(Unavailable); }
      if claims.jti !in records { return Err(TokenRevoked); }
      var record := records[claims.jti];
      var same := CtEq(svc.hash(token), record.hash);
      if !same { return Err(InvalidToken); }
      if record.revokedAt.Some? { return Err(TokenRevoked); }
      if nowMs >= record.expiresAt { return Err(RefreshTokenExpired); }
      var user := ParseUnsigned(claims.sub, U64_MAX);
      if user.None? { return Err(BadSubject); }
      if svc.parseUuid(claims.device).None? { return Err(BadDevice); }
      if !up.session { return Err(Unavailable); }
      var session := SessionOf(svc, devices.rows, user.value, claims);
      match session.value
      case Valid(current) =>
        var minted := IssueClaims(user.value, claims.device, current, claims.scope, claims.aud,
                                  claims.businessSystem, claims.app);
        if !up.touch { return Err(Unavailable); }
        records := ExecRecord(records, Touch(claims.jti, nowMs));
        return Ok(IssueJwt(svc.config, minted, ACCESS, svc.config.accessTtl, nowMs / 1000, jti));
      case why => return Err(SessionRefused(why));
    }

    /** Revocation by jti or by the token itself: marks exactly the unrevoked
        records that are meant, and counts them. */
    method Revoke(req: RevokeRequest, nowMs: int, up: bool) returns (r: Result<nat, ()>)
      modifies this`records
      ensures r.Ok? <==> up
      ensures r.Err? ==> records == old(records)
      ensures r.Ok? ==>
        && records.Keys == old(records).Keys
        && (forall j | j in records ::
              records[j] == if Meant(svc, req, j, old(records)[j]) && old(records)[j].revokedAt.None?
                            then old(records)[j].(revokedAt := Some(nowMs)) else old(records)[j])
        && r.value == |set j | j in old(records) && Meant(svc, req, j, old(records)[j]) && old(records)[j].revokedAt.None?|
    {
      if !up { return Err(()); }
      var hits := set j | j in records && Meant(svc, req, j, records[j]) && records[j].revokedAt.None?;
      records := ExecRecord(records, RevokeOp(svc, req, nowMs));
      return Ok(|hits|);
    }
  }

  function ChosenDevice(requested: Option<string>, generated: string): string {
    if requested.Some? && Trim(requested.value) != "" then requested.value else generated
  }

  /** A device id that is not blank is taken as it is; otherwise the new one is. */
  lemma DeviceChosen(requested: Option<string>, generated: string)
    ensures ChosenDevice(requested, generated) ==
            if requested.Some? && exists c | c in requested.value :: !IsSpace(c) then requested.value else generated
  {
    if requested.Some? { TrimCuts(requested.value); }
    hide IsSpace, Trim;
  }

  /** The state an issue leaves behind. */
  predicate IssuedInto(svc: Service, before: Rows, rows: Rows, oldRecords: Records, records: Records,
                       p: IssueClaims, nowMs: int, accessJti: string, jti: string, out: Issued)
    requires svc.parseUuid(p.device).Some?
  {
    var k := Key(p.user, svc.parseUuid(p.device).value);
    var audience := if p.audience == [] then svc.config.audience else p.audience;
    && rows == Exec(before, Register(k)) && k in rows && out.version == rows[k].version
    && out.created == (k !in before)
    && var signed := p.(version := out.version, audience := audience);
    && out.access == IssueJwt(svc.config, signed, ACCESS, svc.config.accessTtl, nowMs / 1000, accessJti)
    && out.refresh == IssueJwt(svc.config, signed, REFRESH, svc.config.refreshTtl, nowMs / 1000, jti)
    && jti !in oldRecords
    && records == oldRecords[jti := Record(p.user, p.device, svc.hash(out.refresh), out.version,
                                           SaturatingMillis(nowMs / 1000 + svc.config.refreshTtl), None, nowMs, None)]
  }

  /** Right after an issue its refresh token can be used, exactly when the device
      row is active (a login does not thaw a frozen one), the audience meets the
      configured one and the refresh lifetime is positive; the access token it
      mints carries the version just issued. */
  lemma IssueThenRefresh(svc: Service, before: Rows, rows: Rows, oldRecords: Records, records: Records,
                         p: IssueClaims, nowMs: int, accessJti: string, jti: string, out: Issued)
    requires svc.parseUuid(p.device).Some? && p.user <= U64_MAX
    requires 0 <= nowMs < I64_MAX
    requires IssuedInto(svc, before, rows, oldRecords, records, p, nowMs, accessJti, jti, out)
    ensures var r := Refresh(svc, rows, records, out.refresh, p.device, nowMs);
      var audience := if p.audience == [] then svc.config.audience else p.audience;
      && (r.Ok? <==> rows[Key(p.user, svc.parseUuid(p.device).value)].state == 0
                     && Meets(audience, svc.config.audience) && svc.config.refreshTtl > 0)
      && (r.Ok? ==> r.value.version == out.version)
  {
    ParseDecimal(p.user, U64_MAX);
  }

  // ----- These operations are steps of the token machine -----

  /** What the machine keeps of a signed token. */
  function Abstract(svc: Service, user: nat, claims: Claims, readAt: nat): Lifetimes.Token
    requires svc.parseUuid(claims.device).Some?
  {
    Lifetimes.Token(Key(user, svc.parseUuid(claims.device).value), claims.version, readAt, claims.typ == REFRESH)
  }

  /** A refresh that succeeds is a step the machine allows for that token, and
      the version the machine then signs is the one in the minted claims. */
  lemma RefreshIsAStep(svc: Service, records: Records, token: Jwt, device: string, nowMs: int,
                       s: Lifetimes.State, p: nat, readAt: nat)
    requires Refresh(svc, s.rows, records, token, device, nowMs).Ok?
    ensures token.Sealed? && svc.parseUuid(token.claims.device).Some?
    ensures var minted := Refresh(svc, s.rows, records, token, device, nowMs).value;
      var t := Abstract(svc, minted.user, token.claims, readAt);
      var e := Lifetimes.RefreshCheck(p, t);
      t in s.tokens ==>
        && Lifetimes.Enabled(s, e)
        && Lifetimes.SignersAfter(s, e) == s.signers[p := Lifetimes.Ready(t.key, minted.version, s.clock + 1)]
        && Lifetimes.Apply(s, e).rows == s.rows
  {
  }

  /** An issue is the machine's upsert followed by signing both tokens. */
  lemma IssueIsAStep(svc: Service, oldRecords: Records, records: Records, p: IssueClaims, nowMs: int, accessJti: string,
                     jti: string, out: Issued, s: Lifetimes.State, rows: Rows, q: nat)
    requires svc.parseUuid(p.device).Some?
    requires IssuedInto(svc, s.rows, rows, oldRecords, records, p, nowMs, accessJti, jti, out)
    ensures var k := Key(p.user, svc.parseUuid(p.device).value);
      var t := Lifetimes.Apply(s, Lifetimes.IssueUpsert(q, k));
      && t.rows == rows && q in t.signers
      && Lifetimes.Enabled(t, Lifetimes.Sign(q, true)) && Lifetimes.Enabled(t, Lifetimes.Sign(q, false))
      && Lifetimes.TokensAfter(t, Lifetimes.Sign(q, true)) == t.tokens + {Abstract(svc, p.user, out.refresh.claims, t.clock)}
      && Lifetimes.TokensAfter(t, Lifetimes.Sign(q, false)) == t.tokens + {Abstract(svc, p.user, out.access.claims, t.clock)}
  {
  }
}
