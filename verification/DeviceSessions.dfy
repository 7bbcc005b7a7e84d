/** The privchat_devices table: session state, session version, kick marks, and
    every SQL statement that changes them. Each statement is one atomic step. */
module DeviceSessions {
  import opened Text

  // ----- Session states -----

  datatype SessionState = Active | Kicked | Frozen | Revoked | PendingVerify

  function FromRaw(raw: int): Option<SessionState> {
    match raw
    case 0 => Some(Active)
    case 1 => Some(Kicked)
    case 2 => Some(Frozen)
    case 3 => Some(Revoked)
    case 4 => Some(PendingVerify)
    case _ => None
  }

  predicate IsUsable(s: SessionState) { s.Active? }

  datatype VerifyResult =
    | Valid(version: int)
    | DeviceNotFound
    | SessionInactive(state: SessionState)
    | VersionMismatch(tokenVersion: int, currentVersion: int)

  // ----- Rows -----

  /** device stands for the parsed UUID. */
  datatype Key = Key(user: nat, device: nat)

  /** state is the raw smallint of the column. */
  datatype Row = Row(version: int, state: int, kickedAt: Option<int>, kickedBy: Option<nat>, reason: Option<string>)

  type Rows = map<Key, Row>

  function Verify(rows: Rows, k: Key, tokenVersion: int): VerifyResult {
    if k !in rows then DeviceNotFound
    else match FromRaw(rows[k].state)
         case None => SessionInactive(Revoked)
         case Some(state) =>
           if !IsUsable(state) then SessionInactive(state)
           else if tokenVersion < rows[k].version then VersionMismatch(tokenVersion, rows[k].version)
           else Valid(rows[k].version)
  }

  // ----- Statements -----

  datatype Statement =
    | Kick(targets: set<Key>, now: int, kicker: Option<nat>, reason: string)   // kick_device, kick_other_devices
    | Increment(key: Key, reason: string)
    | Bump(user: nat)
    | RevokeAll(user: nat, now: int, reason: string)
    | Reactivate(key: Key)
    | Register(key: Key)

  /** The row under k after the statement, for a row that existed before it. */
  function RowAfter(st: Statement, k: Key, r: Row): Row {
    match st
    case Kick(targets, now, kicker, reason) =>
      if k in targets && r.state == 0 then Row(r.version + 1, 1, Some(now), kicker, Some(reason)) else r
    case Increment(key, reason) =>
      if k == key then r.(version := r.version + 1, reason := Some(reason)) else r
    case Bump(user) =>
      if k.user == user && r.state == 0 then r.(version := r.version + 1) else r
    case RevokeAll(user, now, reason) =>
      if k.user == user && r.state == 0
      then r.(version := r.version + 1, state := 3, kickedAt := Some(now), reason := Some(reason)) else r
    case Reactivate(key) =>
      if k == key then r.(state := 0, kickedAt := None, kickedBy := None, reason := None) else r
    case Register(key) =>
      if k != key then r
      else if r.state == 1 || r.state == 3 then Row(r.version + 1, 0, None, None, None)
      else r.(version := r.version + 1)
  }

  const NEW_ROW := Row(1, 0, None, None, None)

  function Exec(rows: Rows, st: Statement): (after: Rows)
    ensures forall k | k in rows :: k in after && after[k] == RowAfter(st, k, rows[k])
    ensures forall k | k in after && k !in rows :: st == Register(k) && after[k] == NEW_ROW
  {
    var updated := map k | k in rows :: RowAfter(st, k, rows[k]);
    if st.Register? && st.key !in rows then updated[st.key := NEW_ROW] else updated
  }

  function ExecAll(rows: Rows, sts: seq<Statement>): Rows
    decreases |sts|
  {
    if sts == [] then rows else ExecAll(Exec(rows, sts[0]), sts[1..])
  }

  // ----- What single statements do to a row -----

  /** Versions never fall, and a row stops being Active only with a new version. */
  lemma {:induction false} VersionsNeverFall(rows: Rows, sts: seq<Statement>, k: Key)
    requires k in rows
    ensures k in ExecAll(rows, sts)
    ensures var r, r' := rows[k], ExecAll(rows, sts)[k];
      && r'.version >= r.version
      && (r.state == 0 && r'.state != 0 ==> r'.version > r.version)
      && (r.state == 0 && r'.version == r.version ==> r'.state == 0)
    decreases |sts|
  {
    if sts == [] {
    } else {
      VersionsNeverFall(Exec(rows, sts[0]), sts[1..], k);
    }
  }

  /** The kick mark is set exactly on kicked and revoked rows. */
  predicate MarksOk(rows: Rows) {
    forall k | k in rows :: rows[k].kickedAt.Some? <==> rows[k].state == 1 || rows[k].state == 3
  }

  lemma {:induction false} MarksStayOk(rows: Rows, sts: seq<Statement>)
    requires MarksOk(rows)
    ensures MarksOk(ExecAll(rows, sts))
    decreases |sts|
  {
    if sts == [] {
    } else {
      MarksStayOk(Exec(rows, sts[0]), sts[1..]);
    }
  }

  /** A frozen, pending or out-of-range row is left alone by every statement
      but an explicit reactivation: no login, kick, bump or revoke makes any
      token verify there. */
  lemma {:induction false} OnlyReactivateThaws(rows: Rows, sts: seq<Statement>, k: Key, tokenVersion: int)
    requires k in rows && rows[k].state !in {0, 1, 3}
    requires Reactivate(k) !in sts
    ensures k in ExecAll(rows, sts) && ExecAll(rows, sts)[k].state == rows[k].state
    ensures !Verify(ExecAll(rows, sts), k, tokenVersion).Valid?
    decreases |sts|
  {
    if sts == [] {
    } else {
      OnlyReactivateThaws(Exec(rows, sts[0]), sts[1..], k, tokenVersion);
    }
  }

  /** After the reactivation of a row, exactly the tokens not older than the row verify. */
  lemma ReactivateThaws(rows: Rows, k: Key, tokenVersion: int)
    requires k in rows
    ensures Verify(Exec(rows, Reactivate(k)), k, tokenVersion).Valid? <==> tokenVersion >= rows[k].version
  {
  }

  // ----- Kicking all other devices -----

  /** What the SELECT of kick_other_devices returns. */
  function OtherActive(rows: Rows, user: nat, current: nat): set<Key> {
    set k | k in rows && k.user == user && k.device != current && rows[k].state == 0
  }

  datatype KickedDevice = KickedDevice(key: Key, oldVersion: int, newVersion: int)

  /** k is another Active device of the user. */
  predicate Other(rows: Rows, k: Key, user: nat, current: nat) {
    k in rows && k.user == user && k.device != current && rows[k].state == 0
  }

  /** Whatever runs between the SELECT and the UPDATE, right after the UPDATE
      every other device that was Active at the SELECT is inactive at a version
      above the one it had, and the UPDATE touched no other row. */
  lemma KickOthersIsEffective(rows: Rows, between: seq<Statement>, user: nat, current: nat, now: int, reason: string)
    ensures var before := ExecAll(rows, between);
      var after := Exec(before, Kick(OtherActive(rows, user, current), now, Some(current), reason));
      && (forall k | Other(rows, k, user, current) ::
            && k in before && k in after && after[k].state != 0 && after[k].version >= rows[k].version + 1
            && after[k] == (if before[k].state == 0 then Row(before[k].version + 1, 1, Some(now), Some(current), Some(reason))
                            else before[k])
            && forall v | v <= rows[k].version :: !Verify(after, k, v).Valid?)
      && after.Keys == before.Keys
      && (forall k | k in before && !Other(rows, k, user, current) :: after[k] == before[k])
  {
    forall k | Other(rows, k, user, current)
      ensures k in ExecAll(rows, between)
      ensures ExecAll(rows, between)[k].version >= rows[k].version
      ensures ExecAll(rows, between)[k].state != 0 ==> ExecAll(rows, between)[k].version > rows[k].version
    {
      VersionsNeverFall(rows, between, k);
    }
  }

  /** What kicking the others leaves behind: each of them reported once, with the
      versions of the SELECT, and inactive; every other row as it was before the
      UPDATE. */
  ghost predicate OthersKicked(rows: Rows, before: Rows, after: Rows, report: seq<KickedDevice>, user: nat, current: nat) {
    && (forall i, j | 0 <= i < j < |report| :: report[i].key != report[j].key)
    && (forall i | 0 <= i < |report| ::
          Other(rows, report[i].key, user, current)
          && report[i] == KickedDevice(report[i].key, rows[report[i].key].version, rows[report[i].key].version + 1))
    && (forall k | Other(rows, k, user, current) ::
          && (exists i :: 0 <= i < |report| && report[i].key == k)
          && k in after && after[k].state != 0 && after[k].version >= rows[k].version + 1)
    && after.Keys == before.Keys
    && (forall k | k in before && !Other(rows, k, user, current) :: after[k] == before[k])
  }

  /** report names each selected device once, with the versions of the SELECT. */
  predicate ReportOk(report: seq<KickedDevice>, selected: set<Key>, rows: Rows) {
    && (forall i, j | 0 <= i < j < |report| :: report[i].key != report[j].key)
    && (forall i | 0 <= i < |report| ::
          report[i].key in selected && report[i].key in rows && report[i].oldVersion == rows[report[i].key].version
          && report[i].newVersion == report[i].oldVersion + 1)
    && (forall k | k in selected :: exists i :: 0 <= i < |report| && report[i].key == k)
  }

  lemma ReportMore(report: seq<KickedDevice>, done: set<Key>, rows: Rows, k: Key)
    requires ReportOk(report, done, rows) && k !in done && k in rows
    ensures ReportOk(report + [KickedDevice(k, rows[k].version, rows[k].version + 1)], done + {k}, rows)
  {
    var next := report + [KickedDevice(k, rows[k].version, rows[k].version + 1)];
    forall d | d in done + {k}
      ensures exists i :: 0 <= i < |next| && next[i].key == d
    {
      if d == k {
        assert next[|report|].key == d;
      } else {
        var i :| 0 <= i < |report| && report[i].key == d;
        assert next[i].key == d;
      }
    }
  }

  method Report(selected: set<Key>, rows: Rows) returns (report: seq<KickedDevice>)
    requires selected <= rows.Keys
    ensures ReportOk(report, selected, rows)
  {
    var todo := selected;
    report := [];
    while todo != {}
      invariant todo <= selected && ReportOk(report, selected - todo, rows)
      decreases |todo|
    {
      hide ReportOk;
      var k :| k in todo;
      ReportMore(report, selected - todo, rows, k);
      assert selected - (todo - {k}) == selected - todo + {k};
      todo, report := todo - {k}, report + [KickedDevice(k, rows[k].version, rows[k].version + 1)];
    }
    assert selected - todo == selected;
  }

  // ----- The service -----

  datatype Error = BadRequest | NotFound | Database

  lemma NothingBetween(rows: Rows)
    ensures ExecAll(rows, []) == rows
  {
  }

  class DeviceManagerDb {
    var rows: Rows
    const parseUuid: string -> Option<nat>

    constructor (rows: Rows, parseUuid: string -> Option<nat>)
      ensures this.rows == rows && this.parseUuid == parseUuid
    {
      this.rows := rows;
      this.parseUuid := parseUuid;
    }

    /** In all methods up says whether the database answers. */
    method VerifyDeviceSession(user: nat, device: string, tokenVersion: int, up: bool) returns (r: Result<VerifyResult, Error>)
      ensures r.Err? <==> parseUuid(device).None? || !up
      ensures r.Err? ==> r.error == if parseUuid(device).None? then BadRequest else Database
      ensures r.Ok? ==>
        var k := Key(user, parseUuid(device).value);
        && (r.value.DeviceNotFound? <==> k !in rows)
        && (k in rows ==>
              var row := rows[k];
              && (r.value.Valid? <==> row.state == 0 && row.version <= tokenVersion)
              && (r.value.Valid? ==> r.value.version == row.version)
              && (r.value.VersionMismatch? <==> row.state == 0 && tokenVersion < row.version)
              && (r.value.VersionMismatch? ==> r.value == VersionMismatch(tokenVersion, row.version))
              && (r.value.SessionInactive? <==> row.state != 0)
              && (r.value.SessionInactive? ==>
                    r.value.state == if row.state == 1 then Kicked else if row.state == 2 then Frozen
                                     else if row.state == 4 then PendingVerify else Revoked))
    {
      var id := parseUuid(device);
      if id.None? { return Err(BadRequest); }
      if !up { return Err(Database); }
      return Ok(Verify(rows, Key(user, id.value), tokenVersion));
    }

    /** Statements of other requests; callers know only the contract. */
    method OtherRequests() returns (ghost sts: seq<Statement>)
      modifies this
      ensures rows == ExecAll(old(rows), sts)
    {
      sts := [];
    }

    method KickDevice(user: nat, device: string, kicker: Option<string>, now: int, reason: string, up: bool)
      returns (r: Result<(), Error>)
      modifies this
      ensures r.Err? ==> rows == old(rows)
      ensures r == Err(BadRequest) <==> parseUuid(device).None? || (kicker.Some? && parseUuid(kicker.value).None?)
      ensures r != Err(BadRequest) ==>
        var k := Key(user, parseUuid(device).value);
        r == if !up then Err(Database) else if k in old(rows) && old(rows)[k].state == 0 then Ok(()) else Err(NotFound)
      ensures r.Ok? ==>
        var k := Key(user, parseUuid(device).value);
        && k in rows && rows == old(rows)[k := rows[k]]
        && rows[k] == Row(old(rows)[k].version + 1, 1, Some(now), if kicker.Some? then parseUuid(kicker.value) else None, Some(reason))
    {
      var id := parseUuid(device);
      if id.None? { return Err(BadRequest); }
      var kickerId: Option<nat> := None;
      if kicker.Some? {
        kickerId := parseUuid(kicker.value);
        if kickerId.None? { return Err(BadRequest); }
      }
      if !up { return Err(Database); }
      var k := Key(user, id.value);
      var hit := k in rows && rows[k].state == 0;
      rows := Exec(rows, Kick({k}, now, kickerId, reason));
      return if hit then Ok(()) else Err(NotFound);
    }

    /** The SELECT, other requests, then the UPDATE and the report built from
        the SELECT. An empty selection skips the UPDATE. */
    method KickOtherDevices(user: nat, currentDevice: string, now: int, reason: string, selects: bool, updates: bool)
      returns (r: Result<seq<KickedDevice>, Error>, ghost between: seq<Statement>)
      modifies this
      ensures r == Err(BadRequest) <==> parseUuid(currentDevice).None?
      ensures parseUuid(currentDevice).Some? ==>
        var current := parseUuid(currentDevice).value;
        && (r.Err? <==> !selects || (!updates && exists k :: Other(old(rows), k, user, current)))
        && (r.Ok? ==> OthersKicked(old(rows), ExecAll(old(rows), between), rows, r.value, user, current))
        && (r.Ok? && r.value == [] ==> rows == old(rows))
      ensures r.Err? ==> rows == ExecAll(old(rows), between)
    {
      between := [];
      var current := parseUuid(currentDevice);
      if current.None? { return Err(BadRequest), []; }
      if !selects { return Err(Database), []; }
      hide Exec, ExecAll, Verify;
      var selected := OtherActive(rows, user, current.value);
      var snapshot := rows;
      assert forall k :: k in selected <==> Other(rows, k, user, current.value);
      if selected == {} {
        NothingBetween(rows);
        return Ok([]), [];
      }
      between := OtherRequests();
      if !updates { return Err(Database), between; }
      KickOthersIsEffective(snapshot, between, user, current.value, now, reason);
      rows := Exec(rows, Kick(selected, now, current, reason));
      var report := Report(selected, snapshot);
      return Ok(report), between;
    }

    method IncrementSessionVersion(user: nat, device: string, reason: string, up: bool) returns (r: Result<int, Error>)
      modifies this
      ensures r.Err? ==> rows == old(rows)
      ensures r.Ok? <==> parseUuid(device).Some? && up && Key(user, parseUuid(device).value) in old(rows)
      ensures r.Err? ==> r.error == if parseUuid(device).None? then BadRequest else Database
      ensures r.Ok? ==>
        var k := Key(user, parseUuid(device).value);
        && rows == old(rows)[k := old(rows)[k].(version := old(rows)[k].version + 1, reason := Some(reason))]
        && r.value == rows[k].version
    {
      var id := parseUuid(device);
      if id.None? { return Err(BadRequest); }
      var k := Key(user, id.value);
      if !up || k !in rows { return Err(Database); }
      rows := Exec(rows, Increment(k, reason));
      return Ok(rows[k].version);
    }

    method BumpUserSessions(user: nat, up: bool) returns (r: Result<nat, Error>)
      modifies this
      ensures r.Ok? <==> up
      ensures r.Err? ==> r.error == Database && rows == old(rows)
      ensures r.Ok? ==>
        && rows.Keys == old(rows).Keys
        && (forall k | k in rows ::
              rows[k] == if k.user == user && old(rows)[k].state == 0
                         then old(rows)[k].(version := old(rows)[k].version + 1) else old(rows)[k])
        && r.value == |set k | k in old(rows) && k.user == user && old(rows)[k].state == 0|
    {
      if !up { return Err(Database); }
      var count := |set k | k in rows && k.user == user && rows[k].state == 0|;
      rows := Exec(rows, Bump(user));
      return Ok(count);
    }

    method RevokeAllDevices(user: nat, now: int, reason: string, up: bool) returns (r: Result<nat, Error>)
      modifies this
      ensures r.Ok? <==> up
      ensures r.Err? ==> r.error == Database && rows == old(rows)
      ensures r.Ok? ==>
        && rows.Keys == old(rows).Keys
        && (forall k | k in rows && (k.user != user || old(rows)[k].state != 0) :: rows[k] == old(rows)[k])
        && (forall k | k in rows && k.user == user && old(rows)[k].state == 0 ::
              rows[k] == Row(old(rows)[k].version + 1, 3, Some(now), old(rows)[k].kickedBy, Some(reason)))
        && (forall k, v | k in rows && k.user == user :: !Verify(rows, k, v).Valid?)
        && r.value == |set k | k in old(rows) && k.user == user && old(rows)[k].state == 0|
    {
      if !up { return Err(Database); }
      var count := |set k | k in rows && k.user == user && rows[k].state == 0|;
      rows := Exec(rows, RevokeAll(user, now, reason));
      return Ok(count);
    }

    method ReactivateDevice(user: nat, device: string, up: bool) returns (r: Result<(), Error>)
      modifies this
      ensures r.Err? <==> parseUuid(device).None? || !up
      ensures r.Err? ==> r.error == (if parseUuid(device).None? then BadRequest else Database) && rows == old(rows)
      ensures r.Ok? ==>
        var k := Key(user, parseUuid(device).value);
        if k in old(rows) then rows == old(rows)[k := Row(old(rows)[k].version, 0, None, None, None)] else rows == old(rows)
    {
      var id := parseUuid(device);
      if id.None? { return Err(BadRequest); }
      if !up { return Err(Database); }
      rows := Exec(rows, Reactivate(Key(user, id.value)));
      return Ok(());
    }

    /** The upsert of every login; it returns whether the row is new and the
        version to embed in the tokens. */
    method RegisterOrUpdateDevice(user: nat, device: string, up: bool) returns (r: Result<(bool, int), Error>)
      modifies this
      ensures r.Err? <==> parseUuid(device).None? || !up
      ensures r.Err? ==> r.error == (if parseUuid(device).None? then BadRequest else Database) && rows == old(rows)
      ensures r.Ok? ==>
        var k := Key(user, parseUuid(device).value);
        && rows == Exec(old(rows), Register(k))
        && r.value == (k !in old(rows), rows[k].version)
        && rows == old(rows)[k := if k !in old(rows) then Row(1, 0, None, None, None)
                                  else if old(rows)[k].state in {1, 3} then Row(old(rows)[k].version + 1, 0, None, None, None)
                                  else old(rows)[k].(version := old(rows)[k].version + 1)]
    {
      var id := parseUuid(device);
      if id.None? { return Err(BadRequest); }
      if !up { return Err(Database); }
      var k := Key(user, id.value);
      var created := k !in rows;
      rows := Exec(rows, Register(k));
      return Ok((created, rows[k].version));
    }
  }
}
