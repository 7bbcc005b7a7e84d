/** The migration runner: any number of sessions, each running the polling loop,
    the advisory lock, the ledger and one transaction per migration, interleaved
    statement by statement. A session may die or a statement may fail anywhere. */
module Migrations {
  import opened Text

  type Pid = nat

  const BASELINE := "001_baseline"
  const PUBLIC := "public"

  /** The digest stands for the SQL text. */
  datatype Migration = Migration(name: string, digest: string)

  /** One row of the ledger table; rows written before digests existed carry none. */
  datatype LedgerRow = LedgerRow(name: string, digest: Option<string>)

  datatype Error =
    | LockTimeout
    | LockFailed
    | DigestChanged(name: string)
    | DigestMissing(name: string)
    | BaselineRefused(name: string)
    | HookFailed(name: string)
    | StatementFailed

  function RowOf(m: Migration): LedgerRow { LedgerRow(m.name, Some(m.digest)) }

  function RowsOf(ms: seq<Migration>): (rows: seq<LedgerRow>)
    ensures |rows| == |ms|
    ensures forall i | 0 <= i < |ms| :: rows[i] == RowOf(ms[i])
  {
    if ms == [] then [] else [RowOf(ms[0])] + RowsOf(ms[1..])
  }

  predicate Named(rows: seq<LedgerRow>, name: string) {
    exists i :: 0 <= i < |rows| && rows[i].name == name
  }

  predicate DistinctRows(rows: seq<LedgerRow>) {
    forall i, j | 0 <= i < j < |rows| :: rows[i].name != rows[j].name
  }

  predicate DistinctNames(ms: seq<Migration>) {
    forall i, j | 0 <= i < j < |ms| :: ms[i].name != ms[j].name
  }

  /** What the embedded list guarantees: strictly sorted names, baseline first. */
  predicate ListOk(list: seq<Migration>) {
    DistinctNames(list) && forall i | 0 < i < |list| :: list[i].name != BASELINE
  }

  /** The digest recorded under a name, first match. */
  function Find(rows: seq<LedgerRow>, name: string): (r: Option<LedgerRow>)
    ensures r.None? <==> !Named(rows, name)
    ensures r.Some? ==> r.value in rows && r.value.name == name
  {
    if rows == [] then None
    else if rows[0].name == name then Some(rows[0])
    else
      var r := Find(rows[1..], name);
      assert r.Some? ==> exists i :: 0 <= i < |rows[1..]| && rows[1..][i].name == name;
      assert forall i | 1 <= i < |rows| :: rows[i] == rows[1..][i - 1];
      r
  }

  // ----- The decision taken for each listed migration -----

  datatype Decision = Skip | Refuse(error: Error) | Execute

  function Decide(m: Migration, applied: seq<LedgerRow>): Decision {
    match Find(applied, m.name)
    case Some(row) =>
      if row.digest == Some(m.digest) then Skip
      else if row.digest.Some? then Refuse(DigestChanged(m.name))
      else Refuse(DigestMissing(m.name))
    case None =>
      if m.name == BASELINE && applied != [] then Refuse(BaselineRefused(m.name)) else Execute
  }

  // ----- State -----

  /** effects is the history of committed migration SQL, oldest first. */
  datatype Db = Db(ledger: Option<seq<LedgerRow>>, effects: seq<LedgerRow>)

  datatype Tx = Tx(ledger: Option<seq<LedgerRow>>, effects: seq<LedgerRow>, path: string)

  datatype Stage = Began | SqlRan | HookPassed | LedgerEnsured | RowInserted

  datatype Outcome = Success(executed: seq<Migration>) | Failure(error: Error)

  datatype Phase =
    | Polling
    | Locked
    | Deciding(next: nat, applied: seq<LedgerRow>, executed: seq<Migration>)
    | InTx(next: nat, applied: seq<LedgerRow>, executed: seq<Migration>, stage: Stage, tx: Tx)
    | Committed(next: nat, applied: seq<LedgerRow>, executed: seq<Migration>)
    | Unlocking(outcome: Outcome)
    | Finished(outcome: Outcome)

  /** A connected session: its embedded list, its search_path, where it stands. */
  datatype Session = Session(list: seq<Migration>, path: string, phase: Phase)

  datatype System = System(db: Db, lock: Option<Pid>, sessions: map<Pid, Session>)

  function Rows(ledger: Option<seq<LedgerRow>>): seq<LedgerRow> {
    if ledger.Some? then ledger.value else []
  }

  // ----- Events: one statement, or one failure, of one session -----

  datatype Event =
    | Start(p: Pid, list: seq<Migration>, path: string)
    | Rerun(p: Pid)
    | TryLock(p: Pid)
    | GiveUp(p: Pid)
    | LockFails(p: Pid, taken: bool)
    | ReadLedger(p: Pid)
    | Consider(p: Pid)
    | RunSql(p: Pid, rebuildsSchema: bool, path: string)
    | Hook(p: Pid, ok: bool)
    | EnsureLedger(p: Pid)
    | InsertRow(p: Pid)
    | Commit(p: Pid)
    | RestorePath(p: Pid)
    | StatementFails(p: Pid)
    | Unlock(p: Pid, ok: bool)
    | Disconnect(p: Pid)

  predicate Critical(ph: Phase) {
    ph.Locked? || ph.Deciding? || ph.InTx? || ph.Committed? || ph.Unlocking?
  }

  predicate Enabled(s: System, e: Event) {
    if e.Start? then e.p !in s.sessions else e.p in s.sessions && CanTake(s.sessions[e.p], e)
  }

  predicate CanTake(x: Session, e: Event) {
    match e
    case Start(_, _, _) => false
    case Rerun(_) => x.phase.Finished?
    case TryLock(_) => x.phase.Polling?
    case GiveUp(_) => x.phase.Polling?
    case LockFails(_, _) => x.phase.Polling?
    case ReadLedger(_) => x.phase.Locked?
    case Consider(_) => x.phase.Deciding? && x.phase.next <= |x.list|
    case RunSql(_, _, _) => x.phase.InTx? && x.phase.stage.Began? && x.phase.next < |x.list|
    case Hook(_, _) => x.phase.InTx? && x.phase.stage.SqlRan? && x.phase.next < |x.list|
    case EnsureLedger(_) => x.phase.InTx? && x.phase.stage.HookPassed?
    case InsertRow(_) => x.phase.InTx? && x.phase.stage.LedgerEnsured? && x.phase.next < |x.list|
    case Commit(_) => x.phase.InTx? && x.phase.stage.RowInserted?
    case RestorePath(_) => x.phase.Committed? && x.phase.next < |x.list|
    case StatementFails(_) => x.phase.Locked? || x.phase.InTx? || x.phase.Committed?
    case Unlock(_, _) => x.phase.Unlocking?
    case Disconnect(_) => true
  }

  // ----- What an event does to each part of the system -----

  /** Only a read of the ledger, which creates its table, and a commit reach the database. */
  function DbAfter(s: System, e: Event): Db
    requires Enabled(s, e)
  {
    match e
    case ReadLedger(_) => s.db.(ledger := Some(Rows(s.db.ledger)))
    case Commit(p) => var tx := s.sessions[p].phase.tx; Db(tx.ledger, tx.effects)
    case _ => s.db
  }

  /** A session that already holds the lock gets it again; the answer of a lock
      statement may be lost; an error of the unlock statement is ignored and the
      lock stays; a lost connection frees it. */
  function LockAfter(s: System, e: Event): Option<Pid>
    requires Enabled(s, e)
  {
    match e
    case TryLock(p) => if s.lock.None? then Some(p) else s.lock
    case LockFails(p, taken) => if taken && s.lock.None? then Some(p) else s.lock
    case Unlock(p, ok) => if ok && s.lock == Some(p) then None else s.lock
    case Disconnect(p) => if s.lock == Some(p) then None else s.lock
    case _ => s.lock
  }

  /** The turn of the next listed migration begins, or the list is at its end. */
  function Considered(x: Session, db: Db): Phase
    requires x.phase.Deciding? && x.phase.next <= |x.list|
  {
    var ph := x.phase;
    if ph.next == |x.list| then Unlocking(Success(ph.executed))
    else
      match Decide(x.list[ph.next], ph.applied)
      case Skip => Deciding(ph.next + 1, ph.applied, ph.executed)
      case Refuse(err) => Unlocking(Failure(err))
      case Execute => InTx(ph.next, ph.applied, ph.executed, Began, Tx(db.ledger, db.effects, x.path))
  }

  /** The statements of one transaction before its commit. */
  predicate InTransaction(e: Event) {
    e.RunSql? || e.Hook? || e.EnsureLedger? || e.InsertRow?
  }

  function TxPhase(x: Session, e: Event): Phase
    requires CanTake(x, e) && InTransaction(e)
  {
    var ph := x.phase;
    match e
    case RunSql(_, rebuilds, path) =>
      var m := x.list[ph.next];
      var ledger := if m.name == BASELINE && rebuilds then None else ph.tx.ledger;
      ph.(stage := SqlRan, tx := Tx(ledger, ph.tx.effects + [RowOf(m)], path))
    case Hook(_, ok) =>
      if ok then ph.(stage := HookPassed) else Unlocking(Failure(HookFailed(x.list[ph.next].name)))
    case EnsureLedger(_) =>
      ph.(stage := LedgerEnsured, tx := ph.tx.(ledger := Some(Rows(ph.tx.ledger))))
    case InsertRow(_) =>
      var m := x.list[ph.next];
      if Named(Rows(ph.tx.ledger), m.name)   // UNIQUE (name)
      then Unlocking(Failure(StatementFailed))
      else ph.(stage := RowInserted, tx := ph.tx.(ledger := Some(Rows(ph.tx.ledger) + [RowOf(m)])))
  }

  function PhaseAfter(x: Session, e: Event, db: Db, lock: Option<Pid>): Phase
    requires CanTake(x, e) && !e.Disconnect?
  {
    var ph := x.phase;
    if InTransaction(e) then TxPhase(x, e)
    else
      match e
      case Rerun(_) => Polling
      case TryLock(p) => if lock.None? || lock == Some(p) then Locked else Polling
      case GiveUp(_) => Finished(Failure(LockTimeout))
      case LockFails(_, _) => Finished(Failure(LockFailed))
      case ReadLedger(_) => Deciding(0, Rows(db.ledger), [])
      case Consider(_) => Considered(x, db)
      case Commit(_) => Committed(ph.next, ph.applied, ph.executed)
      case RestorePath(_) => Deciding(ph.next + 1, ph.applied, ph.executed + [x.list[ph.next]])
      case StatementFails(_) => Unlocking(Failure(StatementFailed))
      case Unlock(_, _) => Finished(ph.outcome)
  }

  /** SET in a transaction lasts when it commits. */
  function PathAfter(x: Session, e: Event): string {
    if e.Commit? && x.phase.InTx? then x.phase.tx.path else if e.RestorePath? then PUBLIC else x.path
  }

  function SessionAfter(s: System, e: Event): Session
    requires Enabled(s, e) && !e.Disconnect?
  {
    if e.Start? then Session(e.list, e.path, Polling)
    else var x := s.sessions[e.p]; Session(x.list, PathAfter(x, e), PhaseAfter(x, e, s.db, s.lock))
  }

  function Apply(s: System, e: Event): System
    requires Enabled(s, e)
  {
    System(DbAfter(s, e), LockAfter(s, e),
           if e.Disconnect? then s.sessions - {e.p} else s.sessions[e.p := SessionAfter(s, e)])
  }

  // ----- Runs -----

  predicate IsRun(states: seq<System>, events: seq<Event>) {
    |states| == |events| + 1 &&
    forall i | 0 <= i < |events| :: Enabled(states[i], events[i]) && states[i + 1] == Apply(states[i], events[i])
  }

  predicate ListsOk(events: seq<Event>) {
    forall i | 0 <= i < |events| && events[i].Start? :: ListOk(events[i].list)
  }

  /** Nobody connected; the ledger lists what was committed before. */
  predicate Init(s: System) {
    s.sessions == map[] && s.lock.None? && s.db.effects == Rows(s.db.ledger) && DistinctRows(s.db.effects)
  }

  // ----- The invariant -----

  predicate Recorded(rows: seq<LedgerRow>, m: Migration) { RowOf(m) in rows }

  predicate RecordedUpTo(rows: seq<LedgerRow>, list: seq<Migration>, n: nat)
    requires n <= |list|
  {
    forall j | 0 <= j < n :: Recorded(rows, list[j])
  }

  /** executed holds list entries before n, all of them absent from the snapshot. */
  predicate ExecutedOk(list: seq<Migration>, n: nat, applied: seq<LedgerRow>, executed: seq<Migration>) {
    |executed| <= n <= |list| &&
    forall k | 0 <= k < |executed| :: executed[k] in list[..n] && !Named(applied, executed[k].name)
  }

  predicate TxOk(effects: seq<LedgerRow>, m: Migration, applied: seq<LedgerRow>, stage: Stage, tx: Tx) {
    !Named(applied, m.name) &&
    match stage
    case Began => tx.effects == effects && Rows(tx.ledger) == effects
    case SqlRan => tx.effects == effects + [RowOf(m)] && Rows(tx.ledger) == effects
    case HookPassed => tx.effects == effects + [RowOf(m)] && Rows(tx.ledger) == effects
    case LedgerEnsured => tx.effects == effects + [RowOf(m)] && Rows(tx.ledger) == effects
    case RowInserted => tx.effects == effects + [RowOf(m)] && tx.ledger == Some(tx.effects)
  }

  /** n listed migrations considered, those of executed carried out. */
  predicate Underway(effects: seq<LedgerRow>, x: Session, n: nat, applied: seq<LedgerRow>, executed: seq<Migration>) {
    && ExecutedOk(x.list, n, applied, executed)
    && effects == applied + RowsOf(executed)
    && RecordedUpTo(effects, x.list, n)
    && (executed != [] ==> x.path == PUBLIC)
  }

  predicate SessionOk(effects: seq<LedgerRow>, x: Session) {
    ListOk(x.list) &&
    match x.phase
    case Polling => true
    case Locked => true
    case Deciding(n, applied, executed) => Underway(effects, x, n, applied, executed)
    case InTx(n, applied, executed, stage, tx) =>
      n < |x.list| && Underway(effects, x, n, applied, executed)
      && (x.list[n].name == BASELINE ==> effects == [])
      && TxOk(effects, x.list[n], applied, stage, tx)
    case Committed(n, applied, executed) =>
      n < |x.list| && ExecutedOk(x.list, n, applied, executed) && !Named(applied, x.list[n].name)
      && effects == applied + RowsOf(executed + [x.list[n]])
      && RecordedUpTo(effects, x.list, n + 1)
    case Unlocking(o) => o.Success? ==> RecordedUpTo(effects, x.list, |x.list|)
    case Finished(o) => o.Success? ==> RecordedUpTo(effects, x.list, |x.list|)
  }

  predicate SessionsOk(s: System) {
    forall p | p in s.sessions :: SessionOk(s.db.effects, s.sessions[p])
  }

  predicate Exclusive(s: System) {
    forall p | p in s.sessions && Critical(s.sessions[p].phase) :: s.lock == Some(p)
  }

  predicate Inv(s: System) {
    Rows(s.db.ledger) == s.db.effects && DistinctRows(s.db.effects) && Exclusive(s) && SessionsOk(s)
  }
}
