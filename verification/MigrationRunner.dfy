/** The runner as the loops it is written as, executing one statement of the
    migration machine at a time while other sessions run between any two. */
module MigrationRunner {
  import opened Text
  import opened Migrations
  import opened MigrationSafety

  const LOCK_WAIT_MS := 60_000
  const POLL_MS := 500

  // ----- What others can do between two statements of p -----

  ghost predicate OthersRan(p: Pid, s: System, t: System) {
    exists states: seq<System>, events :: OthersRun(p, states, events, s, t)
  }

  predicate OthersRun(p: Pid, states: seq<System>, events: seq<Event>, s: System, t: System) {
    IsRun(states, events) && states[0] == s && states[|states| - 1] == t && ListsOk(events)
    && forall i | 0 <= i < |events| :: events[i].p != p
  }

  /** While p is between reading the ledger and unlocking, nobody else can
      change the database; p's own session is never touched. */
  predicate Rely(p: Pid, s: System, t: System)
    requires p in s.sessions
  {
    && Inv(t)
    && p in t.sessions && t.sessions[p] == s.sessions[p]
    && s.db.effects <= t.db.effects
    && (Critical(s.sessions[p].phase) ==> t.db == s.db)
  }

  lemma RelyStep(p: Pid, s: System, e: Event)
    requires Inv(s) && p in s.sessions && Enabled(s, e) && e.p != p
    requires e.Start? ==> ListOk(e.list)
    ensures Rely(p, s, Apply(s, e))
  {
    InvStep(s, e);
    OtherSession(s, e, p);
  }

  lemma {:induction false} OthersRelyAt(p: Pid, states: seq<System>, events: seq<Event>, s: System, t: System, i: nat)
    requires Inv(s) && p in s.sessions && OthersRun(p, states, events, s, t) && i < |states|
    ensures Rely(p, s, states[i])
  {
    hide Inv, Apply, Enabled;
    if i == 0 {
    } else {
      OthersRelyAt(p, states, events, s, t, i - 1);
      RelyStep(p, states[i - 1], events[i - 1]);
    }
  }

  lemma OthersRely(p: Pid, s: System, t: System)
    requires Inv(s) && p in s.sessions && OthersRan(p, s, t)
    ensures Rely(p, s, t)
  {
    var states: seq<System>, events :| OthersRun(p, states, events, s, t);
    OthersRelyAt(p, states, events, s, t, |states| - 1);
  }

  // ----- The runner -----

  lemma RowsOfBoth(applied: seq<LedgerRow>, a: seq<Migration>, b: seq<Migration>)
    ensures applied + RowsOf(a + b) == applied + RowsOf(a) + RowsOf(b)
  {
  }

  /** after extends before by the rows of a first part of pending. */
  predicate Extends(before: seq<LedgerRow>, after: seq<LedgerRow>, pending: seq<Migration>) {
    |before| <= |after| <= |before| + |pending| && after == before + RowsOf(pending[..|after| - |before|])
  }

  lemma PartDone(applied: seq<LedgerRow>, executed: seq<Migration>, rest: seq<Migration>)
    ensures Extends(applied, applied + RowsOf(executed), executed + rest)
  {
  }

  lemma NothingDone(applied: seq<LedgerRow>, pending: seq<Migration>)
    ensures Extends(applied, applied, pending) && applied + RowsOf([]) == applied
  {
  }

  /** What landed in a turn is the next of the plan, even if the turn then failed. */
  lemma LandedPart(list: seq<Migration>, n: nat, applied: seq<LedgerRow>, executed: seq<Migration>, landed: seq<Migration>)
    requires n < |list| && (landed == [] || (landed == [list[n]] && Decide(list[n], applied).Execute?))
    ensures Extends(applied, applied + RowsOf(executed) + RowsOf(landed), executed + Plan(list, n, applied))
  {
    hide RowsOf, Extends;
    RowsOfBoth(applied, executed, landed);
    hide Plan, Decide;
    if landed == [] {
      assert executed + landed == executed;
      PartDone(applied, executed, Plan(list, n, applied));
    } else {
      PlanStep(list, n, applied, executed, landed);
      PartDone(applied, executed + landed, Plan(list, n + 1, applied));
    }
  }

  lemma PlanStep(list: seq<Migration>, n: nat, applied: seq<LedgerRow>, executed: seq<Migration>, done: seq<Migration>)
    requires n < |list| && !Decide(list[n], applied).Refuse?
    requires done == if Decide(list[n], applied).Execute? then [list[n]] else []
    ensures executed + Plan(list, n, applied) == executed + done + Plan(list, n + 1, applied)
  {
  }

  /** The migrations to execute, in list order, up to the first refusal. */
  function Plan(list: seq<Migration>, n: nat, applied: seq<LedgerRow>): seq<Migration>
    requires n <= |list|
    decreases |list| - n
  {
    if n == |list| then []
    else match Decide(list[n], applied)
         case Skip => Plan(list, n + 1, applied)
         case Refuse(_) => []
         case Execute => [list[n]] + Plan(list, n + 1, applied)
  }

  lemma PlanEnds(list: seq<Migration>, applied: seq<LedgerRow>)
    ensures Plan(list, |list|, applied) == []
  {
  }

  /** Unless something is refused, the plan is what the snapshot does not name. */
  lemma {:induction false} PlanIsPending(list: seq<Migration>, n: nat, applied: seq<LedgerRow>)
    requires n <= |list| && forall k | n <= k < |list| :: !Decide(list[k], applied).Refuse?
    ensures forall m :: m in Plan(list, n, applied) <==> m in list[n..] && !Named(applied, m.name)
    decreases |list| - n
  {
    hide Named;
    if n == |list| {
    } else {
      PlanIsPending(list, n + 1, applied);
      assert list[n..] == [list[n]] + list[n + 1..];
    }
  }

  lemma InsertIsFresh(s: System, p: Pid)
    requires Inv(s) && p in s.sessions && s.sessions[p].phase.InTx? && s.sessions[p].phase.stage.LedgerEnsured?
    ensures s.sessions[p].phase.next < |s.sessions[p].list|
    ensures !Named(Rows(s.sessions[p].phase.tx.ledger), s.sessions[p].list[s.sessions[p].phase.next].name)
  {
    FreshName(s.db.effects, s.sessions[p]);
  }

  lemma CommitAppends(s: System, p: Pid)
    requires Inv(s) && p in s.sessions && s.sessions[p].phase.InTx? && s.sessions[p].phase.stage.RowInserted?
    ensures s.sessions[p].phase.next < |s.sessions[p].list|
    ensures s.sessions[p].phase.tx.effects == s.db.effects + [RowOf(s.sessions[p].list[s.sessions[p].phase.next])]
  {
  }

  /** Readings of the clock at least a sleep apart. */
  ghost predicate ClockOk(start: nat, clock: nat -> nat) {
    start <= clock(0) && forall k: nat :: clock(k) + POLL_MS <= clock(k + 1)
  }

  lemma {:induction false} ClockAt(start: nat, clock: nat -> nat, k: nat)
    requires ClockOk(start, clock)
    ensures clock(k) >= start + POLL_MS * k
  {
    if k == 0 {
    } else {
      ClockAt(start, clock, k - 1);
      assert clock(k - 1) + POLL_MS <= clock(k - 1 + 1);
    }
  }

  predicate Grew(before: seq<LedgerRow>, after: seq<LedgerRow>) {
    before <= after
  }

  lemma GrewItself(rows: seq<LedgerRow>)
    ensures Grew(rows, rows)
  {
  }

  lemma GrewOn(a: seq<LedgerRow>, b: seq<LedgerRow>, c: seq<LedgerRow>)
    requires Grew(a, b) && b <= c
    ensures Grew(a, c)
  {
  }

  const MAX_POLLS := LOCK_WAIT_MS / POLL_MS

  /** A reading before the deadline is one of the first 120. */
  lemma PollsLeft(start: nat, clock: nat -> nat, k: nat)
    requires ClockOk(start, clock)
    ensures clock(k) < start + LOCK_WAIT_MS ==> k < MAX_POLLS
  {
    ClockAt(start, clock, k);
  }

  /** Where a statement of a migration's turn fails. A commit may have landed
      although its answer is an error. */
  datatype FailurePoint = AtBegin | AtSql | AtHook | AtPath | AtLedger | AtInsert | AtCommit(landed: bool) | AtRestore

  /** How the turn of a migration goes: what its SQL does, and where it fails, if anywhere. */
  datatype Course = Course(rebuildsSchema: bool, path: string, fails: Option<FailurePoint>)

  /** Whether the migration is committed, even if the run then ends with an error. */
  predicate Lands(c: Course) {
    c.fails.None? || c.fails.value == AtCommit(true) || c.fails.value.AtRestore?
  }

  /** Whether the turn of m ends the run with an error. */
  predicate Fails(m: Migration, applied: seq<LedgerRow>, course: string -> Course) {
    match Decide(m, applied)
    case Skip => false
    case Refuse(_) => true
    case Execute => course(m.name).fails.Some?
  }

  /** What it takes for the turn of m to end well: on record with its digest, or
      not on record at all, not a baseline for a ledger in use, and no failure. */
  predicate GoesWell(m: Migration, applied: seq<LedgerRow>, course: string -> Course) {
    if Named(applied, m.name) then LedgerRow(m.name, Some(m.digest)) in applied
    else (m.name == "001_baseline" ==> applied == []) && course(m.name).fails.None?
  }

  lemma FailsIff(m: Migration, applied: seq<LedgerRow>, course: string -> Course)
    requires DistinctRows(applied)
    ensures Fails(m, applied, course) <==> !GoesWell(m, applied, course)
  {
    DecidedBy(m, applied);
    hide Decide;
    if Named(applied, m.name) {
      var i :| 0 <= i < |applied| && applied[i].name == m.name;
      assert applied[i] == LedgerRow(m.name, applied[i].digest);
    }
  }

  /** Why the turn of m ended the run with that error. */
  predicate StoppedBy(m: Migration, applied: seq<LedgerRow>, course: string -> Course, error: Error) {
    match error
    case DigestChanged(n) => n == m.name && Named(applied, n) && LedgerRow(n, None) !in applied && LedgerRow(n, Some(m.digest)) !in applied
    case DigestMissing(n) => n == m.name && LedgerRow(n, None) in applied
    case BaselineRefused(n) => n == m.name == "001_baseline" && !Named(applied, n) && applied != []
    case HookFailed(n) => n == m.name && !Named(applied, n) && course(n).fails == Some(AtHook)
    case StatementFailed => !Named(applied, m.name) && course(m.name).fails.Some? && course(m.name).fails != Some(AtHook)
    case _ => false
  }

  /** The error of a refusal, or of the failing point. */
  function ErrorOf(m: Migration, applied: seq<LedgerRow>, c: Course): Option<Error> {
    match Decide(m, applied)
    case Skip => None
    case Refuse(error) => Some(error)
    case Execute =>
      if c.fails.None? then None else if c.fails.value.AtHook? then Some(HookFailed(m.name)) else Some(StatementFailed)
  }

  predicate WellUpTo(list: seq<Migration>, n: nat, applied: seq<LedgerRow>, course: string -> Course)
    requires n <= |list|
  {
    forall k | 0 <= k < n :: GoesWell(list[k], applied, course)
  }

  /** A turn without an error goes well; one with an error says why. */
  lemma WellOn(list: seq<Migration>, n: nat, applied: seq<LedgerRow>, course: string -> Course)
    requires n < |list| && DistinctRows(applied) && WellUpTo(list, n, applied, course)
    ensures var error := ErrorOf(list[n], applied, course(list[n].name));
      if error.None? then WellUpTo(list, n + 1, applied, course) && !Decide(list[n], applied).Refuse?
                          && (Decide(list[n], applied).Execute? ==> course(list[n].name).fails.None?)
      else StoppedBy(list[n], applied, course, error.value)
           && forall m: nat | n < m <= |list| :: !WellUpTo(list, m, applied, course)
  {
    FailsIff(list[n], applied, course);
    if ErrorOf(list[n], applied, course(list[n].name)).Some? { ErrorIsReason(list[n], applied, course); }
    hide GoesWell, DistinctRows;
  }

  lemma {:induction false} WellMeansPlanned(list: seq<Migration>, n: nat, applied: seq<LedgerRow>, course: string -> Course)
    requires n <= |list| && DistinctRows(applied) && WellUpTo(list, n, applied, course)
    ensures forall k | 0 <= k < n :: !Decide(list[k], applied).Refuse?
  {
    forall k | 0 <= k < n
      ensures !Decide(list[k], applied).Refuse?
    {
      FailsIff(list[k], applied, course);
    }
  }

  lemma NothingWrong(list: seq<Migration>, applied: seq<LedgerRow>, course: string -> Course)
    ensures WellUpTo(list, 0, applied, course)
  {
  }

  lemma DistinctInside(s: System)
    requires Inv(s)
    ensures DistinctRows(s.db.effects)
  {
  }

  lemma ErrorIsReason(m: Migration, applied: seq<LedgerRow>, course: string -> Course)
    requires DistinctRows(applied) && ErrorOf(m, applied, course(m.name)).Some?
    ensures StoppedBy(m, applied, course, ErrorOf(m, applied, course(m.name)).value)
    ensures Fails(m, applied, course)
  {
    DecidedBy(m, applied);
    assert forall r | r in applied && r.name == m.name :: Named(applied, m.name);
  }

  /** From some ledger at least as long as before, exactly the listed migrations
      it did not name were executed, each recorded once, in order. */
  ghost predicate Executed(before: seq<LedgerRow>, after: seq<LedgerRow>, list: seq<Migration>, executed: seq<Migration>) {
    |executed| <= |after| &&
    var applied := after[..|after| - |executed|];
    && before <= applied && after == applied + RowsOf(executed)
    && forall m :: m in executed <==> m in list && !Named(applied, m.name)
  }

  lemma PrefixOfRows(applied: seq<LedgerRow>, executed: seq<Migration>)
    ensures var after := applied + RowsOf(executed);
      |executed| <= |after| && after[..|after| - |executed|] == applied
  {
  }

  lemma PrefixGrew(before: seq<LedgerRow>, after: seq<LedgerRow>, list: seq<Migration>)
    requires Extends(before, after, Plan(list, 0, before))
    ensures before <= after
  {
    hide Plan;
  }

  class Server {
    var sys: System

    constructor (s: System)
      ensures sys == s
    {
      sys := s;
    }

    /** One statement of p. */
    method Execute(e: Event)
      requires Inv(sys) && Enabled(sys, e) && !e.Start?
      modifies this
      ensures sys == Apply(old(sys), e) && Inv(sys)
      ensures old(sys).db.effects <= sys.db.effects
    {
      InvStep(sys, e);
      sys := Apply(sys, e);
    }

    /** Any number of statements of other sessions. Callers know only the contract. */
    method Others(p: Pid)
      requires Inv(sys) && p in sys.sessions
      modifies this
      ensures OthersRan(p, old(sys), sys) && Rely(p, old(sys), sys)
    {
      assert OthersRun(p, [sys], [], sys, sys);
      OthersRely(p, sys, sys);
    }

    /** One statement of p inside the critical section, then other sessions. */
    method Step(e: Event)
      requires Inv(sys) && Enabled(sys, e) && !e.Start? && !e.Disconnect?
      requires Critical(Apply(sys, e).sessions[e.p].phase)
      modifies this
      ensures Inv(sys) && e.p in sys.sessions
      ensures sys.db == Apply(old(sys), e).db && sys.sessions[e.p] == Apply(old(sys), e).sessions[e.p]
    {
      Execute(e);
      Others(e.p);
    }

    predicate Stands(p: Pid, list: seq<Migration>, phase: Phase)
      reads this
    {
      p in sys.sessions && sys.sessions[p].list == list && sys.sessions[p].phase == phase
    }

    /** One attempt at the lock, after whatever others did. */
    method Poll(p: Pid, list: seq<Migration>) returns (got: bool)
      requires Inv(sys) && Stands(p, list, Polling)
      modifies this
      ensures Inv(sys) && old(sys).db.effects <= sys.db.effects
      ensures Stands(p, list, if got then Locked else Polling)
      ensures sys.lock == Some(p) <==> got
    {
      Others(p);
      Execute(TryLock(p));
      got := sys.lock == Some(p);
    }

    /** The polling loop. clock(k) is read at the k-th comparison with the
        deadline; between two of them lies a sleep and a lock statement of any
        length. failsIn is the attempt whose statement fails, if any. The loop
        ends after at most 121 attempts: with the lock, with that error, or with
        a time-out, the latter exactly when the deadline has passed. */
    method AcquireLock(p: Pid, list: seq<Migration>, start: nat, clock: nat -> nat, failsIn: nat, taken: bool)
      returns (error: Option<Error>, attempts: nat)
      requires Inv(sys) && Stands(p, list, Polling)
      requires ClockOk(start, clock)
      modifies this
      ensures Inv(sys) && Grew(old(sys).db.effects, sys.db.effects)
      ensures Stands(p, list, if error.None? then Locked else Finished(Failure(error.value)))
      ensures 1 <= attempts <= MAX_POLLS + 1 && attempts - 1 <= failsIn
      ensures error.Some? ==> error.value == if attempts - 1 == failsIn then LockFailed else LockTimeout
      ensures error == Some(LockTimeout) ==> clock(attempts - 1) >= start + LOCK_WAIT_MS
      ensures attempts > 1 ==> clock(attempts - 2) < start + LOCK_WAIT_MS
    {
      hide Inv, Apply, Enabled, ClockOk, Stands, Grew;
      ghost var first := sys.db.effects;
      GrewItself(first);
      attempts := 0;
      while true
        invariant Inv(sys) && Stands(p, list, Polling) && Grew(first, sys.db.effects)
        invariant attempts <= failsIn
        invariant attempts > 0 ==> clock(attempts - 1) < start + LOCK_WAIT_MS && attempts <= MAX_POLLS
        decreases MAX_POLLS + 1 - attempts
      {
        PollsLeft(start, clock, attempts);
        ghost var before := sys.db.effects;
        if attempts == failsIn {
          FailToLock(p, list, taken);
          GrewOn(first, before, sys.db.effects);
          return Some(LockFailed), attempts + 1;
        }
        var got := Poll(p, list);
        GrewOn(first, before, sys.db.effects);
        attempts := attempts + 1;
        if got {
          return None, attempts;
        }
        if clock(attempts - 1) >= start + LOCK_WAIT_MS {
          TimeOut(p, list);
          return Some(LockTimeout), attempts;
        }
      }
    }

    /** The deadline has passed. */
    method TimeOut(p: Pid, list: seq<Migration>)
      requires Inv(sys) && Stands(p, list, Polling)
      modifies this
      ensures Inv(sys) && sys.db == old(sys).db && Stands(p, list, Finished(Failure(LockTimeout)))
    {
      Execute(GiveUp(p));
    }

    /** The lock statement itself fails; the lock may be taken all the same. */
    method FailToLock(p: Pid, list: seq<Migration>, taken: bool)
      requires Inv(sys) && Stands(p, list, Polling)
      modifies this
      ensures Inv(sys) && old(sys).db.effects <= sys.db.effects && Stands(p, list, Finished(Failure(LockFailed)))
    {
      Others(p);
      Execute(LockFails(p, taken));
    }

    /** An open transaction of migration n at the given stage. */
    predicate Within(p: Pid, list: seq<Migration>, n: nat, applied: seq<LedgerRow>, executed: seq<Migration>, stage: Stage)
      reads this
    {
      p in sys.sessions && sys.sessions[p].list == list && var ph := sys.sessions[p].phase;
      ph.InTx? && ph.stage == stage && ph.next == n && ph.applied == applied && ph.executed == executed
    }

    /** A failing statement ends the run; an open transaction is gone. */
    method Fail(p: Pid, list: seq<Migration>) returns (error: Option<Error>)
      requires Inv(sys) && p in sys.sessions && sys.sessions[p].list == list
      requires var ph := sys.sessions[p].phase; ph.Locked? || ph.InTx? || ph.Committed?
      modifies this
      ensures Inv(sys) && sys.db == old(sys).db && error == Some(StatementFailed)
      ensures Stands(p, list, Unlocking(Failure(StatementFailed)))
    {
      Step(StatementFails(p));
      error := Some(StatementFailed);
    }

    /** BEGIN, SQL and hook of migration n. */
    method RunSqlAndHook(p: Pid, list: seq<Migration>, n: nat, applied: seq<LedgerRow>, executed: seq<Migration>, c: Course)
      returns (error: Option<Error>)
      requires Inv(sys) && n < |list| && Within(p, list, n, applied, executed, Began)
      modifies this
      ensures Inv(sys) && sys.db == old(sys).db
      ensures error == if c.fails == Some(AtBegin) || c.fails == Some(AtSql) then Some(StatementFailed)
                       else if c.fails == Some(AtHook) then Some(HookFailed(list[n].name)) else None
      ensures if error.Some? then Stands(p, list, Unlocking(Failure(error.value)))
              else Within(p, list, n, applied, executed, HookPassed)
    {
      hide Inv;
      if c.fails == Some(AtBegin) || c.fails == Some(AtSql) {
        error := Fail(p, list);
        return;
      }
      Step(RunSql(p, c.rebuildsSchema, c.path));
      var ok := c.fails != Some(AtHook);
      Step(Hook(p, ok));
      return if ok then None else Some(HookFailed(list[n].name));
    }

    /** Search path, ledger table and ledger row of migration n, not yet committed. */
    method Record(p: Pid, list: seq<Migration>, n: nat, applied: seq<LedgerRow>, executed: seq<Migration>, c: Course)
      returns (error: Option<Error>)
      requires Inv(sys) && n < |list| && Within(p, list, n, applied, executed, HookPassed)
      modifies this
      ensures Inv(sys) && sys.db == old(sys).db
      ensures error == if c.fails.Some? && (c.fails.value.AtPath? || c.fails.value.AtLedger? || c.fails.value.AtInsert?)
                       then Some(StatementFailed) else None
      ensures if error.Some? then Stands(p, list, Unlocking(Failure(error.value)))
              else Within(p, list, n, applied, executed, RowInserted)
    {
      hide Inv;
      if c.fails == Some(AtPath) || c.fails == Some(AtLedger) {
        error := Fail(p, list);
        return;
      }
      Step(EnsureLedger(p));
      if c.fails == Some(AtInsert) {
        error := Fail(p, list);
        return;
      }
      InsertIsFresh(sys, p);
      Step(InsertRow(p));
      return None;
    }

    /** Commit and search path of migration n. */
    method Finalize(p: Pid, list: seq<Migration>, n: nat, applied: seq<LedgerRow>, executed: seq<Migration>, c: Course)
      returns (error: Option<Error>)
      requires Inv(sys) && n < |list| && Within(p, list, n, applied, executed, RowInserted)
      requires c.fails.Some? ==> c.fails.value.AtCommit? || c.fails.value.AtRestore?
      modifies this
      ensures Inv(sys)
      ensures sys.db.effects == old(sys).db.effects + if Lands(c) then [RowOf(list[n])] else []
      ensures error == if c.fails.Some? then Some(StatementFailed) else None
      ensures Stands(p, list, if error.Some? then Unlocking(Failure(error.value))
                              else Deciding(n + 1, applied, executed + [list[n]]))
    {
      hide Inv;
      if c.fails == Some(AtCommit(false)) {
        error := Fail(p, list);
        return;
      }
      CommitAppends(sys, p);
      Step(Commit(p));
      if c.fails.Some? {
        error := Fail(p, list);
        return;
      }
      Step(RestorePath(p));
      return None;
    }

    /** One migration in its own transaction. It is committed whole with its row
        or leaves nothing behind, wherever its turn fails. */
    method MigrateOne(p: Pid, list: seq<Migration>, n: nat, applied: seq<LedgerRow>, executed: seq<Migration>, c: Course)
      returns (error: Option<Error>)
      requires Inv(sys) && n < |list| && Stands(p, list, Deciding(n, applied, executed))
      requires Decide(list[n], applied).Execute?
      modifies this
      ensures Inv(sys)
      ensures error == if c.fails.None? then None
                       else if c.fails.value.AtHook? then Some(HookFailed(list[n].name)) else Some(StatementFailed)
      ensures sys.db.effects == old(sys).db.effects + if Lands(c) then [RowOf(list[n])] else []
      ensures Stands(p, list, if error.Some? then Unlocking(Failure(error.value))
                              else Deciding(n + 1, applied, executed + [list[n]]))
    {
      hide Inv, Decide, Apply, Enabled;
      Open(p, list, n, applied, executed);
      error := RunSqlAndHook(p, list, n, applied, executed, c);
      if error.Some? { return; }
      error := Record(p, list, n, applied, executed, c);
      if error.Some? { return; }
      error := Finalize(p, list, n, applied, executed, c);
    }

    /** The turn of a pending migration reaches its transaction. */
    method Open(p: Pid, list: seq<Migration>, n: nat, applied: seq<LedgerRow>, executed: seq<Migration>)
      requires Inv(sys) && n < |list| && Stands(p, list, Deciding(n, applied, executed))
      requires Decide(list[n], applied).Execute?
      modifies this
      ensures Inv(sys) && sys.db == old(sys).db && Within(p, list, n, applied, executed, Began)
    {
      hide Inv, Decide;
      Step(Consider(p));
    }

    /** One turn of the loop over the embedded list; landed is the migration it
        committed, done the one it reports. */
    method Turn(p: Pid, list: seq<Migration>, n: nat, applied: seq<LedgerRow>, executed: seq<Migration>, c: Course)
      returns (error: Option<Error>, done: seq<Migration>, ghost landed: seq<Migration>)
      requires Inv(sys) && n < |list| && Stands(p, list, Deciding(n, applied, executed))
      modifies this
      ensures Inv(sys)
      ensures landed == if Decide(list[n], applied).Execute? && Lands(c) then [list[n]] else []
      ensures done == if error.None? then landed else []
      ensures sys.db.effects == old(sys).db.effects + RowsOf(landed)
      ensures error == ErrorOf(list[n], applied, c)
      ensures Stands(p, list, if error.Some? then Unlocking(Failure(error.value)) else Deciding(n + 1, applied, executed + done))
    {
      hide Inv, Decide;
      done, landed, error := [], [], None;
      match Decide(list[n], applied)
      case Skip =>
        Step(Consider(p));
        assert executed + done == executed;
      case Refuse(err) =>
        Step(Consider(p));
        error := Some(err);
      case Execute =>
        error := MigrateOne(p, list, n, applied, executed, c);
        landed := if Lands(c) then [list[n]] else [];
        if error.None? { done := [list[n]]; }
    }

    /** The snapshot every decision of the run is taken on. */
    method ReadApplied(p: Pid, list: seq<Migration>) returns (applied: seq<LedgerRow>)
      requires Inv(sys) && Stands(p, list, Locked)
      modifies this
      ensures Inv(sys) && Stands(p, list, Deciding(0, applied, []))
      ensures applied == sys.db.effects == old(sys).db.effects
    {
      Step(ReadLedger(p));
      applied := sys.sessions[p].phase.applied;
    }

    /** Everything done under the lock. Success means the whole list is on
        record and exactly the pending part of it was executed. */
    method ApplyLocked(p: Pid, list: seq<Migration>, ledgerReads: bool, course: string -> Course) returns (r: Outcome)
      requires Inv(sys) && Stands(p, list, Locked)
      modifies this
      ensures Inv(sys) && Stands(p, list, Unlocking(r))
      ensures var pending := Plan(list, 0, old(sys).db.effects);
        && Extends(old(sys).db.effects, sys.db.effects, pending)
        && (r.Success? ==> r.executed == pending && sys.db.effects == old(sys).db.effects + RowsOf(pending))
      ensures r.Success? ==> forall m :: m in r.executed <==> m in list && !Named(old(sys).db.effects, m.name)
      ensures r.Success? <==> ledgerReads && WellUpTo(list, |list|, old(sys).db.effects, course)
      ensures r.Failure? ==>
        if !ledgerReads then r.error == StatementFailed
        else exists k | 0 <= k < |list| ::
          WellUpTo(list, k, old(sys).db.effects, course) && StoppedBy(list[k], old(sys).db.effects, course, r.error)
    {
      DistinctInside(sys);
      hide Inv, Extends, RowsOf, Decide, Named, Apply, Enabled, Plan, WellUpTo, StoppedBy, ErrorOf, DistinctRows;
      if !ledgerReads {
        var error := Fail(p, list);
        NothingDone(sys.db.effects, Plan(list, 0, sys.db.effects));
        return Failure(error.value);
      }
      var applied := ReadApplied(p, list);
      var executed, n := [], 0;
      ghost var pending := Plan(list, 0, applied);
      NothingDone(applied, pending);
      NothingWrong(list, applied, course);
      while n < |list|
        invariant n <= |list| && Inv(sys) && Stands(p, list, Deciding(n, applied, executed))
        invariant sys.db.effects == applied + RowsOf(executed)
        invariant pending == executed + Plan(list, n, applied)
        invariant WellUpTo(list, n, applied, course)
      {
        var error, done, landed := Turn(p, list, n, applied, executed, course(list[n].name));
        RowsOfBoth(applied, executed, landed);
        WellOn(list, n, applied, course);
        if error.Some? {
          LandedPart(list, n, applied, executed, landed);
          return Failure(error.value);
        }
        PlanStep(list, n, applied, executed, done);
        n, executed := n + 1, executed + done;
      }
      PartDone(applied, executed, []);
      PlanEnds(list, applied);
      assert executed + [] == executed;
      WellMeansPlanned(list, n, applied, course);
      PlanIsPending(list, 0, applied);
      assert list[0..] == list;
      Finish(p, list, applied, executed);
      return Success(executed);
    }

    method Finish(p: Pid, list: seq<Migration>, applied: seq<LedgerRow>, executed: seq<Migration>)
      requires Inv(sys) && Stands(p, list, Deciding(|list|, applied, executed))
      modifies this
      ensures Inv(sys) && Stands(p, list, Unlocking(Success(executed)))
      ensures sys.db == old(sys).db
    {
      Step(Consider(p));
    }

    /** Poll for the lock, run, and unlock whatever the outcome of the run. */
    method ApplyPending(p: Pid, list: seq<Migration>, start: nat, clock: nat -> nat, failsIn: nat, taken: bool,
                        ledgerReads: bool, course: string -> Course, unlocks: bool) returns (r: Outcome)
      requires Inv(sys) && Stands(p, list, Polling)
      requires ClockOk(start, clock)
      modifies this
      ensures Inv(sys) && Stands(p, list, Finished(r))
      ensures unlocks && r != Failure(LockTimeout) && r != Failure(LockFailed) ==> sys.lock != Some(p)
      ensures old(sys).db.effects <= sys.db.effects
      ensures r.Success? ==> RecordedUpTo(sys.db.effects, list, |list|) && Executed(old(sys).db.effects, sys.db.effects, list, r.executed)
    {
      hide Inv, Apply, Enabled, ClockOk, Extends, Plan, RecordedUpTo, RowsOf, Named;
      var error, _ := AcquireLock(p, list, start, clock, failsIn, taken);
      if error.Some? {
        return Failure(error.value);
      }
      ghost var applied := sys.db.effects;
      r := ApplyLocked(p, list, ledgerReads, course);
      if r.Success? {
        PrefixOfRows(applied, r.executed);
      }
      PrefixGrew(applied, sys.db.effects, list);
      Release(p, list, r, unlocks);
    }

    /** The unlock; the outcome of the run stands. */
    method Release(p: Pid, list: seq<Migration>, r: Outcome, unlocks: bool)
      requires Inv(sys) && Stands(p, list, Unlocking(r))
      modifies this
      ensures Inv(sys) && sys.db == old(sys).db && Stands(p, list, Finished(r))
      ensures unlocks ==> sys.lock != Some(p)
      ensures r.Success? ==> RecordedUpTo(sys.db.effects, list, |list|)
    {
      Execute(Unlock(p, unlocks));
    }
  }
}
