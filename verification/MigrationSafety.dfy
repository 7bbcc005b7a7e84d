/** What every run of the migration machine keeps. */
module MigrationSafety {
  import opened Text
  import opened Migrations

  // ----- The decision and the statements, in the ledger's terms -----

  /** A listed migration is skipped when it is on record with its digest, refused
      when its name is there with another digest or none, or when it is the
      baseline and the ledger is not empty, and executed in all other cases. */
  lemma DecidedBy(m: Migration, applied: seq<LedgerRow>)
    requires DistinctRows(applied)
    ensures Decide(m, applied) == Skip <==> LedgerRow(m.name, Some(m.digest)) in applied
    ensures Decide(m, applied) == Refuse(DigestChanged(m.name)) <==>
            exists d :: d != m.digest && LedgerRow(m.name, Some(d)) in applied
    ensures Decide(m, applied) == Refuse(DigestMissing(m.name)) <==> LedgerRow(m.name, None) in applied
    ensures Decide(m, applied) == Refuse(BaselineRefused(m.name)) <==>
            !Named(applied, m.name) && m.name == "001_baseline" && applied != []
    ensures Decide(m, applied) == Execute <==>
            !Named(applied, m.name) && (m.name == "001_baseline" ==> applied == [])
  {
    var found := Find(applied, m.name);
    if found.Some? {
      var i :| 0 <= i < |applied| && applied[i] == found.value;
      forall row | row in applied && row.name == m.name
        ensures row == found.value
      {
        var j :| 0 <= j < |applied| && applied[j] == row;
      }
      if found.value.digest.Some? {
        assert LedgerRow(m.name, Some(found.value.digest.value)) in applied;
      }
    } else {
      assert forall d :: LedgerRow(m.name, d) !in applied;
    }
  }

  /** A try gets a free lock, or one the session has already, and no other; an
      unlock that works and a lost connection free it; nothing else moves it but a
      lock statement whose answer is lost. */
  lemma LockMoves(s: System, e: Event)
    requires Enabled(s, e)
    ensures e.TryLock? && (s.lock == None || s.lock == Some(e.p)) ==>
      Apply(s, e).lock == Some(e.p) && Apply(s, e).sessions[e.p].phase == Locked
    ensures e.TryLock? && s.lock != None && s.lock != Some(e.p) ==> Apply(s, e) == s
    ensures e == Unlock(e.p, true) || e.Disconnect? ==> Apply(s, e).lock == if s.lock == Some(e.p) then None else s.lock
    ensures e.LockFails? ==> Apply(s, e).lock == if e.taken && s.lock == None then Some(e.p) else s.lock
    ensures !e.TryLock? && !e.LockFails? && !e.Disconnect? && e != Unlock(e.p, true) ==> Apply(s, e).lock == s.lock
    ensures e.p in s.sessions ==> Enabled(s, Disconnect(e.p))
  {
    if e.TryLock? && s.lock != None && s.lock != Some(e.p) {
      assert s.sessions[e.p := s.sessions[e.p]] == s.sessions;
    }
  }

  /** Where each statement of a session leads. */
  lemma SessionMoves(s: System, e: Event)
    requires Enabled(s, e) && !e.Start? && !e.Disconnect?
    ensures var x, y := s.sessions[e.p], Apply(s, e).sessions[e.p];
      && y.list == x.list
      && (e.Rerun? ==> y.phase == Polling)
      && (e.GiveUp? ==> y.phase == Finished(Failure(LockTimeout)))
      && (e.LockFails? ==> y.phase == Finished(Failure(LockFailed)))
      && (e.StatementFails? ==> y.phase == Unlocking(Failure(StatementFailed)))
      && (e.Unlock? ==> y.phase == Finished(x.phase.outcome))
      && (e.ReadLedger? ==> y.phase == Deciding(0, Rows(s.db.ledger), []) && Rows(Apply(s, e).db.ledger) == Rows(s.db.ledger))
      && (e.Commit? ==> y.path == x.phase.tx.path && Apply(s, e).db == Db(x.phase.tx.ledger, x.phase.tx.effects))
      && (e.RestorePath? ==> y.path == "public" && y.phase.Deciding? && y.phase.next == x.phase.next + 1
                             && y.phase.executed == x.phase.executed + [x.list[x.phase.next]])
      && (!e.Commit? && !e.RestorePath? ==> y.path == x.path)
      && (!e.Commit? && !e.ReadLedger? ==> Apply(s, e).db == s.db)
  {
  }

  // ----- One session, phase by phase -----

  /** A name being executed is neither in the snapshot nor among those executed before it. */
  lemma FreshName(effects: seq<LedgerRow>, x: Session)
    requires x.phase.InTx? && SessionOk(effects, x)
    ensures !Named(effects, x.list[x.phase.next].name)
  {
  }

  lemma PrefixGrows(list: seq<Migration>, n: nat, executed: seq<Migration>)
    requires n < |list| && forall k | 0 <= k < |executed| :: executed[k] in list[..n]
    ensures forall k | 0 <= k < |executed| :: executed[k] in list[..n + 1]
  {
  }

  lemma AfterSkip(effects: seq<LedgerRow>, x: Session)
    requires x.phase.Deciding? && x.phase.next < |x.list| && SessionOk(effects, x)
    requires Decide(x.list[x.phase.next], x.phase.applied).Skip?
    ensures SessionOk(effects, x.(phase := Deciding(x.phase.next + 1, x.phase.applied, x.phase.executed)))
  {
    hide Decide, RowsOf, Recorded;
    SkipMeansRecorded(effects, x);
    PrefixGrows(x.list, x.phase.next, x.phase.executed);
  }

  lemma SkipMeansRecorded(effects: seq<LedgerRow>, x: Session)
    requires x.phase.Deciding? && x.phase.next < |x.list| && SessionOk(effects, x)
    requires Decide(x.list[x.phase.next], x.phase.applied).Skip?
    ensures Recorded(effects, x.list[x.phase.next])
  {
  }

  lemma AfterExecute(effects: seq<LedgerRow>, x: Session, tx: Tx)
    requires x.phase.Deciding? && x.phase.next < |x.list| && SessionOk(effects, x)
    requires Decide(x.list[x.phase.next], x.phase.applied).Execute?
    requires tx.effects == effects && Rows(tx.ledger) == effects
    ensures SessionOk(effects, x.(phase := InTx(x.phase.next, x.phase.applied, x.phase.executed, Began, tx)))
  {
  }

  lemma RowsOfAppend(ms: seq<Migration>, m: Migration)
    ensures RowsOf(ms + [m]) == RowsOf(ms) + [RowOf(m)]
  {
  }

  lemma AfterCommit(effects: seq<LedgerRow>, x: Session)
    requires x.phase.InTx? && x.phase.stage.RowInserted? && SessionOk(effects, x)
    ensures var ph := x.phase;
      && ph.tx.effects == effects + [RowOf(x.list[ph.next])] && ph.tx.ledger == Some(ph.tx.effects)
      && SessionOk(ph.tx.effects, Session(x.list, ph.tx.path, Committed(ph.next, ph.applied, ph.executed)))
  {
    var ph := x.phase;
    var m := x.list[ph.next];
    RowsOfAppend(ph.executed, m);
    RecordedMore(effects, x.list, ph.next);
    hide RowsOf, RecordedUpTo, Named, ListOk, ExecutedOk;
    assert ph.tx.effects == ph.applied + RowsOf(ph.executed + [m]);
  }

  lemma RecordedMore(effects: seq<LedgerRow>, list: seq<Migration>, n: nat)
    requires n < |list| && RecordedUpTo(effects, list, n)
    ensures RecordedUpTo(effects + [RowOf(list[n])], list, n + 1)
  {
    forall j | 0 <= j < n + 1
      ensures Recorded(effects + [RowOf(list[n])], list[j])
    {
      if j < n { assert Recorded(effects, list[j]); }
    }
  }

  lemma AfterRestore(effects: seq<LedgerRow>, x: Session)
    requires x.phase.Committed? && SessionOk(effects, x)
    ensures var ph := x.phase;
      SessionOk(effects, Session(x.list, PUBLIC, Deciding(ph.next + 1, ph.applied, ph.executed + [x.list[ph.next]])))
  {
  }

  lemma InTxStep(effects: seq<LedgerRow>, x: Session, e: Event)
    requires CanTake(x, e) && InTransaction(e) && SessionOk(effects, x)
    ensures SessionOk(effects, x.(phase := TxPhase(x, e)))
  {
    hide RowsOf, RecordedUpTo, ExecutedOk, Named;
    if e.InsertRow? { FreshName(effects, x); }
  }

  lemma ConsiderStep(x: Session, db: Db)
    requires x.phase.Deciding? && x.phase.next <= |x.list| && SessionOk(db.effects, x) && Rows(db.ledger) == db.effects
    ensures SessionOk(db.effects, x.(phase := Considered(x, db)))
  {
    if x.phase.next < |x.list| {
      match Decide(x.list[x.phase.next], x.phase.applied)
      case Skip => AfterSkip(db.effects, x);
      case Refuse(_) =>
      case Execute => AfterExecute(db.effects, x, Tx(db.ledger, db.effects, x.path));
    }
  }

  /** Where a session starts, stops, reads the ledger or polls. */
  lemma OuterStep(s: System, e: Event)
    requires Enabled(s, e) && Rows(s.db.ledger) == s.db.effects
    requires e.Rerun? || e.TryLock? || e.GiveUp? || e.LockFails? || e.ReadLedger? || e.StatementFails? || e.Unlock?
    requires SessionOk(s.db.effects, s.sessions[e.p])
    ensures SessionOk(DbAfter(s, e).effects, SessionAfter(s, e))
  {
    hide Considered, TxPhase;
    if e.ReadLedger? { assert s.db.effects == s.db.effects + RowsOf([]); }
  }

  /** Outside the critical section a session only needs its rows to stay. */
  lemma OutsiderKeeps(effects: seq<LedgerRow>, more: seq<LedgerRow>, x: Session)
    requires !Critical(x.phase) && SessionOk(effects, x) && effects <= more
    ensures SessionOk(more, x)
  {
  }

  // ----- One step of the system -----

  function CommittedRow(s: System, e: Event): (row: LedgerRow)
    requires Enabled(s, e) && e.Commit? && SessionOk(s.db.effects, s.sessions[e.p])
  {
    var x := s.sessions[e.p];
    RowOf(x.list[x.phase.next])
  }

  /** Only a commit touches the committed effects, and it appends one row whose
      name was not there. */
  lemma EffectsStep(s: System, e: Event)
    requires Inv(s) && Enabled(s, e)
    ensures Rows(Apply(s, e).db.ledger) == Apply(s, e).db.effects
    ensures DistinctRows(Apply(s, e).db.effects)
    ensures !e.Commit? ==> Apply(s, e).db.effects == s.db.effects
    ensures e.Commit? ==> Apply(s, e).db.effects == s.db.effects + [CommittedRow(s, e)]
                          && !Named(s.db.effects, CommittedRow(s, e).name)
    ensures s.db.effects <= Apply(s, e).db.effects
  {
    hide SessionOk;
    if e.Commit? {
      AfterCommit(s.db.effects, s.sessions[e.p]);
      FreshName(s.db.effects, s.sessions[e.p]);
    }
  }

  lemma TransactionOwn(s: System, e: Event)
    requires Enabled(s, e) && InTransaction(e) && SessionOk(s.db.effects, s.sessions[e.p])
    ensures SessionOk(DbAfter(s, e).effects, SessionAfter(s, e))
  {
    hide SessionOk, TxPhase;
    InTxStep(s.db.effects, s.sessions[e.p], e);
  }

  lemma ConsiderOwn(s: System, e: Event)
    requires Enabled(s, e) && e.Consider? && SessionOk(s.db.effects, s.sessions[e.p]) && Rows(s.db.ledger) == s.db.effects
    ensures SessionOk(DbAfter(s, e).effects, SessionAfter(s, e))
  {
    hide SessionOk, Considered;
    ConsiderStep(s.sessions[e.p], s.db);
  }

  lemma CommitOwn(s: System, e: Event)
    requires Enabled(s, e) && (e.Commit? || e.RestorePath?) && SessionOk(s.db.effects, s.sessions[e.p])
    ensures SessionOk(DbAfter(s, e).effects, SessionAfter(s, e))
  {
    hide SessionOk;
    if e.Commit? { AfterCommit(s.db.effects, s.sessions[e.p]); } else { AfterRestore(s.db.effects, s.sessions[e.p]); }
  }

  lemma OwnSession(s: System, e: Event)
    requires Inv(s) && Enabled(s, e) && !e.Disconnect?
    requires e.Start? ==> ListOk(e.list)
    ensures SessionOk(DbAfter(s, e).effects, SessionAfter(s, e))
  {
    if e.Start? {
      hide Enabled, Inv;
    } else {
      hide SessionOk, SessionAfter, DbAfter, CanTake, Exclusive, DistinctRows;
      if InTransaction(e) {
        TransactionOwn(s, e);
      } else if e.Consider? {
        ConsiderOwn(s, e);
      } else if e.Commit? || e.RestorePath? {
        CommitOwn(s, e);
      } else {
        OuterStep(s, e);
      }
    }
  }

  /** A session that does not step keeps its part: a committer is alone in the
      critical section. */
  lemma OtherSession(s: System, e: Event, q: Pid)
    requires Inv(s) && Enabled(s, e) && q in s.sessions && q != e.p
    ensures q in Apply(s, e).sessions && Apply(s, e).sessions[q] == s.sessions[q]
    ensures SessionOk(Apply(s, e).db.effects, s.sessions[q])
  {
    hide SessionOk;
    EffectsStep(s, e);
    if e.Commit? { OutsiderKeeps(s.db.effects, Apply(s, e).db.effects, s.sessions[q]); }
  }

  lemma InvStep(s: System, e: Event)
    requires Inv(s) && Enabled(s, e)
    requires e.Start? ==> ListOk(e.list)
    ensures Inv(Apply(s, e))
    ensures s.db.effects <= Apply(s, e).db.effects
  {
    hide SessionOk;
    var t := Apply(s, e);
    EffectsStep(s, e);
    forall q | q in t.sessions
      ensures SessionOk(t.db.effects, t.sessions[q])
    {
      if q == e.p { OwnSession(s, e); } else { OtherSession(s, e, q); }
    }
    ExclusiveStep(s, e);
  }

  lemma ExclusiveStep(s: System, e: Event)
    requires Exclusive(s) && Enabled(s, e)
    ensures Exclusive(Apply(s, e))
  {
  }

  // ----- Whole runs -----

  /** A run from a quiet database whose sessions all embed a well-formed list. */
  predicate GoodRun(states: seq<System>, events: seq<Event>) {
    IsRun(states, events) && Init(states[0]) && ListsOk(events)
  }

  lemma {:induction false} RunInv(states: seq<System>, events: seq<Event>, i: nat)
    requires GoodRun(states, events) && i < |states|
    ensures Inv(states[i])
  {
    hide SessionOk, Apply, Enabled;
    if i == 0 {
    } else {
      RunInv(states, events, i - 1);
      InvStep(states[i - 1], events[i - 1]);
    }
  }

  /** In every reachable state the ledger lists exactly the committed migrations,
      in commit order, each name once. */
  lemma LedgerIsHistory(states: seq<System>, events: seq<Event>, i: nat)
    requires GoodRun(states, events) && i < |states|
    ensures Rows(states[i].db.ledger) == states[i].db.effects
    ensures DistinctRows(Rows(states[i].db.ledger))
  {
    RunInv(states, events, i);
  }

  /** No ledger row is ever lost or reordered, although the baseline may drop
      the table that holds them. */
  lemma {:induction false} LedgerOnlyGrows(states: seq<System>, events: seq<Event>, i: nat, j: nat)
    requires GoodRun(states, events) && i <= j < |states|
    ensures Rows(states[i].db.ledger) <= Rows(states[j].db.ledger)
  {
    hide SessionsOk, Apply, Enabled;
    RunInv(states, events, j);
    RunInv(states, events, i);
    if i == j {
    } else {
      LedgerOnlyGrows(states, events, i, j - 1);
      RunInv(states, events, j - 1);
      InvStep(states[j - 1], events[j - 1]);
    }
  }

  /** Exactly once: whatever sessions run, crash and retry, two commits never
      carry the same name, nor a name that was there at the start. */
  lemma CommitsAreDistinct(states: seq<System>, events: seq<Event>, i: nat, j: nat)
    requires GoodRun(states, events) && i <= j < |events|
    requires events[i].Commit? && events[j].Commit?
    ensures Inv(states[i]) && Inv(states[j])
    ensures i < j ==> CommittedRow(states[i], events[i]).name != CommittedRow(states[j], events[j]).name
    ensures !Named(Rows(states[0].db.ledger), CommittedRow(states[j], events[j]).name)
  {
    hide SessionOk, Apply, Exclusive, DistinctRows;
    RunInv(states, events, i);
    RunInv(states, events, j);
    EffectsStep(states[i], events[i]);
    EffectsStep(states[j], events[j]);
    LedgerOnlyGrows(states, events, 0, j);
    RunInv(states, events, 0);
    var before := states[j].db.effects;
    assert forall k | 0 <= k < |states[0].db.effects| :: states[0].db.effects[k] == before[k];
    if i < j {
      LedgerOnlyGrows(states, events, i + 1, j);
      RunInv(states, events, i + 1);
      var n := |states[i].db.effects|;
      assert before[n].name == CommittedRow(states[i], events[i]).name;
    }
  }

  /** The lock admits one session at a time from reading the ledger to unlocking. */
  lemma OneRunnerAtATime(states: seq<System>, events: seq<Event>, i: nat, p: Pid, q: Pid)
    requires GoodRun(states, events) && i < |states|
    requires p in states[i].sessions && Critical(states[i].sessions[p].phase)
    requires q in states[i].sessions && Critical(states[i].sessions[q].phase)
    ensures p == q
  {
    RunInv(states, events, i);
  }

  /** The UNIQUE constraint of the ledger never fires. */
  lemma UniqueNeverFires(states: seq<System>, events: seq<Event>, i: nat)
    requires GoodRun(states, events) && i < |events| && events[i].InsertRow?
    ensures var p := events[i].p;
      p in states[i + 1].sessions && states[i + 1].sessions[p].phase.InTx?
  {
    RunInv(states, events, i);
    FreshName(states[i].db.effects, states[i].sessions[events[i].p]);
  }

  /** Every migration after the first of a run starts with search_path public. */
  lemma StartsInPublic(states: seq<System>, events: seq<Event>, i: nat)
    requires GoodRun(states, events) && i < |events| && events[i].RunSql?
    ensures var x := states[i].sessions[events[i].p];
      x.phase.InTx? && (x.phase.executed != [] ==> x.path == PUBLIC)
  {
    RunInv(states, events, i);
  }

  /** A run that reports success leaves each of its migrations in the ledger
      with the current digest, from then on. */
  lemma SuccessIsLasting(states: seq<System>, events: seq<Event>, i: nat, j: nat, p: Pid, k: nat)
    requires GoodRun(states, events) && i <= j < |states|
    requires p in states[i].sessions && states[i].sessions[p].phase.Finished?
    requires states[i].sessions[p].phase.outcome.Success?
    requires k < |states[i].sessions[p].list|
    ensures Recorded(Rows(states[j].db.ledger), states[i].sessions[p].list[k])
  {
    RunInv(states, events, i);
    LedgerOnlyGrows(states, events, i, j);
    assert Recorded(states[i].db.effects, states[i].sessions[p].list[k]);
  }

  /** A ledger row with another digest, or none, under the k-th listed name
      keeps that session from executing anything listed after it and from
      succeeding, in every later state. */
  lemma MismatchStopsTheRun(states: seq<System>, events: seq<Event>, i: nat, j: nat, p: Pid, k: nat, row: LedgerRow)
    requires GoodRun(states, events) && i <= j < |states|
    requires p in states[j].sessions && k < |states[j].sessions[p].list|
    requires row in Rows(states[i].db.ledger) && row.name == states[j].sessions[p].list[k].name
    requires row.digest != Some(states[j].sessions[p].list[k].digest)
    ensures var ph := states[j].sessions[p].phase;
      && !(ph.InTx? && ph.next >= k) && !(ph.Committed? && ph.next >= k)
      && !(ph.Deciding? && ph.next > k) && !((ph.Unlocking? || ph.Finished?) && ph.outcome.Success?)
  {
    RunInv(states, events, i);
    RunInv(states, events, j);
    LedgerOnlyGrows(states, events, i, j);
    var rows := states[j].db.effects;
    var x := states[j].sessions[p];
    var a :| 0 <= a < |Rows(states[i].db.ledger)| && Rows(states[i].db.ledger)[a] == row;
    assert rows[a] == row;
    if x.phase.InTx? && x.phase.next == k { FreshName(states[j].db.effects, x); }
    assert !Recorded(rows, x.list[k]);
  }

  // ----- Running again -----

  /** Every listed migration is on record and no transaction has been opened. */
  predicate IdleSession(effects: seq<LedgerRow>, x: Session) {
    && RecordedUpTo(effects, x.list, |x.list|)
    && !x.phase.InTx? && !x.phase.Committed?
    && (x.phase.Deciding? ==> x.phase.executed == [])
    && (x.phase.Unlocking? || x.phase.Finished? ==>
          x.phase.outcome in {Success([]), Failure(LockTimeout), Failure(LockFailed), Failure(StatementFailed)})
  }

  predicate Idle(s: System, p: Pid) {
    p in s.sessions && IdleSession(s.db.effects, s.sessions[p])
  }

  lemma {:induction false} FindRecorded(rows: seq<LedgerRow>, m: Migration)
    requires DistinctRows(rows) && RowOf(m) in rows
    ensures Find(rows, m.name) == Some(RowOf(m))
  {
  }

  lemma IdleSkips(effects: seq<LedgerRow>, x: Session)
    requires DistinctRows(effects) && SessionOk(effects, x) && IdleSession(effects, x)
    requires x.phase.Deciding? && x.phase.next < |x.list|
    ensures Decide(x.list[x.phase.next], x.phase.applied) == Skip
  {
    assert effects == x.phase.applied + RowsOf([]) == x.phase.applied;
    assert Recorded(effects, x.list[x.phase.next]);
    FindRecorded(x.phase.applied, x.list[x.phase.next]);
  }

  lemma IdleKeeps(effects: seq<LedgerRow>, more: seq<LedgerRow>, x: Session)
    requires IdleSession(effects, x) && effects <= more
    ensures IdleSession(more, x)
  {
  }

  lemma IdleOwnStep(s: System, e: Event)
    requires Inv(s) && Enabled(s, e) && !e.Start? && !e.Disconnect? && IdleSession(s.db.effects, s.sessions[e.p])
    ensures e.p in Apply(s, e).sessions && IdleSession(s.db.effects, Apply(s, e).sessions[e.p])
  {
    hide SessionOk;
    if e.Consider? && s.sessions[e.p].phase.next < |s.sessions[e.p].list| {
      IdleSkips(s.db.effects, s.sessions[e.p]);
    }
  }

  lemma IdleStep(s: System, e: Event, p: Pid)
    requires Inv(s) && Idle(s, p) && Enabled(s, e) && e != Disconnect(p)
    ensures Idle(Apply(s, e), p)
    ensures e.p == p ==> Apply(s, e).db.effects == s.db.effects
  {
    hide SessionOk, IdleSession;
    EffectsStep(s, e);
    if e.p == p {
      IdleOwnStep(s, e);
      IdleKeeps(s.db.effects, Apply(s, e).db.effects, Apply(s, e).sessions[p]);
    } else {
      OtherSession(s, e, p);
      IdleKeeps(s.db.effects, Apply(s, e).db.effects, s.sessions[p]);
    }
  }

  /** A second run, in any company, executes nothing: it never opens a
      transaction, it can fail only for want of the lock or by a failing
      statement, and if it succeeds it reports an empty list. */
  lemma {:induction false} SecondRunIsEmpty(states: seq<System>, events: seq<Event>, i: nat, j: nat, p: Pid)
    requires GoodRun(states, events) && i <= j < |states|
    requires p in states[i].sessions && states[i].sessions[p].phase.Polling?
    requires RecordedUpTo(Rows(states[i].db.ledger), states[i].sessions[p].list, |states[i].sessions[p].list|)
    requires forall k | i <= k < j :: events[k] != Disconnect(p)
    ensures Idle(states[j], p)
    ensures forall k | i <= k < j && events[k].p == p :: Rows(states[k + 1].db.ledger) == Rows(states[k].db.ledger)
    ensures forall k | i <= k < j && events[k].p == p :: states[k + 1].db.effects == states[k].db.effects
  {
    hide SessionOk, Apply, Enabled;
    RunInv(states, events, i);
    if i == j {
    } else {
      SecondRunIsEmpty(states, events, i, j - 1, p);
      RunInv(states, events, j - 1);
      IdleStep(states[j - 1], events[j - 1], p);
      RunInv(states, events, j);
    }
  }

  // ----- The baseline has to come first -----

  /** Whatever sessions embedding this one list do, ledger rows stay. */
  ghost predicate KeepsLedger(list: seq<Migration>) {
    forall states: seq<System>, events | IsRun(states, events) && Init(states[0]) && OnlyList(events, list) ::
      forall i, j | 0 <= i <= j < |states| :: Rows(states[i].db.ledger) <= Rows(states[j].db.ledger)
  }

  predicate OnlyList(events: seq<Event>, list: seq<Migration>) {
    forall i | 0 <= i < |events| && events[i].Start? :: events[i].list == list
  }

  ghost predicate Reachable(list: seq<Migration>, s: System) {
    exists states: seq<System>, events :: RunTo(states, events, list, s)
  }

  predicate RunTo(states: seq<System>, events: seq<Event>, list: seq<Migration>, s: System) {
    IsRun(states, events) && Init(states[0]) && OnlyList(events, list) && states[|states| - 1] == s
  }

  lemma RunOn(states: seq<System>, events: seq<Event>, list: seq<Migration>, s: System, e: Event)
    requires RunTo(states, events, list, s) && Enabled(s, e) && (e.Start? ==> e.list == list)
    ensures RunTo(states + [Apply(s, e)], events + [e], list, Apply(s, e))
  {
    hide Apply, Enabled, Init;
  }

  lemma ReachStep(list: seq<Migration>, s: System, e: Event, t: System)
    requires Reachable(list, s) && Enabled(s, e) && t == Apply(s, e) && (e.Start? ==> e.list == list)
    ensures Reachable(list, t)
  {
    hide Apply, Enabled, RunTo;
    var states: seq<System>, events :| RunTo(states, events, list, s);
    RunOn(states, events, list, s, e);
  }

  /** One session on an empty database that has executed the first n migrations. */
  function Alone(list: seq<Migration>, n: nat, path: string, phase: Phase): System
    requires n <= |list|
  {
    System(Db(Some(RowsOf(list[..n])), RowsOf(list[..n])), Some(0), map[0 := Session(list, path, phase)])
  }

  lemma ReachSql(list: seq<Migration>, n: nat, rebuilds: bool, ledger: Option<seq<LedgerRow>>)
    requires n < |list|
    requires Reachable(list, Alone(list, n, PUBLIC, Deciding(n, [], list[..n])))
    requires ledger == if list[n].name == BASELINE && rebuilds then None else Some(RowsOf(list[..n]))
    ensures Reachable(list, Alone(list, n, PUBLIC, InTx(n, [], list[..n], SqlRan,
              Tx(ledger, RowsOf(list[..n]) + [RowOf(list[n])], PUBLIC))))
  {
    hide Reachable;
    var rows := RowsOf(list[..n]);
    assert Decide(list[n], []) == Execute;
    var s0 := Alone(list, n, PUBLIC, Deciding(n, [], list[..n]));
    var s1 := Alone(list, n, PUBLIC, InTx(n, [], list[..n], Began, Tx(Some(rows), rows, PUBLIC)));
    var s2 := Alone(list, n, PUBLIC, InTx(n, [], list[..n], SqlRan, Tx(ledger, rows + [RowOf(list[n])], PUBLIC)));
    ReachStep(list, s0, Consider(0), s1);
    ReachStep(list, s1, RunSql(0, rebuilds, PUBLIC), s2);
  }

  lemma ReachInsert(list: seq<Migration>, n: nat, tx: Tx, rows: seq<LedgerRow>)
    requires n < |list| && rows == Rows(tx.ledger) && !Named(rows, list[n].name)
    requires Reachable(list, Alone(list, n, PUBLIC, InTx(n, [], list[..n], SqlRan, tx)))
    ensures Reachable(list, Alone(list, n, PUBLIC, InTx(n, [], list[..n], RowInserted, tx.(ledger := Some(rows + [RowOf(list[n])])))))
  {
    hide Reachable;
    var s2 := Alone(list, n, PUBLIC, InTx(n, [], list[..n], SqlRan, tx));
    var s3 := Alone(list, n, PUBLIC, InTx(n, [], list[..n], HookPassed, tx));
    var s4 := Alone(list, n, PUBLIC, InTx(n, [], list[..n], LedgerEnsured, tx.(ledger := Some(rows))));
    var s5 := Alone(list, n, PUBLIC, InTx(n, [], list[..n], RowInserted, tx.(ledger := Some(rows + [RowOf(list[n])]))));
    ReachStep(list, s2, Hook(0, true), s3);
    ReachStep(list, s3, EnsureLedger(0), s4);
    ReachStep(list, s4, InsertRow(0), s5);
  }

  /** Such a session gets as far as the commit of migration n. */
  lemma ReachCommit(list: seq<Migration>, n: nat, rebuilds: bool)
    requires n < |list| && DistinctNames(list)
    requires Reachable(list, Alone(list, n, PUBLIC, Deciding(n, [], list[..n])))
    ensures var rows := RowsOf(list[..n]);
      && var kept := if list[n].name == BASELINE && rebuilds then [] else rows;
      && Reachable(list, Alone(list, n, PUBLIC, InTx(n, [], list[..n], RowInserted,
           Tx(Some(kept + [RowOf(list[n])]), rows + [RowOf(list[n])], PUBLIC))))
  {
    hide Reachable;
    var rows := RowsOf(list[..n]);
    var ledger := if list[n].name == BASELINE && rebuilds then None else Some(rows);
    ReachSql(list, n, rebuilds, ledger);
    assert !Named(Rows(ledger), list[n].name);
    ReachInsert(list, n, Tx(ledger, rows + [RowOf(list[n])], PUBLIC), Rows(ledger));
  }

  lemma ReachStart(list: seq<Migration>)
    ensures Reachable(list, Alone(list, 0, PUBLIC, Deciding(0, [], [])))
  {
    var s0 := System(Db(None, []), None, map[]);
    assert RunTo([s0], [], list, s0);
    var s1 := System(Db(None, []), None, map[0 := Session(list, PUBLIC, Polling)]);
    var s2 := System(Db(None, []), Some(0), map[0 := Session(list, PUBLIC, Locked)]);
    ReachStep(list, s0, Start(0, list, PUBLIC), s1);
    ReachStep(list, s1, TryLock(0), s2);
    ReachStep(list, s2, ReadLedger(0), Alone(list, 0, PUBLIC, Deciding(0, [], [])));
  }

  lemma AloneCommits(list: seq<Migration>, k: nat, rows: seq<LedgerRow>)
    requires k < |list| && rows == RowsOf(list[..k + 1]) && list[..k + 1] == list[..k] + [list[k]]
    ensures var s5 := Alone(list, k, PUBLIC, InTx(k, [], list[..k], RowInserted, Tx(Some(rows), rows, PUBLIC)));
      var s6 := Alone(list, k + 1, PUBLIC, Committed(k, [], list[..k]));
      && Enabled(s5, Commit(0)) && Apply(s5, Commit(0)) == s6
      && Enabled(s6, RestorePath(0))
      && Apply(s6, RestorePath(0)) == Alone(list, k + 1, PUBLIC, Deciding(k + 1, [], list[..k + 1]))
  {
    hide RowsOf;
  }

  lemma ReachNext(list: seq<Migration>, k: nat)
    requires k < |list|
    requires var rows := RowsOf(list[..k]) + [RowOf(list[k])];
      Reachable(list, Alone(list, k, PUBLIC, InTx(k, [], list[..k], RowInserted, Tx(Some(rows), rows, PUBLIC))))
    ensures Reachable(list, Alone(list, k + 1, PUBLIC, Deciding(k + 1, [], list[..k + 1])))
  {
    hide Reachable;
    var rows := RowsOf(list[..k]) + [RowOf(list[k])];
    assert list[..k + 1] == list[..k] + [list[k]];
    assert RowsOf(list[..k + 1]) == rows;
    hide RowsOf;
    var s5 := Alone(list, k, PUBLIC, InTx(k, [], list[..k], RowInserted, Tx(Some(rows), rows, PUBLIC)));
    var s6 := Alone(list, k + 1, PUBLIC, Committed(k, [], list[..k]));
    AloneCommits(list, k, rows);
    hide Apply, Enabled;
    ReachStep(list, s5, Commit(0), s6);
    ReachStep(list, s6, RestorePath(0), Alone(list, k + 1, PUBLIC, Deciding(k + 1, [], list[..k + 1])));
  }

  lemma {:induction false} ReachProgress(list: seq<Migration>, n: nat)
    requires n <= |list| && DistinctNames(list) && forall i | 0 <= i < n :: list[i].name != BASELINE
    ensures Reachable(list, Alone(list, n, PUBLIC, Deciding(n, [], list[..n])))
  {
    hide Reachable;
    if n == 0 {
      ReachStart(list);
      assert list[..0] == [];
    } else {
      ReachProgress(list, n - 1);
      ReachCommit(list, n - 1, false);
      ReachNext(list, n - 1);
    }
  }

  /** The baseline guard looks at the snapshot taken before the run, so the rows
      are safe exactly when nothing is listed before the baseline. */
  lemma BaselineFirstIsExact(list: seq<Migration>)
    requires DistinctNames(list)
    ensures KeepsLedger(list) <==> ListOk(list)
  {
    if ListOk(list) {
      forall states: seq<System>, events, i, j | IsRun(states, events) && Init(states[0]) && OnlyList(events, list) && 0 <= i <= j < |states|
        ensures Rows(states[i].db.ledger) <= Rows(states[j].db.ledger)
      {
        LedgerOnlyGrows(states, events, i, j);
      }
    } else {
      var k :| 0 < k < |list| && list[k].name == BASELINE;
      ReachProgress(list, k);
      ReachCommit(list, k, true);
      RowLost(list, k);
    }
  }

  lemma StepLoses(list: seq<Migration>, s: System, e: Event)
    requires Reachable(list, s) && Enabled(s, e) && !e.Start?
    requires !(Rows(s.db.ledger) <= Rows(Apply(s, e).db.ledger))
    ensures !KeepsLedger(list)
  {
    hide Apply, Enabled, Init;
    var states: seq<System>, events :| RunTo(states, events, list, s);
    RunOn(states, events, list, s, e);
    var states', events' := states + [Apply(s, e)], events + [e];
    assert states'[|states| - 1] == s && states'[|states|] == Apply(s, e);
  }

  lemma RowLost(list: seq<Migration>, k: nat)
    requires 0 < k < |list| && list[k].name == BASELINE && list[0].name != BASELINE
    requires var rows := RowsOf(list[..k]);
      Reachable(list, Alone(list, k, PUBLIC, InTx(k, [], list[..k], RowInserted,
        Tx(Some([] + [RowOf(list[k])]), rows + [RowOf(list[k])], PUBLIC))))
    ensures !KeepsLedger(list)
  {
    hide Reachable, KeepsLedger;
    var rows := RowsOf(list[..k]);
    var s := Alone(list, k, PUBLIC, InTx(k, [], list[..k], RowInserted, Tx(Some([] + [RowOf(list[k])]), rows + [RowOf(list[k])], PUBLIC)));
    assert rows[0].name == list[0].name;
    StepLoses(list, s, Commit(0));
  }
}
