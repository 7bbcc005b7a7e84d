/** The hourly retention sweep over the idempotency keys. */
module DedupSweep {
  import opened DedupKeys

  const RETENTION_MS := 7 * 24 * 3600 * 1000
  const BATCH := 10_000
  const ROUNDS := 20

  datatype Claim = Claim(id: nat, createdAt: int)

  type Table = map<string, Claim>

  predicate Sweepable(table: Table, key: string, cutoff: int) {
    key in table && table[key].createdAt < cutoff && !IsCallSummary(key)
  }

  function Expired(table: Table, cutoff: int): set<string> {
    set key | key in table && Sweepable(table, key, cutoff)
  }

  /** The keys up for deletion: older than the cut-off and of no call summary. */
  lemma ExpiredIff(table: Table, cutoff: int, key: string)
    ensures key in Expired(table, cutoff) <==> key in table && table[key].createdAt < cutoff && !("call-summary:" <= key)
  {
  }

  function Min(a: nat, b: nat): nat { if a < b then a else b }

  /** The SELECT ... LIMIT of one round: some rows, no order. */
  method Pick(from: set<string>, limit: nat) returns (batch: set<string>)
    ensures batch <= from && |batch| == Min(|from|, limit)
  {
    batch := {};
    while |batch| < limit && from - batch != {}
      invariant batch <= from && |batch| <= limit && |from - batch| == |from| - |batch|
      decreases limit - |batch|
    {
      var key :| key in from - batch;
      assert from - (batch + {key}) == from - batch - {key};
      batch := batch + {key};
    }
    assert from - batch == {} ==> |from| == |batch|;
  }

  class Database {
    var dedup: Table

    constructor (table: Table)
      ensures dedup == table
    {
      dedup := table;
    }

    /** One DELETE of a round. */
    method DeleteBatch(cutoff: int) returns (affected: nat, ghost batch: set<string>)
      modifies this
      ensures Removes(old(dedup), dedup, batch, cutoff)
      ensures affected == |batch| == Min(|Expired(old(dedup), cutoff)|, BATCH)
    {
      var keys := Pick(Expired(dedup, cutoff), BATCH);
      dedup := dedup - keys;
      return |keys|, keys;
    }

    /** What other requests and other servers do to the table between two
        statements; callers know only the contract. */
    method Others(ghost quiet: bool)
      modifies this
      ensures quiet ==> dedup == old(dedup)
    {
    }

    /** One tick, others at work between any two statements unless quiet. failsIn
        is the round whose statement fails, if any. Each round removes expired
        keys outside the exemption and nothing else. A tick without a failure
        ends after twenty full batches or with no expired key left. */
    method Sweep(now: int, failsIn: nat, ghost quiet: bool) returns (total: nat, ghost rounds: seq<Round>)
      modifies this
      ensures RoundsOk(rounds, now - RETENTION_MS) && total == Total(rounds)
      ensures |rounds| <= ROUNDS && (rounds != [] ==> dedup == rounds[|rounds| - 1].after)
      ensures failsIn >= ROUNDS ==>
        total == 200_000 || forall k | k in dedup && dedup[k].createdAt < now - 604_800_000 :: "call-summary:" <= k
      ensures quiet ==>
        var expired := Expired(old(dedup), now - RETENTION_MS);
        && (exists removed :: Removes(old(dedup), dedup, removed, now - RETENTION_MS) && total == |removed|)
        && total <= Min(|expired|, ROUNDS * BATCH)
        && (failsIn >= ROUNDS ==> total == Min(|expired|, ROUNDS * BATCH))
    {
      hide Expired, RoundsOk, Total, Removes;
      NoRounds(dedup, now - RETENTION_MS);
      var cutoff := now - RETENTION_MS;
      var round := 0;
      total, rounds := 0, [];
      ghost var removed: set<string> := {};
      ghost var expired := |Expired(dedup, cutoff)|;
      var more := true;
      while round < ROUNDS && more && round != failsIn
        invariant 0 <= round <= ROUNDS && round <= failsIn && |rounds| == round
        invariant RoundsOk(rounds, cutoff) && total == Total(rounds)
        invariant rounds != [] ==> dedup == rounds[|rounds| - 1].after
        invariant if more then total == round * BATCH else Expired(dedup, cutoff) == {}
        invariant quiet ==> Removes(old(dedup), dedup, removed, cutoff) && total == |removed| == Min(expired, round * BATCH)
        invariant quiet && !more ==> total == expired
      {
        Others(quiet);
        ghost var before := dedup;
        var affected;
        ghost var batch;
        affected, batch := DeleteBatch(cutoff);
        BatchEmpties(before, dedup, batch, cutoff);
        if quiet { RemovesMore(old(dedup), before, dedup, removed, batch, cutoff); }
        RoundAdded(rounds, Round(before, dedup, batch), cutoff);
        removed, rounds := removed + batch, rounds + [Round(before, dedup, batch)];
        total := total + affected;
        more := affected >= BATCH;
        round := round + 1;
      }
      forall k | Expired(dedup, cutoff) == {} && k in dedup && dedup[k].createdAt < cutoff
        ensures "call-summary:" <= k
      {
        ExpiredIff(dedup, cutoff, k);
      }
    }
  }

  /** One DELETE: the table before and after it, and the keys it took. */
  datatype Round = Round(before: Table, after: Table, batch: set<string>)

  predicate RoundsOk(rounds: seq<Round>, cutoff: int) {
    forall i | 0 <= i < |rounds| :: Removes(rounds[i].before, rounds[i].after, rounds[i].batch, cutoff)
  }

  function Total(rounds: seq<Round>): nat {
    if rounds == [] then 0 else Total(rounds[..|rounds| - 1]) + |rounds[|rounds| - 1].batch|
  }

  lemma NoRounds(table: Table, cutoff: int)
    ensures RoundsOk([], cutoff) && Total([]) == 0 && Removes(table, table, {}, cutoff)
  {
    assert table - {} == table;
  }

  lemma RoundAdded(rounds: seq<Round>, r: Round, cutoff: int)
    requires RoundsOk(rounds, cutoff) && Removes(r.before, r.after, r.batch, cutoff)
    ensures RoundsOk(rounds + [r], cutoff) && Total(rounds + [r]) == Total(rounds) + |r.batch|
  {
    assert (rounds + [r])[..|rounds|] == rounds;
  }

  /** A batch short of the limit took every expired key. */
  lemma BatchEmpties(before: Table, after: Table, batch: set<string>, cutoff: int)
    requires Removes(before, after, batch, cutoff) && |batch| == Min(|Expired(before, cutoff)|, BATCH)
    ensures |batch| < BATCH ==> Expired(after, cutoff) == {}
    ensures |batch| <= BATCH
  {
    ExpiredLeft(before, batch, cutoff);
  }

  /** after is table without the keys of removed, all of them expired. */
  predicate Removes(table: Table, after: Table, removed: set<string>, cutoff: int) {
    removed <= Expired(table, cutoff) && after == table - removed
  }

  lemma ExpiredLeft(table: Table, removed: set<string>, cutoff: int)
    requires removed <= Expired(table, cutoff)
    ensures Expired(table - removed, cutoff) == Expired(table, cutoff) - removed
    ensures |Expired(table - removed, cutoff)| == |Expired(table, cutoff)| - |removed|
  {
  }

  lemma RemovesMore(table: Table, middle: Table, after: Table, removed: set<string>, batch: set<string>, cutoff: int)
    requires Removes(table, middle, removed, cutoff) && Removes(middle, after, batch, cutoff)
    ensures Removes(table, after, removed + batch, cutoff) && |removed + batch| == |removed| + |batch|
    ensures |Expired(middle, cutoff)| == |Expired(table, cutoff)| - |removed|
  {
    ExpiredLeft(table, removed, cutoff);
  }
}
