/** Credentials over whole runs: logins, refreshes, kicks, bumps and revokes
    interleaved statement by statement. A version is read in one step and signed
    into a token in a later one. */
module TokenLifetimes {
  import opened Text
  import opened DeviceSessions

  /** readAt is the moment the embedded version was determined. */
  datatype Token = Token(key: Key, version: int, readAt: nat, refresh: bool)

  /** A request that will sign: it knows its version, or has just found no row. */
  datatype Signer = Enrolling(key: Key) | Ready(key: Key, version: int, readAt: nat)

  datatype State = State(rows: Rows, signers: map<nat, Signer>, tokens: set<Token>, clock: nat)

  datatype Event =
    | Sql(st: Statement)
    | IssueUpsert(p: nat, key: Key)
    | IssueWithoutRow(p: nat, key: Key)      // the upsert failed: version 1 is signed all the same
    | LoginLookup(p: nat, key: Key)
    | LoginEnrol(p: nat)                      // signs 1 whatever the upsert returned
    | RefreshCheck(p: nat, token: Token)      // signs the version of the row
    | RefreshKeep(p: nat, token: Token)       // signs the version of the claims
    | Sign(p: nat, refresh: bool)
    | Drop(p: nat)

  predicate Enabled(s: State, e: Event) {
    match e
    case Sql(_) => true
    case IssueUpsert(_, _) => true
    case IssueWithoutRow(_, _) => true
    case LoginLookup(_, _) => true
    case LoginEnrol(p) => p in s.signers && s.signers[p].Enrolling?
    case RefreshCheck(_, t) => t in s.tokens && t.refresh && Verify(s.rows, t.key, t.version).Valid?
    case RefreshKeep(_, t) => t in s.tokens && t.refresh && Verify(s.rows, t.key, t.version).Valid?
    case Sign(p, _) => p in s.signers && s.signers[p].Ready?
    case Drop(p) => p in s.signers
  }

  /** The statement an event sends to the device table, if any. */
  function StatementOf(s: State, e: Event): Option<Statement>
    requires Enabled(s, e)
  {
    match e
    case Sql(st) => Some(st)
    case IssueUpsert(_, k) => Some(Register(k))
    case LoginEnrol(p) => Some(Register(s.signers[p].key))
    case _ => None
  }

  function RowsAfter(s: State, e: Event): Rows
    requires Enabled(s, e)
  {
    var st := StatementOf(s, e);
    if st.Some? then Exec(s.rows, st.value) else s.rows
  }

  /** The version a request will sign, if the event determines one. */
  function Reads(s: State, e: Event): Option<Signer>
    requires Enabled(s, e)
  {
    var rows, now := RowsAfter(s, e), s.clock + 1;
    match e
    case IssueUpsert(_, k) => Some(Ready(k, rows[k].version, now))
    case IssueWithoutRow(_, k) => Some(Ready(k, 1, now))
    case LoginLookup(_, k) => Some(if k in rows then Ready(k, rows[k].version, now) else Enrolling(k))
    case LoginEnrol(p) => Some(Ready(s.signers[p].key, 1, now))
    case RefreshCheck(_, t) => Some(Ready(t.key, rows[t.key].version, now))
    case RefreshKeep(_, t) => Some(Ready(t.key, t.version, now))
    case _ => None
  }

  function SignersAfter(s: State, e: Event): map<nat, Signer>
    requires Enabled(s, e)
  {
    if Reads(s, e).Some? then s.signers[e.p := Reads(s, e).value] else if e.Drop? then s.signers - {e.p} else s.signers
  }

  function TokensAfter(s: State, e: Event): set<Token>
    requires Enabled(s, e)
  {
    if !e.Sign? then s.tokens
    else var x := s.signers[e.p]; s.tokens + {Token(x.key, x.version, x.readAt, e.refresh)}
  }

  function Apply(s: State, e: Event): State
    requires Enabled(s, e)
  {
    State(RowsAfter(s, e), SignersAfter(s, e), TokensAfter(s, e), s.clock + 1)
  }

  predicate Init(s: State) {
    s.signers == map[] && s.tokens == {} && forall k | k in s.rows :: s.rows[k].version >= 1
  }

  predicate IsRun(states: seq<State>, events: seq<Event>) {
    |states| == |events| + 1 && Init(states[0]) &&
    forall i | 0 <= i < |events| :: Enabled(states[i], events[i]) && states[i + 1] == Apply(states[i], events[i])
  }

  // ----- No credential is ahead of its row -----

  predicate Bounded(rows: Rows, k: Key, version: int) {
    if k in rows then version <= rows[k].version else version <= 1
  }

  predicate Inv(s: State) {
    && (forall k | k in s.rows :: s.rows[k].version >= 1)
    && (forall t | t in s.tokens :: Bounded(s.rows, t.key, t.version))
    && (forall p | p in s.signers && s.signers[p].Ready? :: Bounded(s.rows, s.signers[p].key, s.signers[p].version))
  }

  /** A bound on a version survives every statement: rows stay and only rise. */
  lemma BoundStays(s: State, e: Event, k: Key, version: int)
    requires Inv(s) && Enabled(s, e) && Bounded(s.rows, k, version)
    ensures Bounded(RowsAfter(s, e), k, version)
  {
  }

  lemma RowsStayPositive(s: State, e: Event)
    requires Inv(s) && Enabled(s, e)
    ensures forall k | k in RowsAfter(s, e) :: RowsAfter(s, e)[k].version >= 1
  {
  }

  /** What a request reads is not ahead of its row. */
  lemma ReadIsBounded(s: State, e: Event)
    requires Inv(s) && Enabled(s, e) && Reads(s, e).Some? && Reads(s, e).value.Ready?
    ensures Bounded(RowsAfter(s, e), Reads(s, e).value.key, Reads(s, e).value.version)
  {
    RowsStayPositive(s, e);
    hide Exec;
  }

  lemma InvStep(s: State, e: Event)
    requires Inv(s) && Enabled(s, e)
    ensures Inv(Apply(s, e))
  {
    var t := Apply(s, e);
    RowsStayPositive(s, e);
    if Reads(s, e).Some? && Reads(s, e).value.Ready? { ReadIsBounded(s, e); }
    forall k, v | Bounded(s.rows, k, v) ensures Bounded(t.rows, k, v) { BoundStays(s, e, k, v); }
    hide RowsAfter, Reads, Bounded;
  }

  lemma {:induction false} RunInv(states: seq<State>, events: seq<Event>, i: nat)
    requires IsRun(states, events) && i < |states|
    ensures Inv(states[i])
  {
    if i == 0 {
    } else {
      RunInv(states, events, i - 1);
      InvStep(states[i - 1], events[i - 1]);
    }
  }

  /** The less-than test of the verifier accepts exactly the current version:
      no token that was ever signed is ahead of its row. */
  lemma AcceptedIffCurrent(states: seq<State>, events: seq<Event>, i: nat, t: Token)
    requires IsRun(states, events) && i < |states| && t in states[i].tokens
    ensures Verify(states[i].rows, t.key, t.version).Valid? <==>
            t.key in states[i].rows && states[i].rows[t.key].state == 0 && states[i].rows[t.key].version == t.version
  {
    RunInv(states, events, i);
  }

  /** A refresh signs the version of the refresh token it was given, on either path. */
  lemma RefreshKeepsVersion(states: seq<State>, events: seq<Event>, i: nat)
    requires IsRun(states, events) && i < |events|
    requires events[i].RefreshCheck? || events[i].RefreshKeep?
    ensures events[i].p in states[i + 1].signers
    ensures states[i + 1].signers[events[i].p] == Ready(events[i].token.key, events[i].token.version, states[i].clock + 1)
  {
    RunInv(states, events, i);
  }

  // ----- New credentials work -----

  /** Statements and requests can always come; a run goes on with any enabled event. */
  lemma RunGoesOn(states: seq<State>, events: seq<Event>, e: Event)
    requires IsRun(states, events) && Enabled(states[|events|], e)
    ensures IsRun(states + [Apply(states[|events|], e)], events + [e])
  {
    hide Apply, Enabled;
    var states', events' := states + [Apply(states[|events|], e)], events + [e];
    forall i | 0 <= i < |events'|
      ensures Enabled(states'[i], events'[i]) && states'[i + 1] == Apply(states'[i], events'[i])
    {
      if i < |events| { assert states'[i] == states[i] && states'[i + 1] == states[i + 1] && events'[i] == events[i]; }
    }
  }

  lemma AlwaysPossible(s: State, st: Statement, p: nat, k: Key)
    ensures Enabled(s, Sql(st)) && Enabled(s, IssueUpsert(p, k)) && Enabled(s, IssueWithoutRow(p, k)) && Enabled(s, LoginLookup(p, k))
    ensures Enabled(s, Drop(p)) <==> p in s.signers
  {
  }

  /** Both refresh paths take exactly the refresh tokens that were signed and whose
      row is Active and not ahead of them. */
  lemma RefreshTakes(s: State, p: nat, t: Token)
    ensures Enabled(s, RefreshCheck(p, t)) <==>
      t in s.tokens && t.refresh && t.key in s.rows && s.rows[t.key].state == 0 && s.rows[t.key].version <= t.version
    ensures Enabled(s, RefreshKeep(p, t)) <==> Enabled(s, RefreshCheck(p, t))
  {
  }

  /** The version each request will sign: the row's after an upsert or a lookup, 1
      without a row or for a device just enrolled, the refresh token's own. */
  lemma VersionsRead(s: State, e: Event)
    requires Enabled(s, e)
    ensures var t, now := Apply(s, e), s.clock + 1;
      && (e.IssueUpsert? ==> t.rows == Exec(s.rows, Register(e.key)) && e.key in t.rows
                             && t.signers == s.signers[e.p := Ready(e.key, t.rows[e.key].version, now)])
      && (e.IssueWithoutRow? ==> t.rows == s.rows && t.signers == s.signers[e.p := Ready(e.key, 1, now)])
      && (e.LoginLookup? && e.key in s.rows ==>
            t.rows == s.rows && t.signers == s.signers[e.p := Ready(e.key, s.rows[e.key].version, now)])
      && (e.LoginLookup? && e.key !in s.rows ==>
            t.rows == s.rows && t.signers == s.signers[e.p := Enrolling(e.key)])
      && (e.LoginEnrol? ==> t.rows == Exec(s.rows, Register(s.signers[e.p].key))
                            && t.signers == s.signers[e.p := Ready(s.signers[e.p].key, 1, now)])
      && (e.RefreshKeep? ==> t.rows == s.rows && t.signers == s.signers[e.p := Ready(e.token.key, e.token.version, now)])
      && (e.RefreshCheck? ==> t.rows == s.rows && e.token.key in s.rows
                              && t.signers == s.signers[e.p := Ready(e.token.key, s.rows[e.token.key].version, now)])
      && (e.Sql? ==> t.rows == Exec(s.rows, e.st) && t.signers == s.signers)
      && (e.Sign? ==> t.rows == s.rows && t.signers == s.signers)
      && (e.Sign? ==>
            t.tokens == s.tokens + {Token(s.signers[e.p].key, s.signers[e.p].version, s.signers[e.p].readAt, e.refresh)})
      && (!e.Sign? ==> t.tokens == s.tokens)
  {
    hide RowAfter;
  }

  /** A token issued and signed undisturbed verifies unless its row is frozen,
      pending or out of range. */
  lemma IssuedTokenWorks(s: State, p: nat, k: Key, refresh: bool)
    ensures var t1 := Apply(s, IssueUpsert(p, k));
      && Enabled(t1, Sign(p, refresh))
      && var t := Apply(t1, Sign(p, refresh));
      && k in t.rows && Token(k, t.rows[k].version, s.clock + 1, refresh) in t.tokens
      && (Verify(t.rows, k, t.rows[k].version).Valid? <==> k !in s.rows || s.rows[k].state in {0, 1, 3})
  {
  }

  /** A login on a known device verifies exactly if the row is Active; one on an
      unknown device always does. */
  lemma LoginTokenWorks(s: State, p: nat, k: Key, refresh: bool)
    ensures var t1 := Apply(s, LoginLookup(p, k));
      var t2 := if k in s.rows then t1 else Apply(t1, LoginEnrol(p));
      && Enabled(t2, Sign(p, refresh))
      && var t := Apply(t2, Sign(p, refresh));
      && k in t.rows && Token(k, t.rows[k].version, t2.clock, refresh) in t.tokens
      && (Verify(t.rows, k, t.rows[k].version).Valid? <==> k in s.rows ==> s.rows[k].state == 0)
  {
  }

  /** An access token from a refresh verifies. */
  lemma RefreshedTokenWorks(s: State, p: nat, r: Token)
    requires Enabled(s, RefreshCheck(p, r))
    ensures var t := Apply(Apply(s, RefreshCheck(p, r)), Sign(p, false));
      Token(r.key, s.rows[r.key].version, s.clock + 1, false) in t.tokens && Verify(t.rows, r.key, s.rows[r.key].version).Valid?
  {
  }

  // ----- Old credentials stay dead -----

  /** Any statement but a reactivation that changes a row raises its version. */
  lemma ChangeRaisesVersion(st: Statement, k: Key, r: Row)
    requires RowAfter(st, k, r) != r && st != Reactivate(k)
    ensures RowAfter(st, k, r).version == r.version + 1
  {
  }

  lemma {:induction false} RowsPersist(states: seq<State>, events: seq<Event>, i: nat, j: nat, k: Key)
    requires IsRun(states, events) && i <= j < |states| && k in states[i].rows
    ensures k in states[j].rows && states[j].rows[k].version >= states[i].rows[k].version
  {
    if i == j {
    } else {
      RowsPersist(states, events, i, j - 1, k);
    }
  }

  predicate OldOnesAtMost(s: State, k: Key, since: nat, version: int) {
    && (forall t | t in s.tokens && t.key == k && t.readAt <= since :: t.version <= version)
    && (forall p | p in s.signers && s.signers[p].Ready? && s.signers[p].key == k && s.signers[p].readAt <= since ::
          s.signers[p].version <= version)
  }

  lemma OldOnesStep(s: State, e: Event, k: Key, since: nat, version: int)
    requires Enabled(s, e) && since <= s.clock && OldOnesAtMost(s, k, since, version)
    ensures OldOnesAtMost(Apply(s, e), k, since, version)
  {
  }

  lemma {:induction false} OldOnesStayOld(states: seq<State>, events: seq<Event>, i: nat, j: nat, k: Key)
    requires IsRun(states, events) && i <= j < |states| && k in states[i].rows
    ensures OldOnesAtMost(states[j], k, states[i].clock, states[i].rows[k].version)
    ensures states[i].clock <= states[j].clock
  {
    if i == j {
      RunInv(states, events, i);
    } else {
      OldOnesStayOld(states, events, i, j - 1, k);
      OldOnesStep(states[j - 1], events[j - 1], k, states[i].clock, states[i].rows[k].version);
    }
  }

  /** Step i changes an existing row, other than by reactivating it. */
  predicate Displaces(states: seq<State>, events: seq<Event>, i: nat, k: Key)
    requires IsRun(states, events) && i < |events|
  {
    k in states[i].rows && k in states[i + 1].rows && states[i + 1].rows[k] != states[i].rows[k]
    && StatementOf(states[i], events[i]) != Some(Reactivate(k))
  }

  /** Once a kick, bump, revoke, increment or repeated login changes the row, no
      token whose version was determined before verifies again, ever: neither
      those already signed, nor those signed later by requests under way, in
      spite of any later login or reactivation. */
  lemma OldCredentialsStayDead(states: seq<State>, events: seq<Event>, i: nat, j: nat, k: Key, t: Token)
    requires IsRun(states, events) && i < j < |states| && Displaces(states, events, i, k)
    requires t in states[j].tokens && t.key == k && t.readAt <= states[i].clock
    ensures !Verify(states[j].rows, k, t.version).Valid?
  {
    ChangeRaisesVersion(StatementOf(states[i], events[i]).value, k, states[i].rows[k]);
    RowsPersist(states, events, i + 1, j, k);
    OldOnesStayOld(states, events, i, j, k);
  }

  /** Nor can such a token mint another one: both refresh paths refuse it. */
  lemma OldCredentialsMintNothing(states: seq<State>, events: seq<Event>, i: nat, j: nat, k: Key, t: Token, p: nat)
    requires IsRun(states, events) && i < j < |states| && Displaces(states, events, i, k)
    requires t in states[j].tokens && t.key == k && t.readAt <= states[i].clock
    ensures !Enabled(states[j], RefreshCheck(p, t)) && !Enabled(states[j], RefreshKeep(p, t))
  {
    OldCredentialsStayDead(states, events, i, j, k, t);
  }

  /** A row leaves the Active state only with a new version, so reactivating it
      does not bring back any token that was good while it was Active. */
  lemma ReactivationNeverRevivesKicked(rows: Rows, sts: seq<Statement>, k: Key, version: int)
    requires k in rows && rows[k].state == 0 && version <= rows[k].version
    requires k in ExecAll(rows, sts) && ExecAll(rows, sts)[k].state != 0
    ensures !Verify(Exec(ExecAll(rows, sts), Reactivate(k)), k, version).Valid?
  {
    VersionsNeverFall(rows, sts, k);
  }
}
