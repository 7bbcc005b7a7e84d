/** What every run of the send machine keeps. */
module SendSafety {
  import opened Text
  import opened DedupKeys
  import opened DedupSweep
  import opened IdempotentSend

  // ----- One step -----

  /** A stored message takes an unused id and, if it has a key, a free key. */
  lemma NewIsFresh(s: State, e: Event)
    requires Inv(s) && Enabled(s, e) && New(s, e).Some?
    ensures New(s, e).value.0 !in s.messages && New(s, e).value.0 !in s.swept
    ensures New(s, e).value.1.key.Some? ==> New(s, e).value.1.key.value !in s.dedup
  {
    hide ClientKey;
    hide SequencesOk, AnswersOk, KeysHeld, ClaimsPoint;
  }

  /** An event of another request, or of none, leaves request p alone. */
  lemma Bystander(s: State, e: Event, p: nat)
    requires Enabled(s, e) && !About(e, p) && p in RequestsAfter(s, e) && !(e.Receive? && e.p == p)
    ensures p in s.requests && RequestsAfter(s, e)[p] == s.requests[p]
  {
    hide Goes;
  }

  /** A request that goes on keeps its key. */
  lemma GoesOn(s: State, e: Event, p: nat)
    requires Enabled(s, e) && About(e, p) && p in RequestsAfter(s, e)
    ensures p in s.requests && Goes(s, e, s.requests[p]).Some?
    ensures RequestsAfter(s, e)[p] == s.requests[p].(phase := Goes(s, e, s.requests[p]).value)
  {
    hide Goes;
  }

  // ----- What the client gets -----

  /** A pre-check or a lookup that meets a stored message answers with its id and
      number; one that does not lets the send go on, or ends it with an error. */
  lemma LookupsAnswer(s: State, e: Event, p: nat)
    requires (e == Precheck(p) || e == Lookup(p)) && Enabled(s, e)
    ensures var r, t := s.requests[p], Apply(s, e);
      var key := ClientKey(r.user, r.device, r.localId);
      if r.localId != 0 && key in s.dedup && s.dedup[key].id in s.messages && s.dedup[key].id !in s.gone then
        var m := s.dedup[key].id;
        t.requests == s.requests[p := r.(phase := Known(m, s.messages[m].pts))]
      else if e.Precheck? then t.requests == s.requests[p := r.(phase := Checked)]
      else t.requests == s.requests - {p}
    ensures var t := Apply(s, e); (t.dedup, t.messages, t.gone, t.current, t.replies) == (s.dedup, s.messages, s.gone, s.current, s.replies)
  {
    hide ClientKey;
  }

  /** A claim succeeds exactly when no committed claim has the key. */
  lemma ClaimTakes(s: State, p: nat)
    requires Enabled(s, Event.Claim(p))
    ensures var r, t := s.requests[p], Apply(s, Event.Claim(p));
      var key := ClientKey(r.user, r.device, r.localId);
      && t.requests == s.requests[p := r.(phase := if r.localId != 0 && key in s.dedup then Conflicted
                                                   else Claimed(r.phase.id, r.phase.createdAt))]
      && t.claims == (if r.localId != 0 && key !in s.dedup then s.claims[key := p] else s.claims)
      && (t.dedup, t.messages, t.current, t.replies) == (s.dedup, s.messages, s.current, s.replies)
  {
    hide ClientKey;
  }

  /** A commit stores the message under the next number of its channel and under
      the client's key, and saves both for the reply. */
  lemma CommitStores(s: State, p: nat)
    requires Enabled(s, Commit(p))
    ensures var r, t := s.requests[p], Apply(s, Commit(p));
      var key := if r.localId == 0 then None else Some(ClientKey(r.user, r.device, r.localId));
      var pts := if r.channel in s.current then s.current[r.channel] + 1 else 1;
      && t.messages == s.messages[r.phase.id := Message(r.channel, pts, key, r.phase.createdAt, Sent(p), 0)]
      && t.dedup == (if key.Some? then s.dedup[key.value := DedupSweep.Claim(r.phase.id, r.phase.createdAt)] else s.dedup)
      && t.current == s.current[r.channel := pts]
      && t.requests == s.requests[p := r.(phase := Saved(r.phase.id, pts))]
      && t.claims == (if key.Some? then s.claims - {key.value} else s.claims)
      && t.replies == s.replies
  {
    hide ClientKey;
  }

  /** What the other writers do: they store under the next number of the channel,
      announce under 0, take a number and use it later, edit, dissolve, sweep. */
  lemma OthersWrite(s: State, e: Event)
    requires Enabled(s, e)
    ensures var t := Apply(s, e);
      && (e.OtherSend? ==>
          var pts := if e.channel in s.current then s.current[e.channel] + 1 else 1;
          && t.messages == s.messages[e.id := Message(e.channel, pts, e.key, e.createdAt, Elsewhere, 0)]
          && t.current == s.current[e.channel := pts]
          && t.dedup == if e.key.Some? then s.dedup[e.key.value := DedupSweep.Claim(e.id, e.createdAt)] else s.dedup)
      && (e.Announce? ==>
          t.messages == s.messages[e.id := Message(e.channel, 0, None, e.createdAt, Announced, 0)] && t.current == s.current)
      && (e.OtherSequence? ==>
          var pts := if e.channel in s.current then s.current[e.channel] + 1 else 1;
          && t.current == s.current[e.channel := pts] && t.reserved == s.reserved + {(e.channel, pts)})
      && (e.Project? ==>
          && t.messages == s.messages[e.id := Message(e.channel, e.pts, None, e.createdAt, Elsewhere, 0)]
          && t.reserved == s.reserved - {(e.channel, e.pts)} && t.current == s.current)
      && (e.Edit? ==> t.messages == s.messages[e.id := s.messages[e.id].(status := e.status)])
      && (e.Dissolve? ==> t.messages == s.messages && t.dedup == s.dedup)
      && (e.Dissolve? ==> forall id :: id in t.gone <==> id in s.gone || (id in s.messages && s.messages[id].channel == e.channel))
      && (e.SweepBatch? ==> t.dedup == s.dedup - e.keys && t.messages == s.messages)
      && (e.Tick? ==> t == s.(now := s.now + e.ms))
  {
  }

  /** Nothing can keep numbers from being taken, channels from being dissolved,
      time from passing or a request from failing. */
  lemma AlwaysPossible(s: State, channel: nat, ms: nat, p: nat)
    ensures Enabled(s, OtherSequence(channel)) && Enabled(s, Dissolve(channel)) && Enabled(s, Tick(ms))
    ensures p in s.requests ==> Enabled(s, Crash(p)) && Enabled(s, Refuse(p))
  {
  }

  /** A success response says what was found or saved, and the request is over. */
  lemma ResponseSays(s: State, p: nat)
    requires Enabled(s, Respond(p))
    ensures var r, t := s.requests[p], Apply(s, Respond(p));
      && t.replies == s.replies + {Reply(p, r.user, r.device, r.localId, r.phase.id, r.phase.pts)}
      && t.requests == s.requests - {p}
      && (t.dedup, t.messages, t.gone, t.current) == (s.dedup, s.messages, s.gone, s.current)
  {
    hide KeyOf;
  }

  /** A refused or crashed request leaves the tables as they were and its open
      claim is rolled back. */
  lemma FailureRollsBack(s: State, e: Event)
    requires (e.Refuse? || e.Crash?) && Enabled(s, e)
    ensures var r, t := s.requests[e.p], Apply(s, e);
      && t.requests == s.requests - {e.p}
      && t.claims == (if r.phase.Claimed? && r.localId != 0 then s.claims - {ClientKey(r.user, r.device, r.localId)} else s.claims)
      && (t.dedup, t.messages, t.gone, t.current, t.replies) == (s.dedup, s.messages, s.gone, s.current, s.replies)
  {
    hide ClientKey;
  }

  /** The state after one more event, if it can happen. */
  function Then(s: Option<State>, e: Event): Option<State> {
    if s.Some? && Enabled(s.value, e) then Some(Apply(s.value, e)) else None
  }

  /** The tables as far as a send is concerned. */
  predicate SameTables(s: State, t: State) {
    (t.dedup, t.claims, t.messages, t.gone, t.current, t.replies, t.now)
    == (s.dedup, s.claims, s.messages, s.gone, s.current, s.replies, s.now)
  }

  /** A received request waits for its pre-check; nothing else has changed. */
  lemma ReceiptStarts(s: State, p: nat, user: nat, device: string, localId: nat, channel: nat)
    requires p !in s.seen
    ensures var t := Then(Some(s), Receive(p, user, device, localId, channel));
      && t.Some? && SameTables(s, t.value) && t.value.ids == s.ids
      && p in t.value.requests && t.value.requests[p] == Request(user, device, localId, channel, Received)
  {
    hide KeyOf;
  }

  /** A new id and the clock go into the message to be stored. */
  lemma BuildTakesId(s: State, p: nat, id: nat)
    requires p in s.requests && s.requests[p].phase == Checked && id !in s.ids
    ensures var t := Then(Some(s), Build(p, id));
      && t.Some? && SameTables(s, t.value) && p in t.value.requests
      && t.value.requests[p] == s.requests[p].(phase := Built(id, s.now))
  {
    hide KeyOf;
  }

  /** A retry of a stored send is answered with the stored message, whatever else
      has happened since. */
  lemma RetryIsAnswered(s: State, p: nat, user: nat, device: string, localId: nat, channel: nat, m: nat)
    requires p !in s.seen && localId != 0 && ClientKey(user, device, localId) in s.dedup
    requires s.dedup[ClientKey(user, device, localId)].id == m && m in s.messages && m !in s.gone
    ensures var t := Then(Then(Then(Some(s), Receive(p, user, device, localId, channel)), Precheck(p)), Respond(p));
      && t.Some? && t.value.replies == s.replies + {Reply(p, user, device, localId, m, s.messages[m].pts)}
      && t.value.messages == s.messages && t.value.dedup == s.dedup
  {
    hide ClientKey, Apply;
    ReceiptStarts(s, p, user, device, localId, channel);
    var s1 := Then(Some(s), Receive(p, user, device, localId, channel)).value;
    LookupsAnswer(s1, Precheck(p), p);
    ResponseSays(Apply(s1, Precheck(p)), p);
  }

  lemma NewIsChecked(s: State, p: nat, user: nat, device: string, localId: nat, channel: nat) returns (t: State)
    requires p !in s.seen && (localId != 0 ==> ClientKey(user, device, localId) !in s.dedup)
    ensures Then(Then(Some(s), Receive(p, user, device, localId, channel)), Precheck(p)) == Some(t)
    ensures SameTables(s, t) && t.ids == s.ids && p in t.requests && t.requests[p] == Request(user, device, localId, channel, Checked)
  {
    hide ClientKey, Apply;
    ReceiptStarts(s, p, user, device, localId, channel);
    var s1 := Then(Some(s), Receive(p, user, device, localId, channel)).value;
    LookupsAnswer(s1, Precheck(p), p);
    PrecheckLeaves(s1, p);
    t := Apply(s1, Precheck(p));
  }

  /** A first send, undisturbed, is stored under the next number of its channel and
      answered with it. */
  lemma FirstSendIsStored(s: State, p: nat, user: nat, device: string, localId: nat, channel: nat, id: nat)
    requires p !in s.seen && id !in s.ids
    requires localId != 0 ==> ClientKey(user, device, localId) !in s.dedup && ClientKey(user, device, localId) !in s.claims
    ensures var checked := Then(Then(Some(s), Receive(p, user, device, localId, channel)), Precheck(p));
      var t := Then(Then(Then(Then(checked, Build(p, id)), Event.Claim(p)), Commit(p)), Respond(p));
      && t.Some? && t.value.replies == s.replies + {Reply(p, user, device, localId, id, NextNumber(s, channel))}
      && t.value.messages == s.messages[id := Message(channel, NextNumber(s, channel), KeyFor(user, device, localId), s.now, Sent(p), 0)]
      && (localId != 0 ==> t.value.dedup == s.dedup[ClientKey(user, device, localId) := DedupSweep.Claim(id, s.now)])
  {
    hide ClientKey, Apply, Enabled, KeyFor;
    var s2 := NewIsChecked(s, p, user, device, localId, channel);
    BuildTakesId(s2, p, id);
    BuiltIsStored(Then(Some(s2), Build(p, id)).value, p);
  }

  lemma PrecheckLeaves(s: State, p: nat)
    requires Enabled(s, Precheck(p))
    ensures SameTables(s, Apply(s, Precheck(p))) && Apply(s, Precheck(p)).ids == s.ids
  {
    hide KeyOf, Goes;
  }

  lemma BuiltIsStored(s: State, p: nat)
    requires p in s.requests && s.requests[p].phase.Built?
    requires var r := s.requests[p];
      r.localId != 0 ==> ClientKey(r.user, r.device, r.localId) !in s.dedup && ClientKey(r.user, r.device, r.localId) !in s.claims
    ensures var r := s.requests[p];
      var t := Then(Then(Then(Some(s), Event.Claim(p)), Commit(p)), Respond(p));
      var pts := NextNumber(s, r.channel);
      && t.Some? && t.value.replies == s.replies + {Reply(p, r.user, r.device, r.localId, r.phase.id, pts)}
      && t.value.messages == s.messages[r.phase.id :=
           Message(r.channel, pts, KeyFor(r.user, r.device, r.localId), r.phase.createdAt, Sent(p), 0)]
      && (r.localId != 0 ==>
            t.value.dedup == s.dedup[ClientKey(r.user, r.device, r.localId) := DedupSweep.Claim(r.phase.id, r.phase.createdAt)])
  {
    hide ClientKey, Apply;
    ClaimTakes(s, p);
    var s4 := Apply(s, Event.Claim(p));
    CommitStores(s4, p);
    ResponseSays(Apply(s4, Commit(p)), p);
  }

  function NextNumber(s: State, channel: nat): nat {
    if channel in s.current then s.current[channel] + 1 else 1
  }

  function KeyFor(user: nat, device: string, localId: nat): Option<string> {
    if localId == 0 then None else Some(ClientKey(user, device, localId))
  }

  // ----- One part of the invariant at a time -----

  lemma ClaimsPointStep(s: State, e: Event)
    requires Inv(s) && Enabled(s, e)
    ensures ClaimsPoint(Apply(s, e))
  {
    hide Enabled, New, SequencesOk, AnswersOk, OpenClaims, SweptOld, KeysHeld, IdsFresh;
    hide ClaimsAfter, CurrentAfter, ReservedAfter, GoneAfter, RequestsAfter, RepliesAfter, IdsAfter, SweptAfter;
    if New(s, e).Some? { NewIsFresh(s, e); }
    if e.Edit? { EditsStored(s, e); }
  }

  lemma KeysHeldStep(s: State, e: Event)
    requires Inv(s) && Enabled(s, e)
    ensures KeysHeld(Apply(s, e))
  {
    hide Enabled, SequencesOk, AnswersOk, OpenClaims, SweptOld, IdsFresh, ClaimsPoint;
    hide ClaimsAfter, CurrentAfter, RequestsAfter, RepliesAfter, IdsAfter, KeyOf, Pts;
    if New(s, e).Some? { NewIsFresh(s, e); }
    if e.Edit? { EditsStored(s, e); }
  }

  lemma EditsStored(s: State, e: Event)
    requires Enabled(s, e) && e.Edit?
    ensures e.id in s.messages
  {
  }

  lemma SweepsOnlyOld(s: State, e: Event)
    requires Enabled(s, e) && e.SweepBatch?
    ensures forall k | k in e.keys :: Sweepable(s.dedup, k, s.now - RETENTION_MS)
  {
  }

  lemma SweptOldStep(s: State, e: Event)
    requires Inv(s) && Enabled(s, e)
    ensures SweptOld(Apply(s, e))
  {
    hide Enabled, SequencesOk, AnswersOk, OpenClaims, KeysHeld, IdsFresh;
    hide DedupAfter, ClaimsAfter, CurrentAfter, RequestsAfter, RepliesAfter, IdsAfter, KeyOf, Pts;
    if New(s, e).Some? { NewIsFresh(s, e); }
    if e.SweepBatch? { SweepsOnlyOld(s, e); }
  }

  predicate ClaimOpen(s: State, p: nat) {
    p in s.requests && s.requests[p].phase.Claimed? && KeyOf(s.requests[p]).Some?
  }

  /** An open claim is ended by its own request alone. */
  lemma ClaimStays(s: State, e: Event, key: string)
    requires OpenClaims(s) && Enabled(s, e) && key in s.claims && !About(e, s.claims[key])
    ensures key in ClaimsAfter(s, e) && ClaimsAfter(s, e)[key] == s.claims[key]
  {
    hide ClientKey;
  }

  /** A key with an open claim is not stored by anybody else. */
  lemma OpenKeyNotStored(s: State, e: Event, key: string)
    requires OpenClaims(s) && Enabled(s, e) && key in s.claims && !About(e, s.claims[key])
    ensures New(s, e).Some? ==> New(s, e).value.1.key != Some(key)
  {
    hide ClientKey;
  }

  lemma OpenClaimAt(s: State, e: Event, p: nat)
    requires OpenClaims(s) && Enabled(s, e) && ClaimOpen(Apply(s, e), p)
    ensures var t, key := Apply(s, e), KeyOf(Apply(s, e).requests[p]).value;
      key in t.claims && t.claims[key] == p && key !in t.dedup
  {
    hide ClientKey, MessagesAfter, CurrentAfter, RepliesAfter, IdsAfter;
    if About(e, p) {
      GoesOn(s, e, p);
    } else {
      Bystander(s, e, p);
      hide Enabled;
      var key := KeyOf(s.requests[p]).value;
      ClaimStays(s, e, key);
      OpenKeyNotStored(s, e, key);
    }
  }

  lemma OpenClaimsStep(s: State, e: Event)
    requires Inv(s) && Enabled(s, e)
    ensures OpenClaims(Apply(s, e))
  {
    hide Apply, Enabled, SequencesOk, AnswersOk, SweptOld, KeysHeld, IdsFresh, ClaimsPoint, KeyOf;
    var t := Apply(s, e);
    forall p | ClaimOpen(t, p)
      ensures KeyOf(t.requests[p]).value in t.claims && t.claims[KeyOf(t.requests[p]).value] == p
      ensures KeyOf(t.requests[p]).value !in t.dedup
    {
      OpenClaimAt(s, e, p);
    }
  }

  /** The same but for the status. */
  predicate SameMessage(m: Message, n: Message) {
    m == n.(status := m.status)
  }

  /** Messages are never removed, nor changed but for their status. */
  predicate Grows(s: State, t: State) {
    forall id | id in s.messages :: id in t.messages && SameMessage(s.messages[id], t.messages[id])
  }

  lemma StepGrows(s: State, e: Event)
    requires Inv(s) && Enabled(s, e)
    ensures Grows(s, Apply(s, e))
  {
    hide Enabled, Inv, New, DedupAfter, ClaimsAfter, CurrentAfter, RequestsAfter, RepliesAfter, IdsAfter;
    if New(s, e).Some? { NewIsFresh(s, e); }
  }

  /** Only Build puts a request in possession of an id, and a new one. */
  lemma HoldersStep(s: State, e: Event, p: nat)
    requires Enabled(s, e) && p in RequestsAfter(s, e) && HoldsId(RequestsAfter(s, e)[p])
    ensures var r := RequestsAfter(s, e)[p];
      if e.Build? && e.p == p then r.phase.id == e.id && e.id !in s.ids
      else p in s.requests && HoldsId(s.requests[p]) && s.requests[p].phase.id == r.phase.id
           && !(e.Commit? && e.p == p)
  {
    hide KeyOf, Found, New;
    if About(e, p) { GoesOn(s, e, p); } else if !e.Receive? || e.p != p { Bystander(s, e, p); }
  }

  /** A committing request holds the id it stores; other writers bring a new one. */
  lemma StoredIdIsHeld(s: State, e: Event)
    requires Enabled(s, e) && New(s, e).Some?
    ensures if e.Commit? then e.p in s.requests && HoldsId(s.requests[e.p]) && s.requests[e.p].phase.id == New(s, e).value.0
            else New(s, e).value.0 !in s.ids
  {
    hide KeyOf;
  }

  lemma IdsFreshStep(s: State, e: Event)
    requires Inv(s) && Enabled(s, e)
    ensures IdsFresh(Apply(s, e))
  {
    hide SequencesOk, AnswersOk, SweptOld, KeysHeld, OpenClaims, ClaimsPoint, New;
    hide Enabled, RequestsAfter, DedupAfter, ClaimsAfter, CurrentAfter, RepliesAfter;
    var t := Apply(s, e);
    if New(s, e).Some? { StoredIdIsHeld(s, e); }
    if e.Edit? { EditsStored(s, e); }
    if e.Build? { BuildStoresNothing(s, e); }
    forall p | p in t.requests && HoldsId(t.requests[p])
      ensures t.requests[p].phase.id in t.ids && t.requests[p].phase.id !in t.messages
    {
      HoldersStep(s, e, p);
    }
    forall p, q | p in t.requests && q in t.requests && p != q && HoldsId(t.requests[p]) && HoldsId(t.requests[q])
      ensures t.requests[p].phase.id != t.requests[q].phase.id
    {
      HoldersStep(s, e, p);
      HoldersStep(s, e, q);
    }
  }

  lemma BuildStoresNothing(s: State, e: Event)
    requires Enabled(s, e) && e.Build?
    ensures New(s, e).None?
  {
  }

  lemma AnswerKept(s: State, t: State, p: nat, key: Option<string>, id: nat, pts: nat)
    requires Grows(s, t) && Answers(s, p, key, id, pts)
    ensures Answers(t, p, key, id, pts)
  {
  }

  predicate HasAnswer(r: Request) { r.phase.Known? || r.phase.Saved? }

  /** Where an answer comes from: the request had it, found it, or stored it. */
  lemma AnswerOrigin(s: State, e: Event, p: nat)
    requires Enabled(s, e) && p in RequestsAfter(s, e) && HasAnswer(RequestsAfter(s, e)[p])
    ensures p in s.requests && KeyOf(RequestsAfter(s, e)[p]) == KeyOf(s.requests[p])
    ensures var r, r' := s.requests[p], RequestsAfter(s, e)[p];
      if HasAnswer(r) then r' == r
      else if e == Commit(p) then New(s, e).Some? && r'.phase == Saved(New(s, e).value.0, New(s, e).value.1.pts)
      else Found(s, KeyOf(r)).Some? && MessagesAfter(s, e) == s.messages
           && r'.phase == Known(Found(s, KeyOf(r)).value, s.messages[Found(s, KeyOf(r)).value].pts)
  {
    hide ClientKey, Found;
    if About(e, p) { GoesOn(s, e, p); } else if !e.Receive? || e.p != p { Bystander(s, e, p); }
  }

  lemma AnswerStep(s: State, e: Event, p: nat)
    requires Inv(s) && Enabled(s, e) && p in RequestsAfter(s, e) && HasAnswer(RequestsAfter(s, e)[p])
    ensures var r := RequestsAfter(s, e)[p]; Answers(Apply(s, e), p, KeyOf(r), r.phase.id, r.phase.pts)
  {
    hide Enabled, SequencesOk, SweptOld, KeysHeld, OpenClaims, IdsFresh, ClaimsPoint, Grows, KeyOf, Answers, Found, New;
    hide DedupAfter, ClaimsAfter, CurrentAfter, RequestsAfter, RepliesAfter, IdsAfter;
    AnswerOrigin(s, e, p);
    StepGrows(s, e);
    var t, r := Apply(s, e), s.requests[p];
    if HasAnswer(r) {
      AnswerKept(s, t, p, KeyOf(r), r.phase.id, r.phase.pts);
    } else if e == Commit(p) {
      CommitKey(s, p);
      StoredAnswer(t, p, KeyOf(r), New(s, e).value.0, New(s, e).value.1);
    } else {
      FoundAnswer(s, t, p, KeyOf(r));
    }
  }

  lemma FoundAnswer(s: State, t: State, p: nat, key: Option<string>)
    requires ClaimsPoint(s) && Found(s, key).Some? && t.messages == s.messages
    ensures Answers(t, p, key, Found(s, key).value, s.messages[Found(s, key).value].pts)
  {
  }

  lemma StoredAnswer(t: State, p: nat, key: Option<string>, id: nat, m: Message)
    requires id in t.messages && t.messages[id] == m && m.key == key && m.origin == Sent(p)
    ensures Answers(t, p, key, id, m.pts)
  {
  }

  lemma CommitKey(s: State, p: nat)
    requires Enabled(s, Commit(p))
    ensures New(s, Commit(p)).Some? && New(s, Commit(p)).value.1.key == KeyOf(s.requests[p])
    ensures New(s, Commit(p)).value.1.origin == Sent(p)
  {
  }

  lemma ReplyStep(s: State, e: Event, r: Reply)
    requires Inv(s) && Enabled(s, e) && r in RepliesAfter(s, e)
    ensures Answers(Apply(s, e), r.request, ReplyKey(r), r.id, r.pts)
  {
    hide ClientKey, SequencesOk, SweptOld, KeysHeld, OpenClaims, ClaimsPoint, IdsFresh, Grows, Answers, Apply;
    StepGrows(s, e);
    if r in s.replies {
      AnswerKept(s, Apply(s, e), r.request, ReplyKey(r), r.id, r.pts);
    } else {
      var x := s.requests[e.p];
      AnswerKept(s, Apply(s, e), e.p, KeyOf(x), x.phase.id, x.phase.pts);
    }
  }

  lemma AnswersOkStep(s: State, e: Event)
    requires Inv(s) && Enabled(s, e)
    ensures AnswersOk(Apply(s, e))
  {
    hide Inv, Enabled, Answers, KeyOf, ReplyKey, Found, New;
    hide DedupAfter, ClaimsAfter, CurrentAfter, RequestsAfter, RepliesAfter, IdsAfter, MessagesAfter, SweptAfter;
    var t := Apply(s, e);
    forall r | r in t.replies
      ensures Answers(t, r.request, ReplyKey(r), r.id, r.pts)
    {
      ReplyStep(s, e, r);
    }
    forall p | p in t.requests && (t.requests[p].phase.Known? || t.requests[p].phase.Saved?)
      ensures Answers(t, p, KeyOf(t.requests[p]), t.requests[p].phase.id, t.requests[p].phase.pts)
    {
      AnswerStep(s, e, p);
    }
  }

  /** Counters never fall, and what is reserved anew is beyond the counter. */
  lemma CountersStep(s: State, e: Event, c: nat)
    requires Enabled(s, e)
    ensures Pts(Apply(s, e), c) >= Pts(s, c)
    ensures forall n | (c, n) in ReservedAfter(s, e) && (c, n) !in s.reserved :: Pts(s, c) < n <= Pts(Apply(s, e), c)
  {
    hide KeyOf, DedupAfter, ClaimsAfter, RequestsAfter, RepliesAfter, IdsAfter, SweptAfter, MessagesAfter, GoneAfter;
  }

  /** The number of a new message is 0 for an announcement, and else one that no
      message of the channel has. */
  lemma NewNumber(s: State, e: Event)
    requires SequencesOk(s) && Enabled(s, e) && New(s, e).Some?
    ensures var m := New(s, e).value.1;
      && NumberOk(Apply(s, e), m)
      && (m.pts > 0 ==> forall id | id in s.messages && s.messages[id].channel == m.channel :: s.messages[id].pts != m.pts)
  {
    hide KeyOf, DedupAfter, ClaimsAfter, RequestsAfter, RepliesAfter, IdsAfter, SweptAfter, MessagesAfter, GoneAfter;
  }

  lemma NumberStays(s: State, e: Event, m: Message)
    requires Enabled(s, e) && NumberOk(s, m)
    ensures NumberOk(Apply(s, e), m)
  {
    hide Apply, Enabled, ReservedAfter, Pts;
    CountersStep(s, e, m.channel);
    assert Apply(s, e).reserved == ReservedAfter(s, e) by { ReservedIs(s, e); }
  }

  lemma ReservedIs(s: State, e: Event)
    requires Enabled(s, e)
    ensures Apply(s, e).reserved == ReservedAfter(s, e)
  {
  }

  lemma SequencesOkStep(s: State, e: Event)
    requires Inv(s) && Enabled(s, e)
    ensures SequencesOk(Apply(s, e))
  {
    hide AnswersOk, SweptOld, KeysHeld, OpenClaims, ClaimsPoint, IdsFresh, Enabled, New, Pts, NumberOk;
    hide DedupAfter, ClaimsAfter, CurrentAfter, ReservedAfter, RequestsAfter, RepliesAfter, IdsAfter, SweptAfter, GoneAfter;
    var t := Apply(s, e);
    if New(s, e).Some? { NewNumber(s, e); }
    if e.Edit? { EditsStored(s, e); }
    StepGrows(s, e);
    forall id | id in t.messages
      ensures NumberOk(t, t.messages[id])
    {
      if id in s.messages { NumberStays(s, e, s.messages[id]); NumberIgnoresStatus(t, s.messages[id], t.messages[id]); }
    }
    forall r | r in t.reserved
      ensures 0 < r.1 <= Pts(t, r.0)
    {
      CountersStep(s, e, r.0);
      assert r == (r.0, r.1);
    }
  }

  lemma NumberIgnoresStatus(s: State, m: Message, n: Message)
    requires SameMessage(m, n) && NumberOk(s, m)
    ensures NumberOk(s, n)
  {
  }

  lemma InvStep(s: State, e: Event)
    requires Inv(s) && Enabled(s, e)
    ensures Inv(Apply(s, e))
  {
    hide Apply, Enabled, ClaimsPoint, KeysHeld, SweptOld, OpenClaims, IdsFresh, AnswersOk, SequencesOk;
    ClaimsPointStep(s, e);
    KeysHeldStep(s, e);
    SweptOldStep(s, e);
    OpenClaimsStep(s, e);
    IdsFreshStep(s, e);
    AnswersOkStep(s, e);
    SequencesOkStep(s, e);
  }

  // ----- Whole runs -----

  lemma {:induction false} RunInv(states: seq<State>, events: seq<Event>, i: nat)
    requires IsRun(states, events) && i < |states|
    ensures Inv(states[i])
  {
    if i == 0 {
    } else {
      RunInv(states, events, i - 1);
      InvStep(states[i - 1], events[i - 1]);
    }
  }

  /** At most one message per key, whatever sends, retries, restarts and sweeps
      interleave, as long as the sweep has not taken the key: it is the message
      the table names. */
  lemma OneMessagePerKey(states: seq<State>, events: seq<Event>, i: nat, a: nat, b: nat)
    requires IsRun(states, events) && i < |states|
    requires a in states[i].messages && a !in states[i].swept
    requires b in states[i].messages && b !in states[i].swept
    requires states[i].messages[a].key == states[i].messages[b].key && states[i].messages[a].key.Some?
    ensures a == b
    ensures var key := states[i].messages[a].key.value; key in states[i].dedup && states[i].dedup[key].id == a
  {
    RunInv(states, events, i);
  }

  /** All success responses to one (user, device, local id) name the same message
      and sequence number until the sweep takes the key. */
  lemma RepliesAgree(states: seq<State>, events: seq<Event>, i: nat, r1: Reply, r2: Reply)
    requires IsRun(states, events) && i < |states| && r1 in states[i].replies && r2 in states[i].replies
    requires r1.localId != 0 && (r1.user, r1.device, r1.localId) == (r2.user, r2.device, r2.localId)
    requires r1.id !in states[i].swept && r2.id !in states[i].swept
    ensures r1.id == r2.id && r1.pts == r2.pts
  {
    RunInv(states, events, i);
    assert Answers(states[i], r1.request, ReplyKey(r1), r1.id, r1.pts);
    assert Answers(states[i], r2.request, ReplyKey(r2), r2.id, r2.pts);
    OneMessagePerKey(states, events, i, r1.id, r2.id);
  }

  /** The sweep takes no key of a message younger than seven days, so for such
      messages the two theorems above hold outright. */
  lemma YoungIsNotSwept(states: seq<State>, events: seq<Event>, i: nat, id: nat)
    requires IsRun(states, events) && i < |states|
    requires id in states[i].messages && states[i].messages[id].createdAt >= states[i].now - RETENTION_MS
    ensures id !in states[i].swept
  {
    RunInv(states, events, i);
  }

  /** Responses with different user, device or local id never share a message. */
  lemma RepliesDoNotMix(states: seq<State>, events: seq<Event>, i: nat, r1: Reply, r2: Reply)
    requires IsRun(states, events) && i < |states| && r1 in states[i].replies && r2 in states[i].replies
    requires (r1.user, r1.device, r1.localId) != (r2.user, r2.device, r2.localId) && (r1.localId != 0 || r2.localId != 0)
    ensures r1.id != r2.id
  {
    RunInv(states, events, i);
    assert Answers(states[i], r1.request, ReplyKey(r1), r1.id, r1.pts);
    assert Answers(states[i], r2.request, ReplyKey(r2), r2.id, r2.pts);
    if r1.id == r2.id {
      ClientKeyInjective(r1.user, r1.device, r1.localId, r2.user, r2.device, r2.localId);
    }
  }

  /** Without a local id nothing is recognised again: each response names the
      message its own request stored, so two requests get two messages. */
  lemma ZeroNeverDeduplicates(states: seq<State>, events: seq<Event>, i: nat, r1: Reply, r2: Reply)
    requires IsRun(states, events) && i < |states| && r1 in states[i].replies && r2 in states[i].replies
    requires r1.localId == 0 && r2.localId == 0 && r1.request != r2.request
    ensures r1.id != r2.id
  {
    RunInv(states, events, i);
    assert Answers(states[i], r1.request, None, r1.id, r1.pts);
    assert Answers(states[i], r2.request, None, r2.id, r2.pts);
  }

  /** Two messages of a channel share a sequence number exactly when both are
      announcements, which all carry 0. */
  lemma SequencesSharedIff(states: seq<State>, events: seq<Event>, i: nat, a: nat, b: nat)
    requires IsRun(states, events) && i < |states|
    requires a in states[i].messages && b in states[i].messages && a != b
    requires states[i].messages[a].channel == states[i].messages[b].channel
    ensures states[i].messages[a].pts == states[i].messages[b].pts <==>
            states[i].messages[a].origin.Announced? && states[i].messages[b].origin.Announced?
    ensures states[i].messages[a].pts == 0 <==> states[i].messages[a].origin.Announced?
  {
    RunInv(states, events, i);
    assert NumberOk(states[i], states[i].messages[a]) && NumberOk(states[i], states[i].messages[b]);
  }

  /** Two announcements in any one channel do share a number. */
  lemma AnnouncementsShareZero(s: State, a: nat, b: nat, channel: nat, at: int)
    requires Init(s) && a != b
    ensures var e1, e2 := Announce(a, channel, at), Announce(b, channel, at);
      && Enabled(s, e1) && Enabled(Apply(s, e1), e2)
      && var t := Apply(Apply(s, e1), e2);
      && IsRun([s, Apply(s, e1), t], [e1, e2])
      && a in t.messages && b in t.messages
      && t.messages[a].channel == t.messages[b].channel == channel
      && t.messages[a].pts == t.messages[b].pts == 0
  {
  }

  /** Whatever happens, a stored message keeps everything but its status for the
      record, and stays in its table exactly until its channel is dissolved. */
  lemma {:induction false} StoredUntilDissolved(states: seq<State>, events: seq<Event>, i: nat, j: nat, id: nat)
    requires IsRun(states, events) && i <= j < |states| && Present(states[i], id)
    ensures id in states[j].messages && SameMessage(states[i].messages[id], states[j].messages[id])
    ensures Present(states[j], id) <==> forall k | i <= k < j :: events[k] != Dissolve(states[i].messages[id].channel)
  {
    hide Inv, Apply, Enabled;
    if i == j {
    } else {
      StoredUntilDissolved(states, events, i, j - 1, id);
      RunInv(states, events, j - 1);
      StepGrows(states[j - 1], events[j - 1]);
      GoneStep(states[j - 1], events[j - 1], id);
    }
  }

  lemma GoneStep(s: State, e: Event, id: nat)
    requires Enabled(s, e) && id in s.messages
    ensures id in Apply(s, e).gone <==> id in s.gone || e == Dissolve(s.messages[id].channel)
  {
  }

  /** While its row lasts, the key of a message gone with its channel is neither
      answered nor stored under again. */
  lemma GoneKeyIsRefused(states: seq<State>, events: seq<Event>, i: nat, p: nat, id: nat)
    requires IsRun(states, events) && i < |states| && p in states[i].requests
    requires id in states[i].messages && id in states[i].gone && id !in states[i].swept
    requires KeyOf(states[i].requests[p]).Some? && KeyOf(states[i].requests[p]) == states[i].messages[id].key
    ensures Found(states[i], KeyOf(states[i].requests[p])).None? && !Inserts(states[i], states[i].requests[p])
    ensures !states[i].requests[p].phase.Claimed?
  {
    RunInv(states, events, i);
  }

  /** A call-summary claim is never lost. */
  lemma {:induction false} ExemptForGood(states: seq<State>, events: seq<Event>, i: nat, j: nat, key: string)
    requires IsRun(states, events) && i <= j < |states| && IsCallSummary(key) && key in states[i].dedup
    ensures key in states[j].dedup && states[j].dedup[key] == states[i].dedup[key]
  {
    hide Inv, Apply, Enabled;
    if i == j {
    } else {
      ExemptForGood(states, events, i, j - 1, key);
      RunInv(states, events, j - 1);
      ExemptKept(states[j - 1], events[j - 1], key);
    }
  }

  lemma ExemptKept(s: State, e: Event, key: string)
    requires Inv(s) && Enabled(s, e) && IsCallSummary(key) && key in s.dedup
    ensures key in Apply(s, e).dedup && Apply(s, e).dedup[key] == s.dedup[key]
  {
    hide SequencesOk, AnswersOk, SweptOld, KeysHeld, IdsFresh, ClaimsPoint;
  }

  // ----- The sweep of the server is a sweep of the machine -----

  /** Every batch the sweep loop deletes is a step the machine allows, however
      long the loop has been running: its cut-off was computed at its start. */
  lemma SweepIsAStep(s: State, batch: set<string>, after: Table, cutoff: int)
    requires Removes(s.dedup, after, batch, cutoff) && cutoff <= s.now - RETENTION_MS
    ensures Enabled(s, SweepBatch(batch)) && Apply(s, SweepBatch(batch)).dedup == after
  {
  }
}
