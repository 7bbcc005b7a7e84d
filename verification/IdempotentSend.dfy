/** Concurrent sends: a pre-check by key, a transaction that claims the key or
    meets an existing claim, and a reply, each a separate step; restarts, other
    writers and the retention sweep come in anywhere. */
module IdempotentSend {
  import opened Text
  import opened DedupKeys
  import opened DedupSweep

  // ----- State -----

  /** Who stored a message: a request of this machine, an administrative
      announcement, or any other writer. */
  datatype Origin = Sent(request: nat) | Announced | Elsewhere

  /** A committed message, with the key it was stored under. The status stands for
      the columns that edits, revocations and soft deletions change. */
  datatype Message = Message(channel: nat, pts: nat, key: Option<string>, createdAt: int, origin: Origin, status: nat)

  datatype Phase =
    | Received
    | Checked
    | Built(id: nat, createdAt: int)
    | Claimed(id: nat, createdAt: int)      // row inserted, transaction open
    | Conflicted                            // the claim met an existing row
    | Known(id: nat, pts: nat)              // answered from an existing message
    | Saved(id: nat, pts: nat)              // committed by this request

  datatype Request = Request(user: nat, device: string, localId: nat, channel: nat, phase: Phase)

  /** A success response. */
  datatype Reply = Reply(request: nat, user: nat, device: string, localId: nat, id: nat, pts: nat)

  datatype State = State(
    dedup: Table,                    // committed claims
    claims: map<string, nat>,        // claims of open transactions
    messages: map<nat, Message>,     // every message ever stored
    gone: set<nat>,                  // those deleted with their channel
    current: map<nat, nat>,          // channel sequence counters
    reserved: set<(nat, nat)>,       // numbers taken from a counter ahead of a message
    requests: map<nat, Request>,
    replies: set<Reply>,
    ids: set<nat>,                   // message ids handed out
    seen: set<nat>,                  // requests received so far
    swept: set<nat>,                 // messages whose key the sweep deleted
    now: int)

  /** Local id 0 means the client gave no idempotency key. */
  function KeyOf(r: Request): Option<string> {
    if r.localId == 0 then None else Some(ClientKey(r.user, r.device, r.localId))
  }

  function Pts(s: State, channel: nat): nat {
    if channel in s.current then s.current[channel] else 0
  }

  predicate Present(s: State, id: nat) {
    id in s.messages && id !in s.gone
  }

  // ----- Events -----

  datatype Event =
    | Receive(p: nat, user: nat, device: string, localId: nat, channel: nat)
    | Precheck(p: nat)
    | Refuse(p: nat)                        // any error response; an open transaction rolls back
    | Build(p: nat, id: nat)
    | Claim(p: nat)
    | Lookup(p: nat)
    | Commit(p: nat)
    | Respond(p: nat)
    | Crash(p: nat)
    | OtherSend(key: Option<string>, id: nat, channel: nat, createdAt: int)
    | Announce(id: nat, channel: nat, createdAt: int)              // number 0, no counter
    | OtherSequence(channel: nat)
    | Project(id: nat, channel: nat, pts: nat, createdAt: int)     // under a number taken earlier
    | Edit(id: nat, status: nat)            // edit, revoke or soft-delete
    | Dissolve(channel: nat)                // messages go by cascade, their keys stay
    | SweepBatch(keys: set<string>)
    | Tick(ms: nat)

  predicate Enabled(s: State, e: Event) {
    match e
    case Receive(p, _, _, _, _) => p !in s.seen
    case Precheck(p) => p in s.requests && s.requests[p].phase.Received?
    case Refuse(p) => p in s.requests
    case Build(p, id) => p in s.requests && s.requests[p].phase.Checked? && id !in s.ids
    case Claim(p) =>
      // a key claimed by an open transaction makes the statement wait
      p in s.requests && s.requests[p].phase.Built?
      && (KeyOf(s.requests[p]).Some? ==> KeyOf(s.requests[p]).value !in s.claims)
    case Lookup(p) => p in s.requests && s.requests[p].phase.Conflicted?
    case Commit(p) => p in s.requests && s.requests[p].phase.Claimed?
    case Respond(p) => p in s.requests && (s.requests[p].phase.Known? || s.requests[p].phase.Saved?)
    case Crash(p) => p in s.requests
    case OtherSend(key, id, _, _) =>
      id !in s.ids && (key.Some? ==> key.value !in s.dedup && key.value !in s.claims)
    case Announce(id, _, _) => id !in s.ids
    case OtherSequence(_) => true
    case Project(id, channel, pts, _) => id !in s.ids && (channel, pts) in s.reserved
    case Edit(id, _) => Present(s, id)
    case Dissolve(_) => true
    case SweepBatch(keys) => forall k | k in keys :: Sweepable(s.dedup, k, s.now - RETENTION_MS)
    case Tick(_) => true
  }

  /** A stored message found through its key: the join of both tables. */
  function Found(s: State, key: Option<string>): Option<nat> {
    if key.Some? && key.value in s.dedup && Present(s, s.dedup[key.value].id)
    then Some(s.dedup[key.value].id) else None
  }

  /** The message a step stores, if any. */
  function New(s: State, e: Event): Option<(nat, Message)>
    requires Enabled(s, e)
  {
    match e
    case Commit(p) =>
      var r := s.requests[p];
      Some((r.phase.id, Message(r.channel, Pts(s, r.channel) + 1, KeyOf(r), r.phase.createdAt, Sent(p), 0)))
    case OtherSend(key, id, channel, createdAt) =>
      Some((id, Message(channel, Pts(s, channel) + 1, key, createdAt, Elsewhere, 0)))
    case Announce(id, channel, createdAt) => Some((id, Message(channel, 0, None, createdAt, Announced, 0)))
    case Project(id, channel, pts, createdAt) => Some((id, Message(channel, pts, None, createdAt, Elsewhere, 0)))
    case _ => None
  }

  // ----- What an event does to each part of the state -----

  function DedupAfter(s: State, e: Event): Table
    requires Enabled(s, e)
  {
    if e.SweepBatch? then s.dedup - e.keys
    else if New(s, e).Some? && New(s, e).value.1.key.Some? then
      var (id, m) := New(s, e).value;
      s.dedup[m.key.value := DedupSweep.Claim(id, m.createdAt)]
    else s.dedup
  }

  function MessagesAfter(s: State, e: Event): map<nat, Message>
    requires Enabled(s, e)
  {
    if New(s, e).Some? then s.messages[New(s, e).value.0 := New(s, e).value.1]
    else if e.Edit? then s.messages[e.id := s.messages[e.id].(status := e.status)]
    else s.messages
  }

  function CurrentAfter(s: State, e: Event): map<nat, nat>
    requires Enabled(s, e)
  {
    if e.Commit? || e.OtherSend? then s.current[New(s, e).value.1.channel := New(s, e).value.1.pts]
    else if e.OtherSequence? then s.current[e.channel := Pts(s, e.channel) + 1]
    else s.current
  }

  function ReservedAfter(s: State, e: Event): set<(nat, nat)> {
    if e.OtherSequence? then s.reserved + {(e.channel, Pts(s, e.channel) + 1)}
    else if e.Project? then s.reserved - {(e.channel, e.pts)}
    else s.reserved
  }

  function GoneAfter(s: State, e: Event): set<nat> {
    if e.Dissolve? then s.gone + (set id | id in s.messages && s.messages[id].channel == e.channel) else s.gone
  }

  /** Whether the claim statement inserts its row; without a key there is none. */
  predicate Inserts(s: State, r: Request) {
    KeyOf(r).None? || KeyOf(r).value !in s.dedup
  }

  function OpenKeys(r: Request): set<string> {
    if r.phase.Claimed? && KeyOf(r).Some? then {KeyOf(r).value} else {}
  }

  /** A transaction that ends, either way, has no open claim any more. */
  function ClaimsAfter(s: State, e: Event): map<string, nat>
    requires Enabled(s, e)
  {
    match e
    case Claim(p) =>
      if KeyOf(s.requests[p]).Some? && Inserts(s, s.requests[p]) then s.claims[KeyOf(s.requests[p]).value := p] else s.claims
    case Commit(p) => s.claims - OpenKeys(s.requests[p])
    case Refuse(p) => s.claims - OpenKeys(s.requests[p])
    case Crash(p) => s.claims - OpenKeys(s.requests[p])
    case _ => s.claims
  }

  /** How a request goes on; none when it is over. */
  function Goes(s: State, e: Event, r: Request): Option<Phase>
    requires Enabled(s, e)
  {
    var hit := Found(s, KeyOf(r));
    match e
    case Precheck(_) => Some(if hit.Some? then Known(hit.value, s.messages[hit.value].pts) else Checked)
    case Build(_, id) => Some(Built(id, s.now))
    case Claim(p) =>
      var own := s.requests[p].phase;
      Some(if Inserts(s, r) then Claimed(own.id, own.createdAt) else Conflicted)
    case Lookup(_) =>
      // the claim swept since, or the message gone with its channel: an error response
      if hit.Some? then Some(Known(hit.value, s.messages[hit.value].pts)) else None
    case Commit(_) => Some(Saved(New(s, e).value.0, New(s, e).value.1.pts))
    case _ => None   // refused, crashed or answered
  }

  /** The events of no request. */
  predicate Outside(e: Event) {
    || e.OtherSend? || e.Announce? || e.OtherSequence? || e.Project?
    || e.Edit? || e.Dissolve? || e.SweepBatch? || e.Tick?
  }

  /** The events of request p itself, once it is received. */
  predicate About(e: Event, p: nat) {
    !e.Receive? && !Outside(e) && e.p == p
  }

  function RequestsAfter(s: State, e: Event): map<nat, Request>
    requires Enabled(s, e)
  {
    if e.Receive? then s.requests[e.p := Request(e.user, e.device, e.localId, e.channel, Received)]
    else if Outside(e) then s.requests
    else
      var next := Goes(s, e, s.requests[e.p]);
      if next.Some? then s.requests[e.p := s.requests[e.p].(phase := next.value)] else s.requests - {e.p}
  }

  function RepliesAfter(s: State, e: Event): set<Reply>
    requires Enabled(s, e)
  {
    if !e.Respond? then s.replies
    else
      var r := s.requests[e.p];
      s.replies + {Reply(e.p, r.user, r.device, r.localId, r.phase.id, r.phase.pts)}
  }

  function IdsAfter(s: State, e: Event): set<nat>
    requires Enabled(s, e)
  {
    if e.Build? then s.ids + {e.id} else if New(s, e).Some? then s.ids + {New(s, e).value.0} else s.ids
  }

  function SweptAfter(s: State, e: Event): set<nat> {
    if e.SweepBatch? then s.swept + (set k | k in e.keys && k in s.dedup :: s.dedup[k].id) else s.swept
  }

  function Apply(s: State, e: Event): State
    requires Enabled(s, e)
  {
    State(DedupAfter(s, e), ClaimsAfter(s, e), MessagesAfter(s, e), GoneAfter(s, e), CurrentAfter(s, e),
          ReservedAfter(s, e), RequestsAfter(s, e), RepliesAfter(s, e), IdsAfter(s, e), if e.Receive? then s.seen + {e.p} else s.seen, SweptAfter(s, e),
          if e.Tick? then s.now + e.ms else s.now)
  }

  predicate Init(s: State) {
    s.dedup == map[] && s.claims == map[] && s.messages == map[] && s.requests == map[]
    && s.gone == {} && s.reserved == {} && s.replies == {} && s.ids == {} && s.seen == {} && s.swept == {}
  }

  predicate IsRun(states: seq<State>, events: seq<Event>) {
    |states| == |events| + 1 && Init(states[0]) &&
    forall i | 0 <= i < |events| :: Enabled(states[i], events[i]) && states[i + 1] == Apply(states[i], events[i])
  }

  // ----- The invariant -----

  /** Every claim points at the message stored under its key. */
  predicate ClaimsPoint(s: State) {
    forall k | k in s.dedup ::
      s.dedup[k].id in s.messages && s.messages[s.dedup[k].id].key == Some(k)
      && s.messages[s.dedup[k].id].createdAt == s.dedup[k].createdAt
  }

  /** A message stored under a key holds that key until the sweep takes it. */
  predicate KeysHeld(s: State) {
    forall id | id in s.messages && s.messages[id].key.Some? && id !in s.swept ::
      s.messages[id].key.value in s.dedup && s.dedup[s.messages[id].key.value].id == id
  }

  /** Only messages past the retention have been swept. */
  predicate SweptOld(s: State) {
    forall id | id in s.swept :: id in s.messages && s.messages[id].createdAt < s.now - RETENTION_MS
  }

  /** An open claim belongs to one request and excludes a committed one. */
  predicate OpenClaims(s: State) {
    forall p | p in s.requests && s.requests[p].phase.Claimed? && KeyOf(s.requests[p]).Some? ::
      KeyOf(s.requests[p]).value in s.claims && s.claims[KeyOf(s.requests[p]).value] == p
      && KeyOf(s.requests[p]).value !in s.dedup
  }

  /** Ids handed out are used once. */
  predicate IdsFresh(s: State) {
    && s.messages.Keys <= s.ids
    && (forall p | p in s.requests && HoldsId(s.requests[p]) ::
          s.requests[p].phase.id in s.ids && s.requests[p].phase.id !in s.messages)
    && (forall p, q | p in s.requests && q in s.requests && p != q && HoldsId(s.requests[p]) && HoldsId(s.requests[q]) ::
          s.requests[p].phase.id != s.requests[q].phase.id)
  }

  predicate HoldsId(r: Request) { r.phase.Built? || r.phase.Claimed? }

  /** What an answer says about the stored message. */
  predicate Answers(s: State, p: nat, key: Option<string>, id: nat, pts: nat) {
    id in s.messages && s.messages[id].pts == pts && s.messages[id].key == key
    && (key.None? ==> s.messages[id].origin == Sent(p))
  }

  predicate AnswersOk(s: State) {
    && (forall r | r in s.replies :: Answers(s, r.request, ReplyKey(r), r.id, r.pts))
    && (forall p | p in s.requests && (s.requests[p].phase.Known? || s.requests[p].phase.Saved?) ::
          Answers(s, p, KeyOf(s.requests[p]), s.requests[p].phase.id, s.requests[p].phase.pts))
  }

  function ReplyKey(r: Reply): Option<string> {
    if r.localId == 0 then None else Some(ClientKey(r.user, r.device, r.localId))
  }

  /** Numbers of a channel are at most its counter; 0 marks the announcements, and
      no other number is shared or still reserved. */
  predicate SequencesOk(s: State) {
    && (forall id | id in s.messages :: NumberOk(s, s.messages[id]))
    && (forall a, b | a in s.messages && b in s.messages && a != b && s.messages[a].channel == s.messages[b].channel ::
          s.messages[a].pts != s.messages[b].pts || s.messages[a].pts == 0)
    && (forall r | r in s.reserved :: 0 < r.1 <= Pts(s, r.0))
  }

  predicate NumberOk(s: State, m: Message) {
    m.pts <= Pts(s, m.channel) && (m.pts == 0 <==> m.origin.Announced?) && (m.channel, m.pts) !in s.reserved
  }

  predicate Inv(s: State) {
    ClaimsPoint(s) && KeysHeld(s) && SweptOld(s) && OpenClaims(s) && IdsFresh(s) && AnswersOk(s) && SequencesOk(s)
  }
}
