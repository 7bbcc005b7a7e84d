/** Who is sending, and under which key a send is recognised again. */
module DedupKeys {
  import opened Text

  const CALL_SUMMARY := "call-summary:"

  function ClientKey(user: nat, device: string, localId: nat): string {
    "client:" + Decimal(user) + ":" + device + ":" + Decimal(localId)
  }

  /** What LIKE 'call-summary:%' matches. */
  predicate IsCallSummary(key: string) { CALL_SUMMARY <= key }

  lemma NoColonInDigits(s: string)
    requires AllDigits(s)
    ensures ':' !in s
  {
  }

  /** The key determines user, device and local id, whatever the device text
      contains, colons included. */
  lemma ClientKeyInjective(user: nat, device: string, localId: nat, user': nat, device': string, localId': nat)
    requires ClientKey(user, device, localId) == ClientKey(user', device', localId')
    ensures user == user' && device == device' && localId == localId'
  {
    var a, b := Decimal(user), Decimal(user');
    var x, y := device + ":" + Decimal(localId), device' + ":" + Decimal(localId');
    NoColonInDigits(a);
    NoColonInDigits(b);
    NoColonInDigits(Decimal(localId));
    NoColonInDigits(Decimal(localId'));
    assert ClientKey(user, device, localId) == "client:" + (a + ":" + x);
    assert ClientKey(user', device', localId') == "client:" + (b + ":" + y);
    assert a + ":" + x == ClientKey(user, device, localId)[7..] == b + ":" + y;
    FirstCutUnique(a, x, b, y, ':');
    LastCutUnique(device, Decimal(localId), device', Decimal(localId'), ':');
    DecimalInjective(user, user');
    DecimalInjective(localId, localId');
  }

  lemma KeyText()
    ensures ClientKey(42, "d:1", 7) == "client:42:d:1:7"
    ensures forall key :: IsCallSummary(key) <==> exists call :: key == "call-summary:" + call
  {
    assert Decimal(42) == "42" && Decimal(7) == "7";
    forall key | IsCallSummary(key) ensures exists call :: key == "call-summary:" + call {
      assert key == "call-summary:" + key[13..];
    }
  }

  /** No client key falls under the sweep's exemption. */
  lemma ClientKeyIsSweepable(user: nat, device: string, localId: nat)
    ensures !IsCallSummary(ClientKey(user, device, localId))
  {
    assert ClientKey(user, device, localId)[1] == 'l';
    assert CALL_SUMMARY[1] == 'a';
  }

  datatype Refusal = AuthRequired | PermissionDenied

  /** Sender and device come from the authenticated session, never from the payload. */
  function ResolveSender(session: Option<(string, string)>, claimed: nat): Result<(nat, string), Refusal> {
    match session
    case None => Err(AuthRequired)
    case Some((uid, device)) =>
      match ParseUnsigned(uid, U64_MAX)
      case None => Err(AuthRequired)
      case Some(user) =>
        if device == "" then Err(AuthRequired)
        else if claimed != 0 && claimed != user then Err(PermissionDenied)
        else Ok((user, device))
  }

  /** The sender is the session's user and device, and is refused exactly without
      a session, with a malformed user id, with an empty device, or when the
      payload names another sender. */
  lemma SenderIs(session: Option<(string, string)>, claimed: nat)
    ensures var r := ResolveSender(session, claimed);
      var user := if session.Some? then ParseUnsigned(session.value.0, 0xFFFF_FFFF_FFFF_FFFF) else None;
      && (r == Err(AuthRequired) <==> user.None? || session.value.1 == "")
      && (r == Err(PermissionDenied) <==> user.Some? && session.value.1 != "" && claimed != 0 && claimed != user.value)
      && (r.Ok? ==> user.Some? && r.value == (user.value, session.value.1))
  {
  }

  /** The payload can turn an accepted sender into a refusal, never into another
      sender; an empty device is never accepted. */
  lemma PayloadCannotImpersonate(session: Option<(string, string)>, claimed: nat)
    ensures var r := ResolveSender(session, claimed);
      && (r.Ok? ==> ResolveSender(session, 0) == r && r.value.1 != "" && (claimed == 0 || claimed == r.value.0))
      && (r == Err(PermissionDenied) <==>
            ResolveSender(session, 0).Ok? && claimed != 0 && claimed != ResolveSender(session, 0).value.0)
  {
  }
}
