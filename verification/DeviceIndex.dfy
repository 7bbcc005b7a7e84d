/** The in-memory device registry: each user's list of registrations, an index
    by device id, and the blacklist of revoked token ids. */
module DeviceIndex {
  import opened Text

  datatype Device = Device(userId: nat, id: string, jti: string, name: string, lastActive: int)

  datatype Registry = Registry(devices: map<nat, seq<Device>>, index: map<string, Device>)

  // ----- What each operation does to the registry -----

  function Listed(r: Registry, user: nat): seq<Device> {
    if user in r.devices then r.devices[user] else []
  }

  /** Appends to the owner's list, and the index forgets any earlier registration
      of the id. */
  function Registered(r: Registry, d: Device): Registry {
    Registry(r.devices[d.userId := Listed(r, d.userId) + [d]], r.index[d.id := d])
  }

  datatype Change = Active(at: int) | Named(name: string)

  function Changed(d: Device, c: Change): Device {
    match c
    case Active(at) => d.(lastActive := at)
    case Named(name) => d.(name := name)
  }

  function FirstChanged(list: seq<Device>, id: string, c: Change): (r: seq<Device>)
    ensures |r| == |list|
    ensures forall i | 0 <= i < |r| :: r[i].userId == list[i].userId && r[i].id == list[i].id && r[i].jti == list[i].jti
  {
    if list == [] then []
    else if list[0].id == id then [Changed(list[0], c)] + list[1..]
    else [list[0]] + FirstChanged(list[1..], id, c)
  }

  /** An activity update sets the time, a rename the name, and nothing else. */
  lemma ChangedIs(d: Device, at: int, name: string)
    ensures Changed(d, Active(at)) == Device(d.userId, d.id, d.jti, d.name, at)
    ensures Changed(d, Named(name)) == Device(d.userId, d.id, d.jti, name, d.lastActive)
  {
  }

  /** The index entry and the first listed registration of the id change, each
      with its own reading of the clock. */
  function Updated(r: Registry, id: string, inIndex: Change, inList: Change): Registry {
    if id !in r.index then r
    else
      var user := r.index[id].userId;
      Registry(
        if user in r.devices then r.devices[user := FirstChanged(r.devices[user], id, inList)] else r.devices,
        r.index[id := Changed(r.index[id], inIndex)])
  }

  function Without(list: seq<Device>, id: string): seq<Device> {
    if list == [] then []
    else if list[0].id == id then Without(list[1..], id)
    else [list[0]] + Without(list[1..], id)
  }

  lemma {:induction false} WithoutHas(list: seq<Device>, id: string)
    ensures forall d :: d in Without(list, id) <==> d in list && d.id != id
  {
    if list != [] {
      WithoutHas(list[1..], id);
      assert list == [list[0]] + list[1..];
    }
  }

  lemma WithoutNext(d: Device, rest: seq<Device>, id: string)
    ensures Without([d] + rest, id) == (if d.id == id then [] else [d]) + Without(rest, id)
  {
    assert ([d] + rest)[1..] == rest;
  }

  /** Removal keeps the order of what is left. */
  lemma {:induction false} WithoutSplits(a: seq<Device>, b: seq<Device>, id: string)
    ensures Without(a + b, id) == Without(a, id) + Without(b, id)
  {
    if a == [] {
      assert a + b == b;
    } else {
      hide Without;
      var first, rest := [a[0]], a[1..];
      WithoutSplits(rest, b, id);
      WithoutNext(a[0], rest, id);
      WithoutNext(a[0], rest + b, id);
      assert a == first + rest;
      Assoc(first, rest, b);
      Assoc(if a[0].id == id then [] else first, Without(rest, id), Without(b, id));
    }
  }

  function Removed(r: Registry, id: string): Registry {
    if id !in r.index then r
    else
      var user := r.index[id].userId;
      var left := Without(Listed(r, user), id);
      Registry(if left == [] then r.devices - {user} else r.devices[user := left], r.index - {id})
  }

  function Ids(list: seq<Device>): set<string> {
    set d | d in list :: d.id
  }

  function Jtis(list: seq<Device>): set<string> {
    set d | d in list :: d.jti
  }

  function AllRemoved(r: Registry, user: nat): Registry {
    var list := Listed(r, user);
    if list == [] then r else Registry(r.devices - {user}, r.index - Ids(list))
  }

  // ----- With the blacklist -----

  datatype State = State(registry: Registry, blacklist: set<string>)

  const EMPTY := State(Registry(map[], map[]), {})

  datatype Operation =
    | Register(device: Device)
    | Update(id: string, inIndex: Change, inList: Change)
    | Remove(id: string)
    | RemoveAll(user: nat)
    | Revoke(id: string)
    | RevokeAll(user: nat)

  function Apply(s: State, op: Operation): State {
    match op
    case Register(d) => s.(registry := Registered(s.registry, d))
    case Update(id, inIndex, inList) => s.(registry := Updated(s.registry, id, inIndex, inList))
    case Remove(id) => s.(registry := Removed(s.registry, id))
    case RemoveAll(user) => s.(registry := AllRemoved(s.registry, user))
    case Revoke(id) =>
      if id !in s.registry.index then s
      else State(Removed(s.registry, id), s.blacklist + {s.registry.index[id].jti})
    case RevokeAll(user) => State(AllRemoved(s.registry, user), s.blacklist + Jtis(Listed(s.registry, user)))
  }

  function Run(s: State, ops: seq<Operation>): State
    decreases |ops|
  {
    if ops == [] then s else Run(Apply(s, ops[0]), ops[1..])
  }

  // ----- Every indexed device is in its owner's list -----

  predicate HasEntry(list: seq<Device>, id: string, jti: string) {
    exists d | d in list :: d.id == id && d.jti == jti
  }

  predicate EntryOk(r: Registry, id: string)
    requires id in r.index
  {
    r.index[id].id == id && HasEntry(Listed(r, r.index[id].userId), id, r.index[id].jti)
  }

  predicate Consistent(r: Registry) {
    forall id | id in r.index :: EntryOk(r, id)
  }

  lemma RegisterKeeps(r: Registry, d: Device)
    requires Consistent(r)
    ensures Consistent(Registered(r, d))
  {
  }

  lemma UpdateKeeps(r: Registry, key: string, inIndex: Change, inList: Change)
    requires Consistent(r)
    ensures Consistent(Updated(r, key, inIndex, inList))
  {
    var r' := Updated(r, key, inIndex, inList);
    forall id | id in r'.index ensures EntryOk(r', id) {
      assert EntryOk(r, id);
      var was, list' := Listed(r, r.index[id].userId), Listed(r', r.index[id].userId);
      var i :| 0 <= i < |was| && was[i].id == id && was[i].jti == r.index[id].jti;
      assert list'[i] in list' && list'[i].id == id && list'[i].jti == was[i].jti;
    }
  }

  lemma RemoveKeeps(r: Registry, key: string)
    requires Consistent(r)
    ensures Consistent(Removed(r, key))
  {
    if key in r.index { WithoutHas(Listed(r, r.index[key].userId), key); }
  }

  lemma RemoveAllKeeps(r: Registry, user: nat)
    requires Consistent(r)
    ensures Consistent(AllRemoved(r, user))
    ensures forall id | id in AllRemoved(r, user).index :: r.index[id].userId != user
  {
  }

  lemma StepKeeps(s: State, op: Operation)
    requires Consistent(s.registry)
    ensures Consistent(Apply(s, op).registry)
    ensures s.blacklist <= Apply(s, op).blacklist
  {
    hide Consistent, Registered, Updated, Removed, AllRemoved;
    match op
    case Register(d) => RegisterKeeps(s.registry, d);
    case Update(id, inIndex, inList) => UpdateKeeps(s.registry, id, inIndex, inList);
    case Remove(id) => RemoveKeeps(s.registry, id);
    case RemoveAll(user) => RemoveAllKeeps(s.registry, user);
    case Revoke(id) => RemoveKeeps(s.registry, id);
    case RevokeAll(user) => RemoveAllKeeps(s.registry, user);
  }

  /** Over any sequence of operations, ids re-registered or moved between users
      included, every indexed device stays in its owner's list and the blacklist
      only grows. */
  lemma {:induction false} RunKeeps(s: State, ops: seq<Operation>)
    requires Consistent(s.registry)
    ensures Consistent(Run(s, ops).registry)
    ensures s.blacklist <= Run(s, ops).blacklist
    decreases |ops|
  {
    hide Consistent, Apply;
    if ops == [] {
    } else {
      StepKeeps(s, ops[0]);
      RunKeeps(Apply(s, ops[0]), ops[1..]);
    }
  }

  /** Whatever happened before and whatever happens after: revoking all of a
      user's devices leaves none listed or indexed, and every token id that was
      listed or indexed for the user is revoked for good. */
  lemma RevokeAllIsComplete(before: seq<Operation>, user: nat, after: seq<Operation>)
    ensures var s := Run(EMPTY, before);
            var t := Apply(s, RevokeAll(user));
            var u := Run(t, after);
            && Listed(t.registry, user) == []
            && (forall id | id in t.registry.index :: t.registry.index[id].userId != user)
            && (forall d | d in Listed(s.registry, user) :: d.jti in u.blacklist)
            && (forall id | id in s.registry.index && s.registry.index[id].userId == user ::
                  s.registry.index[id].jti in u.blacklist)
  {
    var s := Run(EMPTY, before);
    RunKeeps(EMPTY, before);
    var t := Apply(s, RevokeAll(user));
    StepKeeps(s, RevokeAll(user));
    RemoveAllKeeps(s.registry, user);
    RunKeeps(t, after);
    forall id | id in s.registry.index && s.registry.index[id].userId == user
      ensures s.registry.index[id].jti in t.blacklist
    {
      assert EntryOk(s.registry, id);
    }
  }

  lemma EmptyIsConsistent()
    ensures Consistent(EMPTY.registry)
  {
  }

  /** Revoking one device unlists it and revokes the indexed token id for good. */
  lemma RevokeIsComplete(before: seq<Operation>, id: string, after: seq<Operation>)
    requires id in Run(EMPTY, before).registry.index
    ensures var s := Run(EMPTY, before);
            var d := s.registry.index[id];
            var t := Apply(s, Revoke(id));
            && id !in t.registry.index
            && (forall e | e in Listed(t.registry, d.userId) :: e.id != id)
            && d.jti in Run(t, after).blacklist
  {
    hide Run, Consistent, EntryOk;
    var s := Run(EMPTY, before);
    EmptyIsConsistent();
    RunKeeps(EMPTY, before);
    StepKeeps(s, Revoke(id));
    WithoutHas(Listed(s.registry, s.registry.index[id].userId), id);
    RunKeeps(Apply(s, Revoke(id)), after);
  }

  /** Removing all of a user's devices leaves the other users' index entries alone
      exactly when none of the listed ids has since moved to another user. */
  lemma OthersSparedIff(r: Registry, user: nat)
    ensures (forall id | id in r.index && r.index[id].userId != user :: id in AllRemoved(r, user).index) <==>
            (forall d | d in Listed(r, user) && d.id in r.index :: r.index[d.id].userId == user)
  {
  }

  /** A device that registers under a second user leaves the first user's list
      stale, and removing the first user's devices then unindexes it. */
  lemma MovedDeviceUnindexed(a: Device, b: Device)
    requires a.id == b.id && a.userId != b.userId
    ensures var s := Run(EMPTY, [Register(a), Register(b)]);
            && a.id in s.registry.index && s.registry.index[a.id] == b
            && a.id !in Apply(s, RemoveAll(a.userId)).registry.index
  {
    var s1 := Apply(EMPTY, Register(a));
    var s2 := Apply(s1, Register(b));
    assert [Register(a), Register(b)][1..] == [Register(b)];
    assert [Register(b)][1..] == [];
    assert Run(s1, [Register(b)]) == Run(s2, []) == s2;
    assert a in Listed(s2.registry, a.userId);
  }

  // ----- The services -----

  lemma {:induction false} FirstChangedAt(list: seq<Device>, id: string, c: Change, i: nat)
    requires i <= |list| && forall k | 0 <= k < i :: list[k].id != id
    requires i == |list| || list[i].id == id
    ensures FirstChanged(list, id, c) == if i == |list| then list else list[i := Changed(list[i], c)]
    decreases i
  {
    hide Changed;
    if i == 0 {
      if list != [] { assert list[0 := Changed(list[0], c)] == [Changed(list[0], c)] + list[1..]; }
    } else {
      var tail := list[1..];
      FirstChangedAt(tail, id, c, i - 1);
      assert list == [list[0]] + tail;
      if i < |list| {
        assert list[i := Changed(list[i], c)] == [list[0]] + tail[i - 1 := Changed(list[i], c)];
      }
    }
  }

  method ChangeFirst(list: seq<Device>, id: string, c: Change) returns (r: seq<Device>)
    ensures r == FirstChanged(list, id, c)
  {
    var i := 0;
    while i < |list| && list[i].id != id
      invariant 0 <= i <= |list|
      invariant forall k | 0 <= k < i :: list[k].id != id
    {
      i := i + 1;
    }
    FirstChangedAt(list, id, c, i);
    r := if i == |list| then list else list[i := Changed(list[i], c)];
  }

  class DeviceManager {
    var devices: map<nat, seq<Device>>
    var index: map<string, Device>

    constructor ()
      ensures Contents() == EMPTY.registry
    {
      devices := map[];
      index := map[];
    }

    ghost function Contents(): Registry
      reads this
    {
      Registry(devices, index)
    }

    method RegisterDevice(device: Device)
      modifies this
      ensures Contents() == Registered(old(Contents()), device)
    {
      var list := GetUserDevices(device.userId);
      devices := devices[device.userId := list + [device]];
      index := index[device.id := device];
    }

    method GetUserDevices(user: nat) returns (list: seq<Device>)
      ensures list == Listed(Contents(), user)
    {
      list := if user in devices then devices[user] else [];
    }

    method GetDevice(id: string) returns (r: Option<Device>)
      ensures r == if id in index then Some(index[id]) else None
    {
      r := if id in index then Some(index[id]) else None;
    }

    /** The activity update and the rename: found says whether the id is known. */
    method UpdateDevice(id: string, inIndex: Change, inList: Change) returns (found: bool)
      modifies this
      ensures found <==> id in old(index)
      ensures Contents() == Updated(old(Contents()), id, inIndex, inList)
    {
      found := id in index;
      if !found {
        return;
      }
      var user := index[id].userId;
      index := index[id := Changed(index[id], inIndex)];
      if user in devices {
        var list := ChangeFirst(devices[user], id, inList);
        devices := devices[user := list];
      }
    }

    method RemoveDevice(id: string) returns (r: Option<Device>)
      modifies this
      ensures r == if id in old(index) then Some(old(index)[id]) else None
      ensures Contents() == Removed(old(Contents()), id)
    {
      if id !in index {
        return None;
      }
      var device := index[id];
      index := index - {id};
      if device.userId in devices {
        var left := Without(devices[device.userId], id);
        devices := if left == [] then devices - {device.userId} else devices[device.userId := left];
      }
      assert devices == Removed(old(Contents()), id).devices;
      r := Some(device);
    }

    method RemoveAllUserDevices(user: nat) returns (removed: seq<Device>)
      modifies this
      ensures removed == Listed(old(Contents()), user)
      ensures Contents() == AllRemoved(old(Contents()), user)
    {
      removed := GetUserDevices(user);
      if removed == [] {
        return;
      }
      for i := 0 to |removed|
        invariant devices == old(devices)
        invariant index == old(index) - Ids(removed[..i])
      {
        assert removed[..i + 1] == removed[..i] + [removed[i]];
        assert Ids(removed[..i + 1]) == Ids(removed[..i]) + {removed[i].id};
        index := index - {removed[i].id};
      }
      assert removed[..|removed|] == removed;
      devices := devices - {user};
    }
  }

  class TokenRevocationService {
    var blacklist: set<string>
    const manager: DeviceManager

    constructor (manager: DeviceManager)
      ensures this.manager == manager && blacklist == {}
    {
      this.manager := manager;
      blacklist := {};
    }

    ghost function Contents(): State
      reads this, manager
    {
      State(manager.Contents(), blacklist)
    }

    method RevokeDevice(id: string) returns (found: bool)
      modifies this, manager
      ensures found <==> id in old(manager.index)
      ensures Contents() == Apply(old(Contents()), Revoke(id))
    {
      var device := manager.GetDevice(id);
      if device.None? {
        return false;
      }
      blacklist := blacklist + {device.value.jti};
      var _ := manager.RemoveDevice(id);
      found := true;
    }

    method RevokeAllDevices(user: nat) returns (count: nat)
      modifies this, manager
      ensures count == |Listed(old(manager.Contents()), user)|
      ensures Contents() == Apply(old(Contents()), RevokeAll(user))
    {
      var list := manager.GetUserDevices(user);
      if list == [] {
        assert Jtis(list) == {};
        return 0;
      }
      count := |list|;
      for i := 0 to |list|
        invariant manager.Contents() == old(manager.Contents())
        invariant blacklist == old(blacklist) + Jtis(list[..i])
      {
        assert list[..i + 1] == list[..i] + [list[i]];
        assert Jtis(list[..i + 1]) == Jtis(list[..i]) + {list[i].jti};
        blacklist := blacklist + {list[i].jti};
      }
      assert list[..|list|] == list;
      var _ := manager.RemoveAllUserDevices(user);
    }
  }
}
