/** Reading and checking the attachment key table. */
module KeyTable {
  import opened Text
  import opened AttachmentKeys

  datatype KeyItem = KeyItem(id: nat, key: string)

  datatype Error =
    | EmptyVariable
    | NoEntries
    | MissingColon(position: nat)
    | BadId(position: nat)
    | DuplicateId(id: nat)
    | NotBase64(id: nat)
    | WrongLength(id: nat, bytes: nat)
    | DuplicateMaterial

  // ----- The checks every table passes -----

  function Material(item: KeyItem): Option<seq<Byte>> { Decode(Trim(item.key)) }

  /** What is wrong with the i-th item, given the ones before it. */
  function Fault(items: seq<KeyItem>, i: nat): Option<Error>
    requires i < |items|
  {
    var m := Material(items[i]);
    if exists j :: 0 <= j < i && items[j].id == items[i].id then Some(DuplicateId(items[i].id))
    else if m.None? then Some(NotBase64(items[i].id))
    else if |m.value| != MATERIAL_BYTES then Some(WrongLength(items[i].id, |m.value|))
    else if exists j :: 0 <= j < i && Material(items[j]) == m then Some(DuplicateMaterial)
    else None
  }

  function FirstFault(items: seq<KeyItem>, i: nat): Option<Error>
    requires i <= |items|
    decreases |items| - i
  {
    if i == |items| then None
    else if Fault(items, i).Some? then Fault(items, i)
    else FirstFault(items, i + 1)
  }

  lemma {:induction false} NoFaultIff(items: seq<KeyItem>, i: nat)
    requires i <= |items|
    ensures FirstFault(items, i).None? <==> forall j | i <= j < |items| :: Fault(items, j).None?
    decreases |items| - i
  {
    hide Fault;
    if i == |items| {
    } else {
      NoFaultIff(items, i + 1);
    }
  }

  function Trimmed(items: seq<KeyItem>): (r: seq<KeyItem>)
    ensures |r| == |items| && forall i | 0 <= i < |items| :: r[i] == KeyItem(items[i].id, Trim(items[i].key))
  {
    seq(|items|, i requires 0 <= i < |items| => KeyItem(items[i].id, Trim(items[i].key)))
  }

  function CheckTable(items: seq<KeyItem>): Result<seq<KeyItem>, Error> {
    match FirstFault(items, 0)
    case Some(e) => Err(e)
    case None => Ok(Trimmed(items))
  }

  /** Pairwise distinct ids, each with its own 32 bytes. */
  predicate Sound(items: seq<KeyItem>) {
    && (forall i | 0 <= i < |items| :: Material(items[i]).Some? && |Material(items[i]).value| == MATERIAL_BYTES)
    && (forall i, j | 0 <= i < j < |items| :: items[i].id != items[j].id && Material(items[i]) != Material(items[j]))
  }

  /** The table is accepted exactly when it is sound. */
  lemma AcceptedIffSound(items: seq<KeyItem>)
    ensures CheckTable(items).Ok? <==> Sound(items)
  {
    hide Material;
    NoFaultIff(items, 0);
    if CheckTable(items).Ok? {
      forall i | 0 <= i < |items|
        ensures Material(items[i]).Some? && |Material(items[i]).value| == MATERIAL_BYTES
      {
        assert Fault(items, i).None?;
      }
      forall i, j | 0 <= i < j < |items|
        ensures items[i].id != items[j].id && Material(items[i]) != Material(items[j])
      {
        assert Fault(items, j).None?;
      }
    } else {
      var i :| 0 <= i < |items| && Fault(items, i).Some?;
    }
  }

  /** What each refusal says of the k-th item and the ones before it. */
  ghost predicate WrongAt(items: seq<KeyItem>, k: nat, e: Error)
    requires k < |items|
  {
    var m := Decode(Trim(items[k].key));
    match e
    case DuplicateId(id) => id == items[k].id && exists j | 0 <= j < k :: items[j].id == id
    case NotBase64(id) => id == items[k].id && m.None?
    case WrongLength(id, bytes) => id == items[k].id && m.Some? && bytes == |m.value| != 32
    case DuplicateMaterial => exists j | 0 <= j < k :: Decode(Trim(items[j].key)) == m
    case _ => false
  }

  /** A refused table is sound up to some item, and the error is about that one. */
  lemma RefusedBecause(items: seq<KeyItem>) returns (k: nat)
    requires CheckTable(items).Err?
    ensures k < |items| && Sound(items[..k]) && WrongAt(items, k, CheckTable(items).error)
  {
    k := FirstFaultIs(items, 0);
    hide WrongAt, Fault, FirstFault;
    assert forall j | 0 <= j < k :: Fault(items, j).None?;
    FaultInPrefix(items, k);
    NoFaultIff(items[..k], 0);
    AcceptedIffSound(items[..k]);
  }

  lemma FaultInPrefix(items: seq<KeyItem>, k: nat)
    requires k <= |items|
    ensures forall j | 0 <= j < k :: Fault(items[..k], j) == Fault(items, j)
  {
    hide Material;
  }

  lemma {:induction false} FirstFaultIs(items: seq<KeyItem>, i: nat) returns (k: nat)
    requires i <= |items| && FirstFault(items, i).Some?
    ensures i <= k < |items| && (forall j | i <= j < k :: Fault(items, j).None?)
    ensures FirstFault(items, i) == Fault(items, k) && WrongAt(items, k, FirstFault(items, i).value)
    decreases |items| - i
  {
    if Fault(items, i).Some? {
      k := i;
    } else {
      hide Fault, WrongAt;
      k := FirstFaultIs(items, i + 1);
    }
  }

  /** The loop that checks the items and collects their materials. */
  method AttachmentMaterial(items: seq<KeyItem>) returns (r: Result<seq<KeyItem>, Error>)
    ensures r == CheckTable(items)
  {
    hide Material;
    var decoded: seq<(nat, seq<Byte>)> := [];
    var n := 0;
    while n < |items|
      invariant 0 <= n <= |items| && |decoded| == n
      invariant forall j | 0 <= j < n :: Fault(items, j).None? && Some(decoded[j].1) == Material(items[j]) && decoded[j].0 == items[j].id
      invariant FirstFault(items, 0) == FirstFault(items, n)
    {
      var k := items[n];
      if exists j :: 0 <= j < |decoded| && decoded[j].0 == k.id {
        assert Fault(items, n) == Some(DuplicateId(k.id));
        return Err(DuplicateId(k.id));
      }
      var material := Material(k);
      if material.None? { return Err(NotBase64(k.id)); }
      if |material.value| != MATERIAL_BYTES { return Err(WrongLength(k.id, |material.value|)); }
      if exists j :: 0 <= j < |decoded| && decoded[j].1 == material.value {
        assert Fault(items, n) == Some(DuplicateMaterial);
        return Err(DuplicateMaterial);
      }
      assert Fault(items, n).None?;
      decoded := decoded + [(k.id, material.value)];
      n := n + 1;
    }
    return Ok(Trimmed(items));
  }

  // ----- Looking a key up -----

  function MaterialFor(table: seq<KeyItem>, id: nat): Option<seq<Byte>> {
    if table == [] then None
    else if table[0].id == id then
      var m := Material(table[0]);
      if m.Some? && |m.value| == MATERIAL_BYTES then m else None
    else MaterialFor(table[1..], id)
  }

  lemma {:induction false} MaterialForSound(table: seq<KeyItem>, id: nat)
    requires Sound(table)
    ensures MaterialFor(table, id).Some? <==> exists i :: 0 <= i < |table| && table[i].id == id
    ensures forall i | 0 <= i < |table| && table[i].id == id :: MaterialFor(table, id) == Material(table[i])
  {
    if table == [] {
    } else {
      assert forall i | 0 <= i < |table| - 1 :: table[1..][i] == table[i + 1];
      MaterialForSound(table[1..], id);
      assert forall i | 1 <= i < |table| :: table[i] == table[1..][i - 1];
    }
  }

  lemma {:induction false} TrimEndIdempotent(s: string)
    ensures TrimEnd(TrimEnd(s)) == TrimEnd(s)
    ensures TrimEnd(s) != "" && s != "" ==> TrimEnd(s)[0] == s[0]
  {
    if s != "" && IsSpace(s[|s| - 1]) { TrimEndIdempotent(s[..|s| - 1]); }
  }

  lemma {:induction false} TrimStartHead(s: string)
    ensures TrimStart(s) != "" ==> !IsSpace(TrimStart(s)[0])
  {
    if s != "" && IsSpace(s[0]) { TrimStartHead(s[1..]); }
  }

  lemma TrimIdempotent(s: string)
    ensures Trim(Trim(s)) == Trim(s)
  {
    var t := TrimStart(s);
    TrimStartHead(s);
    TrimEndIdempotent(t);
    assert TrimStart(TrimEnd(t)) == TrimEnd(t);
  }

  /** On an accepted table a lookup yields a key exactly for the listed ids, and
      different ids yield different keys. */
  lemma LookupOnAccepted(items: seq<KeyItem>, id: nat, id': nat)
    requires CheckTable(items).Ok?
    ensures var table := CheckTable(items).value;
      && (MaterialFor(table, id).Some? <==> exists i :: 0 <= i < |items| && items[i].id == id)
      && (MaterialFor(table, id).Some? ==> |MaterialFor(table, id).value| == 32)
      && (MaterialFor(table, id).Some? && MaterialFor(table, id) == MaterialFor(table, id') ==> id == id')
  {
    var table := CheckTable(items).value;
    AcceptedIffSound(items);
    forall i | 0 <= i < |items|
      ensures Material(table[i]) == Material(items[i]) && table[i].id == items[i].id
    {
      TrimIdempotent(items[i].key);
    }
    assert Sound(table);
    MaterialForSound(table, id);
    MaterialForSound(table, id');
  }

  // ----- The environment variable -----

  function NonEmptyTrimmed(parts: seq<string>): seq<string> {
    if parts == [] then []
    else if Trim(parts[0]) == "" then NonEmptyTrimmed(parts[1..])
    else [Trim(parts[0])] + NonEmptyTrimmed(parts[1..])
  }

  function Entries(raw: string): seq<string> { NonEmptyTrimmed(Split(raw, ',')) }

  /** The text before and after the first colon. */
  function CutAtColon(s: string): Option<(string, string)> {
    if s == "" then None
    else if s[0] == ':' then Some(("", s[1..]))
    else match CutAtColon(s[1..])
         case None => None
         case Some((a, b)) => Some(([s[0]] + a, b))
  }

  function ParseEntry(entry: string, position: nat): Result<KeyItem, Error> {
    match CutAtColon(entry)
    case None => Err(MissingColon(position))
    case Some((a, b)) =>
      match ParseUnsigned(Trim(a), 255)
      case None => Err(BadId(position))
      case Some(id) => Ok(KeyItem(id, Trim(b)))
  }

  /** An entry is an 8-bit id, a colon and a key, each with white space around it;
      the first colon counts, and the error carries the entry's position. */
  lemma EntryIs(a: string, b: string, position: nat)
    requires ':' !in a
    ensures var r, id := ParseEntry(a + ":" + b, position), ParseUnsigned(Trim(a), 255);
      if id.None? then r == Err(BadId(position)) else r == Ok(KeyItem(id.value, Trim(b)))
    ensures ParseEntry(a, position) == Err(MissingColon(position))
  {
    hide Trim, ParseUnsigned;
    NoColon(a);
    CutAtFirst(a, b);
  }

  lemma {:induction false} NoColon(s: string)
    requires ':' !in s
    ensures CutAtColon(s) == None
  {
    if s != "" { NoColon(s[1..]); }
  }

  /** Blank entries are dropped, the others trimmed, in order. */
  lemma EntriesOf(a: seq<string>, b: seq<string>, part: string)
    ensures NonEmptyTrimmed([part]) == if Blank(part) then [] else [Trim(part)]
    ensures NonEmptyTrimmed(a + b) == NonEmptyTrimmed(a) + NonEmptyTrimmed(b)
  {
    TrimCuts(part);
    EntriesSplit(a, b);
    hide Trim, Blank;
  }

  lemma EntriesNext(part: string, rest: seq<string>)
    ensures NonEmptyTrimmed([part] + rest) == (if Trim(part) == "" then [] else [Trim(part)]) + NonEmptyTrimmed(rest)
  {
    hide Trim;
    assert ([part] + rest)[1..] == rest;
  }

  lemma {:induction false} EntriesSplit(a: seq<string>, b: seq<string>)
    ensures NonEmptyTrimmed(a + b) == NonEmptyTrimmed(a) + NonEmptyTrimmed(b)
  {
    hide Trim;
    if a == [] {
      assert a + b == b;
    } else {
      hide NonEmptyTrimmed;
      var first, rest := [a[0]], a[1..];
      EntriesSplit(rest, b);
      EntriesNext(a[0], rest);
      EntriesNext(a[0], rest + b);
      assert a == first + rest;
      Assoc(first, rest, b);
      Assoc(if Trim(a[0]) == "" then [] else [Trim(a[0])], NonEmptyTrimmed(rest), NonEmptyTrimmed(b));
    }
  }

  /** The items of the entries from n on; positions are counted from one. */
  function ParseEntries(entries: seq<string>, n: nat): Result<seq<KeyItem>, Error>
    requires n <= |entries|
    decreases |entries| - n
  {
    if n == |entries| then Ok([])
    else match ParseEntry(entries[n], n + 1)
         case Err(e) => Err(e)
         case Ok(item) =>
           match ParseEntries(entries, n + 1)
           case Err(e) => Err(e)
           case Ok(rest) => Ok([item] + rest)
  }

  function ParseEnv(raw: string): Result<seq<KeyItem>, Error> {
    if Trim(raw) == "" then Err(EmptyVariable)
    else if Entries(raw) == [] then Err(NoEntries)
    else match ParseEntries(Entries(raw), 0)
         case Err(e) => Err(e)
         case Ok(items) => CheckTable(items)
  }

  /** The loop over the entries, then the common checks. */
  method ParseAttachmentKeysEnv(raw: string) returns (r: Result<seq<KeyItem>, Error>)
    ensures r == ParseEnv(raw)
  {
    hide ParseEntry, CheckTable, Entries, Trim;
    if Trim(raw) == "" { return Err(EmptyVariable); }
    var entries := Entries(raw);
    if entries == [] { return Err(NoEntries); }
    var keys: seq<KeyItem> := [];
    var n := 0;
    ghost var all := ParseEntries(entries, 0);
    assert all.Ok? ==> [] + all.value == all.value;
    while n < |entries|
      invariant 0 <= n <= |entries|
      invariant ParseEntries(entries, n).Err? ==> all == ParseEntries(entries, n)
      invariant ParseEntries(entries, n).Ok? ==> all == Ok(keys + ParseEntries(entries, n).value)
    {
      var item := ParseEntry(entries[n], n + 1);
      if item.Err? { return Err(item.error); }
      assert ParseEntries(entries, n + 1).Ok? ==>
        keys + ([item.value] + ParseEntries(entries, n + 1).value) == keys + [item.value] + ParseEntries(entries, n + 1).value;
      keys := keys + [item.value];
      n := n + 1;
    }
    assert all == Ok(keys + []) && keys + [] == keys;
    r := AttachmentMaterial(keys);
  }

  // ----- Writing a table and reading it back -----

  function RenderItem(item: KeyItem): string { Decimal(item.id) + ":" + item.key }

  function RenderItems(items: seq<KeyItem>): (parts: seq<string>)
    ensures |parts| == |items| && forall i | 0 <= i < |items| :: parts[i] == RenderItem(items[i])
  {
    if items == [] then [] else [RenderItem(items[0])] + RenderItems(items[1..])
  }

  function Render(items: seq<KeyItem>): string { Join(RenderItems(items), ',') }

  /** Byte-sized ids and keys without surrounding white space, as every parsed
      table has them. */
  predicate Canonical(items: seq<KeyItem>) {
    forall i | 0 <= i < |items| :: items[i].id <= 255 && Trim(items[i].key) == items[i].key
  }

  /** The key text of a sound item is the encoding of its material. */
  lemma KeyIsEncoding(items: seq<KeyItem>, i: nat) returns (m: seq<Byte>)
    requires Canonical(items) && Sound(items) && i < |items|
    ensures items[i].key == Encode(m)
  {
    hide Encode, Decode, Trim;
    m := Material(items[i]).value;
    EncodeDecode(items[i].key);
  }

  lemma {:induction false} EncodeSymbols(m: seq<Byte>)
    ensures AllSymbols(Encode(m))
  {
    hide Symbol, SymbolValue, Six0, Six1, Six2, Six3;
    if |m| >= 3 { EncodeSymbols(m[3..]); }
  }

  predicate Plain(s: string) { forall i | 0 <= i < |s| :: !IsSpace(s[i]) && s[i] != ',' }

  lemma ItemIsPlain(item: KeyItem, m: seq<Byte>)
    requires item.key == Encode(m)
    ensures Plain(RenderItem(item)) && Plain(item.key) && RenderItem(item) != ""
    ensures Trim(RenderItem(item)) == RenderItem(item) && Trim(item.key) == item.key && Trim(Decimal(item.id)) == Decimal(item.id)
  {
    EncodeSymbols(m);
    hide Encode, Decimal;
    var id := Decimal(item.id);
    assert forall i | 0 <= i < |id| :: IsDigit(id[i]);
    assert forall i | 0 <= i < |item.key| :: SymbolValue(item.key[i]).Some?;
    PlainTrims(RenderItem(item));
    PlainTrims(item.key);
    PlainTrims(id);
  }

  lemma PlainTrims(s: string)
    requires Plain(s)
    ensures Trim(s) == s
  {
  }

  lemma {:induction false} CutAtFirst(a: string, b: string)
    requires ':' !in a
    ensures CutAtColon(a + ":" + b) == Some((a, b))
  {
    var s := a + ":" + b;
    if a == "" {
      assert s[1..] == b;
    } else {
      CutAtFirst(a[1..], b);
      assert s[1..] == a[1..] + ":" + b;
      assert [a[0]] + a[1..] == a;
    }
  }

  lemma ParseRendered(item: KeyItem, m: seq<Byte>, position: nat)
    requires item.id <= 255 && item.key == Encode(m)
    ensures ParseEntry(RenderItem(item), position) == Ok(item)
  {
    hide Encode, Trim;
    ItemIsPlain(item, m);
    var id := Decimal(item.id);
    assert ':' !in id by { assert forall i | 0 <= i < |id| :: IsDigit(id[i]); }
    CutAtFirst(id, item.key);
    ParseDecimal(item.id, 255);
  }

  lemma {:induction false} ParseAllRendered(items: seq<KeyItem>, entries: seq<string>, n: nat)
    requires Canonical(items) && Sound(items) && n <= |items| && entries == RenderItems(items)
    ensures ParseEntries(entries, n) == Ok(items[n..])
    decreases |items| - n
  {
    hide ParseEntry, RenderItem, Sound, Canonical, RenderItems;
    if n == |items| {
      assert items[n..] == [];
    } else {
      ParseAllRendered(items, entries, n + 1);
      ParseOneRendered(items, n);
      assert items[n..] == [items[n]] + items[n + 1..];
    }
  }

  lemma ParseOneRendered(items: seq<KeyItem>, n: nat)
    requires Canonical(items) && Sound(items) && n < |items|
    ensures ParseEntry(RenderItem(items[n]), n + 1) == Ok(items[n])
  {
    hide ParseEntry, RenderItem, Encode, Sound, Trim;
    var m := KeyIsEncoding(items, n);
    ParseRendered(items[n], m, n + 1);
  }

  lemma {:induction false} NothingToTrim(parts: seq<string>)
    requires forall i | 0 <= i < |parts| :: parts[i] != "" && Trim(parts[i]) == parts[i]
    ensures NonEmptyTrimmed(parts) == parts
  {
    hide Trim;
    if parts == [] {
    } else {
      NothingToTrim(parts[1..]);
    }
  }

  lemma EntriesOfRendered(items: seq<KeyItem>)
    requires items != [] && Canonical(items) && Sound(items)
    ensures Entries(Render(items)) == RenderItems(items)
  {
    var parts := RenderItems(items);
    hide RenderItem, Trim, Encode, Split, RenderItems;
    forall i | 0 <= i < |parts|
      ensures parts[i] != "" && Trim(parts[i]) == parts[i] && ',' !in parts[i]
    {
      var m := KeyIsEncoding(items, i);
      ItemIsPlain(items[i], m);
    }
    SplitJoin(parts, ',');
    NothingToTrim(parts);
  }

  lemma {:induction false} JoinKeepsHead(parts: seq<string>)
    requires parts != [] && parts[0] != ""
    ensures Join(parts, ',') != "" && Join(parts, ',')[0] == parts[0][0]
  {
  }

  lemma {:induction false} TrimNonSpace(s: string)
    requires s != "" && !IsSpace(s[0])
    ensures TrimEnd(s) != "" && Trim(s) != ""
    decreases |s|
  {
    assert TrimStart(s) == s;
    if |s| > 1 { TrimNonSpace(s[..|s| - 1]); }
  }

  /** Reading back a rendered table yields the same table in the same order. */
  lemma RenderRoundTrip(items: seq<KeyItem>)
    requires items != [] && Canonical(items) && Sound(items)
    ensures ParseEnv(Render(items)) == Ok(items)
  {
    hide RenderItem, Trim, Encode, Entries, RenderItems, Material;
    EntriesOfRendered(items);
    ParseAllRendered(items, RenderItems(items), 0);
    assert items[0..] == items;
    AcceptedIffSound(items);
    assert Trimmed(items) == items;
    RenderedNotBlank(items);
  }

  lemma RenderedNotBlank(items: seq<KeyItem>)
    requires items != [] && Canonical(items) && Sound(items)
    ensures Trim(Render(items)) != ""
  {
    var m := KeyIsEncoding(items, 0);
    ItemIsPlain(items[0], m);
    JoinKeepsHead(RenderItems(items));
    hide Trim, Join;
    TrimNonSpace(Render(items));
  }

  /** Whatever text is accepted yields a sound, non-empty table, and writing
      that table out and reading it again changes nothing. */
  lemma AcceptedTextIsSound(raw: string)
    requires ParseEnv(raw).Ok?
    ensures var table := ParseEnv(raw).value;
      table != [] && Sound(table) && Canonical(table) && ParseEnv(Render(table)) == Ok(table)
  {
    hide Entries, Material, Trim, Render;
    var items := ParseEntries(Entries(raw), 0).value;
    ParsedCount(Entries(raw), 0);
    AcceptedIffSound(items);
    TrimmedSound(items);
    RenderRoundTrip(Trimmed(items));
  }

  /** Either every entry is read, in order, or the first bad one is reported. */
  lemma {:induction false} ParsedEntries(entries: seq<string>, n: nat)
    requires n <= |entries|
    ensures var r := ParseEntries(entries, n);
      && (r.Ok? ==> |r.value| == |entries| - n && forall i | n <= i < |entries| :: ParseEntry(entries[i], i + 1) == Ok(r.value[i - n]))
      && (r.Err? ==> exists k | n <= k < |entries| :: ParseEntry(entries[k], k + 1) == Err(r.error)
                                                      && forall i | n <= i < k :: ParseEntry(entries[i], i + 1).Ok?)
    decreases |entries| - n
  {
    hide ParseEntry;
    if n < |entries| { ParsedEntries(entries, n + 1); }
  }

  lemma {:induction false} ParsedCount(entries: seq<string>, n: nat)
    requires n <= |entries| && ParseEntries(entries, n).Ok?
    ensures |ParseEntries(entries, n).value| == |entries| - n
    ensures forall i | 0 <= i < |entries| - n :: ParseEntries(entries, n).value[i].id <= 255
    decreases |entries| - n
  {
    hide CutAtColon, Trim;
    if n == |entries| {
    } else {
      ParsedCount(entries, n + 1);
    }
  }

  lemma TrimmedSound(items: seq<KeyItem>)
    requires Sound(items) && forall i | 0 <= i < |items| :: items[i].id <= 255
    ensures Sound(Trimmed(items)) && Canonical(Trimmed(items))
  {
    hide Trim, Decode;
    forall i | 0 <= i < |items|
      ensures Material(Trimmed(items)[i]) == Material(items[i]) && Trim(Trimmed(items)[i].key) == Trimmed(items)[i].key
    {
      TrimIdempotent(items[i].key);
    }
    hide Material;
  }
}
