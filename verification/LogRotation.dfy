/** The daily log file: writing, rotation at a change of day, rotation of a stale
    file at start-up, and the purge of old archives, over one directory. */
module LogRotation {
  import opened Text
  import opened ArchiveNames

  type Bytes = seq<bv8>

  /** A stretch of accepted bytes and the file that holds it, unless purged. */
  datatype Segment = Segment(name: string, content: Bytes, purged: bool)

  /** What the system refuses: the flush before a rotation, or the directory or
      its metadata at a start; the rename; the open; the write. */
  datatype Fault = NoFault | EarlyFails | RenameFails | OpenFails | WriteFails

  // ----- What the purge removes -----

  /** The cut-off date; none switches the purge off. */
  function Cutoff(today: Date, retention: nat): Option<Date> {
    if retention == 0 then None else MinusDays(today, retention - 1)
  }

  predicate Expired(filename: string, cutoff: Option<Date>, name: string) {
    cutoff.Some? && DateOfName(filename, name).Some? && Before(DateOfName(filename, name).value, cutoff.value)
  }

  function Purged(dir: map<string, Bytes>, filename: string, cutoff: Option<Date>, stuck: set<string>): map<string, Bytes> {
    map n | n in dir && (n in stuck || !Expired(filename, cutoff, n)) :: dir[n]
  }

  /** An archive written by rotation goes exactly when its date has left the
      window of the last retention days; the base file never does. */
  lemma PurgeByDate(filename: string, t: Date, index: Option<nat>, today: Date, retention: nat)
    requires IsDate(t) && IsDate(today)
    ensures Expired(filename, Cutoff(today, retention), ArchiveName(filename, t, index)) <==>
            retention > 0 && !Before(today, t) && !InLastDays(today, t, retention)
    ensures !Expired(filename, Cutoff(today, retention), filename)
  {
    NameKeepsDate(filename, t, index);
    if retention > 0 { CutoffBoundsWindow(today, t, retention); }
  }

  /** What is not after today has left the window exactly when it is before the
      cut-off; a window longer than the calendar loses nothing. */
  lemma CutoffBoundsWindow(today: Date, t: Date, retention: nat)
    requires IsDate(t) && IsDate(today) && retention > 0
    ensures (Cutoff(today, retention).Some? && Before(t, Cutoff(today, retention).value)) <==>
            !Before(today, t) && !InLastDays(today, t, retention)
  {
    hide InLastDays;
    if Cutoff(today, retention).Some? { WindowIsLastDays(today, t, retention); }
    else if !Before(today, t) { WindowCoversAll(today, t, retention); }
  }

  /** n is the base name, a dot, an expired date, and then nothing or a dot and
      anything at all. */
  ghost predicate LooksExpired(filename: string, cutoff: Date, n: string) {
    exists date: string, rest: string :: Reads(filename, n, date, rest)
      && ParseDate(date).Some? && Before(ParseDate(date).value, cutoff)
  }

  predicate Reads(filename: string, n: string, date: string, rest: string) {
    n == filename + "." + date + rest && '.' !in date && (rest == "" || rest[0] == '.')
  }

  lemma ExpiredIfLooks(filename: string, n: string, date: string, rest: string)
    requires Reads(filename, n, date, rest)
    ensures DateOfName(filename, n) == ParseDate(date)
  {
    hide ParseDate, Split;
    assert n == filename + "." + (date + rest);
    assert n[|filename| + 1..] == date + rest;
    if rest == "" {
      assert date + rest == date;
      SplitWhole(date, '.');
    } else {
      assert date + rest == date + ['.'] + rest[1..];
      SplitHead(date, rest[1..], '.');
    }
  }

  lemma LooksIfExpired(filename: string, cutoff: Date, n: string)
    requires Expired(filename, Some(cutoff), n)
    ensures LooksExpired(filename, cutoff, n)
  {
    hide ParseDate, Split;
    var s := n[|filename| + 1..];
    var parts := Split(s, '.');
    JoinSplit(s, '.');
    var rest := if |parts| == 1 then "" else ['.'] + Join(parts[1..], '.');
    assert s == parts[0] + rest;
    assert parts[0] in parts;
    var date := parts[0];
    assert rest == "" || rest[0] == '.';
    assert n == filename + "." + s;
    assert Reads(filename, n, date, rest);
  }

  /** Files rotation did not name survive exactly when none of them looks like an
      expired archive up to the dot after the date; what follows that dot is not
      looked at. */
  lemma ForeignFilesKeptIff(dir: map<string, Bytes>, filename: string, cutoff: Date)
    ensures (forall n | n in dir && !OwnName(filename, n) :: n in Purged(dir, filename, Some(cutoff), {})) <==>
            (forall n | n in dir && !OwnName(filename, n) :: !LooksExpired(filename, cutoff, n))
  {
    hide OwnName;
    forall n ensures Expired(filename, Some(cutoff), n) <==> LooksExpired(filename, cutoff, n) {
      if Expired(filename, Some(cutoff), n) {
        LooksIfExpired(filename, cutoff, n);
      } else if LooksExpired(filename, cutoff, n) {
        var date: string, rest: string :| Reads(filename, n, date, rest)
          && ParseDate(date).Some? && Before(ParseDate(date).value, cutoff);
        ExpiredIfLooks(filename, n, date, rest);
        assert false;
      }
    }
    hide LooksExpired, Expired;
  }

  /** A compressed copy of an archive: no name of rotation. */
  function CompressedName(filename: string, t: Date): string
    requires IsDate(t)
  {
    filename + "." + (FormatDate(t) + ['.'] + ("tar" + ['.'] + "gz"))
  }

  lemma CompressedParts(filename: string, t: Date)
    requires IsDate(t)
    ensures filename + "." <= CompressedName(filename, t)
    ensures Split(CompressedName(filename, t)[|filename| + 1..], '.') == [FormatDate(t), "tar", "gz"]
  {
    hide Split, FormatDate;
    NoDotInDate(t);
    assert CompressedName(filename, t)[|filename| + 1..] == FormatDate(t) + ['.'] + ("tar" + ['.'] + "gz");
    SplitHead(FormatDate(t), "tar" + ['.'] + "gz", '.');
    SplitHead("tar", "gz", '.');
    SplitWhole("gz", '.');
  }

  /** So a compressed copy of an archive is purged as soon as the archive would
      be, although rotation never gives such a name. */
  lemma CompressedCopyPurged(filename: string, t: Date, cutoff: Date)
    requires IsDate(t) && Before(t, cutoff)
    ensures !OwnName(filename, CompressedName(filename, t))
    ensures Expired(filename, Some(cutoff), CompressedName(filename, t))
  {
    CompressedParts(filename, t);
    hide Split, FormatDate, ParseDate, CompressedName, ArchiveName;
    ParseFormatted(t);
    if u: Date, i: Option<nat> :| IsDate(u) && IndexOk(i) && CompressedName(filename, t) == ArchiveName(filename, u, i) {
      SplitArchiveName(filename, u, i);
      assert false;
    }
  }

  /** For one, server.log.2026-07-01.tar.gz on 7 August 2026, keeping seven days. */
  lemma ForeignFilePurged()
    ensures var name := CompressedName("server.log", Date(2026, 7, 1));
      !OwnName("server.log", name) && Expired("server.log", Cutoff(Date(2026, 8, 7), 7), name)
  {
    hide Expired, OwnName, CompressedName, Cutoff;
    SevenDaysBack();
    CompressedCopyPurged("server.log", Date(2026, 7, 1), Date(2026, 8, 1));
  }

  lemma SevenDaysBack()
    ensures Cutoff(Date(2026, 8, 7), 7) == Some(Date(2026, 8, 1))
  {
  }

  // ----- Where the accepted bytes are -----

  function Contents(segs: seq<Segment>): Bytes {
    if segs == [] then [] else Contents(segs[..|segs| - 1]) + segs[|segs| - 1].content
  }

  predicate Holds(dir: map<string, Bytes>, g: Segment) {
    g.purged || (g.name in dir && dir[g.name] == g.content)
  }

  /** Every stretch not purged is the whole content of a file of its own; the
      base file, if there is one, holds the last stretch. */
  predicate Kept(dir: map<string, Bytes>, filename: string, segs: seq<Segment>) {
    && (forall i | 0 <= i < |segs| :: Holds(dir, segs[i]))
    && (forall i, j | 0 <= i < j < |segs| && !segs[i].purged && !segs[j].purged :: segs[i].name != segs[j].name)
    && (forall i | 0 <= i < |segs| && segs[i].name == filename :: i == |segs| - 1 && !segs[i].purged)
    && (filename in dir <==> segs != [] && segs[|segs| - 1].name == filename)
  }

  function WithLast(segs: seq<Segment>, last: Segment): seq<Segment>
    requires segs != []
  {
    segs[..|segs| - 1] + [last]
  }

  function MarkGone(segs: seq<Segment>, gone: set<string>): (r: seq<Segment>)
    ensures |r| == |segs|
    ensures forall i | 0 <= i < |segs| :: r[i] == segs[i].(purged := segs[i].purged || segs[i].name in gone)
  {
    seq(|segs|, i requires 0 <= i < |segs| => segs[i].(purged := segs[i].purged || segs[i].name in gone))
  }

  lemma {:induction false} ContentsOfMarked(segs: seq<Segment>, gone: set<string>)
    ensures Contents(MarkGone(segs, gone)) == Contents(segs)
  {
    if segs == [] {
    } else {
      var init := segs[..|segs| - 1];
      ContentsOfMarked(init, gone);
      assert MarkGone(segs, gone)[..|segs| - 1] == MarkGone(init, gone);
    }
  }

  lemma ContentsWithLast(segs: seq<Segment>, last: Segment, more: Bytes)
    requires segs != [] && last.content == segs[|segs| - 1].content + more
    ensures Contents(WithLast(segs, last)) == Contents(segs) + more
  {
  }

  lemma ContentsOfOpened(segs: seq<Segment>, name: string)
    ensures Contents(segs + [Segment(name, [], false)]) == Contents(segs)
  {
  }

  lemma KeptAppend(dir: map<string, Bytes>, filename: string, segs: seq<Segment>, more: Bytes)
    requires Kept(dir, filename, segs) && segs != [] && !segs[|segs| - 1].purged
    ensures var last := segs[|segs| - 1];
      Kept(dir[last.name := dir[last.name] + more], filename, WithLast(segs, last.(content := last.content + more)))
  {
  }

  lemma KeptRename(dir: map<string, Bytes>, filename: string, segs: seq<Segment>, name: string)
    requires Kept(dir, filename, segs) && filename in dir && name !in dir
    ensures var last := segs[|segs| - 1];
      Kept(dir[name := dir[filename]] - {filename}, filename, WithLast(segs, last.(name := name)))
  {
  }

  lemma KeptOpen(dir: map<string, Bytes>, filename: string, segs: seq<Segment>)
    requires Kept(dir, filename, segs) && filename !in dir
    ensures Kept(dir[filename := []], filename, segs + [Segment(filename, [], false)])
  {
  }

  lemma KeptPurge(dir: map<string, Bytes>, filename: string, segs: seq<Segment>, gone: set<string>)
    requires Kept(dir, filename, segs) && filename !in gone
    ensures Kept(dir - gone, filename, MarkGone(segs, gone))
  {
  }

  datatype Log = Log(segments: seq<Segment>, dir: map<string, Bytes>)

  /** No stretch shrinks, those purged stay as they are, and stretches are purged
      only with an expired archive. Every file but the given ones is as before,
      unless it was an expired archive. */
  predicate Evolves(a: Log, b: Log, own: set<string>, filename: string, cutoff: Option<Date>) {
    && |a.segments| <= |b.segments|
    && (forall i | 0 <= i < |a.segments| :: SegmentEvolves(a.segments[i], b.segments[i], filename, cutoff))
    && (forall n | n in a.dir && n !in own && !Expired(filename, cutoff, n) :: n in b.dir && b.dir[n] == a.dir[n])
  }

  predicate SegmentEvolves(g: Segment, h: Segment, filename: string, cutoff: Option<Date>) {
    && g.content <= h.content
    && (g.purged ==> h == g)
    && (h.purged && !g.purged ==> Expired(filename, cutoff, h.name))
  }

  lemma EvolvesItself(a: Log, own: set<string>, filename: string, cutoff: Option<Date>)
    ensures Evolves(a, a, own, filename, cutoff)
  {
  }

  lemma EvolvesMore(a: Log, b: Log, own: set<string>, more: set<string>, filename: string, some: Option<Date>, cutoff: Option<Date>)
    requires Evolves(a, b, own, filename, some) && own <= more && (some == None || some == cutoff)
    ensures Evolves(a, b, more, filename, cutoff)
  {
  }

  lemma LastIsBase(dir: map<string, Bytes>, filename: string, segs: seq<Segment>)
    requires Kept(dir, filename, segs) && filename in dir
    ensures segs != [] && segs[|segs| - 1].name == filename && !segs[|segs| - 1].purged
  {
  }

  /** The base file has moved to a name nothing had. */
  predicate Renamed(before: map<string, Bytes>, after: map<string, Bytes>, filename: string, name: string) {
    filename in before && name !in before && after == before[name := before[filename]] - {filename}
  }

  /** The base file of before is under name, which nothing had, unless that is expired. */
  predicate ArchivedAs(before: map<string, Bytes>, after: map<string, Bytes>, filename: string, name: string, cutoff: Option<Date>) {
    filename in before && name !in before
    && (!Expired(filename, cutoff, name) ==> name in after && after[name] == before[filename])
  }

  ghost predicate Archived(before: map<string, Bytes>, after: map<string, Bytes>, filename: string, t: Date, cutoff: Option<Date>)
    requires IsDate(t)
  {
    exists i: Option<nat> :: IndexOk(i) && ArchivedAs(before, after, filename, ArchiveName(filename, t, i), cutoff)
  }

  ghost function IndexOf(before: map<string, Bytes>, after: map<string, Bytes>, filename: string, t: Date): (i: Option<nat>)
    requires IsDate(t) && exists i: Option<nat> :: IndexOk(i) && Renamed(before, after, filename, ArchiveName(filename, t, i))
    ensures IndexOk(i) && Renamed(before, after, filename, ArchiveName(filename, t, i))
  {
    var i: Option<nat> :| IndexOk(i) && Renamed(before, after, filename, ArchiveName(filename, t, i)); i
  }

  lemma ArchiveStays(before: map<string, Bytes>, mid: Log, after: Log, filename: string, t: Date, i: Option<nat>, cutoff: Option<Date>)
    requires IsDate(t) && IndexOk(i) && Renamed(before, mid.dir, filename, ArchiveName(filename, t, i))
    requires mid == after || Evolves(mid, after, {filename}, filename, cutoff)
    ensures Archived(before, after.dir, filename, t, cutoff)
  {
    hide Expired, ArchiveName;
    assert ArchivedAs(before, after.dir, filename, ArchiveName(filename, t, i), cutoff);
  }

  lemma ArchiveStaysOnAppend(before: map<string, Bytes>, mid: map<string, Bytes>, bytes: Bytes, filename: string, t: Date, cutoff: Option<Date>)
    requires IsDate(t) && Archived(before, mid, filename, t, cutoff) && filename in mid
    ensures Archived(before, mid[filename := mid[filename] + bytes], filename, t, cutoff)
  {
    hide Expired, ArchiveName;
    var i: Option<nat> :| IndexOk(i) && ArchivedAs(before, mid, filename, ArchiveName(filename, t, i), cutoff);
    assert ArchivedAs(before, mid[filename := mid[filename] + bytes], filename, ArchiveName(filename, t, i), cutoff);
  }

  lemma RenameEvolves(a: Log, filename: string, name: string)
    requires filename in a.dir && name !in a.dir && a.segments != [] && !a.segments[|a.segments| - 1].purged
    ensures var last := a.segments[|a.segments| - 1];
      && var dir := a.dir[name := a.dir[filename]] - {filename};
      && Evolves(a, Log(WithLast(a.segments, last.(name := name)), dir), {filename}, filename, None)
      && Renamed(a.dir, dir, filename, name) && |dir| == |a.dir|
  {
  }

  lemma LastHeld(dir: map<string, Bytes>, filename: string, segs: seq<Segment>)
    requires Kept(dir, filename, segs) && segs != [] && !segs[|segs| - 1].purged
    ensures var last := segs[|segs| - 1]; last.name in dir && dir[last.name] == last.content
  {
    assert Holds(dir, segs[|segs| - 1]);
  }

  lemma LastIs(segs: seq<Segment>, last: Segment)
    requires segs != []
    ensures |WithLast(segs, last)| == |segs| && WithLast(segs, last)[|segs| - 1] == last
  {
  }

  lemma AppendEvolves(a: Log, bytes: Bytes, filename: string)
    requires a.segments != [] && !a.segments[|a.segments| - 1].purged && a.segments[|a.segments| - 1].name in a.dir
    ensures var last := a.segments[|a.segments| - 1];
      Evolves(a, Log(WithLast(a.segments, last.(content := last.content + bytes)), a.dir[last.name := a.dir[last.name] + bytes]),
              {last.name}, filename, None)
  {
    hide Expired;
  }

  lemma PurgedIsRemoved(dir: map<string, Bytes>, filename: string, cutoff: Option<Date>, stuck: set<string>)
    requires !Expired(filename, cutoff, filename)
    ensures var after := Purged(dir, filename, cutoff, stuck);
      var gone := dir.Keys - after.Keys;
      after == dir - gone && filename !in gone && forall n | n in gone :: Expired(filename, cutoff, n)
  {
    hide Expired;
  }

  lemma PurgeEvolves(a: Log, gone: set<string>, filename: string, cutoff: Option<Date>)
    requires forall n | n in gone :: Expired(filename, cutoff, n)
    ensures Evolves(a, Log(MarkGone(a.segments, gone), a.dir - gone), {}, filename, cutoff)
  {
  }

  lemma EvolvesTwice(a: Log, b: Log, c: Log, own: set<string>, filename: string, cutoff: Option<Date>)
    requires Evolves(a, b, own, filename, cutoff) && Evolves(b, c, own, filename, cutoff)
    ensures Evolves(a, c, own, filename, cutoff)
  {
  }

  // ----- Any sequence of operations -----

  /** Each log evolves into the next, every step with its own cut-off and own files. */
  predicate IsHistory(logs: seq<Log>, owns: seq<set<string>>, cutoffs: seq<Option<Date>>, filename: string) {
    |logs| == |owns| + 1 == |cutoffs| + 1 &&
    forall i | 0 <= i < |owns| :: Evolves(logs[i], logs[i + 1], owns[i], filename, cutoffs[i])
  }

  /** h is what became of g: nothing lost but by a purge that found the archive
      holding it expired. */
  predicate Descends(g: Segment, h: Segment, filename: string, cutoffs: seq<Option<Date>>) {
    && g.content <= h.content
    && (g.purged ==> h == g)
    && (h.purged && !g.purged ==> exists k :: 0 <= k < |cutoffs| && Expired(filename, cutoffs[k], h.name))
  }

  lemma DescendsOn(g: Segment, h: Segment, next: Segment, filename: string, cutoffs: seq<Option<Date>>, cutoff: Option<Date>)
    requires Descends(g, h, filename, cutoffs) && SegmentEvolves(h, next, filename, cutoff)
    ensures Descends(g, next, filename, cutoffs + [cutoff])
  {
    hide Expired;
    var more := cutoffs + [cutoff];
    if h.purged && !g.purged {
      var k :| 0 <= k < |cutoffs| && Expired(filename, cutoffs[k], h.name);
      assert more[k] == cutoffs[k];
    } else if next.purged && !g.purged {
      assert more[|cutoffs|] == cutoff;
    }
  }

  /** Over any sequence of operations, of any days, every stretch of accepted
      bytes is kept until a purge finds the archive that holds it expired. */
  lemma {:induction false} HistoryKeepsSegments(logs: seq<Log>, owns: seq<set<string>>, cutoffs: seq<Option<Date>>,
                                                filename: string, j: nat, i: nat)
    requires IsHistory(logs, owns, cutoffs, filename) && j < |logs| && i < |logs[0].segments|
    ensures i < |logs[j].segments|
    ensures Descends(logs[0].segments[i], logs[j].segments[i], filename, cutoffs[..j])
  {
    hide Expired, SegmentEvolves, Descends;
    if j == 0 {
      DescendsItself(logs[0].segments[i], filename, cutoffs[..0]);
    } else {
      HistoryKeepsSegments(logs, owns, cutoffs, filename, j - 1, i);
      assert Evolves(logs[j - 1], logs[j], owns[j - 1], filename, cutoffs[j - 1]);
      assert SegmentEvolves(logs[j - 1].segments[i], logs[j].segments[i], filename, cutoffs[j - 1]);
      DescendsOn(logs[0].segments[i], logs[j - 1].segments[i], logs[j].segments[i], filename, cutoffs[..j - 1], cutoffs[j - 1]);
      assert cutoffs[..j] == cutoffs[..j - 1] + [cutoffs[j - 1]];
    }
  }

  lemma DescendsItself(g: Segment, filename: string, cutoffs: seq<Option<Date>>)
    ensures Descends(g, g, filename, cutoffs)
  {
  }

  /** A file that no operation writes and no cut-off expires is as it was. */
  lemma {:induction false} HistoryKeepsFiles(logs: seq<Log>, owns: seq<set<string>>, cutoffs: seq<Option<Date>>,
                                             filename: string, j: nat, n: string)
    requires IsHistory(logs, owns, cutoffs, filename) && j < |logs| && n in logs[0].dir
    requires forall k | 0 <= k < j :: n !in owns[k] && !Expired(filename, cutoffs[k], n)
    ensures n in logs[j].dir && logs[j].dir[n] == logs[0].dir[n]
  {
    hide Expired, SegmentEvolves;
    if j == 0 {
    } else {
      HistoryKeepsFiles(logs, owns, cutoffs, filename, j - 1, n);
      assert Evolves(logs[j - 1], logs[j], owns[j - 1], filename, cutoffs[j - 1]);
    }
  }

  lemma HistoryOn(logs: seq<Log>, owns: seq<set<string>>, cutoffs: seq<Option<Date>>, filename: string,
                  next: Log, own: set<string>, cutoff: Option<Date>)
    requires IsHistory(logs, owns, cutoffs, filename) && Evolves(logs[|logs| - 1], next, own, filename, cutoff)
    ensures IsHistory(logs + [next], owns + [own], cutoffs + [cutoff], filename)
  {
    hide Evolves;
  }

  /** The loop over the directory entries, removing file by file. */
  method RemoveExpired(dir: map<string, Bytes>, filename: string, cutoff: Option<Date>, stuck: set<string>)
    returns (left: map<string, Bytes>)
    ensures left == Purged(dir, filename, cutoff, stuck)
  {
    hide Expired;
    var todo := dir.Keys;
    left := dir;
    while todo != {}
      invariant todo <= dir.Keys
      invariant left == map n | n in dir && (n in todo || n in stuck || !Expired(filename, cutoff, n)) :: dir[n]
      decreases |todo|
    {
      var name :| name in todo;
      todo := todo - {name};
      if name !in stuck && Expired(filename, cutoff, name) { left := left - {name}; }
    }
  }

  // ----- The appender -----

  /** What happens to a log: a write of which the system takes n bytes, or a start. */
  datatype Action =
    | Writing(buf: Bytes, n: nat, today: Date, fault: Fault, stuck: set<string>)
    | Starting(modified: Date, atRotate: Date, atPurge: Date, atOpen: Date, fault: Fault, stuck: set<string>)

  predicate ActionOk(a: Action) {
    match a
    case Writing(buf, n, today, _, _) => n <= |buf| && IsDate(today)
    case Starting(modified, atRotate, atPurge, atOpen, _, _) =>
      IsDate(modified) && IsDate(atRotate) && IsDate(atPurge) && IsDate(atOpen)
  }

  function CutoffOf(a: Action, retention: nat): Option<Date> {
    Cutoff(if a.Writing? then a.today else a.atPurge, retention)
  }

  function CutoffsOf(actions: seq<Action>, retention: nat): (r: seq<Option<Date>>)
    ensures |r| == |actions|
    ensures forall k | 0 <= k < |r| :: r[k] == CutoffOf(actions[k], retention)
  {
    seq(|actions|, k requires 0 <= k < |actions| => CutoffOf(actions[k], retention))
  }

  /** What of an action can have been accepted: nothing, or what the system took of a write. */
  predicate Takes(a: Action, bytes: Bytes) {
    bytes == [] || (a.Writing? && a.n <= |a.buf| && bytes == a.buf[..a.n])
  }

  predicate AllTake(actions: seq<Action>, taken: seq<Bytes>) {
    |actions| == |taken| && forall k | 0 <= k < |actions| :: Takes(actions[k], taken[k])
  }

  predicate Faultless(actions: seq<Action>) {
    forall k | 0 <= k < |actions| :: actions[k].fault.NoFault?
  }

  /** Every write was taken as far as the system took it. */
  predicate AllTaken(actions: seq<Action>, taken: seq<Bytes>) {
    |actions| == |taken| &&
    forall k | 0 <= k < |actions| && actions[k].Writing? :: actions[k].n <= |actions[k].buf| && taken[k] == actions[k].buf[..actions[k].n]
  }

  /** A running process without faults keeps running and takes every write. */
  predicate WentWell(actions: seq<Action>, done: nat, taken: seq<Bytes>, ran: bool, runs: bool)
    requires done <= |actions|
  {
    ran && Faultless(actions) ==> runs && AllTaken(actions[..done], taken)
  }

  predicate DoneWell(a: Action, bytes: Bytes, ran: bool, sameDay: bool, hadFile: bool, runs: bool) {
    match a
    case Writing(buf, n, _, fault, _) =>
      runs == ran && (ran && !fault.WriteFails? && (sameDay || Rotates(fault, hadFile)) ==> n <= |buf| && bytes == buf[..n])
    case Starting(modified, atRotate, _, _, fault, _) =>
      runs <==> Rotates(fault, hadFile && Before(modified, atRotate))
  }

  lemma WentWellOn(actions: seq<Action>, done: nat, taken: seq<Bytes>, ran: bool, runs: bool, bytes: Bytes,
      sameDay: bool, hadFile: bool, runs': bool)
    requires done < |actions| && WentWell(actions, done, taken, ran, runs)
    requires DoneWell(actions[done], bytes, runs, sameDay, hadFile, runs')
    ensures WentWell(actions, done + 1, taken + [bytes], ran, runs')
  {
    if ran && Faultless(actions) {
      assert actions[done].fault.NoFault?;
    }
  }

  lemma ActionsOn(actions: seq<Action>, done: nat, taken: seq<Bytes>, bytes: Bytes, retention: nat)
    requires done < |actions| && AllTake(actions[..done], taken) && Takes(actions[done], bytes)
    ensures AllTake(actions[..done + 1], taken + [bytes])
    ensures CutoffsOf(actions[..done + 1], retention) == CutoffsOf(actions[..done], retention) + [CutoffOf(actions[done], retention)]
  {
    assert actions[..done + 1] == actions[..done] + [actions[done]];
  }

  function Joined(parts: seq<Bytes>): Bytes {
    if parts == [] then [] else Joined(parts[..|parts| - 1]) + parts[|parts| - 1]
  }

  lemma JoinedMore(parts: seq<Bytes>, part: Bytes)
    ensures Joined(parts + [part]) == Joined(parts) + part
  {
    assert (parts + [part])[..|parts|] == parts;
  }

  /** Whether a rotation gets through, given whether there is a file to rename. */
  predicate Rotates(fault: Fault, renames: bool) {
    !fault.EarlyFails? && !fault.OpenFails? && (renames ==> !fault.RenameFails?)
  }

  class DailyRenameAppender {
    const filename: string
    const retention: nat
    var dir: map<string, Bytes>
    var running: bool
    var handle: string          // the file the open handle refers to, under its present name
    var currentDate: Date
    ghost var segments: seq<Segment>
    ghost var accepted: Bytes

    ghost predicate Valid()
      reads this
    {
      && IsDate(currentDate)
      && Kept(dir, filename, segments) && accepted == Contents(segments)
      && (running ==> segments != [] && !segments[|segments| - 1].purged && handle == segments[|segments| - 1].name)
    }

    ghost function Now(): Log
      reads this
    {
      Log(segments, dir)
    }

    /** A directory found at start-up; what the base file already holds counts as accepted. */
    constructor (filename: string, retention: nat, dir: map<string, Bytes>, today: Date)
      requires IsDate(today)
      ensures Valid() && !running && this.filename == filename && this.retention == retention && this.dir == dir
      ensures accepted == if filename in dir then dir[filename] else []
    {
      this.filename, this.retention, this.dir, running, handle, currentDate := filename, retention, dir, false, filename, today;
      segments := if filename in dir then [Segment(filename, dir[filename], false)] else [];
      accepted := if filename in dir then dir[filename] else [];
      new;
      assert segments != [] ==> segments[..0] == [];
    }

    /** Rename the base file, if there is one, to a name no file has. */
    method Archive(t: Date, fault: Fault) returns (ok: bool)
      requires Valid() && IsDate(t) && (filename in dir ==> NameFree(dir.Keys, filename, t))
      modifies this
      ensures Valid() && accepted == old(accepted) && running == old(running) && currentDate == old(currentDate)
      ensures ok ==> filename !in dir
      ensures !ok ==> dir == old(dir) && segments == old(segments) && handle == old(handle)
      ensures ok && filename !in old(dir) ==> dir == old(dir) && segments == old(segments) && handle == old(handle)
      ensures ok && filename in old(dir) ==>
        exists i: Option<nat> :: IndexOk(i) && Renamed(old(dir), dir, filename, ArchiveName(filename, t, i))
      ensures handle == old(handle) || (running && handle !in old(dir))
      ensures ok <==> filename !in old(dir) || !fault.RenameFails?
      ensures Evolves(old(Now()), Now(), {filename}, filename, None)
    {
      hide Kept, Contents, Evolves, Renamed, ArchiveName, NameFree;
      EvolvesItself(Now(), {filename}, filename, None);
      if filename !in dir { return true; }
      LastIsBase(dir, filename, segments);
      var name, index := NextArchiveName(dir.Keys, filename, t);
      if fault.RenameFails? { return false; }
      ghost var last := segments[|segments| - 1];
      KeptRename(dir, filename, segments, name);
      ContentsWithLast(segments, last.(name := name), []);
      RenameEvolves(Now(), filename, name);
      dir := dir[name := dir[filename]] - {filename};
      segments := WithLast(segments, last.(name := name));
      if running { handle := name; }
      return true;
    }

    /** Open the base file for appending, creating it if need be. */
    method Open()
      requires Valid()
      modifies this
      ensures Valid() && running && handle == filename && accepted == old(accepted) && currentDate == old(currentDate)
      ensures dir == if filename in old(dir) then old(dir) else old(dir)[filename := []]
      ensures Evolves(old(Now()), Now(), {filename}, filename, None)
    {
      if filename !in dir {
        KeptOpen(dir, filename, segments);
        ContentsOfOpened(segments, filename);
        dir := dir[filename := []];
        segments := segments + [Segment(filename, [], false)];
      }
      running, handle := true, filename;
    }

    /** Remove the expired archives, except those the system will not remove. */
    method PurgeExpired(today: Date, stuck: set<string>)
      requires Valid() && IsDate(today) && (running ==> handle == filename)
      modifies this
      ensures Valid() && accepted == old(accepted)
      ensures running == old(running) && handle == old(handle) && currentDate == old(currentDate)
      ensures dir == Purged(old(dir), filename, Cutoff(today, retention), stuck)
      ensures Evolves(old(Now()), Now(), {}, filename, Cutoff(today, retention))
    {
      hide Kept, Purged, Expired, Contents, Evolves, Cutoff;
      var after := RemoveExpired(dir, filename, Cutoff(today, retention), stuck);
      ghost var gone := dir.Keys - after.Keys;
      BaseSurvives(today);
      PurgedIsRemoved(dir, filename, Cutoff(today, retention), stuck);
      KeptPurge(dir, filename, segments, gone);
      ContentsOfMarked(segments, gone);
      PurgeEvolves(Now(), gone, filename, Cutoff(today, retention));
      dir := after;
      segments := MarkGone(segments, gone);
    }

    /** Rotation at a change of day. On an error nothing accepted is lost and the
        handle still names the file that holds the last stretch. */
    method RotateIfDayChanged(today: Date, fault: Fault, stuck: set<string>) returns (ok: bool)
      requires Valid() && running && IsDate(today)
      requires today != currentDate && filename in dir && !fault.EarlyFails? ==> NameFree(dir.Keys, filename, currentDate)
      modifies this
      ensures Valid() && running && accepted == old(accepted)
      ensures handle == old(handle) || handle == filename || handle !in old(dir)
      ensures today == old(currentDate) ==> ok && dir == old(dir) && handle == old(handle)
      ensures ok ==> currentDate == today
      ensures ok <==> today == old(currentDate) || Rotates(fault, filename in old(dir))
      ensures ok && today != old(currentDate) ==> handle == filename && filename in dir && dir[filename] == []
      ensures today != old(currentDate) && filename in old(dir) && !fault.EarlyFails? && !fault.RenameFails? ==>
        Archived(old(dir), dir, filename, old(currentDate), Cutoff(today, retention))
      ensures Evolves(old(Now()), Now(), {filename}, filename, Cutoff(today, retention))
    {
      hide Kept, Contents, Expired, Cutoff, Evolves, Archived, ArchiveName, NameFree;
      ghost var cutoff := Cutoff(today, retention);
      EvolvesItself(Now(), {filename}, filename, cutoff);
      if today == currentDate {
        return true;
      }
      if fault.EarlyFails? {
        return false;
      }
      ok := Archive(currentDate, fault);
      ghost var archived := Now();
      EvolvesMore(old(Now()), archived, {filename}, {filename}, filename, None, cutoff);
      if !ok { return; }
      ghost var i: Option<nat> := if filename in old(dir) then IndexOf(old(dir), dir, filename, currentDate) else None;
      if fault.OpenFails? {
        if filename in old(dir) { ArchiveStays(old(dir), archived, Now(), filename, currentDate, i, cutoff); }
        return false;
      }
      Reopen(today, stuck);
      if filename in old(dir) { ArchiveStays(old(dir), archived, Now(), filename, currentDate, i, cutoff); }
      EvolvesTwice(old(Now()), archived, Now(), {filename}, filename, cutoff);
      currentDate := today;
    }

    /** Open, then purge. */
    method Reopen(today: Date, stuck: set<string>)
      requires Valid() && IsDate(today)
      modifies this
      ensures Valid() && running && handle == filename && accepted == old(accepted) && currentDate == old(currentDate)
      ensures filename in dir && dir[filename] == if filename in old(dir) then old(dir)[filename] else []
      ensures Evolves(old(Now()), Now(), {filename}, filename, Cutoff(today, retention))
    {
      hide Kept, Contents, Expired, Cutoff, Evolves;
      ghost var cutoff := Cutoff(today, retention);
      Open();
      ghost var ready := Now();
      EvolvesMore(old(Now()), ready, {filename}, {filename}, filename, None, cutoff);
      PurgeExpired(today, stuck);
      EvolvesMore(ready, Now(), {}, {filename}, filename, cutoff, cutoff);
      EvolvesTwice(old(Now()), ready, Now(), {filename}, filename, cutoff);
      BaseSurvives(today);
    }

    /** The purge leaves the base file alone. */
    lemma BaseSurvives(today: Date)
      requires IsDate(today)
      ensures !Expired(filename, Cutoff(today, retention), filename)
    {
    }

    /** One write: rotate first, then append to the file behind the handle the n
        bytes the system takes. Accepted bytes are those and no others. */
    method Write(buf: Bytes, n: nat, today: Date, fault: Fault, stuck: set<string>) returns (r: Result<nat, ()>)
      requires Valid() && running && IsDate(today) && n <= |buf|
      requires today != currentDate && filename in dir && !fault.EarlyFails? ==> NameFree(dir.Keys, filename, currentDate)
      modifies this
      ensures Valid() && running
      ensures handle == old(handle) || handle == filename || handle !in old(dir)
      ensures r.Ok? ==> r.value == n && accepted == old(accepted) + buf[..n] && currentDate == today
      ensures r.Err? ==> accepted == old(accepted)
      ensures r.Ok? <==> !fault.WriteFails? && (today == old(currentDate) || Rotates(fault, filename in old(dir)))
      ensures today != old(currentDate) && filename in old(dir) && !fault.EarlyFails? && !fault.RenameFails? ==>
        Archived(old(dir), dir, filename, old(currentDate), Cutoff(today, retention))
      ensures Evolves(old(Now()), Now(), {filename, old(handle)}, filename, Cutoff(today, retention))
    {
      hide Kept, Contents, Expired, Cutoff, Evolves, Archived, NameFree, ArchiveName;
      ghost var own, cutoff := {filename, handle}, Cutoff(today, retention);
      var ok := RotateIfDayChanged(today, fault, stuck);
      ghost var rotated := Now();
      EvolvesMore(old(Now()), rotated, {filename}, own, filename, cutoff, cutoff);
      if !ok || fault.WriteFails? { return Err(()); }
      if today != old(currentDate) && filename in old(dir) {
        ArchiveStaysOnAppend(old(dir), dir, buf[..n], filename, old(currentDate), cutoff);
      }
      Append(buf[..n]);
      EvolvesMore(rotated, Now(), {handle}, own, filename, None, cutoff);
      EvolvesTwice(old(Now()), rotated, Now(), own, filename, cutoff);
      return Ok(n);
    }

    /** The write to the open file. */
    method Append(bytes: Bytes)
      requires Valid() && running
      modifies this
      ensures Valid() && running && handle == old(handle) && currentDate == old(currentDate)
      ensures accepted == old(accepted) + bytes
      ensures handle in old(dir) && dir == old(dir)[handle := old(dir)[handle] + bytes]
      ensures Evolves(old(Now()), Now(), {handle}, filename, None)
    {
      hide Kept, Contents, Evolves, WithLast;
      ghost var last := segments[|segments| - 1];
      LastHeld(dir, filename, segments);
      KeptAppend(dir, filename, segments, bytes);
      ContentsWithLast(segments, last.(content := last.content + bytes), bytes);
      AppendEvolves(Now(), bytes, filename);
      LastIs(segments, last.(content := last.content + bytes));
      dir := dir[handle := dir[handle] + bytes];
      segments := WithLast(segments, last.(content := last.content + bytes));
      accepted := accepted + bytes;
    }

    /** A start of the process: archive a base file last written on an earlier
        day under that day, open, purge. The clock is read three times. */
    method Restart(modified: Date, atRotate: Date, atPurge: Date, atOpen: Date, fault: Fault, stuck: set<string>)
      returns (ok: bool)
      requires Valid() && IsDate(modified) && IsDate(atRotate) && IsDate(atPurge) && IsDate(atOpen)
      requires filename in dir && Before(modified, atRotate) && !fault.EarlyFails? ==> NameFree(dir.Keys, filename, modified)
      modifies this
      ensures Valid() && accepted == old(accepted) && running == ok
      ensures ok ==> handle == filename
      ensures !ok ==> handle == old(handle)
      ensures var stale := filename in old(dir) && Before(modified, atRotate);
        && (ok <==> Rotates(fault, stale))
        && (ok ==> currentDate == atOpen && handle == filename && filename in dir
                   && dir[filename] == if filename in old(dir) && !stale then old(dir)[filename] else [])
        && (stale && !fault.EarlyFails? && !fault.RenameFails? ==> Archived(old(dir), dir, filename, modified, Cutoff(atPurge, retention)))
      ensures Evolves(old(Now()), Now(), {filename}, filename, Cutoff(atPurge, retention))
    {
      hide Kept, Contents, Expired, Cutoff, Evolves, Archived, ArchiveName, NameFree;
      ghost var cutoff := Cutoff(atPurge, retention);
      ghost var i: Option<nat> := None;
      running := false;
      EvolvesItself(Now(), {filename}, filename, cutoff);
      if fault.EarlyFails? {
        return false;
      }
      var stale := filename in dir && Before(modified, atRotate);
      if stale {
        ok := Archive(modified, fault);
        EvolvesMore(old(Now()), Now(), {filename}, {filename}, filename, None, cutoff);
        if !ok { return; }
        i := IndexOf(old(dir), dir, filename, modified);
      }
      ghost var archived := Now();
      if fault.OpenFails? {
        if stale { ArchiveStays(old(dir), archived, Now(), filename, modified, i, cutoff); }
        return false;
      }
      Reopen(atPurge, stuck);
      if stale { ArchiveStays(old(dir), archived, Now(), filename, modified, i, cutoff); }
      EvolvesTwice(old(Now()), archived, Now(), {filename}, filename, cutoff);
      currentDate := atOpen;
      return true;
    }

    /** The search for an archive name that the action may need ends. */
    predicate Ends(a: Action)
      requires ActionOk(a) && IsDate(currentDate)
      reads this
    {
      a.fault.EarlyFails? || filename !in dir ||
      match a
      case Writing(_, _, today, _, _) => !running || today == currentDate || NameFree(dir.Keys, filename, currentDate)
      case Starting(modified, atRotate, _, _, _, _) => !Before(modified, atRotate) || NameFree(dir.Keys, filename, modified)
    }

    /** One action; a write needs a process that is running. */
    method Do(a: Action) returns (taken: Bytes, ghost own: set<string>)
      requires Valid() && ActionOk(a) && Ends(a)
      modifies this
      ensures Valid() && accepted == old(accepted) + taken
      ensures Takes(a, taken)
      ensures Evolves(old(Now()), Now(), own, filename, CutoffOf(a, retention))
      ensures own <= {filename, old(handle)}
      ensures handle == old(handle) || handle == filename || handle !in old(dir)
      ensures DoneWell(a, taken, old(running), a.Writing? && a.today == old(currentDate), filename in old(dir), running)
      ensures a.Starting? && running ==> currentDate == a.atOpen && handle == filename
    {
      hide Kept, Contents, Expired, Cutoff, Evolves, Archived, NameFree;
      taken, own := [], {filename};
      EvolvesItself(Now(), own, filename, CutoffOf(a, retention));
      match a
      case Writing(buf, n, today, fault, stuck) =>
        if running {
          own := {filename, handle};
          var r := Write(buf, n, today, fault, stuck);
          if r.Ok? { taken := buf[..n]; }
        }
      case Starting(modified, atRotate, atPurge, atOpen, fault, stuck) =>
        var _ := Restart(modified, atRotate, atPurge, atOpen, fault, stuck);
    }

    /** Any sequence of writes, day changes and starts, up to the first whose
        search for a name would not end. All accepted bytes are there in order;
        a stretch is gone only if a purge found its archive expired; a file that
        is none of the log's own is untouched unless a purge found it expired. */
    method Run(actions: seq<Action>) returns (done: nat, ghost taken: seq<Bytes>)
      requires Valid() && forall k | 0 <= k < |actions| :: ActionOk(actions[k])
      modifies this
      ensures Valid() && done <= |actions| && (done < |actions| ==> !Ends(actions[done]))
      ensures AllTake(actions[..done], taken) && accepted == old(accepted) + Joined(taken)
      ensures WentWell(actions, done, taken, old(running), running)
      ensures |old(segments)| <= |segments|
      ensures forall i | 0 <= i < |old(segments)| ::
        Descends(old(segments)[i], segments[i], filename, CutoffsOf(actions[..done], retention))
      ensures ForeignKept(old(dir), dir, old(handle), handle, filename, CutoffsOf(actions[..done], retention))
    {
      hide Kept, Contents, Expired, Cutoff, Evolves, NameFree, Descends, ForeignKept, AllTake, WentWell, DoneWell, Takes, CutoffsOf, Joined, SoFar;
      ghost var logs, owns := [Now()], [];
      done, taken := 0, [];
      NothingYet(Now(), filename, handle, actions, retention, running);
      while done < |actions| && Ends(actions[done])
        invariant Valid() && done <= |actions| && accepted == old(accepted) + Joined(taken)
        invariant |logs| == done + 1 && logs[0] == old(Now()) && logs[done] == Now()
        invariant SoFar(logs, owns, taken, actions, done, filename, retention, old(handle), handle, old(running), running)
      {
        ghost var held, ran, hadFile := handle, running, filename in dir;
        ghost var sameDay := actions[done].Writing? && actions[done].today == currentDate;
        var bytes;
        ghost var own;
        bytes, own := Do(actions[done]);
        JoinedMore(taken, bytes);
        SoFarOn(logs, owns, taken, actions, done, filename, retention, old(handle), held, handle, old(running), ran, running,
                Now(), own, bytes, sameDay, hadFile);
        taken, logs, owns := taken + [bytes], logs + [Now()], owns + [own];
        done := done + 1;
      }
      SoFarGives(logs, owns, taken, actions, done, filename, retention, old(handle), handle, old(running), running);
    }
  }

  /** Every file that is not the log's own and never expired is as it was. */
  ghost predicate ForeignKept(dir: map<string, Bytes>, after: map<string, Bytes>, handle: string, held: string,
                        filename: string, cutoffs: seq<Option<Date>>) {
    forall n | Foreign(dir, n, filename, handle, cutoffs) :: n != held && n in after && after[n] == dir[n]
  }

  lemma ForeignKeptOn(dir: map<string, Bytes>, handle: string, a: Log, held: string, b: Log, held': string, own: set<string>,
                      filename: string, cutoffs: seq<Option<Date>>, cutoff: Option<Date>)
    requires ForeignKept(dir, a.dir, handle, held, filename, cutoffs)
    requires Evolves(a, b, own, filename, cutoff) && own <= {filename, held}
    requires held' == held || held' == filename || held' !in a.dir
    ensures ForeignKept(dir, b.dir, handle, held', filename, cutoffs + [cutoff])
  {
    hide Expired, Evolves;
    forall n | Foreign(dir, n, filename, handle, cutoffs + [cutoff])
      ensures n != held' && n in b.dir && b.dir[n] == dir[n]
    {
      ForeignBefore(dir, n, filename, handle, cutoffs, cutoff);
      FileEvolves(a, b, own, filename, cutoff, n);
    }
  }

  /** What holds of a run after the first done actions. */
  ghost predicate SoFar(logs: seq<Log>, owns: seq<set<string>>, taken: seq<Bytes>, actions: seq<Action>, done: nat,
      filename: string, retention: nat, handle: string, held: string, ran: bool, runs: bool)
  {
    && done <= |actions| && |logs| == done + 1
    && AllTake(actions[..done], taken) && WentWell(actions, done, taken, ran, runs)
    && var cutoffs := CutoffsOf(actions[..done], retention);
    && IsHistory(logs, owns, cutoffs, filename)
    && ForeignKept(logs[0].dir, logs[done].dir, handle, held, filename, cutoffs)
  }

  lemma SoFarOn(logs: seq<Log>, owns: seq<set<string>>, taken: seq<Bytes>, actions: seq<Action>, done: nat,
      filename: string, retention: nat, handle: string, held: string, held': string, ran: bool, runs: bool, runs': bool,
      next: Log, own: set<string>, bytes: Bytes, sameDay: bool, hadFile: bool)
    requires done < |actions| && SoFar(logs, owns, taken, actions, done, filename, retention, handle, held, ran, runs)
    requires |logs| == done + 1 && Evolves(logs[done], next, own, filename, CutoffOf(actions[done], retention))
    requires own <= {filename, held} && (held' == held || held' == filename || held' !in logs[done].dir)
    requires Takes(actions[done], bytes) && DoneWell(actions[done], bytes, runs, sameDay, hadFile, runs')
    ensures SoFar(logs + [next], owns + [own], taken + [bytes], actions, done + 1, filename, retention, handle, held', ran, runs')
  {
    hide IsHistory, ForeignKept, AllTake, WentWell, DoneWell, Takes, CutoffsOf, Evolves;
    var cutoffs, cutoff := CutoffsOf(actions[..done], retention), CutoffOf(actions[done], retention);
    HistoryOn(logs, owns, cutoffs, filename, next, own, cutoff);
    ForeignKeptOn(logs[0].dir, handle, logs[done], held, next, held', own, filename, cutoffs, cutoff);
    ActionsOn(actions, done, taken, bytes, retention);
    WentWellOn(actions, done, taken, ran, runs, bytes, sameDay, hadFile, runs');
  }

  lemma SoFarGives(logs: seq<Log>, owns: seq<set<string>>, taken: seq<Bytes>, actions: seq<Action>, done: nat,
      filename: string, retention: nat, handle: string, held: string, ran: bool, runs: bool)
    requires SoFar(logs, owns, taken, actions, done, filename, retention, handle, held, ran, runs)
    ensures done <= |actions| && |logs| == done + 1
    ensures AllTake(actions[..done], taken) && WentWell(actions, done, taken, ran, runs)
    ensures var first, last, cutoffs := logs[0].segments, logs[done].segments, CutoffsOf(actions[..done], retention);
      |first| <= |last| && forall i | 0 <= i < |first| :: Descends(first[i], last[i], filename, cutoffs)
    ensures ForeignKept(logs[0].dir, logs[done].dir, handle, held, filename, CutoffsOf(actions[..done], retention))
  {
    hide IsHistory, ForeignKept, AllTake, WentWell, CutoffsOf, Descends;
    HistoryKeepsAll(logs, owns, CutoffsOf(actions[..done], retention), filename);
  }

  lemma NothingYet(log: Log, filename: string, handle: string, actions: seq<Action>, retention: nat, runs: bool)
    ensures SoFar([log], [], [], actions, 0, filename, retention, handle, handle, runs, runs) && Joined([]) == []
  {
  }

  lemma HistoryKeepsAll(logs: seq<Log>, owns: seq<set<string>>, cutoffs: seq<Option<Date>>, filename: string)
    requires IsHistory(logs, owns, cutoffs, filename)
    ensures var first, last := logs[0].segments, logs[|logs| - 1].segments;
      |first| <= |last| && forall i | 0 <= i < |first| :: Descends(first[i], last[i], filename, cutoffs)
  {
    hide Evolves, Descends;
    var last := |logs| - 1;
    assert cutoffs[..last] == cutoffs;
    forall i: nat | i < |logs[0].segments|
      ensures i < |logs[last].segments| && Descends(logs[0].segments[i], logs[last].segments[i], filename, cutoffs)
    {
      HistoryKeepsSegments(logs, owns, cutoffs, filename, last, i);
    }
    if |logs[0].segments| > 0 { HistoryKeepsSegments(logs, owns, cutoffs, filename, last, |logs[0].segments| - 1); }
  }

  /** A file present from the start that is not the log's own and never expired. */
  predicate Foreign(dir: map<string, Bytes>, n: string, filename: string, handle: string, cutoffs: seq<Option<Date>>) {
    n in dir && n != filename && n != handle && forall k | 0 <= k < |cutoffs| :: !Expired(filename, cutoffs[k], n)
  }

  lemma ForeignBefore(dir: map<string, Bytes>, n: string, filename: string, handle: string, cutoffs: seq<Option<Date>>, cutoff: Option<Date>)
    requires Foreign(dir, n, filename, handle, cutoffs + [cutoff])
    ensures Foreign(dir, n, filename, handle, cutoffs) && !Expired(filename, cutoff, n) && n != filename
  {
    hide Expired;
    var more := cutoffs + [cutoff];
    assert more[|cutoffs|] == cutoff;
    assert forall k | 0 <= k < |cutoffs| :: more[k] == cutoffs[k];
  }

  lemma FileEvolves(a: Log, b: Log, own: set<string>, filename: string, cutoff: Option<Date>, n: string)
    requires Evolves(a, b, own, filename, cutoff) && n in a.dir && n !in own && !Expired(filename, cutoff, n)
    ensures n in b.dir && b.dir[n] == a.dir[n]
  {
  }
}
