/**
 One run of a bulk queue operation: `process_operation` and what it calls
 (apps/api/app/services/bulk_queue.py:89-426, 510-513).

 The operation's row is shared: another party may ask for cancellation before any of the run's own
 database interactions, and any of them may raise. A World says when, and how every file fares.
 */
module BulkQueue {
  type Path = string

  const MAX_ITEMS: nat := 100

  datatype ItemStatus = Created | Blocked | Skipped | Failed

  datatype Item = Item(source: string, status: ItemStatus, message: string)

  /** How the library judges one selected path; `Breaks` is an exception nobody expects. */
  datatype Verdict = Excluded(reason: string) | NotVideo | Media(path: Path) | Rejected(error: string) | Breaks

  datatype Candidate = Candidate(raw: string, verdict: Verdict)

  datatype Selection =
    | SingleFile(file: Candidate)
    | Folder(unreadable: bool, entries: seq<FolderEntry>)
    | Listed(paths: seq<Candidate>)

  /** Hidden entries, directories and other file types are passed over. */
  datatype FolderEntry = FolderEntry(ignored: bool, candidate: Candidate)

  datatype World = World(
    selection: Selection, batchSize: int,
    cancelAt: nat -> bool, faultAt: nat -> bool, outcome: nat -> (ItemStatus, string))

  datatype Status = Waiting | Running | Cancelling | Completed | Cancelled | Crashed

  /** `_operation_batch_size` */
  function BatchSize(w: World): (size: nat)
    ensures size >= 1 && (w.batchSize >= 1 ==> size == w.batchSize)
    ensures w.batchSize == 0 ==> size == 25
    ensures w.batchSize < 0 ==> size == 1
  {
    if w.batchSize == 0 then 25 else if w.batchSize < 1 then 1 else w.batchSize
  }

  predicate Active(s: Status) { s.Waiting? || s.Running? || s.Cancelling? }

  datatype Tally = Tally(queued: nat, skipped: nat, blocked: nat, failed: nat)

  function Total(t: Tally): nat { t.queued + t.skipped + t.blocked + t.failed }

  datatype Local = Local(tally: Tally, items: seq<Item>)

  /** What happens once the operation is marked running. */
  datatype Event = CancelLanded | Polled(answer: bool) | Attempted(item: Item)

  // -------------------------------------------------------- Chunks and duplicates

  function Chunks(files: seq<Path>, size: nat): (chunks: seq<seq<Path>>)
    requires size >= 1
    ensures forall c :: c in chunks ==> 1 <= |c| <= size
    decreases |files|
  {
    if files == [] then []
    else if |files| <= size then [files]
    else [files[..size]] + Chunks(files[size..], size)
  }

  function Flatten(chunks: seq<seq<Path>>): seq<Path> {
    if chunks == [] then [] else chunks[0] + Flatten(chunks[1..])
  }

  lemma {:induction false} ChunksFlatten(files: seq<Path>, size: nat)
    requires size >= 1
    ensures Flatten(Chunks(files, size)) == files
    decreases |files|
  {
    if |files| > size {
      ChunksFlatten(files[size..], size);
      assert files == files[..size] + files[size..];
    } else if files != [] {
      assert Flatten([files]) == files + Flatten([]);
    }
  }

  /** Every chunk but the last is full. */
  lemma {:induction false} ChunksAreFull(files: seq<Path>, size: nat, i: nat)
    requires size >= 1 && i + 1 < |Chunks(files, size)|
    ensures |Chunks(files, size)[i]| == size
    decreases |files|
  {
    if i > 0 {
      ChunksAreFull(files[size..], size, i - 1);
    }
  }

  /** A dictionary keyed by path keeps the first place of each key. */
  function Deduplicated(files: seq<Path>): (kept: seq<Path>)
    ensures forall p :: p in kept <==> p in files
    ensures |kept| <= |files|
  {
    if files == [] then []
    else
      var front, last := files[..|files| - 1], files[|files| - 1];
      assert files == front + [last];
      if last in front then Deduplicated(front) else Deduplicated(front) + [last]
  }

  function FirstIndex(files: seq<Path>, p: Path): (i: nat)
    requires p in files
    ensures i < |files| && files[i] == p && p !in files[..i]
  {
    if files[0] == p then 0 else 1 + FirstIndex(files[1..], p)
  }

  lemma {:induction false} FirstIndexIsStable(front: seq<Path>, last: Path, p: Path)
    requires p in front
    ensures FirstIndex(front + [last], p) == FirstIndex(front, p)
  {
    if front[0] != p {
      FirstIndexIsStable(front[1..], last, p);
      assert (front + [last])[1..] == front[1..] + [last];
    }
  }

  /** Each path once, in the order of first appearance. */
  lemma {:induction false} DeduplicatedKeepsOrder(files: seq<Path>, i: nat, j: nat)
    requires i < j < |Deduplicated(files)|
    ensures FirstIndex(files, Deduplicated(files)[i]) < FirstIndex(files, Deduplicated(files)[j])
  {
    var front, last := files[..|files| - 1], files[|files| - 1];
    var kept := Deduplicated(front);
    assert files == front + [last];
    FirstIndexIsStable(front, last, kept[i]);
    if j < |kept| {
      DeduplicatedKeepsOrder(front, i, j);
      FirstIndexIsStable(front, last, kept[j]);
    }
  }

  // -------------------------------------------------------- The selection

  /** The candidates looked at, in order. */
  function Candidates(s: Selection): seq<Candidate> {
    match s
    case SingleFile(c) => [c]
    case Folder(_, entries) => Regarded(entries)
    case Listed(paths) => paths
  }

  function Regarded(entries: seq<FolderEntry>): seq<Candidate> {
    if entries == [] then []
    else Regarded(entries[..|entries| - 1]) +
         if entries[|entries| - 1].ignored then [] else [entries[|entries| - 1].candidate]
  }

  /** How many entries are not passed over. */
  function RegardedCount(entries: seq<FolderEntry>): nat {
    if entries == [] then 0
    else RegardedCount(entries[..|entries| - 1]) + if entries[|entries| - 1].ignored then 0 else 1
  }

  /** Every entry that is not passed over is a candidate, in order, and there are no others. */
  lemma {:induction false} RegardedMeaning(entries: seq<FolderEntry>, i: nat)
    requires i < |entries| && !entries[i].ignored
    ensures |Regarded(entries)| == RegardedCount(entries) > RegardedCount(entries[..i])
    ensures Regarded(entries)[RegardedCount(entries[..i])] == entries[i].candidate
    decreases |entries|
  {
    var front := entries[..|entries| - 1];
    RegardedAreCounted(front);
    if i < |front| {
      RegardedMeaning(front, i);
      assert front[..i] == entries[..i];
    }
  }

  lemma {:induction false} RegardedAreCounted(entries: seq<FolderEntry>)
    ensures |Regarded(entries)| == RegardedCount(entries)
  {
    if entries != [] {
      RegardedAreCounted(entries[..|entries| - 1]);
    }
  }

  datatype Sorted = Sorted(files: seq<Path>, skipped: seq<Item>, failed: seq<Item>)

  function Place(s: Sorted, c: Candidate): Sorted {
    match c.verdict
    case Excluded(reason) => s.(skipped := s.skipped + [Item(c.raw, Skipped, reason)])
    case NotVideo => s.(skipped := s.skipped + [Item(c.raw, Skipped, "Only media video files can be queued.")])
    case Media(path) => s.(files := s.files + [path])
    case Rejected(error) => s.(failed := s.failed + [Item(c.raw, Failed, error)])
    case Breaks => s
  }

  function SortOut(cs: seq<Candidate>): Sorted {
    if cs == [] then Sorted([], [], []) else Place(SortOut(cs[..|cs| - 1]), cs[|cs| - 1])
  }

  predicate IsMedia(v: Verdict) { v.Media? }

  predicate IsSkipped(v: Verdict) { v.Excluded? || v.NotVideo? }

  predicate IsRejected(v: Verdict) { v.Rejected? }

  /** How many candidates have such a verdict. */
  function Tallied(cs: seq<Candidate>, kind: Verdict -> bool): nat {
    if cs == [] then 0 else Tallied(cs[..|cs| - 1], kind) + if kind(cs[|cs| - 1].verdict) then 1 else 0
  }

  /** The skipped item of a candidate. */
  predicate SkippedAs(c: Candidate, item: Item) {
    match c.verdict
    case Excluded(reason) => item == Item(c.raw, Skipped, reason)
    case NotVideo => item == Item(c.raw, Skipped, "Only media video files can be queued.")
    case _ => false
  }

  /**
   The three lists hold, in the order of the candidates, the resolved paths of the media files, the
   skipped items of the excluded and other files, and the failed items of the rejected paths.
   */
  ghost predicate SortsOut(cs: seq<Candidate>, s: Sorted) {
    && |s.files| == Tallied(cs, IsMedia) && |s.skipped| == Tallied(cs, IsSkipped) && |s.failed| == Tallied(cs, IsRejected)
    && forall i :: 0 <= i < |cs| ==> InItsPlace(cs, s, i)
  }

  ghost predicate InItsPlace(cs: seq<Candidate>, s: Sorted, i: nat)
    requires i < |cs|
  {
    var c := cs[i];
    var m, n, k := Tallied(cs[..i], IsMedia), Tallied(cs[..i], IsSkipped), Tallied(cs[..i], IsRejected);
    && (c.verdict.Media? ==> m < |s.files| && s.files[m] == c.verdict.path)
    && (c.verdict.Excluded? || c.verdict.NotVideo? ==> n < |s.skipped| && SkippedAs(c, s.skipped[n]))
    && (c.verdict.Rejected? ==> k < |s.failed| && s.failed[k] == Item(c.raw, Failed, c.verdict.error))
  }

  lemma {:induction false} SortedRightly(cs: seq<Candidate>)
    ensures SortsOut(cs, SortOut(cs))
  {
    if cs != [] {
      var front, last := cs[..|cs| - 1], cs[|cs| - 1];
      SortedRightly(front);
      assert cs == front + [last];
      PlacedRightly(front, SortOut(front), last);
    }
  }

  lemma PlacedRightly(cs: seq<Candidate>, s: Sorted, c: Candidate)
    requires SortsOut(cs, s)
    ensures SortsOut(cs + [c], Place(s, c))
  {
    var more, after := cs + [c], Place(s, c);
    assert more[..|cs|] == cs;
    forall i | 0 <= i < |more| ensures InItsPlace(more, after, i) {
      if i < |cs| {
        assert more[..i] == cs[..i] && InItsPlace(cs, s, i);
      }
    }
  }

  lemma {:induction false} TalliedGrows(cs: seq<Candidate>, kind: Verdict -> bool, i: nat, j: nat)
    requires i < j <= |cs| && kind(cs[i].verdict)
    ensures Tallied(cs[..i], kind) < Tallied(cs[..j], kind)
  {
    assert cs[..j][..j - 1] == cs[..j - 1];
    if i < j - 1 {
      TalliedGrows(cs, kind, i, j - 1);
    }
  }

  /** Each place in a list is that of one candidate of its kind. */
  lemma {:induction false} TalliedAt(cs: seq<Candidate>, kind: Verdict -> bool, n: nat) returns (i: nat)
    requires n < Tallied(cs, kind)
    ensures i < |cs| && kind(cs[i].verdict) && Tallied(cs[..i], kind) == n
  {
    var front := cs[..|cs| - 1];
    if n < Tallied(front, kind) {
      i := TalliedAt(front, kind, n);
      assert front[..i] == cs[..i];
    } else {
      i := |front|;
    }
  }

  /** The candidate that first resolved to this media file. */
  predicate FirstWith(cs: seq<Candidate>, p: Path, i: nat) {
    i < |cs| && cs[i].verdict == Media(p) && forall k :: 0 <= k < i ==> cs[k].verdict != Media(p)
  }

  /** What is sent is each media file once, in the order in which they were first selected. */
  lemma SelectedMeaning(w: World)
    ensures forall p :: p in Selected(w) <==> exists i :: 0 <= i < |Candidates(w.selection)| && Candidates(w.selection)[i].verdict == Media(p)
  {
    var cs := Candidates(w.selection);
    var s := SortOut(cs);
    SortedRightly(cs);
    forall p ensures p in Selected(w) <==> exists i :: 0 <= i < |cs| && cs[i].verdict == Media(p) {
      if n :| 0 <= n < |s.files| && s.files[n] == p {
        var i := TalliedAt(cs, IsMedia, n);
        assert InItsPlace(cs, s, i);
      }
      if i :| 0 <= i < |cs| && cs[i].verdict == Media(p) {
        assert InItsPlace(cs, s, i);
      }
    }
  }

  lemma SelectedInOrder(w: World, a: nat, b: nat) returns (i: nat, j: nat)
    requires a < b < |Selected(w)|
    ensures FirstWith(Candidates(w.selection), Selected(w)[a], i) && FirstWith(Candidates(w.selection), Selected(w)[b], j) && i < j
  {
    var cs := Candidates(w.selection);
    var files := SortOut(cs).files;
    DeduplicatedKeepsOrder(files, a, b);
    i := FirstCandidate(cs, Selected(w)[a]);
    j := FirstCandidate(cs, Selected(w)[b]);
    if j <= i {
      if j < i {
        TalliedGrows(cs, IsMedia, j, i);
      }
      assert false;
    }
  }

  /** The first candidate of a file has the file's first place. */
  lemma FirstCandidate(cs: seq<Candidate>, p: Path) returns (i: nat)
    requires p in SortOut(cs).files
    ensures FirstWith(cs, p, i) && Tallied(cs[..i], IsMedia) == FirstIndex(SortOut(cs).files, p)
  {
    var files := SortOut(cs).files;
    var n := FirstIndex(files, p);
    SortedRightly(cs);
    i := TalliedAt(cs, IsMedia, n);
    assert InItsPlace(cs, SortOut(cs), i);
    forall k | 0 <= k < i ensures cs[k].verdict != Media(p) {
      if cs[k].verdict == Media(p) {
        assert InItsPlace(cs, SortOut(cs), k);
        TalliedGrows(cs, IsMedia, k, i);
        assert false;
      }
    }
  }

  /** Every candidate ends up in exactly one of the three lists. */
  lemma {:induction false} NothingIsDropped(cs: seq<Candidate>)
    requires forall i :: 0 <= i < |cs| ==> !cs[i].verdict.Breaks?
    ensures var s := SortOut(cs); |s.files| + |s.skipped| + |s.failed| == |cs|
  {
    if cs != [] {
      NothingIsDropped(cs[..|cs| - 1]);
    }
  }

  predicate SelectionBreaks(s: Selection) {
    (s.Folder? && s.unreadable) || AnyBreaks(Candidates(s))
  }

  predicate AnyBreaks(cs: seq<Candidate>) { exists i :: 0 <= i < |cs| && cs[i].verdict.Breaks? }

  function Entries(s: Selection): seq<FolderEntry> {
    match s
    case SingleFile(c) => [FolderEntry(false, c)]
    case Folder(_, entries) => entries
    case Listed(paths) => seq(|paths|, i requires 0 <= i < |paths| => FolderEntry(false, paths[i]))
  }

  lemma EntriesAreCandidates(s: Selection)
    ensures Regarded(Entries(s)) == Candidates(s)
  {
    if !s.Folder? {
      RegardsAll(Candidates(s), Entries(s));
    }
  }

  lemma SortOneMore(cs: seq<Candidate>, c: Candidate)
    ensures SortOut(cs + [c]) == Place(SortOut(cs), c)
  {
    assert (cs + [c])[..|cs|] == cs;
  }

  lemma {:induction false} RegardsAll(cs: seq<Candidate>, entries: seq<FolderEntry>)
    requires |entries| == |cs| && forall i :: 0 <= i < |cs| ==> entries[i] == FolderEntry(false, cs[i])
    ensures Regarded(entries) == cs
  {
    if cs != [] {
      RegardsAll(cs[..|cs| - 1], entries[..|cs| - 1]);
    }
  }

  lemma RegardedGrows(entries: seq<FolderEntry>, i: nat)
    requires i < |entries|
    ensures entries[i].ignored ==> Regarded(entries[..i + 1]) == Regarded(entries[..i])
    ensures !entries[i].ignored ==> Regarded(entries[..i + 1]) == Regarded(entries[..i]) + [entries[i].candidate]
  {
    assert entries[..i + 1][..i] == entries[..i];
  }

  lemma {:induction false} RegardedInPrefix(entries: seq<FolderEntry>, i: nat)
    requires i <= |entries|
    ensures Regarded(entries[..i]) <= Regarded(entries)
    decreases |entries|
  {
    if i < |entries| {
      RegardedInPrefix(entries[..|entries| - 1], i);
      assert entries[..|entries| - 1][..i] == entries[..i];
    } else {
      assert entries[..i] == entries;
    }
  }

  lemma RegardedAt(entries: seq<FolderEntry>, i: nat)
    requires i < |entries| && !entries[i].ignored
    ensures entries[i].candidate.verdict.Breaks? ==> AnyBreaks(Regarded(entries))
  {
    RegardedGrows(entries, i);
    RegardedInPrefix(entries, i + 1);
    assert Regarded(entries)[|Regarded(entries[..i])|] == entries[i].candidate;
  }

  /** The scan over the selected paths, which stops at the first unexpected exception. */
  method ScanEntries(entries: seq<FolderEntry>) returns (broken: bool, sorted: Sorted)
    ensures broken <==> AnyBreaks(Regarded(entries))
    ensures !broken ==> sorted == SortOut(Regarded(entries)) && SortsOut(Regarded(entries), sorted)
  {
    sorted, broken := Sorted([], [], []), false;
    ghost var seen: seq<Candidate> := [];
    for i := 0 to |entries|
      invariant seen == Regarded(entries[..i]) && sorted == SortOut(seen)
      invariant !AnyBreaks(seen)
    {
      RegardedGrows(entries, i);
      if !entries[i].ignored {
        var c := entries[i].candidate;
        if c.verdict.Breaks? {
          RegardedAt(entries, i);
          return true, sorted;
        }
        SortOneMore(seen, c);
        seen := seen + [c];
        sorted := Place(sorted, c);
      }
    }
    assert entries[..|entries|] == entries;
    SortedRightly(Regarded(entries));
  }

  // -------------------------------------------------------- Counting

  function Count(t: Tally, status: ItemStatus): Tally {
    match status
    case Created => t.(queued := t.queued + 1)
    case Blocked => t.(blocked := t.blocked + 1)
    case Skipped => t.(skipped := t.skipped + 1)
    case Failed => t.(failed := t.failed + 1)
  }

  function HowMany(items: seq<Item>, status: ItemStatus): nat {
    if items == [] then 0
    else HowMany(items[..|items| - 1], status) + if items[|items| - 1].status == status then 1 else 0
  }

  /** The four counters are the numbers of items of each status, whatever order they came in. */
  predicate Counts(t: Tally, items: seq<Item>) {
    && t.queued == HowMany(items, Created)
    && t.skipped == HowMany(items, Skipped)
    && t.blocked == HowMany(items, Blocked)
    && t.failed == HowMany(items, Failed)
  }

  lemma {:induction false} CountsAddUp(t: Tally, items: seq<Item>)
    requires Counts(t, items)
    ensures Total(t) == |items|
  {
    HowManyAddUp(items);
  }

  lemma {:induction false} HowManyAddUp(items: seq<Item>)
    ensures HowMany(items, Created) + HowMany(items, Skipped) + HowMany(items, Blocked) + HowMany(items, Failed) == |items|
  {
    if items != [] {
      HowManyAddUp(items[..|items| - 1]);
    }
  }

  lemma CountOneMore(t: Tally, items: seq<Item>, item: Item)
    requires Counts(t, items)
    ensures Counts(Count(t, item.status), items + [item])
  {
    assert (items + [item])[..|items|] == items;
  }

  lemma {:induction false} HowManyConcat(a: seq<Item>, b: seq<Item>, status: ItemStatus)
    ensures HowMany(a + b, status) == HowMany(a, status) + HowMany(b, status)
    decreases |b|
  {
    if b == [] {
      assert a + b == a;
    } else {
      HowManyConcat(a, b[..|b| - 1], status);
      assert (a + b)[..|a + b| - 1] == a + b[..|b| - 1];
    }
  }

  /** The skipped items are all skipped and the failed ones all failed. */
  predicate Labelled(s: Sorted) {
    Counts(Tally(0, |s.skipped|, 0, 0), s.skipped) && Counts(Tally(0, 0, 0, |s.failed|), s.failed)
  }

  lemma PlaceLabels(s: Sorted, c: Candidate)
    requires Labelled(s)
    ensures Labelled(Place(s, c))
  {
    var after := Place(s, c);
    if |after.skipped| > |s.skipped| {
      CountOneMore(Tally(0, |s.skipped|, 0, 0), s.skipped, after.skipped[|s.skipped|]);
    }
    if |after.failed| > |s.failed| {
      CountOneMore(Tally(0, 0, 0, |s.failed|), s.failed, after.failed[|s.failed|]);
    }
  }

  lemma {:induction false} SortedStatuses(cs: seq<Candidate>)
    ensures Labelled(SortOut(cs))
  {
    if cs != [] {
      SortedStatuses(cs[..|cs| - 1]);
      PlaceLabels(SortOut(cs[..|cs| - 1]), cs[|cs| - 1]);
    }
  }

  lemma StartingTally(cs: seq<Candidate>)
    ensures var s := SortOut(cs); Counts(Tally(0, |s.skipped|, 0, |s.failed|), s.skipped + s.failed)
  {
    var s := SortOut(cs);
    SortedStatuses(cs);
    CountsConcat(Tally(0, |s.skipped|, 0, 0), s.skipped, Tally(0, 0, 0, |s.failed|), s.failed);
  }

  lemma CountsConcat(t: Tally, a: seq<Item>, u: Tally, b: seq<Item>)
    requires Counts(t, a) && Counts(u, b)
    ensures Counts(Tally(t.queued + u.queued, t.skipped + u.skipped, t.blocked + u.blocked, t.failed + u.failed), a + b)
  {
    HowManyConcat(a, b, Created);
    HowManyConcat(a, b, Skipped);
    HowManyConcat(a, b, Blocked);
    HowManyConcat(a, b, Failed);
  }

  function Capped(items: seq<Item>): seq<Item> {
    if |items| <= MAX_ITEMS then items else items[..MAX_ITEMS]
  }

  /** The counters and items of a run that started from `given` and then attempted `done`. */
  predicate Accounts(given: seq<Item>, done: seq<Item>, local: Local) {
    Counts(local.tally, given + done) && local.items == Capped(given + done)
  }

  function Add(local: Local, item: Item): Local {
    Local(Count(local.tally, item.status), if |local.items| < MAX_ITEMS then local.items + [item] else local.items)
  }

  lemma AddKeeps(given: seq<Item>, done: seq<Item>, local: Local, item: Item)
    requires Accounts(given, done, local)
    ensures Accounts(given, done + [item], Add(local, item))
  {
    CountOneMore(local.tally, given + done, item);
    assert given + (done + [item]) == (given + done) + [item];
  }

  function Starting(s: Sorted): Local {
    Local(Tally(0, |s.skipped|, 0, |s.failed|), Capped(s.skipped + s.failed))
  }

  lemma StartKeeps(cs: seq<Candidate>)
    ensures var s := SortOut(cs);
      Accounts(s.skipped + s.failed, [], Starting(s))
  {
    var s := SortOut(cs);
    StartingTally(cs);
    assert s.skipped + s.failed + [] == s.skipped + s.failed;
  }

  /** What is still to be sent, after everything attempted so far. */
  predicate Remaining(files: seq<Path>, done: seq<Item>, rest: seq<Path>) {
    Sources(done) + rest == files
  }

  lemma RemainingAfter(files: seq<Path>, done: seq<Item>, item: Item, rest: seq<Path>)
    requires Remaining(files, done, [item.source] + rest)
    ensures Remaining(files, done + [item], rest)
  {
    assert (done + [item])[..|done|] == done;
    assert Sources(done) + ([item.source] + rest) == Sources(done + [item]) + rest;
  }

  // -------------------------------------------------------- The trace

  function Attempts(trace: seq<Event>): seq<Item> {
    if trace == [] then []
    else Attempts(trace[..|trace| - 1]) + if trace[|trace| - 1].Attempted? then [trace[|trace| - 1].item] else []
  }

  function Sources(items: seq<Item>): (sources: seq<string>)
    ensures |sources| == |items| && forall i :: 0 <= i < |items| ==> sources[i] == items[i].source
  {
    if items == [] then [] else Sources(items[..|items| - 1]) + [items[|items| - 1].source]
  }

  function AttemptsAfterCancel(trace: seq<Event>): nat {
    if trace == [] then 0
    else
      var front, last := trace[..|trace| - 1], trace[|trace| - 1];
      AttemptsAfterCancel(front) + if last.Attempted? && CancelLanded in front then 1 else 0
  }

  predicate HonestPolls(trace: seq<Event>) {
    forall i :: 0 <= i < |trace| && trace[i].Polled? ==> (trace[i].answer <==> CancelLanded in trace[..i])
  }

  lemma {:induction false} NoneBeforeCancel(trace: seq<Event>)
    requires CancelLanded !in trace
    ensures AttemptsAfterCancel(trace) == 0
  {
    if trace != [] {
      NoneBeforeCancel(trace[..|trace| - 1]);
    }
  }

  /** The count means what it says: two attempts after the same cancellation make it at least two. */
  lemma {:induction false} AttemptsAfterCancelMeaning(trace: seq<Event>, i: nat, j: nat, k: nat)
    requires i < j < k < |trace| && trace[i] == CancelLanded && trace[j].Attempted? && trace[k].Attempted?
    ensures AttemptsAfterCancel(trace) >= 2
  {
    var n := |trace| - 1;
    if k < n {
      AttemptsAfterCancelMeaning(trace[..n], i, j, k);
    } else {
      OneAfterCancel(trace[..n], i, j);
    }
  }

  lemma {:induction false} OneAfterCancel(trace: seq<Event>, i: nat, j: nat)
    requires i < j < |trace| && trace[i] == CancelLanded && trace[j].Attempted?
    ensures AttemptsAfterCancel(trace) >= 1
  {
    var n := |trace| - 1;
    if j < n {
      OneAfterCancel(trace[..n], i, j);
    } else {
      assert trace[..n][i] == CancelLanded;
    }
  }

  lemma Extend(trace: seq<Event>, e: Event)
    ensures Attempts(trace + [e]) == Attempts(trace) + if e.Attempted? then [e.item] else []
    ensures AttemptsAfterCancel(trace + [e]) ==
      AttemptsAfterCancel(trace) + if e.Attempted? && CancelLanded in trace then 1 else 0
    ensures forall x :: x in trace + [e] <==> x in trace || x == e
    ensures HonestPolls(trace) && (e.Polled? ==> (e.answer <==> CancelLanded in trace)) ==> HonestPolls(trace + [e])
  {
    var t := trace + [e];
    assert t[..|trace|] == trace;
    assert forall i :: 0 <= i < |trace| ==> t[i] == trace[i] && t[..i] == trace[..i];
  }

  // -------------------------------------------------------- The run

  /** Some interaction of ours raises. */
  ghost predicate Faulty(w: World) { exists n :: w.faultAt(n) }

  /** The other party asks for cancellation at one of these ticks. */
  ghost predicate RequestedIn(w: World, from: nat, to: int) {
    exists n :: from <= n < to && w.cancelAt(n)
  }

  /** The interactions that batches take: two for each, and three for each of its files. */
  function Ticks(batches: seq<seq<Path>>): nat {
    if batches == [] then 0 else 2 + 3 * |batches[0]| + Ticks(batches[1..])
  }

  /** The files a run is to send. */
  function Selected(w: World): seq<Path> {
    Deduplicated(SortOut(Candidates(w.selection)).files)
  }

  /** The items that are settled before anything is sent. */
  function Given(w: World): seq<Item> {
    var s := SortOut(Candidates(w.selection));
    s.skipped + s.failed
  }

  /** They are the skipped items and then the failed ones, each in the order of the candidates. */
  lemma GivenMeaning(w: World, i: nat)
    requires i < |Candidates(w.selection)|
    ensures var cs, given := Candidates(w.selection), Given(w);
      var skips := Tallied(cs, IsSkipped);
      var n, k := Tallied(cs[..i], IsSkipped), skips + Tallied(cs[..i], IsRejected);
      && |given| == skips + Tallied(cs, IsRejected)
      && (cs[i].verdict.Excluded? || cs[i].verdict.NotVideo? ==> n < |given| && SkippedAs(cs[i], given[n]))
      && (cs[i].verdict.Rejected? ==> k < |given| && given[k] == Item(cs[i].raw, Failed, cs[i].verdict.error))
  {
    var cs := Candidates(w.selection);
    SortedRightly(cs);
    assert InItsPlace(cs, SortOut(cs), i);
  }

  lemma TotalsAddUp(given: seq<Item>, files: seq<Path>, done: seq<Item>, local: Local)
    requires Accounts(given, done, local) && Sources(done) <= files
    ensures Total(local.tally) == |given| + |done| <= |given| + |files|
    ensures Sources(done) == files ==> |done| == |files|
  {
    CountsAddUp(local.tally, given + done);
  }

  /** The tick after the last poll of a run that began at `begun` and was neither cancelled nor disturbed. */
  function PollsEnd(w: World, begun: nat): int {
    begun + 4 + (if w.selection.Folder? then 1 else 0) + Ticks(Chunks(Selected(w), BatchSize(w)))
  }

  /** A request falls between `mark_running` and the last poll. */
  ghost predicate Honoured(w: World, begun: nat) {
    Selected(w) != [] && RequestedIn(w, begun + 1, PollsEnd(w, begun))
  }

  lemma HonouredMeaning(w: World, begun: nat, files: seq<Path>, ticks: nat)
    requires files == Selected(w) && ticks == Ticks(Chunks(files, BatchSize(w)))
    ensures Honoured(w, begun) <==>
      files != [] && RequestedIn(w, begun + 1, begun + 4 + (if w.selection.Folder? then 1 else 0) + ticks)
  {
  }

  /** The files in order, in batches that are not empty. */
  predicate Batched(files: seq<Path>, batches: seq<seq<Path>>, ticks: nat) {
    && Flatten(batches) == files && (files == [] <==> batches == []) && ticks == Ticks(batches)
    && (forall b :: 0 <= b < |batches| ==> batches[b] != [])
  }

  lemma ChunksAreBatches(files: seq<Path>, size: nat)
    requires size >= 1
    ensures Batched(files, Chunks(files, size), Ticks(Chunks(files, size)))
  {
    ChunksFlatten(files, size);
    var chunks := Chunks(files, size);
    assert forall b :: 0 <= b < |chunks| ==> chunks[b] in chunks;
  }

  class Operation {
    var status: Status
    var tally: Tally
    var totalExpected: nat
    var items: seq<Item>
    var clock: nat
    ghost var startedAt: nat
    ghost var trace: seq<Event>

    /** While the run goes on, the row says `cancelling` exactly when a request has landed. */
    ghost predicate Going(w: World)
      reads this
    {
      && (status.Running? || status.Cancelling?)
      && (status.Cancelling? <==> CancelLanded in trace)
      && (CancelLanded in trace <==> RequestedIn(w, startedAt, clock))
      && startedAt <= clock
      && HonestPolls(trace)
    }

    constructor ()
      ensures status == Waiting && clock == 0 && trace == []
    {
      status, tally, totalExpected, items, clock := Waiting, Tally(0, 0, 0, 0), 0, [], 0;
      startedAt, trace := 0, [];
    }

    /** The other party's request, then one interaction of ours with the database. */
    method Interact(w: World) returns (ok: bool)
      modifies this
      ensures ok <==> !w.faultAt(old(clock))
      ensures clock == old(clock) + 1 && startedAt == old(startedAt)
      ensures tally == old(tally) && totalExpected == old(totalExpected) && items == old(items) && startedAt == old(startedAt)
      ensures status == if w.cancelAt(old(clock)) && Active(old(status)) then Cancelling else old(status)
      ensures trace == if w.cancelAt(old(clock)) && Active(old(status)) then old(trace) + [CancelLanded] else old(trace)
      ensures old(Going(w)) ==> Going(w)
      ensures HonestPolls(old(trace)) ==> HonestPolls(trace)
      ensures Polled(true) in trace <==> Polled(true) in old(trace)
      ensures Attempts(trace) == Attempts(old(trace)) && AttemptsAfterCancel(trace) == AttemptsAfterCancel(old(trace))
    {
      Extend(trace, CancelLanded);
      if w.cancelAt(clock) && Active(status) {
        status := Cancelling;
        trace := trace + [CancelLanded];
      }
      ok := !w.faultAt(clock);
      clock := clock + 1;
    }

    /** An interaction that only reads the row, or writes nothing modelled here. */
    method Glance(w: World) returns (ok: bool)
      requires Going(w)
      modifies this
      ensures Going(w) && Attempts(trace) == Attempts(old(trace))
      ensures AttemptsAfterCancel(trace) == AttemptsAfterCancel(old(trace))
      ensures Polled(true) in trace <==> Polled(true) in old(trace)
      ensures tally == old(tally) && totalExpected == old(totalExpected) && items == old(items)
      ensures startedAt == old(startedAt) && clock == old(clock) + 1
      ensures ok <==> !w.faultAt(old(clock))
    {
      ok := Interact(w);
    }

    /** `mark_running`: whatever the row said before, a request included, is overwritten. */
    method MarkRunning(w: World) returns (ok: bool)
      requires Active(status)
      modifies this
      ensures items == old(items) && tally == old(tally)
      ensures ok ==> status == Running && trace == [] && Going(w) && startedAt == clock == old(clock) + 1
      ensures !ok ==> Active(status) && Attempts(trace) == Attempts(old(trace)) && w.faultAt(old(clock))
      ensures !ok ==> AttemptsAfterCancel(trace) == AttemptsAfterCancel(old(trace))
    {
      ok := Interact(w);
      if ok {
        status, startedAt, trace := Running, clock, [];
      }
    }

    ghost method Log(w: World, e: Event)
      requires Going(w) && e != CancelLanded && (e.Polled? ==> (e.answer <==> status.Cancelling?))
      modifies this`trace
      ensures Going(w) && trace == old(trace) + [e]
      ensures Attempts(trace) == if e.Attempted? then Attempts(old(trace)) + [e.item] else Attempts(old(trace))
      ensures AttemptsAfterCancel(trace) <= AttemptsAfterCancel(old(trace)) + 1
      ensures e.Polled? ==> AttemptsAfterCancel(trace) == AttemptsAfterCancel(old(trace))
      ensures Polled(true) in trace <==> Polled(true) in old(trace) || e == Polled(true)
    {
      Extend(trace, e);
      trace := trace + [e];
    }

    /** `_cancel_requested` */
    method Poll(w: World) returns (ok: bool, answer: bool)
      requires Going(w)
      modifies this
      ensures Going(w) && Attempts(trace) == Attempts(old(trace))
      ensures AttemptsAfterCancel(trace) == AttemptsAfterCancel(old(trace))
      ensures clock == old(clock) + 1
      ensures ok ==> (answer <==> status.Cancelling?) && (answer <==> RequestedIn(w, startedAt, clock))
      ensures ok && answer ==> Polled(true) in trace
      ensures !answer && Polled(true) !in old(trace) ==> Polled(true) !in trace
      ensures tally == old(tally) && totalExpected == old(totalExpected) && items == old(items) && startedAt == old(startedAt)
      ensures ok <==> !w.faultAt(old(clock))
    {
      answer := false;
      ok := Glance(w);
      if ok {
        answer := status.Cancelling?;
        Log(w, Polled(answer));
      }
    }

    /** `_queue_one_file`, which turns every error of the file itself into an item. */
    method QueueOne(w: World, path: Path) returns (ok: bool, item: Item)
      requires Going(w)
      modifies this
      ensures Going(w)
      ensures Attempts(trace) == if ok then Attempts(old(trace)) + [item] else Attempts(old(trace))
      ensures AttemptsAfterCancel(trace) <= AttemptsAfterCancel(old(trace)) + 1
      ensures clock == old(clock) + 1
      ensures item == Item(path, w.outcome(old(clock)).0, w.outcome(old(clock)).1)
      ensures Polled(true) in trace <==> Polled(true) in old(trace)
      ensures tally == old(tally) && totalExpected == old(totalExpected) && items == old(items) && startedAt == old(startedAt)
      ensures ok <==> !w.faultAt(old(clock))
    {
      item := Item(path, w.outcome(clock).0, w.outcome(clock).1);
      ok := Interact(w);
      if ok {
        Log(w, Attempted(item));
      }
    }

    /** `_update_operation` with the counters and the items. */
    method Record(w: World, local: Local) returns (ok: bool)
      requires Going(w)
      modifies this
      ensures Going(w) && Attempts(trace) == Attempts(old(trace))
      ensures AttemptsAfterCancel(trace) == AttemptsAfterCancel(old(trace))
      ensures Polled(true) in trace <==> Polled(true) in old(trace)
      ensures totalExpected == old(totalExpected) && startedAt == old(startedAt)
      ensures clock == old(clock) + 1
      ensures if ok then tally == local.tally && items == local.items else tally == old(tally) && items == old(items)
      ensures ok <==> !w.faultAt(old(clock))
    {
      ok := Interact(w);
      if ok {
        tally, items := local.tally, local.items;
      }
    }

    /** `_finish_operation` */
    method Finish(w: World, end: Status, local: Local) returns (ok: bool)
      requires Active(status) && !Active(end)
      modifies this
      ensures ok ==> status == end && tally == local.tally && items == Capped(local.items)
      ensures !ok ==> Active(status)
      ensures Attempts(trace) == Attempts(old(trace)) && AttemptsAfterCancel(trace) == AttemptsAfterCancel(old(trace))
      ensures Polled(true) in trace <==> Polled(true) in old(trace)
      ensures CancelLanded in old(trace) ==> CancelLanded in trace
      ensures HonestPolls(old(trace)) ==> HonestPolls(trace)
      ensures totalExpected == old(totalExpected) && startedAt == old(startedAt)
      ensures ok <==> !w.faultAt(old(clock))
    {
      ok := Interact(w);
      if ok {
        status, tally, items := end, local.tally, Capped(local.items);
      }
    }

    /** `_resolve_selection` */
    method ResolveSelection(w: World) returns (ok: bool, sorted: Sorted)
      requires Going(w)
      modifies this
      ensures Going(w) && Attempts(trace) == Attempts(old(trace))
      ensures AttemptsAfterCancel(trace) == AttemptsAfterCancel(old(trace))
      ensures Polled(true) in trace <==> Polled(true) in old(trace)
      ensures ok ==> !SelectionBreaks(w.selection)
      ensures ok ==> clock == old(clock) + 2 + if w.selection.Folder? then 1 else 0
      ensures startedAt == old(startedAt)
      ensures ok ==> var s := SortOut(Candidates(w.selection)); sorted == s.(files := Deduplicated(s.files))
      ensures ok ==> SortsOut(Candidates(w.selection), sorted.(files := SortOut(Candidates(w.selection)).files))
      ensures !ok ==> SelectionBreaks(w.selection) || Faulty(w)
    {
      sorted := Sorted([], [], []);
      ok := Glance(w);
      if ok {
        ok := Glance(w);
      }
      if !ok {
        return;
      }
      if w.selection.Folder? {
        if w.selection.unreadable {
          return false, sorted;
        }
        ok := Glance(w);
        if !ok {
          return;
        }
      }
      EntriesAreCandidates(w.selection);
      var broken;
      broken, sorted := ScanEntries(Entries(w.selection));
      if broken {
        return false, sorted;
      }
      assert sorted == sorted.(files := sorted.files);
      sorted := sorted.(files := Deduplicated(sorted.files));
    }

    /** The attempts so far, with what the run has counted and what is left to send. */
    ghost predicate Sending(given: seq<Item>, files: seq<Path>, local: Local, rest: seq<Path>)
      reads this
    {
      Accounts(given, Attempts(trace), local) && Remaining(files, Attempts(trace), rest)
    }

    ghost predicate SomewhereIn(given: seq<Item>, files: seq<Path>, local: Local)
      reads this
    {
      Accounts(given, Attempts(trace), local) && Sources(Attempts(trace)) <= files
    }

    /** No request has been seen yet, and none went unseen by two attempts. */
    ghost predicate Calm()
      reads this
    {
      Polled(true) !in trace && AttemptsAfterCancel(trace) <= 1
    }

    /** `pending` to `running`, and the selection resolved. */
    method Begin(w: World) returns (ok: bool, sorted: Sorted)
      requires Active(status) && trace == []
      modifies this
      ensures ok ==> Going(w) && Calm() && !SelectionBreaks(w.selection) && startedAt == old(clock) + 1
      ensures ok ==> clock == old(clock) + 3 + if w.selection.Folder? then 1 else 0
      ensures ok ==> var s := SortOut(Candidates(w.selection)); sorted == s.(files := Deduplicated(s.files))
      ensures Active(status) && Attempts(trace) == [] && AttemptsAfterCancel(trace) == 0
      ensures !ok ==> SelectionBreaks(w.selection) || Faulty(w)
    {
      sorted := Sorted([], [], []);
      ok := MarkRunning(w);
      if ok {
        ok, sorted := ResolveSelection(w);
      }
    }

    /** The row learns how many files there are, and which are already settled. */
    method Itemise(w: World, sorted: Sorted, local: Local) returns (ok: bool)
      requires Going(w) && Calm()
      modifies this
      ensures Going(w) && Calm() && Attempts(trace) == Attempts(old(trace))
      ensures AttemptsAfterCancel(trace) == AttemptsAfterCancel(old(trace))
      ensures ok ==> totalExpected == |sorted.files| + |sorted.skipped| + |sorted.failed| && clock == old(clock) + 2
      ensures startedAt == old(startedAt)
      ensures !ok ==> Faulty(w)
    {
      ok := Glance(w);
      if !ok {
        return;
      }
      ok := Record(w, local);
      if ok {
        totalExpected := |sorted.files| + |sorted.skipped| + |sorted.failed|;
      }
    }

    /** One file of a batch: poll, queue, count and record. */
    method SendOne(w: World, path: Path, before: Local, ghost given: seq<Item>, ghost files: seq<Path>, ghost rest: seq<Path>)
      returns (raised: bool, cancelled: bool, local: Local)
      requires Going(w) && Calm() && Sending(given, files, before, [path] + rest)
      modifies this
      ensures Active(status) && totalExpected == old(totalExpected) && startedAt == old(startedAt)
      ensures HonestPolls(trace) && AttemptsAfterCancel(trace) <= 1
      ensures raised ==> Faulty(w)
      ensures SomewhereIn(given, files, local)
      ensures !raised ==> Going(w)
      ensures !raised && cancelled ==> CancelLanded in trace && RequestedIn(w, startedAt, clock) && clock == old(clock) + 1
      ensures !raised && !cancelled ==> Calm() && Sending(given, files, local, rest)
      ensures !raised && !cancelled ==> clock == old(clock) + 3 && !RequestedIn(w, startedAt, clock - 2)
    {
      var ok;
      ok, cancelled := Poll(w);
      if !ok || cancelled {
        return !ok, cancelled, before;
      }
      NoneBeforeCancel(trace);
      raised, local := QueueAndRecord(w, path, before, given, files, rest);
    }

    /** A file is queued, counted and recorded. */
    method QueueAndRecord(w: World, path: Path, before: Local, ghost given: seq<Item>, ghost files: seq<Path>, ghost rest: seq<Path>)
      returns (raised: bool, local: Local)
      requires Going(w) && Polled(true) !in trace && AttemptsAfterCancel(trace) == 0
      requires Sending(given, files, before, [path] + rest)
      modifies this
      ensures Going(w) && totalExpected == old(totalExpected) && startedAt == old(startedAt)
      ensures AttemptsAfterCancel(trace) <= 1 && Polled(true) !in trace
      ensures raised ==> Faulty(w)
      ensures SomewhereIn(given, files, local)
      ensures !raised ==> Sending(given, files, local, rest) && clock == old(clock) + 2
    {
      raised, local := true, before;
      var ok, item;
      ghost var done := Attempts(trace);
      ok, item := QueueOne(w, path);
      if !ok {
        return;
      }
      local := Add(before, item);
      AddKeeps(given, done, before, item);
      RemainingAfter(files, done, item, rest);
      ok := Record(w, local);
      raised := !ok;
    }

    /** The files of a batch, each polled for. */
    method SendFiles(w: World, batch: seq<Path>, start: Local, ghost given: seq<Item>, ghost files: seq<Path>, ghost later: seq<Path>)
      returns (raised: bool, cancelled: bool, local: Local)
      requires Going(w) && Calm() && Sending(given, files, start, batch + later)
      modifies this
      ensures Active(status) && totalExpected == old(totalExpected) && startedAt == old(startedAt)
      ensures HonestPolls(trace) && AttemptsAfterCancel(trace) <= 1
      ensures raised ==> Faulty(w)
      ensures SomewhereIn(given, files, local)
      ensures !raised ==> Going(w)
      ensures !raised && cancelled ==> CancelLanded in trace && RequestedIn(w, startedAt, clock)
      ensures !raised && cancelled ==> clock + 2 <= old(clock) + 3 * |batch|
      ensures !raised && !cancelled ==> Calm() && Sending(given, files, local, later)
      ensures !raised && !cancelled ==> clock == old(clock) + 3 * |batch|
      ensures !raised && !cancelled && batch != [] ==> !RequestedIn(w, startedAt, clock - 2)
    {
      local := start;
      raised, cancelled := false, false;
      assert batch[0..] == batch;
      for i := 0 to |batch|
        invariant Going(w) && Calm() && totalExpected == old(totalExpected) && startedAt == old(startedAt)
        invariant Sending(given, files, local, batch[i..] + later)
        invariant !raised && !cancelled
        invariant clock == old(clock) + 3 * i && (i > 0 ==> !RequestedIn(w, startedAt, clock - 2))
      {
        assert batch[i..] + later == [batch[i]] + (batch[i + 1..] + later);
        raised, cancelled, local := SendOne(w, batch[i], local, given, files, batch[i + 1..] + later);
        if raised || cancelled {
          return;
        }
      }
      assert batch[|batch|..] + later == later;
    }

    /** One batch, polled before it starts and before each of its files. */
    method SendBatch(w: World, batch: seq<Path>, start: Local, ghost given: seq<Item>, ghost files: seq<Path>, ghost later: seq<Path>)
      returns (raised: bool, cancelled: bool, local: Local)
      requires Going(w) && Calm() && Sending(given, files, start, batch + later) && batch != []
      modifies this
      ensures Active(status) && totalExpected == old(totalExpected) && startedAt == old(startedAt)
      ensures HonestPolls(trace) && AttemptsAfterCancel(trace) <= 1
      ensures raised ==> Faulty(w)
      ensures SomewhereIn(given, files, local)
      ensures !raised ==> Going(w)
      ensures !raised && cancelled ==> CancelLanded in trace && RequestedIn(w, startedAt, clock)
      ensures !raised && cancelled ==> clock <= old(clock) + 3 * |batch|
      ensures !raised && !cancelled ==> Calm() && Sending(given, files, local, later)
      ensures !raised && !cancelled ==>
        clock == old(clock) + 2 + 3 * |batch| && !RequestedIn(w, startedAt, clock - 2)
    {
      var ok;
      ok, cancelled := Poll(w);
      if !ok || cancelled {
        return !ok, cancelled, start;
      }
      ok := Record(w, start);
      if !ok {
        return true, false, start;
      }
      raised, cancelled, local := SendFiles(w, batch, start, given, files, later);
    }

    method SendBatches(w: World, batches: seq<seq<Path>>, start: Local, ghost given: seq<Item>, ghost files: seq<Path>)
      returns (raised: bool, cancelled: bool, local: Local)
      requires Going(w) && Calm() && Sending(given, files, start, Flatten(batches))
      requires forall b :: 0 <= b < |batches| ==> batches[b] != []
      modifies this
      ensures Active(status) && totalExpected == old(totalExpected) && startedAt == old(startedAt)
      ensures HonestPolls(trace) && AttemptsAfterCancel(trace) <= 1
      ensures raised ==> Faulty(w)
      ensures SomewhereIn(given, files, local)
      ensures !raised ==> Going(w)
      ensures !raised && cancelled ==> CancelLanded in trace && RequestedIn(w, startedAt, clock)
      ensures !raised && cancelled ==> batches != [] && clock <= old(clock) + Ticks(batches) - 2
      ensures !raised && !cancelled ==> Calm() && Sending(given, files, local, [])
      ensures !raised && !cancelled ==> clock == old(clock) + Ticks(batches)
      ensures !raised && !cancelled && batches != [] ==> !RequestedIn(w, startedAt, clock - 2)
    {
      local := start;
      raised, cancelled := false, false;
      assert batches[0..] == batches;
      for b := 0 to |batches|
        invariant Going(w) && Calm() && totalExpected == old(totalExpected) && startedAt == old(startedAt)
        invariant Sending(given, files, local, Flatten(batches[b..]))
        invariant !raised && !cancelled
        invariant clock + Ticks(batches[b..]) == old(clock) + Ticks(batches)
        invariant b > 0 ==> !RequestedIn(w, startedAt, clock - 2)
      {
        assert batches[b..][1..] == batches[b + 1..];
        raised, cancelled, local := SendBatch(w, batches[b], local, given, files, Flatten(batches[b + 1..]));
        if raised || cancelled {
          return;
        }
      }
      assert batches[|batches|..] == [];
    }

    /** What every end of a run still guarantees: true counters, and a prefix of the files attempted. */
    ghost predicate Progress(w: World, local: Local)
      reads this
    {
      SomewhereIn(Given(w), Selected(w), local)
    }

    ghost predicate Untouched(local: Local)
      reads this
    {
      Attempts(trace) == [] && local == Local(Tally(0, 0, 0, 0), [])
    }

    /** The operation completed or was cancelled, with everything it owes. */
    ghost predicate Ended(w: World, local: Local)
      reads this
    {
      && !SelectionBreaks(w.selection)
      && totalExpected == |Selected(w)| + |Given(w)|
      && Closed(w, Given(w), Selected(w), local)
    }

    ghost predicate Closed(w: World, given: seq<Item>, files: seq<Path>, local: Local)
      reads this
    {
      && HonestPolls(trace) && SomewhereIn(given, files, local)
      && (status.Completed? || status.Cancelled?)
      && (status.Completed? ==> Sources(Attempts(trace)) == files && Polled(true) !in trace)
      && (status.Cancelled? ==> CancelLanded in trace)
    }

    /** All batches, unless nothing was selected. */
    method Send(w: World, start: Local, batches: seq<seq<Path>>, ghost given: seq<Item>, ghost files: seq<Path>, ghost ticks: nat)
      returns (raised: bool, cancelled: bool, local: Local)
      requires Going(w) && Calm() && Sending(given, files, start, files) && totalExpected >= |files|
      requires Batched(files, batches, ticks)
      modifies this
      ensures Active(status) && totalExpected == old(totalExpected) && startedAt == old(startedAt)
      ensures HonestPolls(trace) && AttemptsAfterCancel(trace) <= 1
      ensures raised ==> Faulty(w)
      ensures SomewhereIn(given, files, local)
      ensures !raised ==> Going(w)
      ensures !raised && cancelled ==> CancelLanded in trace
      ensures !raised ==> (cancelled <==> files != [] && RequestedIn(w, startedAt, old(clock) - 1 + ticks))
      ensures !raised && !cancelled ==> Calm() && Sending(given, files, local, [])
    {
      if totalExpected == 0 {
        return false, false, start;
      }
      var ok := Glance(w);
      if !ok {
        return true, false, start;
      }
      raised, cancelled, local := SendBatches(w, batches, start, given, files);
    }

    /** The body of the `try`; it raises where the source does. */
    method Run(w: World) returns (raised: bool, local: Local)
      requires Active(status) && trace == []
      modifies this
      ensures AttemptsAfterCancel(trace) <= 1
      ensures !raised ==> Ended(w, local) && tally == local.tally && items == local.items
      ensures !raised ==> (status.Cancelled? <==> Honoured(w, old(clock)))
      ensures raised ==> Active(status) && (Untouched(local) || Progress(w, local))
      ensures raised ==> SelectionBreaks(w.selection) || Faulty(w)
    {
      local := Local(Tally(0, 0, 0, 0), []);
      var ok, sorted := Begin(w);
      if !ok {
        return true, local;
      }
      StartKeeps(Candidates(w.selection));
      var batches := Chunks(sorted.files, BatchSize(w));
      ghost var ticks := Ticks(batches);
      ChunksAreBatches(sorted.files, BatchSize(w));
      HonouredMeaning(w, old(clock), sorted.files, ticks);
      raised, local := RunSelection(w, sorted, batches, ticks);
    }

    /** Everything after the selection is resolved. */
    method RunSelection(w: World, sorted: Sorted, batches: seq<seq<Path>>, ghost ticks: nat)
      returns (raised: bool, local: Local)
      requires Going(w) && Calm() && Attempts(trace) == []
      requires Accounts(sorted.skipped + sorted.failed, [], Starting(sorted))
      requires Batched(sorted.files, batches, ticks)
      modifies this
      ensures AttemptsAfterCancel(trace) <= 1
      ensures !raised ==> Closed(w, sorted.skipped + sorted.failed, sorted.files, local)
      ensures !raised ==> tally == local.tally && items == local.items
      ensures !raised ==> totalExpected == |sorted.files| + |sorted.skipped| + |sorted.failed|
      ensures !raised ==>
        (status.Cancelled? <==> sorted.files != [] && RequestedIn(w, old(startedAt), old(clock) + 1 + ticks))
      ensures raised ==> Active(status) && SomewhereIn(sorted.skipped + sorted.failed, sorted.files, local)
      ensures raised ==> Faulty(w)
    {
      ghost var given := sorted.skipped + sorted.failed;
      local := Starting(sorted);
      var ok := Itemise(w, sorted, local);
      if !ok {
        return true, local;
      }
      var cancelled;
      assert Remaining(sorted.files, [], sorted.files);
      raised, cancelled, local := Send(w, local, batches, given, sorted.files, ticks);
      if !raised {
        raised := Conclude(w, cancelled, local, given, sorted.files);
      }
    }

    /** The operation ends as completed or cancelled. */
    method Conclude(w: World, cancelled: bool, local: Local, ghost given: seq<Item>, ghost files: seq<Path>) returns (raised: bool)
      requires Going(w) && AttemptsAfterCancel(trace) <= 1 && SomewhereIn(given, files, local)
      requires if cancelled then CancelLanded in trace else Calm() && Sending(given, files, local, [])
      modifies this
      ensures AttemptsAfterCancel(trace) <= 1 && totalExpected == old(totalExpected) && startedAt == old(startedAt)
      ensures SomewhereIn(given, files, local)
      ensures if raised then Active(status) && Faulty(w)
              else Closed(w, given, files, local) && tally == local.tally && items == local.items && (status.Cancelled? <==> cancelled)
    {
      var ok := Finish(w, if cancelled then Cancelled else Completed, local);
      raised := !ok;
    }

    /**
     `process_operation`: it completes, is cancelled, crashes, or leaves the row active when even
     the crash could not be recorded.
     */
    method Process(w: World)
      requires Active(status) && trace == []
      modifies this
      ensures AttemptsAfterCancel(trace) <= 1
      ensures status.Completed? || status.Cancelled? ==> Ended(w, Local(tally, items))
      ensures status.Completed? ==> Total(tally) == totalExpected
      ensures status.Cancelled? ==> Total(tally) <= totalExpected
      ensures status.Completed? || status.Cancelled? ==> (status.Cancelled? <==> Honoured(w, old(clock)))
      ensures status.Crashed? ==> Untouched(Local(tally, items)) || Progress(w, Local(tally, items))
      ensures Attempts(trace) == [] || Sources(Attempts(trace)) <= Selected(w)
      ensures SelectionBreaks(w.selection) ==> status.Crashed? || Active(status)
      ensures !Faulty(w) ==> !Active(status) && (status.Crashed? ==> SelectionBreaks(w.selection))
    {
      var raised, local := Run(w);
      if raised {
        var _ := Finish(w, Crashed, local);
      } else {
        TotalsAddUp(Given(w), Selected(w), Attempts(trace), Local(tally, items));
      }
    }
  }

  /**
   A request made while the operation is still pending is lost: the run completes and attempts
   every file.
   */
  method CancelWhilePending(w: World) returns (op: Operation)
    requires !Faulty(w) && !SelectionBreaks(w.selection) && forall n :: w.cancelAt(n) <==> n == 0
    ensures op.status.Completed? && Sources(Attempts(op.trace)) == Selected(w)
  {
    op := new Operation();
    op.Process(w);
  }

  lemma {:induction false} TicksCounted(batches: seq<seq<Path>>)
    ensures Ticks(batches) == 2 * |batches| + 3 * |Flatten(batches)|
  {
    if batches != [] {
      TicksCounted(batches[1..]);
    }
  }

  /** The polls of a run are done after two interactions for each batch and three for each file. */
  lemma PollsEndCounted(w: World, begun: nat)
    ensures var files := Selected(w);
      PollsEnd(w, begun) == begun + 4 + (if w.selection.Folder? then 1 else 0)
                            + 2 * |Chunks(files, BatchSize(w))| + 3 * |files|
  {
    TicksCounted(Chunks(Selected(w), BatchSize(w)));
    ChunksFlatten(Selected(w), BatchSize(w));
  }
}
