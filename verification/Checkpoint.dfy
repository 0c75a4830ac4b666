/** Checkpoints: what they keep, and that a snapshot that starts from one, itself built on earlier
    ones, means the same as replaying the whole log. */
module Checkpoint {
  import opened Options
  import opened DeltaReplay
  import opened LogRegister
  import opened LogSchedule

  /** What the content of a slot means to a reader: tombstones and removed domains mean nothing,
      and which version an action came from does not matter. */
  function Meaning(r: Option<Item>): Option<LogAction> {
    if r.None? || IsRemove(r.value.action) then None
    else if r.value.action.Domain? && r.value.action.configuration.None? then None
    else Some(r.value.action)
  }

  /** A checkpoint's rows mean what the snapshot means. Tombstones may be missing. */
  ghost predicate Keeps(rows: seq<LogAction>, snapshot: seq<Item>) {
    forall k :: Meaning(Latest(Stamp(rows, 0), k)) == Meaning(Latest(snapshot, k))
  }

  predicate HoldsRemove(r: Option<Item>) { r.Some? && IsRemove(r.value.action) }

  /** Exactly the tombstones of files that were deleted since then are kept, with what they say of
      the file. */
  ghost predicate KeepsTombstones(rows: seq<LogAction>, snapshot: seq<Item>, since: int) {
    forall path :: KeepsTombstone(Latest(Stamp(rows, 0), FileOf(path)), Latest(snapshot, FileOf(path)), since)
  }

  predicate KeepsTombstone(row: Option<Item>, was: Option<Item>, since: int) {
    if HoldsRemove(was) && was.value.action.file.info.time >= since then
      && HoldsRemove(row)
      && var kept, info := row.value.action.file.info, was.value.action.file.info;
      kept.time == info.time && kept.size == info.size && kept.partitionValues == info.partitionValues
    else !HoldsRemove(row)
  }

  /** A snapshot as it was loaded: from the whole log, or from a checkpoint of version c, whose
      rows were made from an earlier load, and the versions after it. since: the start of the
      retention period when the checkpoint was written. */
  datatype Load =
    | Whole(items: seq<Item>)
    | From(previous: Load, c: nat, rows: seq<LogAction>, since: int, items: seq<Item>)

  /** The items are those of versions 0 to v, or the rows, stamped with the checkpoint's version,
      and those of versions c + 1 to v; each version in its own order, versions mixed at will. */
  ghost predicate ValidLoad(log: Log, l: Load, v: nat)
    requires v < |log|
  {
    match l
    case Whole(items) => Schedule(items, log, 0, v + 1)
    case From(previous, c, rows, _, items) =>
      && c <= v && ValidLoad(log, previous, c) && Keeps(rows, previous.items)
      && OnCheckpoint(items, log, rows, c, v)
  }

  // ---- versions of a stamp -------------------------------------------------------------------------

  predicate SameAction(r: Option<Item>, r': Option<Item>) {
    r.Some? == r'.Some? && (r.Some? ==> r.value.action == r'.value.action)
  }

  /** The number a checkpoint's rows are stamped with does not matter among themselves. */
  lemma {:induction false} StampShift(rows: seq<LogAction>, a: int, b: int, k: Slot)
    ensures SameAction(Latest(Stamp(rows, a), k), Latest(Stamp(rows, b), k))
    ensures Latest(Stamp(rows, a), k).Some? ==> Latest(Stamp(rows, a), k).value.version == a
    ensures Latest(Stamp(rows, b), k).Some? ==> Latest(Stamp(rows, b), k).value.version == b
    decreases |rows|
  {
    if rows != [] {
      var before := rows[..|rows| - 1];
      StampShift(before, a, b, k);
      assert Stamp(rows, a)[..|rows| - 1] == Stamp(before, a);
      assert Stamp(rows, b)[..|rows| - 1] == Stamp(before, b);
    }
  }

  lemma BareMeaning(r: Option<Item>, r': Option<Item>)
    requires r.Some? == r'.Some? && (r.Some? ==> Bare(r.value) == Bare(r'.value))
    ensures Meaning(r) == Meaning(r')
  {}

  // ---- the theorem -----------------------------------------------------------------------------------

  /** A version above c decides the slot in one exactly if it does in the other. */
  lemma AgreeAbove(items: seq<Item>, items': seq<Item>, c: nat, k: Slot)
    requires forall u | u > c :: OfVersion(items, u) == OfVersion(items', u)
    requires Latest(items, k).Some? && Latest(items, k).value.version > c
    ensures Latest(items', k).Some? && Latest(items', k).value.version > c
    ensures Bare(Latest(items', k).value) == Bare(Latest(items, k).value)
  {
    DecidedByOneVersion(items, k);
    DecidedByOneVersion(items', k);
  }

  /** If none does, the versions up to c decide. */
  lemma AgreeUpTo(items: seq<Item>, start: seq<Item>, c: nat, k: Slot)
    requires forall u :: OfVersion(start, u) == if u <= c then OfVersion(items, u) else []
    requires Latest(items, k).Some? ==> Latest(items, k).value.version <= c
    ensures Latest(start, k).Some? == Latest(items, k).Some?
    ensures Latest(items, k).Some? ==> Bare(Latest(start, k).value) == Bare(Latest(items, k).value)
  {
    DecidedByOneVersion(items, k);
    DecidedByOneVersion(start, k);
    assert Latest([], k).None?;
  }

  /** If versions after c mention a slot, they decide it in both; if not, what was known at c does. */
  lemma LoadedOnTop(items: seq<Item>, below: seq<Item>, whole: seq<Item>, start: seq<Item>, c: nat, k: Slot)
    requires forall u | u > c :: OfVersion(items, u) == OfVersion(whole, u)
    requires forall u :: OfVersion(start, u) == if u <= c then OfVersion(whole, u) else []
    requires forall u :: OfVersion(below, u) == if u <= c then OfVersion(items, u) else []
    requires Meaning(Latest(below, k)) == Meaning(Latest(start, k))
    ensures Meaning(Latest(items, k)) == Meaning(Latest(whole, k))
  {
    var r, w := Latest(items, k), Latest(whole, k);
    if r.Some? && r.value.version > c {
      AgreeAbove(items, whole, c, k);
      BareMeaning(r, w);
    } else if w.Some? && w.value.version > c {
      AgreeAbove(whole, items, c, k);
      BareMeaning(r, w);
    } else {
      AgreeUpTo(whole, start, c, k);
      BareMeaning(w, Latest(start, k));
      AgreeUpTo(items, below, c, k);
      BareMeaning(r, Latest(below, k));
    }
  }

  ghost predicate OnCheckpoint(items: seq<Item>, log: Log, rows: seq<LogAction>, c: nat, v: nat)
    requires v < |log|
  {
    forall u :: OfVersion(items, u) == if u == c then Stamp(rows, c) else if c < u <= v then Stamp(log[u], u) else []
  }

  lemma VersionsLineUp(log: Log, items: seq<Item>, rows: seq<LogAction>, whole: seq<Item>, start: seq<Item>, c: nat, v: nat)
    requires c <= v < |log| && OnCheckpoint(items, log, rows, c, v)
    requires Schedule(whole, log, 0, v + 1) && Schedule(start, log, 0, c + 1)
    ensures forall u | u > c :: OfVersion(items, u) == OfVersion(whole, u)
    ensures forall u :: OfVersion(start, u) == if u <= c then OfVersion(whole, u) else []
    ensures forall u :: OfVersion(Stamp(rows, c), u) == if u <= c then OfVersion(items, u) else []
  {
    forall u ensures OfVersion(Stamp(rows, c), u) == if u <= c then OfVersion(items, u) else [] {
      OfVersionStamp(rows, c, u);
    }
  }

  lemma LoadedFrom(log: Log, items: seq<Item>, rows: seq<LogAction>, whole: seq<Item>, start: seq<Item>, c: nat, v: nat, k: Slot)
    requires c <= v < |log| && OnCheckpoint(items, log, rows, c, v)
    requires Schedule(whole, log, 0, v + 1) && Schedule(start, log, 0, c + 1)
    requires Meaning(Latest(Stamp(rows, c), k)) == Meaning(Latest(start, k))
    ensures Meaning(Latest(items, k)) == Meaning(Latest(whole, k))
  {
    VersionsLineUp(log, items, rows, whole, start, c, v);
    LoadedOnTop(items, Stamp(rows, c), whole, start, c, k);
  }

  lemma LoadedWhole(log: Log, items: seq<Item>, whole: seq<Item>, v: nat, k: Slot)
    requires v < |log| && Schedule(items, log, 0, v + 1) && Schedule(whole, log, 0, v + 1)
    ensures Meaning(Latest(items, k)) == Meaning(Latest(whole, k))
  {
    SchedulesAgree(items, whole, k);
    BareMeaning(Latest(items, k), Latest(whole, k));
  }

  lemma StampMeaning(rows: seq<LogAction>, c: int, k: Slot)
    ensures Meaning(Latest(Stamp(rows, c), k)) == Meaning(Latest(Stamp(rows, 0), k))
  {
    StampShift(rows, 0, c, k);
  }

  /** A load means what any parse of versions 0 to v means. */
  lemma {:induction false} LoadMeaning(log: Log, l: Load, v: nat, whole: seq<Item>, k: Slot)
    requires v < |log| && ValidLoad(log, l, v) && Schedule(whole, log, 0, v + 1)
    ensures Meaning(Latest(l.items, k)) == Meaning(Latest(whole, k))
    decreases l
  {
    match l
    case Whole(items) => LoadedWhole(log, items, whole, v, k);
    case From(previous, c, rows, _, items) =>
      var start := Sequential(log, 0, c + 1);
      SequentialIsSchedule(log, 0, c + 1);
      LoadMeaning(log, previous, c, start, k);
      StampMeaning(rows, c, k);
      LoadedFrom(log, items, rows, whole, start, c, v, k);
  }

  /** Every load means what sequential replay of versions 0 to v means: the same live files with
      their metadata, protocol, metadata, application transactions and domains, however many
      checkpoints it went through and however its versions were interleaved. */
  lemma CheckpointEquivalence(log: Log, l: Load, v: nat, k: Slot)
    requires v < |log| && ValidLoad(log, l, v)
    ensures Meaning(Latest(l.items, k)) == Meaning(Latest(Sequential(log, 0, v + 1), k))
  {
    SequentialIsSchedule(log, 0, v + 1);
    LoadMeaning(log, l, v, Sequential(log, 0, v + 1), k);
  }

  /** In particular the files that are live after the load are those of replay. */
  lemma LoadIsReplay(log: Log, l: Load, v: nat, path: Path)
    requires v < |log| && ValidLoad(log, l, v)
    ensures LiveInfo(Latest(l.items, FileOf(path))) == InfoIn(Replay(FilesLog(log)[..v + 1]), path)
  {
    CheckpointEquivalence(log, l, v, FileOf(path));
    SequentialIsReplay(log, v + 1, path);
    SlotHolds(l.items, FileOf(path));
    SlotHolds(Sequential(log, 0, v + 1), FileOf(path));
  }

  // ---- tombstones ------------------------------------------------------------------------------------

  /** Every checkpoint of the chain kept the tombstones of its retention period. */
  ghost predicate Retains(l: Load) {
    match l
    case Whole(_) => true
    case From(previous, _, rows, since, _) => KeepsTombstones(rows, previous.items, since) && Retains(previous)
  }

  /** The removal of version u was young enough for all checkpoints that had to keep it. */
  predicate YoungFor(l: Load, u: int, time: int) {
    match l
    case Whole(_) => true
    case From(previous, c, _, since, _) => c < u || (since <= time && YoungFor(previous, u, time))
  }

  /** A load holds the tombstones of the whole log that were young enough. */
  ghost predicate HoldsYoung(l: Load, r: Option<Item>, w: Option<Item>) {
    if HoldsRemove(w) && YoungFor(l, w.value.version, w.value.action.file.info.time) then
      HoldsRemove(r) && r.value.action.file.info.time == w.value.action.file.info.time
    else !HoldsRemove(r)
  }

  /** The tombstones a load takes over from its checkpoint. */
  lemma TombstonesFromBelow(l: Load, whole: seq<Item>, start: seq<Item>, k: Slot)
    requires l.From? && KeepsTombstone(Latest(Stamp(l.rows, 0), k), Latest(l.previous.items, k), l.since)
    requires HoldsYoung(l.previous, Latest(l.previous.items, k), Latest(start, k))
    requires forall u :: OfVersion(start, u) == if u <= l.c then OfVersion(whole, u) else []
    requires forall u :: OfVersion(Stamp(l.rows, l.c), u) == if u <= l.c then OfVersion(l.items, u) else []
    requires Latest(whole, k).Some? ==> Latest(whole, k).value.version <= l.c
    requires Latest(l.items, k).Some? ==> Latest(l.items, k).value.version <= l.c
    ensures HoldsYoung(l, Latest(l.items, k), Latest(whole, k))
  {
    AgreeUpTo(whole, start, l.c, k);
    AgreeUpTo(l.items, Stamp(l.rows, l.c), l.c, k);
    StampShift(l.rows, 0, l.c, k);
  }

  /** Those of later versions are read from the log itself. */
  lemma TombstonesFromAbove(l: Load, whole: seq<Item>, k: Slot)
    requires l.From? && forall u | u > l.c :: OfVersion(l.items, u) == OfVersion(whole, u)
    requires (Latest(l.items, k).Some? && Latest(l.items, k).value.version > l.c) ||
             (Latest(whole, k).Some? && Latest(whole, k).value.version > l.c)
    ensures HoldsYoung(l, Latest(l.items, k), Latest(whole, k))
  {
    if Latest(l.items, k).Some? && Latest(l.items, k).value.version > l.c {
      AgreeAbove(l.items, whole, l.c, k);
    } else {
      AgreeAbove(whole, l.items, l.c, k);
    }
  }

  lemma TombstonesFrom(log: Log, l: Load, v: nat, whole: seq<Item>, start: seq<Item>, k: Slot)
    requires l.From? && l.c <= v < |log| && OnCheckpoint(l.items, log, l.rows, l.c, v)
    requires Schedule(whole, log, 0, v + 1) && Schedule(start, log, 0, l.c + 1)
    requires KeepsTombstone(Latest(Stamp(l.rows, 0), k), Latest(l.previous.items, k), l.since)
    requires HoldsYoung(l.previous, Latest(l.previous.items, k), Latest(start, k))
    ensures HoldsYoung(l, Latest(l.items, k), Latest(whole, k))
  {
    VersionsLineUp(log, l.items, l.rows, whole, start, l.c, v);
    var r, w := Latest(l.items, k), Latest(whole, k);
    if (r.Some? && r.value.version > l.c) || (w.Some? && w.value.version > l.c) {
      TombstonesFromAbove(l, whole, k);
    } else {
      TombstonesFromBelow(l, whole, start, k);
    }
  }

  lemma TombstonesOfWhole(log: Log, l: Load, v: nat, whole: seq<Item>, k: Slot)
    requires l.Whole? && v < |log| && Schedule(l.items, log, 0, v + 1) && Schedule(whole, log, 0, v + 1)
    ensures HoldsYoung(l, Latest(l.items, k), Latest(whole, k))
  {
    SchedulesAgree(l.items, whole, k);
  }

  /** A load holds the young tombstones of any parse of versions 0 to v. */
  lemma {:induction false} TombstonesOfLoad(log: Log, l: Load, v: nat, whole: seq<Item>, path: Path)
    requires v < |log| && ValidLoad(log, l, v) && Retains(l) && Schedule(whole, log, 0, v + 1)
    ensures HoldsYoung(l, Latest(l.items, FileOf(path)), Latest(whole, FileOf(path)))
    decreases l
  {
    match l
    case Whole(_) => TombstonesOfWhole(log, l, v, whole, FileOf(path));
    case From(previous, c, rows, since, _) =>
      var start := Sequential(log, 0, c + 1);
      SequentialIsSchedule(log, 0, c + 1);
      TombstonesOfLoad(log, previous, c, start, path);
      assert KeepsTombstone(Latest(Stamp(rows, 0), FileOf(path)), Latest(previous.items, FileOf(path)), since);
      TombstonesFrom(log, l, v, whole, start, FileOf(path));
  }

  /** Version u is the last one up to v that has an action for the path, and its first remove of the
      path is action i. */
  predicate RemovedAt(log: Log, path: Path, v: nat, u: nat, i: nat)
    requires v < |log|
  {
    && u <= v && RemovesFirst(log[u], i, path)
    && forall n, j | u < n <= v && 0 <= j < |log[n]| :: SlotOf(log[n][j]) != FileOf(path)
  }

  lemma RemovalInLog(log: Log, path: Path, v: nat, u: nat, i: nat)
    requires v < |log| && RemovedAt(log, path, v, u, i)
    ensures var w := Latest(Sequential(log, 0, v + 1), FileOf(path));
            HoldsRemove(w) && w.value.version == u && w.value.action.file.info.time == log[u][i].file.info.time
  {
    var whole := Sequential(log, 0, v + 1);
    SequentialIsSchedule(log, 0, v + 1);
    RemoveAlone(log[u], u, path, i);
    NotAbove(log, path, v, u, whole);
    LastMention(whole, u, FileOf(path));
  }

  lemma RemoveAlone(actions: seq<LogAction>, n: int, path: Path, i: nat)
    requires RemovesFirst(actions, i, path)
    ensures var r := Latest(Stamp(actions, n), FileOf(path));
            HoldsRemove(r) && r.value.version == n && r.value.action.file.info.time == actions[i].file.info.time
  {
    RemoveOnTop([], actions, n, path, i);
    assert [] + Stamp(actions, n) == Stamp(actions, n);
  }

  lemma LastMention(items: seq<Item>, u: int, k: Slot)
    requires Latest(OfVersion(items, u), k).Some? && forall n | n > u :: Latest(OfVersion(items, n), k).None?
    ensures var r := Latest(items, k);
            r.Some? && r.value.version == u && Bare(r.value) == Bare(Latest(OfVersion(items, u), k).value)
  {
    DecidedByOneVersion(items, k);
  }

  lemma NotAbove(log: Log, path: Path, v: nat, u: nat, items: seq<Item>)
    requires v < |log| && forall n, j | u < n <= v && 0 <= j < |log[n]| :: SlotOf(log[n][j]) != FileOf(path)
    requires Schedule(items, log, 0, v + 1)
    ensures forall n | n > u :: Latest(OfVersion(items, n), FileOf(path)).None?
  {
    forall n | n > u ensures Latest(OfVersion(items, n), FileOf(path)).None? {
      if n <= v { HighestWins(Stamp(log[n], n), path); }
    }
  }

  /** After any chain of checkpoints, the tombstone of a removal that was young enough for all of them
      is there, with the deletion time of the log's own remove; of an older one nothing is left. */
  lemma TombstonesSurvive(log: Log, l: Load, v: nat, path: Path, u: nat, i: nat)
    requires v < |log| && ValidLoad(log, l, v) && Retains(l) && RemovedAt(log, path, v, u, i)
    ensures var r := Latest(l.items, FileOf(path));
            if YoungFor(l, u, log[u][i].file.info.time) then
              HoldsRemove(r) && r.value.action.file.info.time == log[u][i].file.info.time
            else r.None?
  {
    SequentialIsSchedule(log, 0, v + 1);
    TombstonesOfLoad(log, l, v, Sequential(log, 0, v + 1), path);
    RemovalInLog(log, path, v, u, i);
    CheckpointEquivalence(log, l, v, FileOf(path));
    MeansNothing(l.items, path);
  }

  lemma MeansNothing(items: seq<Item>, path: Path)
    ensures Meaning(Latest(items, FileOf(path))).None? ==>
              Latest(items, FileOf(path)).None? || HoldsRemove(Latest(items, FileOf(path)))
  {
    SlotHolds(items, FileOf(path));
  }

  /** The retention periods of the chain start at since or before. */
  predicate StartsBy(l: Load, since: int) {
    l.From? ==> l.since <= since && StartsBy(l.previous, since)
  }

  lemma {:induction false} YoungNow(l: Load, since: int, u: int, time: int)
    requires StartsBy(l, since) && since <= time
    ensures YoungFor(l, u, time)
  {
    if l.From? { YoungNow(l.previous, since, u, time); }
  }

  /** If retention periods do not go back, a checkpoint made through a chain of others has tombstones
      for exactly the files for which one made from the whole log has them, with the same times. */
  lemma ChainKeepsTombstones(log: Log, l: Load, v: nat, rows: seq<LogAction>, direct: seq<LogAction>, since: int, path: Path)
    requires v < |log| && ValidLoad(log, l, v) && Retains(l) && StartsBy(l, since)
    requires KeepsTombstones(rows, l.items, since) && KeepsTombstones(direct, Sequential(log, 0, v + 1), since)
    ensures var row, other := Latest(Stamp(rows, 0), FileOf(path)), Latest(Stamp(direct, 0), FileOf(path));
            && (HoldsRemove(row) <==> HoldsRemove(other))
            && (HoldsRemove(row) ==> row.value.action.file.info.time == other.value.action.file.info.time)
  {
    var k, whole := FileOf(path), Sequential(log, 0, v + 1);
    SequentialIsSchedule(log, 0, v + 1);
    TombstonesOfLoad(log, l, v, whole, path);
    assert KeepsTombstone(Latest(Stamp(rows, 0), k), Latest(l.items, k), since);
    assert KeepsTombstone(Latest(Stamp(direct, 0), k), Latest(whole, k), since);
    var w := Latest(whole, k);
    if HoldsRemove(w) && since <= w.value.action.file.info.time {
      YoungNow(l, since, w.value.version, w.value.action.file.info.time);
    }
  }

  lemma SlotHolds(items: seq<Item>, k: Slot)
    ensures Latest(items, k).Some? ==> SlotOf(Latest(items, k).value.action) == k
  {
    DecidedByOneVersion(items, k);
  }
}
