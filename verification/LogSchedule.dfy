/** Parsing a log: how versions are split among threads, what an interleaving of the threads
    registers, and that the result is the one of sequential replay. */
module LogSchedule {
  import opened Options
  import opened DeltaReplay
  import opened LogRegister

  type Log = seq<seq<LogAction>>

  function Stamp(actions: seq<LogAction>, v: int): (items: seq<Item>)
    ensures |items| == |actions| && forall i | 0 <= i < |items| :: items[i] == Item(v, actions[i])
  {
    seq(|actions|, i requires 0 <= i < |actions| => Item(v, actions[i]))
  }

  /** Versions a to b - 1, one after the other. */
  function Sequential(log: Log, a: nat, b: nat): seq<Item>
    requires b <= |log|
  {
    if b <= a then [] else Sequential(log, a, b - 1) + Stamp(log[b - 1], b - 1)
  }

  /** The items hold each version's actions in their order; versions may be mixed. */
  ghost predicate Schedule(items: seq<Item>, log: Log, a: nat, b: nat)
    requires b <= |log|
  {
    forall v :: OfVersion(items, v) == if a <= v < b then Stamp(log[v], v) else []
  }

  lemma {:induction false} OfVersionAppend(x: seq<Item>, y: seq<Item>, v: int)
    ensures OfVersion(x + y, v) == OfVersion(x, v) + OfVersion(y, v)
    decreases |y|
  {
    if y == [] {
      assert x + y == x;
    } else {
      assert (x + y)[..|x + y| - 1] == x + y[..|y| - 1];
      OfVersionAppend(x, y[..|y| - 1], v);
    }
  }

  lemma {:induction false} OfVersionStamp(actions: seq<LogAction>, n: int, v: int)
    ensures OfVersion(Stamp(actions, n), v) == if v == n then Stamp(actions, n) else []
    decreases |actions|
  {
    if actions != [] {
      var before := actions[..|actions| - 1];
      OfVersionStamp(before, n, v);
      assert Stamp(actions, n)[..|actions| - 1] == Stamp(before, n);
    }
  }

  lemma {:induction false} SequentialOfVersion(log: Log, a: nat, b: nat, v: int)
    requires b <= |log|
    ensures OfVersion(Sequential(log, a, b), v) == if a <= v < b then Stamp(log[v], v) else []
    decreases b
  {
    if a < b {
      SequentialOfVersion(log, a, b - 1, v);
      OfVersionAppend(Sequential(log, a, b - 1), Stamp(log[b - 1], b - 1), v);
      OfVersionStamp(log[b - 1], b - 1, v);
    }
  }

  lemma SequentialIsSchedule(log: Log, a: nat, b: nat)
    requires b <= |log|
    ensures Schedule(Sequential(log, a, b), log, a, b)
  {
    forall v ensures OfVersion(Sequential(log, a, b), v) == if a <= v < b then Stamp(log[v], v) else [] {
      SequentialOfVersion(log, a, b, v);
    }
  }

  // ---- splitting the versions among threads ------------------------------------------------------

  /** Consecutive non-empty ranges from a to b. */
  predicate Partition(ranges: seq<(nat, nat)>, a: nat, b: nat) {
    if ranges == [] then a == b
    else
      var last := ranges[|ranges| - 1];
      last.0 < last.1 && last.1 == b && Partition(ranges[..|ranges| - 1], a, last.0)
  }

  method SplitRange(begin: nat, end: nat, parts: nat) returns (ranges: seq<(nat, nat)>)
    ensures end <= begin ==> ranges == []
    ensures begin < end ==> Partition(ranges, begin, end)
    ensures begin < end ==> |ranges| == if parts == 0 then 1 else if parts < end - begin then parts else end - begin
    ensures forall i, j | 0 <= i < |ranges| && 0 <= j < |ranges| ::
              ranges[i].1 + ranges[j].0 <= ranges[j].1 + ranges[i].0 + 1
  {
    ranges := [];
    if end <= begin { return; }
    var count := end - begin;
    var n := if parts == 0 then 1 else if parts < count then parts else count;
    var step, remainder := count / n, count % n;
    StepFits(count, n);
    var start: nat := begin;
    ghost var whole := 0;
    for i := 0 to n
      invariant |ranges| == i && Partition(ranges, begin, start)
      invariant whole == Times(i, step) && start == begin + whole + (if i < remainder then i else remainder)
      invariant forall j | 0 <= j < i :: ranges[j].0 + step <= ranges[j].1 <= ranges[j].0 + step + 1
    {
      var stop: nat := start + step + (if i < remainder then 1 else 0);
      assert (ranges + [(start, stop)])[..i] == ranges;
      ranges := ranges + [(start, stop)];
      start := stop;
      whole := whole + step;
    }
  }

  function Times(i: nat, step: nat): nat {
    if i == 0 then 0 else Times(i - 1, step) + step
  }

  lemma {:induction false} TimesIsProduct(i: nat, step: nat)
    ensures Times(i, step) == i * step
  {
    if i > 0 { TimesIsProduct(i - 1, step); }
  }

  lemma StepFits(count: nat, n: nat)
    requires 0 < n <= count
    ensures count / n >= 1 && count == Times(n, count / n) + count % n && count % n < n
  {
    TimesIsProduct(n, count / n);
  }

  // ---- interleaving threads ----------------------------------------------------------------------

  /** The items were registered by threads that each work through their own part in order. */
  ghost predicate Interleaving(items: seq<Item>, parts: seq<seq<Item>>)
    decreases |items|, 1
  {
    if items == [] then forall j | 0 <= j < |parts| :: parts[j] == []
    else exists j :: 0 <= j < |parts| && EndsWith(items, parts, j)
  }

  ghost predicate EndsWith(items: seq<Item>, parts: seq<seq<Item>>, j: nat)
    requires items != [] && j < |parts|
    decreases |items|, 0
  {
    && parts[j] != [] && parts[j][|parts[j]| - 1] == items[|items| - 1]
    && Interleaving(items[..|items| - 1], parts[j := parts[j][..|parts[j]| - 1]])
  }

  lemma {:induction false} InterleavingKeepsVersions(items: seq<Item>, parts: seq<seq<Item>>, v: int, owner: nat)
    requires Interleaving(items, parts)
    requires forall j | 0 <= j < |parts| && j != owner :: OfVersion(parts[j], v) == []
    ensures OfVersion(items, v) == if owner < |parts| then OfVersion(parts[owner], v) else []
    decreases |items|
  {
    if items != [] {
      var j :| 0 <= j < |parts| && EndsWith(items, parts, j);
      var parts' := parts[j := parts[j][..|parts[j]| - 1]];
      InterleavingKeepsVersions(items[..|items| - 1], parts', v, owner);
    }
  }

  function Parts(log: Log, ranges: seq<(nat, nat)>): (parts: seq<seq<Item>>)
    requires forall i | 0 <= i < |ranges| :: ranges[i].1 <= |log|
    ensures |parts| == |ranges| && forall i | 0 <= i < |ranges| :: parts[i] == Sequential(log, ranges[i].0, ranges[i].1)
  {
    seq(|ranges|, i requires 0 <= i < |ranges| => Sequential(log, ranges[i].0, ranges[i].1))
  }

  /** A version lies in at most one range, and in one if it is between the ends. */
  lemma {:induction false} OneRange(ranges: seq<(nat, nat)>, a: nat, b: nat, v: int) returns (owner: nat)
    requires Partition(ranges, a, b)
    ensures a <= b && forall i | 0 <= i < |ranges| :: a <= ranges[i].0 && ranges[i].1 <= b
    ensures a <= v < b ==> owner < |ranges| && ranges[owner].0 <= v < ranges[owner].1
    ensures !(a <= v < b) ==> owner == |ranges|
    ensures forall i | 0 <= i < |ranges| && i != owner :: !(ranges[i].0 <= v < ranges[i].1)
  {
    if ranges == [] { return 0; }
    var before, last := ranges[..|ranges| - 1], ranges[|ranges| - 1];
    owner := OneRange(before, a, last.0, v);
    if last.0 <= v < last.1 { owner := |ranges| - 1; }
    else if !(a <= v < b) { owner := |ranges|; }
  }

  lemma ParallelParseOf(log: Log, ranges: seq<(nat, nat)>, a: nat, b: nat, items: seq<Item>, v: int)
    requires Partition(ranges, a, b) && b <= |log| && forall i | 0 <= i < |ranges| :: ranges[i].1 <= |log|
    requires Interleaving(items, Parts(log, ranges))
    ensures OfVersion(items, v) == if a <= v < b then Stamp(log[v], v) else []
  {
    var owner := OneRange(ranges, a, b, v);
    var parts := Parts(log, ranges);
    forall j | 0 <= j < |ranges| ensures OfVersion(parts[j], v) == if j == owner then Stamp(log[v], v) else [] {
      SequentialOfVersion(log, ranges[j].0, ranges[j].1, v);
    }
    InterleavingKeepsVersions(items, parts, v, owner);
  }

  /** Whatever the number of threads and their interleaving, what they register is a schedule of
      exactly the versions that were split among them. */
  lemma ParallelParse(log: Log, ranges: seq<(nat, nat)>, a: nat, b: nat, items: seq<Item>)
    requires Partition(ranges, a, b) && b <= |log|
    ensures forall i | 0 <= i < |ranges| :: ranges[i].1 <= |log|
    ensures Interleaving(items, Parts(log, ranges)) ==> Schedule(items, log, a, b)
  {
    var _ := OneRange(ranges, a, b, 0);
    if Interleaving(items, Parts(log, ranges)) {
      forall v ensures OfVersion(items, v) == if a <= v < b then Stamp(log[v], v) else [] {
        ParallelParseOf(log, ranges, a, b, items, v);
      }
    }
  }

  // ---- sequential replay --------------------------------------------------------------------------

  function FilesOf(actions: seq<LogAction>): seq<FileAction> {
    if actions == [] then []
    else
      var before, a := FilesOf(actions[..|actions| - 1]), actions[|actions| - 1];
      if a.File? then before + [a.file] else before
  }

  function FilesLog(log: Log): (files: seq<seq<FileAction>>)
    ensures |files| == |log| && forall v | 0 <= v < |log| :: files[v] == FilesOf(log[v])
  {
    seq(|log|, v requires 0 <= v < |log| => FilesOf(log[v]))
  }

  lemma {:induction false} FirstAddsSnoc(actions: seq<FileAction>, a: FileAction)
    ensures FirstAdds(actions + [a]) ==
              if a.Add? && a.path !in FirstAdds(actions) then FirstAdds(actions)[a.path := a.info] else FirstAdds(actions)
    decreases |actions|
  {
    if actions == [] {
      assert [a][1..] == [] && [] + [a] == [a];
    } else {
      FirstAddsSnoc(actions[1..], a);
      assert (actions + [a])[1..] == actions[1..] + [a];
    }
  }

  lemma RemovedPathsSnoc(actions: seq<FileAction>, a: FileAction)
    ensures RemovedPaths(actions + [a]) == RemovedPaths(actions) + if a.Remove? then {a.path} else {}
  {
    forall p | p in RemovedPaths(actions) ensures p in RemovedPaths(actions + [a]) {
      var x :| x in actions && x.Remove? && x.path == p;
      assert x in actions + [a];
    }
    assert a in actions + [a];
  }

  /** One version registered on top of older ones does to a path what replay says. */
  lemma {:induction false} VersionOnTop(items: seq<Item>, actions: seq<LogAction>, n: int, path: Path)
    requires Latest(items, FileOf(path)).Some? ==> Latest(items, FileOf(path)).value.version < n
    ensures var r, files := Latest(items + Stamp(actions, n), FileOf(path)), FilesOf(actions);
            if path in RemovedPaths(files) then r.Some? && r.value.version == n && IsRemove(r.value.action)
            else if path in FirstAdds(files) then r == Some(Item(n, File(Add(path, FirstAdds(files)[path]))))
            else r == Latest(items, FileOf(path))
    decreases |actions|
  {
    if actions == [] {
      assert items + Stamp(actions, n) == items;
    } else {
      var before, a := actions[..|actions| - 1], actions[|actions| - 1];
      VersionOnTop(items, before, n, path);
      assert items + Stamp(actions, n) == (items + Stamp(before, n)) + [Item(n, a)];
      LatestSnoc(items + Stamp(before, n), Item(n, a), FileOf(path));
      if a.File? {
        FirstAddsSnoc(FilesOf(before), a.file);
        RemovedPathsSnoc(FilesOf(before), a.file);
      }
    }
  }

  /** Action i is the first one that removes the path. */
  predicate RemovesFirst(actions: seq<LogAction>, i: nat, path: Path) {
    && i < |actions| && IsRemove(actions[i]) && actions[i].file.path == path
    && forall j | 0 <= j < i && IsRemove(actions[j]) :: actions[j].file.path != path
  }

  lemma {:induction false} NoRemoveBefore(actions: seq<LogAction>, path: Path)
    requires forall j | 0 <= j < |actions| && IsRemove(actions[j]) :: actions[j].file.path != path
    ensures path !in RemovedPaths(FilesOf(actions))
  {
    if actions != [] {
      var before, a := actions[..|actions| - 1], actions[|actions| - 1];
      assert forall j | 0 <= j < |before| :: before[j] == actions[j];
      NoRemoveBefore(before, path);
      if a.File? { RemovedPathsSnoc(FilesOf(before), a.file); }
    }
  }

  lemma {:induction false} RemoveStays(items: seq<Item>, actions: seq<LogAction>, n: int, path: Path)
    requires var r := Latest(items, FileOf(path)); r.Some? && r.value.version == n && IsRemove(r.value.action)
    ensures Latest(items + Stamp(actions, n), FileOf(path)) == Latest(items, FileOf(path))
    decreases |actions|
  {
    if actions == [] {
      assert items + Stamp(actions, n) == items;
    } else {
      var before, a := actions[..|actions| - 1], actions[|actions| - 1];
      RemoveStays(items, before, n, path);
      assert items + Stamp(actions, n) == (items + Stamp(before, n)) + [Item(n, a)];
      LatestSnoc(items + Stamp(before, n), Item(n, a), FileOf(path));
    }
  }

  lemma StampAround(items: seq<Item>, actions: seq<LogAction>, n: int, i: nat)
    requires i < |actions|
    ensures items + Stamp(actions, n) == items + Stamp(actions[..i], n) + [Item(n, actions[i])] + Stamp(actions[i + 1..], n)
  {}

  /** A remove and the metadata of an add before it. */
  predicate HoldsRemoval(r: Option<Item>, n: int, own: FileInfo, was: Option<FileInfo>) {
    && r.Some? && r.value.version == n && IsRemove(r.value.action)
    && var info := r.value.action.file.info;
    && info.time == own.time
    && info.size == (if own.size < 0 && was.Some? then was.value.size else own.size)
    && info.partitionValues == (if own.size < 0 && was.Some? then was.value.partitionValues else own.partitionValues)
  }

  /** What a version that removes a path leaves of it: the deletion time of its first remove, and that
      remove's size and partition values, or those of the file if the remove has none. */
  lemma RemoveOnTop(items: seq<Item>, actions: seq<LogAction>, n: int, path: Path, i: nat)
    requires Latest(items, FileOf(path)).Some? ==> Latest(items, FileOf(path)).value.version < n
    requires RemovesFirst(actions, i, path)
    ensures var adds := FirstAdds(FilesOf(actions[..i]));
            HoldsRemoval(Latest(items + Stamp(actions, n), FileOf(path)), n, actions[i].file.info,
                         if path in adds then Some(adds[path]) else LiveInfo(Latest(items, FileOf(path))))
  {
    var before, after := actions[..i], actions[i + 1..];
    forall j | 0 <= j < i && IsRemove(before[j]) ensures before[j].file.path != path { assert before[j] == actions[j]; }
    NoRemoveBefore(before, path);
    VersionOnTop(items, before, n, path);
    LatestSnoc(items + Stamp(before, n), Item(n, actions[i]), FileOf(path));
    RemoveStays(items + Stamp(before, n) + [Item(n, actions[i])], after, n, path);
    StampAround(items, actions, n, i);
  }

  /** The file a path names, if it is live. */
  function LiveInfo(r: Option<Item>): Option<FileInfo> {
    if r.Some? && IsAdd(r.value.action) then Some(r.value.action.file.info) else None
  }

  function InfoIn(live: LiveFiles, path: Path): Option<FileInfo> {
    if path in live then Some(live[path]) else None
  }

  lemma {:induction false} SequentialIsReplay(log: Log, n: nat, path: Path)
    requires n <= |log|
    ensures var r := Latest(Sequential(log, 0, n), FileOf(path));
            (r.Some? ==> r.value.version < n) && LiveInfo(r) == InfoIn(Replay(FilesLog(log)[..n]), path)
    decreases n
  {
    if n > 0 {
      SequentialIsReplay(log, n - 1, path);
      VersionOnTop(Sequential(log, 0, n - 1), log[n - 1], n - 1, path);
      assert FilesLog(log)[..n][..n - 1] == FilesLog(log)[..n - 1];
    }
  }

  /** So a removed file keeps the size and the partition values it had when it was live, unless the
      remove says otherwise. */
  lemma TombstoneKeepsMetadata(log: Log, n: nat, path: Path, i: nat)
    requires n < |log| && RemovesFirst(log[n], i, path) && path !in FirstAdds(FilesOf(log[n][..i]))
    ensures HoldsRemoval(Latest(Sequential(log, 0, n + 1), FileOf(path)), n, log[n][i].file.info,
                         InfoIn(Replay(FilesLog(log)[..n]), path))
  {
    SequentialIsReplay(log, n, path);
    RemoveOnTop(Sequential(log, 0, n), log[n], n, path, i);
  }

  /** Action i of version v is the last one about the slot before version n. */
  predicate IsLastOf(log: Log, n: nat, k: Slot, v: nat, i: nat)
    requires n <= |log|
  {
    && v < n && i < |log[v]| && SlotOf(log[v][i]) == k
    && (forall j | i < j < |log[v]| :: SlotOf(log[v][j]) != k)
    && forall u, j | v < u < n && 0 <= j < |log[u]| :: SlotOf(log[u][j]) != k
  }

  /** Of protocol, metadata, application transactions and domains the last action counts. */
  lemma {:induction false} LastActionCounts(log: Log, n: nat, k: Slot, v: nat, i: nat)
    requires n <= |log| && !k.FileOf? && IsLastOf(log, n, k, v, i)
    ensures Latest(Sequential(log, 0, n), k) == Some(Item(v, log[v][i]))
    decreases n
  {
    var before := Sequential(log, 0, n - 1);
    SlotVersions(log, n - 1, k);
    if v == n - 1 {
      LastOfVersion(before, log[v], v, k, i);
    } else {
      LastActionCounts(log, n - 1, k, v, i);
      NotMentioned(before, log[n - 1], n - 1, k);
    }
  }

  lemma {:induction false} SlotVersions(log: Log, n: nat, k: Slot)
    requires n <= |log|
    ensures var r := Latest(Sequential(log, 0, n), k); r.Some? ==> r.value.version < n
    decreases n
  {
    if n > 0 {
      SlotVersions(log, n - 1, k);
      VersionsGrow(Sequential(log, 0, n - 1), log[n - 1], n - 1, k);
    }
  }

  lemma {:induction false} VersionsGrow(items: seq<Item>, actions: seq<LogAction>, n: int, k: Slot)
    requires Latest(items, k).Some? ==> Latest(items, k).value.version <= n
    ensures var r := Latest(items + Stamp(actions, n), k); r.Some? ==> r.value.version <= n
    decreases |actions|
  {
    if actions == [] {
      assert items + Stamp(actions, n) == items;
    } else {
      var before := actions[..|actions| - 1];
      VersionsGrow(items, before, n, k);
      StampSnoc(items, actions, n);
      LatestSnoc(items + Stamp(before, n), Item(n, actions[|actions| - 1]), k);
    }
  }

  lemma StampSnoc(items: seq<Item>, actions: seq<LogAction>, n: int)
    requires actions != []
    ensures items + Stamp(actions, n) == items + Stamp(actions[..|actions| - 1], n) + [Item(n, actions[|actions| - 1])]
  {}

  lemma {:induction false} NotMentioned(items: seq<Item>, actions: seq<LogAction>, n: int, k: Slot)
    requires forall j | 0 <= j < |actions| :: SlotOf(actions[j]) != k
    ensures Latest(items + Stamp(actions, n), k) == Latest(items, k)
    decreases |actions|
  {
    if actions == [] {
      assert items + Stamp(actions, n) == items;
    } else {
      var before := actions[..|actions| - 1];
      NotMentioned(items, before, n, k);
      StampSnoc(items, actions, n);
      LatestSnoc(items + Stamp(before, n), Item(n, actions[|actions| - 1]), k);
    }
  }

  lemma {:induction false} LastOfVersion(items: seq<Item>, actions: seq<LogAction>, n: int, k: Slot, i: nat)
    requires !k.FileOf? && i < |actions| && SlotOf(actions[i]) == k
    requires Latest(items, k).Some? ==> Latest(items, k).value.version <= n
    requires forall j | i < j < |actions| :: SlotOf(actions[j]) != k
    ensures Latest(items + Stamp(actions, n), k) == Some(Item(n, actions[i]))
    decreases |actions|
  {
    var before := actions[..|actions| - 1];
    StampSnoc(items, actions, n);
    LatestSnoc(items + Stamp(before, n), Item(n, actions[|actions| - 1]), k);
    if i < |before| { LastOfVersion(items, before, n, k, i); } else { VersionsGrow(items, before, n, k); }
  }

  lemma ScheduleIsReplay(log: Log, items: seq<Item>, path: Path)
    requires Schedule(items, log, 0, |log|)
    ensures LiveInfo(Latest(items, FileOf(path))) == InfoIn(Replay(FilesLog(log)), path)
  {
    SequentialIsSchedule(log, 0, |log|);
    SchedulesAgree(items, Sequential(log, 0, |log|), FileOf(path));
    SequentialIsReplay(log, |log|, path);
    assert FilesLog(log)[..|log|] == FilesLog(log);
  }

  /** Parsing a log in parallel gives exactly the live files of sequential replay, with their
      statistics, sizes, times, partition values and tags. */
  lemma ParallelParseIsReplay(log: Log, ranges: seq<(nat, nat)>, items: seq<Item>, path: Path)
    requires Partition(ranges, 0, |log|)
    requires forall i | 0 <= i < |ranges| :: ranges[i].1 <= |log|
    requires Interleaving(items, Parts(log, ranges))
    ensures LiveInfo(Latest(items, FileOf(path))) == InfoIn(Replay(FilesLog(log)), path)
  {
    ParallelParse(log, ranges, 0, |log|, items);
    ScheduleIsReplay(log, items, path);
  }
}
