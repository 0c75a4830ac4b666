/** The files a transaction creates and deletes, its own view of the table while it does, and the
    commit it writes at the end (register_created_file, register_deleted_file, build_commit_log,
    DeltaLogManager::upsert, DeltaLogEntry::update). */
module WriteSet {
  import opened DeltaReplay
  import opened DeltaLogState
  import LogSchedule

  /** DeltaLogEntry::update: what an operation makes of an entry. */
  function UpdateEntry(current: Operation, op: Operation, overwrite: bool): Operation {
    if overwrite then op
    else match (current, op)
      case (ADD, DELETE) => DELETE
      case (NONE, _) => op
      case _ => current
  }

  function AllUpdated(ops: seq<Operation>): Operation {
    if ops == [] then NONE else UpdateEntry(AllUpdated(ops[..|ops| - 1]), ops[|ops| - 1], false)
  }

  /** Without overwriting, a removal wins whenever it comes, except over metadata that was first. */
  lemma {:induction false} RemovalWins(ops: seq<Operation>)
    ensures AllUpdated(ops) == NONE <==> forall i | 0 <= i < |ops| :: ops[i] == NONE
    ensures AllUpdated(ops) == METADATA <==> exists i | 0 <= i < |ops| :: IsFirst(ops, i) && ops[i] == METADATA
    ensures AllUpdated(ops) == DELETE <==> DELETE in ops && AllUpdated(ops) != METADATA
  {
    if ops != [] {
      var before, k := ops[..|ops| - 1], |ops| - 1;
      RemovalWins(before);
      assert ops == before + [ops[k]];
      assert forall i | 0 <= i < k :: before[i] == ops[i] && IsFirst(before, i) == IsFirst(ops, i);
    }
  }

  /** Operation i is the first one other than NONE. */
  predicate IsFirst(ops: seq<Operation>, i: nat)
    requires i < |ops|
  {
    ops[i] != NONE && forall j | 0 <= j < i :: ops[j] == NONE
  }

  /** stats: the statistics as JSON. size: negative if it is not known. */
  datatype FileStats = FileStats(valid: bool, size: int, stats: string)

  datatype Entry = Entry(op: Operation, size: int)

  /** log: the transaction's view of the table; paths without an entry are unknown. */
  datatype Files = Files(created: map<Path, FileStats>, deleted: map<Path, FileStats>, log: map<Path, Entry>)

  datatype Change = Create(path: Path, size: int, stats: string, overwrite: bool) | Delete(path: Path)

  /** The entry of a new path comes without a size, and no entry ever changes its size. */
  function Upsert(log: map<Path, Entry>, path: Path, op: Operation, overwrite: bool): map<Path, Entry> {
    log[path := if path in log then log[path].(op := UpdateEntry(log[path].op, op, overwrite)) else Entry(op, -1)]
  }

  function Invalid(files: map<Path, FileStats>, path: Path): map<Path, FileStats> {
    if path in files then files[path := files[path].(valid := false)] else files
  }

  /** get_size */
  function SizeIn(log: map<Path, Entry>, path: Path): int {
    if path in log then log[path].size else -1
  }

  function Changed(f: Files, change: Change): Files {
    match change
    case Create(path, size, stats, overwrite) =>
      Files(f.created[path := FileStats(true, size, stats)], Invalid(f.deleted, path), Upsert(f.log, path, ADD, overwrite))
    case Delete(path) =>
      Files(Invalid(f.created, path), f.deleted[path := FileStats(true, SizeIn(f.log, path), "")],
            Upsert(f.log, path, DELETE, false))
  }

  function AllChanged(start: Files, changes: seq<Change>): Files {
    if changes == [] then start else Changed(AllChanged(start, changes[..|changes| - 1]), changes[|changes| - 1])
  }

  /** A transaction that has changed nothing. */
  predicate Untouched(f: Files) {
    f.created == map[] && f.deleted == map[] && forall p <- f.log :: f.log[p].op == ADD || f.log[p].op == DELETE
  }

  predicate ValidIn(files: map<Path, FileStats>, path: Path) { path in files && files[path].valid }

  predicate LiveIn(f: Files, path: Path) { path in f.log && f.log[path].op == ADD }

  // ---- the state in place -----------------------------------------------------------------------

  class TableStats {
    var created: map<Path, FileStats>
    var deleted: map<Path, FileStats>
    var log: map<Path, Entry>

    ghost function View(): Files
      reads this
    {
      Files(created, deleted, log)
    }

    /** DeltaLogManager::upsert */
    method RegisterOperation(path: Path, op: Operation, overwrite: bool)
      modifies this`log
      ensures log == Upsert(old(log), path, op, overwrite)
    {
      if path in log {
        log := log[path := log[path].(op := UpdateEntry(log[path].op, op, overwrite))];
      } else {
        log := log[path := Entry(op, -1)];
      }
    }

    method RegisterCreatedFile(path: Path, size: int, stats: string, overwrite: bool)
      modifies this
      ensures View() == Changed(old(View()), Create(path, size, stats, overwrite))
    {
      created := created[path := FileStats(true, size, stats)];
      if path in deleted {
        deleted := deleted[path := deleted[path].(valid := false)];
      }
      RegisterOperation(path, ADD, overwrite);
    }

    method RegisterDeletedFile(path: Path)
      modifies this
      ensures View() == Changed(old(View()), Delete(path))
    {
      deleted := deleted[path := FileStats(true, SizeIn(log, path), "")];
      if path in created {
        created := created[path := created[path].(valid := false)];
      }
      RegisterOperation(path, DELETE, false);
    }

    /** build_commit_log: an add per valid created file, then a remove per valid deleted one. */
    method BuildCommitLog(now: int) returns (actions: seq<FileAction>)
      ensures IsCommit(View(), now, actions)
    {
      actions := [];
      var rest := created.Keys;
      while rest != {}
        invariant rest <= created.Keys
        invariant forall p :: p in FirstAdds(actions) <==> p !in rest && ValidIn(created, p) && p != ""
        invariant forall p <- FirstAdds(actions) :: p in created && FirstAdds(actions)[p] == AddInfo(created[p], now)
        invariant forall a <- actions :: a.Add?
        decreases rest
      {
        var p :| p in rest;
        if created[p].valid && p != "" {
          ActionsSnoc(actions, Add(p, AddInfo(created[p], now)));
          actions := actions + [Add(p, AddInfo(created[p], now))];
        }
        rest := rest - {p};
      }
      ghost var adds := FirstAdds(actions);
      rest := deleted.Keys;
      while rest != {}
        invariant rest <= deleted.Keys
        invariant FirstAdds(actions) == adds
        invariant forall p :: p in RemovedPaths(actions) <==> p !in rest && ValidIn(deleted, p) && p != ""
        invariant forall a <- actions | a.Remove? :: a.path in deleted && a.info == RemoveInfo(deleted[a.path], now)
        decreases rest
      {
        var p :| p in rest;
        if deleted[p].valid && p != "" {
          ActionsSnoc(actions, Remove(p, RemoveInfo(deleted[p], now)));
          actions := actions + [Remove(p, RemoveInfo(deleted[p], now))];
        }
        rest := rest - {p};
      }
    }
  }

  /** createOperationAddEntry: an unknown size is written as 0. */
  function AddInfo(file: FileStats, now: int): FileInfo {
    FileInfo(file.stats, if file.size < 0 then 0 else file.size, now, "{}", "")
  }

  /** createOperationDeleteEntry: an unknown size is left out. */
  function RemoveInfo(file: FileStats, now: int): FileInfo {
    FileInfo("", file.size, now, "{}", "")
  }

  ghost predicate IsCommit(f: Files, now: int, actions: seq<FileAction>) {
    && (forall p :: p in FirstAdds(actions) <==> ValidIn(f.created, p) && p != "")
    && (forall p <- FirstAdds(actions) :: p in f.created && FirstAdds(actions)[p] == AddInfo(f.created[p], now))
    && (forall p :: p in RemovedPaths(actions) <==> ValidIn(f.deleted, p) && p != "")
    && (forall a <- actions | a.Remove? :: a.path in f.deleted && a.info == RemoveInfo(f.deleted[a.path], now))
  }

  lemma ActionsSnoc(actions: seq<FileAction>, a: FileAction)
    ensures FirstAdds(actions + [a]) ==
              if a.Add? && a.path !in FirstAdds(actions) then FirstAdds(actions)[a.path := a.info] else FirstAdds(actions)
    ensures RemovedPaths(actions + [a]) == RemovedPaths(actions) + if a.Remove? then {a.path} else {}
  {
    LogSchedule.FirstAddsSnoc(actions, a);
    LogSchedule.RemovedPathsSnoc(actions, a);
  }

  // ---- what the commit means ---------------------------------------------------------------------

  /** The last change of a path adds it without overwriting, while the view holds its removal. */
  predicate Clashes(start: Files, changes: seq<Change>, path: Path) {
    if changes == [] then false
    else
      var before, change := changes[..|changes| - 1], changes[|changes| - 1];
      if change.path != path then Clashes(start, before, path)
      else
        var f := AllChanged(start, before);
        change.Create? && !change.overwrite && path in f.log && f.log[path].op == DELETE
  }

  predicate Touched(changes: seq<Change>, path: Path) {
    changes != [] && (changes[|changes| - 1].path == path || Touched(changes[..|changes| - 1], path))
  }

  /** Each touched path is valid as created or as deleted, never as both; the transaction sees it
      exactly if it is valid as created, unless its last change clashes, and then it does not. */
  lemma {:induction false} TouchedPaths(start: Files, changes: seq<Change>, path: Path)
    requires Untouched(start)
    ensures var f := AllChanged(start, changes);
            && (forall p <- f.log :: f.log[p].op == ADD || f.log[p].op == DELETE)
            && !(ValidIn(f.created, path) && ValidIn(f.deleted, path))
            && (Touched(changes, path) <==> ValidIn(f.created, path) || ValidIn(f.deleted, path))
            && (Touched(changes, path) ==> (LiveIn(f, path) <==> ValidIn(f.created, path) && !Clashes(start, changes, path)))
            && (!Touched(changes, path) ==> !Clashes(start, changes, path) && (LiveIn(f, path) <==> LiveIn(start, path)))
            && (Clashes(start, changes, path) ==> ValidIn(f.created, path))
  {
    if changes != [] {
      var before, change := changes[..|changes| - 1], changes[|changes| - 1];
      TouchedPaths(start, before, path);
    }
  }

  /** The snapshot after the commit and the transaction's own view agree on a path. */
  predicate Agrees(f: Files, live: LiveFiles, actions: seq<FileAction>, path: Path) {
    path in ApplyVersion(live, actions) <==> LiveIn(f, path)
  }

  lemma {:induction false} NamedTouched(changes: seq<Change>, path: Path)
    requires forall i | 0 <= i < |changes| :: changes[i].path != ""
    ensures Touched(changes, path) ==> path != ""
  {
    if changes != [] { NamedTouched(changes[..|changes| - 1], path); }
  }

  /** Read your writes: the commit never adds and removes the same path, and replaying it on the
      snapshot the transaction started from gives the files the transaction itself saw, exactly
      for the paths whose last change does not clash. */
  lemma ReplayIsView(start: Files, changes: seq<Change>, live: LiveFiles, now: int, actions: seq<FileAction>, path: Path)
    requires Untouched(start) && (path in live <==> LiveIn(start, path))
    requires forall i | 0 <= i < |changes| :: changes[i].path != ""
    requires IsCommit(AllChanged(start, changes), now, actions)
    ensures !(path in FirstAdds(actions) && path in RemovedPaths(actions))
    ensures Agrees(AllChanged(start, changes), live, actions, path) <==> !Clashes(start, changes, path)
  {
    TouchedPaths(start, changes, path);
    NamedTouched(changes, path);
  }

  /** Change i is the last one of its path. */
  predicate IsLast(changes: seq<Change>, i: nat) {
    i < |changes| && forall j | i < j < |changes| :: changes[j].path != changes[i].path
  }

  /** The files know what the last change of a path said, and the view keeps the sizes it started with. */
  lemma {:induction false} LastChange(start: Files, changes: seq<Change>, i: nat)
    requires Untouched(start) && IsLast(changes, i)
    ensures var f, change := AllChanged(start, changes), changes[i];
            match change
            case Create(path, size, stats, _) => path in f.created && f.created[path] == FileStats(true, size, stats)
            case Delete(path) => path in f.deleted && f.deleted[path] == FileStats(true, SizeIn(start.log, path), "")
  {
    var before, change := changes[..|changes| - 1], changes[|changes| - 1];
    SizesStay(start, before, changes[i].path);
    if i < |before| { LastChange(start, before, i); }
  }

  lemma {:induction false} SizesStay(start: Files, changes: seq<Change>, path: Path)
    ensures SizeIn(AllChanged(start, changes).log, path) == SizeIn(start.log, path)
  {
    if changes != [] { SizesStay(start, changes[..|changes| - 1], path); }
  }

  lemma {:induction false} NotTouched(changes: seq<Change>, path: Path)
    ensures Touched(changes, path) <==> exists i :: 0 <= i < |changes| && changes[i].path == path
  {
    if changes != [] {
      var before := changes[..|changes| - 1];
      NotTouched(before, path);
      assert forall i | 0 <= i < |before| :: before[i] == changes[i];
    }
  }

  /** The commit says of each path what its last change said: after a create the new snapshot has
      the file with the statistics and the size it was created with; a remove carries the size the
      file had in the snapshot. */
  lemma CommitIsLastChange(start: Files, changes: seq<Change>, live: LiveFiles, now: int, actions: seq<FileAction>, i: nat)
    requires Untouched(start) && IsLast(changes, i) && changes[i].path != ""
    requires IsCommit(AllChanged(start, changes), now, actions)
    ensures var path := changes[i].path;
            && (path in ApplyVersion(live, actions) <==> changes[i].Create?)
            && (changes[i].Create? ==>
                  var info := ApplyVersion(live, actions)[path];
                  && info.stats == changes[i].stats && info.time == now
                  && info.size == if changes[i].size < 0 then 0 else changes[i].size)
    ensures changes[i].Delete? <==> changes[i].path in RemovedPaths(actions)
    ensures forall a <- actions | a.Remove? && a.path == changes[i].path ::
              a.info.time == now && a.info.size == if a.path in start.log then start.log[a.path].size else -1
  {
    var path := changes[i].path;
    LastChange(start, changes, i);
    NotTouched(changes, path);
    TouchedPaths(start, changes, path);
  }

  /** All other files stay what they were. */
  lemma OthersStay(start: Files, changes: seq<Change>, live: LiveFiles, now: int, actions: seq<FileAction>, path: Path)
    requires Untouched(start) && forall i | 0 <= i < |changes| :: changes[i].path != path
    requires IsCommit(AllChanged(start, changes), now, actions)
    ensures path in ApplyVersion(live, actions) <==> path in live
    ensures path in live ==> ApplyVersion(live, actions)[path] == live[path]
  {
    NotTouched(changes, path);
    TouchedPaths(start, changes, path);
  }

  /** It happens: a removed path is created again without overwriting. The commit adds it, the
      transaction does not see it. */
  lemma ClashHappens(path: Path, size: int, stats: string)
    ensures var start := Files(map[], map[], map[path := Entry(ADD, size)]);
            var changes := [Delete(path), Create(path, size, stats, false)];
            Untouched(start) && Clashes(start, changes, path)
            && ValidIn(AllChanged(start, changes).created, path) && !LiveIn(AllChanged(start, changes), path)
  {
    var start := Files(map[], map[], map[path := Entry(ADD, size)]);
    var changes := [Delete(path), Create(path, size, stats, false)];
    assert changes[..1] == [Delete(path)] && changes[..1][..0] == [];
    assert AllChanged(start, changes[..1]) == Changed(start, Delete(path));
  }
}
