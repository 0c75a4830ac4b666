/** Removing and updating the rows of a key in a table whose files are never changed: files are
    searched by their statistics, their other rows are rewritten, and the files are swapped. */
module KeyDelete {
  import opened Options
  import opened DeltaReplay
  import opened KeyIndex
  import opened ColumnStatistics
  import opened RowSelection

  datatype DataFile = DataFile(rows: seq<Row>, min: Stat, max: Stat, records: int)

  type Live = map<Path, DataFile>

  /** All rows of the table. */
  ghost function LiveRows(live: Live): multiset<Row> {
    if live == map[] then multiset{}
    else
      var p :| p in live;
      multiset(live[p].rows) + LiveRows(live - {p})
  }

  lemma {:induction false} LiveRowsSplit(live: Live, p: Path)
    requires p in live
    ensures LiveRows(live) == multiset(live[p].rows) + LiveRows(live - {p})
    decreases |live|
  {
    var q :| q in live && LiveRows(live) == multiset(live[q].rows) + LiveRows(live - {q});
    if q != p {
      LiveRowsSplit(live - {q}, p);
      LiveRowsSplit(live - {p}, q);
      assert live - {q} - {p} == live - {p} - {q};
    }
  }

  lemma LiveRowsAdd(live: Live, p: Path, file: DataFile)
    requires p !in live
    ensures LiveRows(live[p := file]) == LiveRows(live) + multiset(file.rows)
  {
    LiveRowsSplit(live[p := file], p);
    assert live[p := file] - {p} == live;
  }

  // ---- what is assumed of files ------------------------------------------------------------------

  predicate Typed(kind: Kind, rows: seq<Row>, width: nat) {
    forall row <- rows ::
      && |row.cells| == width
      && (row.key.Some? && kind == Integer ==> row.key.value.Number? && IsInt64(row.key.value.n))
      && (row.key.Some? && kind == String ==> row.key.value.Characters?)
  }

  ghost predicate KeyOk(m: KeyMatcher) {
    m.Consistent() && (m.kind == Date ==> m.date([]).None?)
  }

  /** Its statistics are honest. */
  ghost predicate FileOk(m: KeyMatcher, file: DataFile, width: nat) {
    && KeyOk(m)
    && Typed(m.kind, file.rows, width)
    && Honest(m, ColumnOf(file.rows), file.min, file.max, file.records)
  }

  ghost predicate Trusted(m: KeyMatcher, live: Live, width: nat) {
    KeyOk(m) && forall p {:trigger FileOk(m, live[p], width)} | p in live :: FileOk(m, live[p], width)
  }

  /** The statistics claim that the file is one row with the key, and it is not. */
  ghost predicate Misread(m: KeyMatcher, file: DataFile) {
    && m.Consistent() && Classify(m, Read(file.min), Read(file.max), file.records) == Exact
    && ColumnOf(file.rows) != [Some(m.value)]
  }

  /** That only happens to a file of one null row with null statistics, and for the empty key. */
  lemma MisreadIsOneNullRow(m: KeyMatcher, file: DataFile, width: nat)
    requires FileOk(m, file, width) && Misread(m, file)
    ensures m.kind == String && m.key == [] && (file.min.Null? || file.max.Null?)
    ensures |file.rows| == 1 && file.rows[0].key == None && KeyRows(m, file.rows) == []
  {
    ExactIsOneRow(m, ColumnOf(file.rows), file.min, file.max, file.records);
    assert ColumnOf(file.rows)[0] == file.rows[0].key;
    assert file.rows[..0] == [];
  }

  /** The files without the misread ones. */
  ghost function Sane(m: KeyMatcher, live: Live): (sane: Live)
    ensures sane.Keys <= live.Keys
  {
    map p <- live | !Misread(m, live[p]) :: live[p]
  }

  // ---- the files of a key -------------------------------------------------------------------------

  /** data: None if the file was not read. */
  datatype KeyFile = KeyFile(path: Path, data: Option<seq<Row>>, rows: seq<nat>, exact: bool)
  {
    predicate AllRows() {
      exact || (data.Some? && |rows| == |data.value|)
    }
  }

  /** What a found file knows of the file is true. */
  predicate Describes(m: KeyMatcher, file: KeyFile, rows: seq<Row>) {
    && KeyRows(m, rows) != []
    && (file.exact ==> KeyRows(m, rows) == rows)
    && (file.data.Some? ==> file.data.value == rows && file.rows == KeyIndices(m, rows))
    && (file.data.Some? || file.exact)
  }

  /** Exactly the files with rows of the key, each once. */
  ghost predicate Finds(m: KeyMatcher, files: seq<KeyFile>, live: Live) {
    && (forall i | 0 <= i < |files| :: files[i].path in live && Describes(m, files[i], live[files[i].path].rows))
    && (forall i, j | 0 <= i < j < |files| :: files[i].path != files[j].path)
    && (forall p <- live | KeyRows(m, live[p].rows) != [] :: p in Paths(files))
  }

  function Paths(files: seq<KeyFile>): (paths: set<Path>)
    ensures forall i | 0 <= i < |files| :: files[i].path in paths
    ensures forall p <- paths :: exists i :: 0 <= i < |files| && files[i].path == p
  {
    set file <- files :: file.path
  }

  lemma KeyRowExists(m: KeyMatcher, rows: seq<Row>)
    requires KeyRows(m, rows) != []
    ensures m.valid && HasRow(ColumnOf(rows), m.value)
  {
    RowsDivide(m, rows);
    var row := KeyRows(m, rows)[0];
    assert row in KeyRows(m, rows);
    var i :| 0 <= i < |rows| && rows[i] == row;
    assert ColumnOf(rows)[i] == Some(m.value);
  }

  lemma ExactFile(m: KeyMatcher, rows: seq<Row>)
    requires m.valid && ColumnOf(rows) == [Some(m.value)]
    ensures KeyRows(m, rows) == rows && rows != []
  {
    assert ColumnOf(rows)[0] == rows[0].key;
    assert rows[..0] == [] && rows == [rows[0]];
  }

  /** What the search of one file may answer. Files that are read are never misread. */
  ghost predicate Answers(m: KeyMatcher, r: Option<KeyFile>, p: Path, file: DataFile, readExact: bool) {
    if !readExact && Misread(m, file) then r == Some(KeyFile(p, None, [], true))
    else if r.None? then KeyRows(m, file.rows) == []
    else r.value.path == p && Describes(m, r.value, file.rows) && (readExact ==> r.value.data.Some?)
  }

  /** What the search of the files without `rest` found. */
  ghost predicate Searched(m: KeyMatcher, files: seq<KeyFile>, live: Live, rest: set<Path>, readExact: bool) {
    && rest <= live.Keys
    && (forall i | 0 <= i < |files| ::
          files[i].path in live && files[i].path !in rest
          && Answers(m, Some(files[i]), files[i].path, live[files[i].path], readExact))
    && (forall i, j | 0 <= i < j < |files| :: files[i].path != files[j].path)
    && (forall p <- live | p !in rest && p !in Paths(files) :: Answers(m, None, p, live[p], readExact))
  }

  lemma SearchedOne(m: KeyMatcher, files: seq<KeyFile>, live: Live, rest: set<Path>, p: Path, r: Option<KeyFile>, readExact: bool)
    requires Searched(m, files, live, rest, readExact) && p in rest && Answers(m, r, p, live[p], readExact)
    ensures Searched(m, if r.Some? then files + [r.value] else files, live, rest - {p}, readExact)
  {
    if r.Some? {
      var files' := files + [r.value];
      assert r.value.path == p && Paths(files') == Paths(files) + {p};
      forall i | 0 <= i < |files'|
        ensures files'[i].path in live && files'[i].path !in rest - {p}
        ensures Answers(m, Some(files'[i]), files'[i].path, live[files'[i].path], readExact)
      {
        if i < |files| { assert files'[i] == files[i]; }
      }
      forall q <- live | q !in rest - {p} && q !in Paths(files') ensures Answers(m, None, q, live[q], readExact) {
        assert q !in rest && q !in Paths(files);
      }
    }
  }

  /** find_key_files */
  method FindKeyFiles(m: KeyMatcher, live: Live, readExact: bool, ghost width: nat) returns (files: seq<KeyFile>)
    requires Trusted(m, live, width)
    ensures Searched(m, files, live, {}, readExact)
    ensures readExact ==> Finds(m, files, live) && forall file <- files :: file.data.Some?
  {
    files := [];
    var rest := live.Keys;
    while rest != {}
      invariant Searched(m, files, live, rest, readExact)
      decreases rest
    {
      var p :| p in rest;
      var file := FindInFile(m, p, live[p], readExact, width);
      SearchedOne(m, files, live, rest, p, file, readExact);
      rest := rest - {p};
      if file.Some? { files := files + [file.value]; }
    }
  }

  method FindInFile(m: KeyMatcher, p: Path, file: DataFile, readExact: bool, ghost width: nat) returns (r: Option<KeyFile>)
    requires FileOk(m, file, width)
    ensures Answers(m, r, p, file, readExact)
  {
    var match_ := Classify(m, Read(file.min), Read(file.max), file.records);
    if match_ == NoRow {
      if KeyRows(m, file.rows) != [] {
        KeyRowExists(m, file.rows);
        SkippedHasNoRow(m, ColumnOf(file.rows), file.min, file.max, file.records);
      }
      return None;
    }
    if match_ == Exact {
      if ColumnOf(file.rows) == [Some(m.value)] { ExactFile(m, file.rows); }
      else { MisreadIsOneNullRow(m, file, width); }
      if !readExact { return Some(KeyFile(p, None, [], true)); }
    }
    OneChunk(ColumnOf(file.rows));
    var rows := RowsOf(m, [ColumnOf(file.rows)], file.rows);
    PickedRows(m, file.rows);
    if rows == [] { return None; }
    return Some(KeyFile(p, Some(file.rows), rows, match_ == Exact));
  }

  // ---- removing file by file -----------------------------------------------------------------------

  /** Only the files in todo still have rows of the key; no other row was touched. */
  ghost predicate Pending(m: KeyMatcher, todo: set<Path>, part: Live, start: Live, width: nat) {
    && Trusted(m, part, width)
    && (forall p <- part | KeyRows(m, part[p].rows) != [] :: p in todo)
    && (forall row | !IsKeyRow(m, row) :: LiveRows(part)[row] == LiveRows(start)[row])
  }

  /** When no file is pending, exactly the rows of the key are gone. */
  lemma PendingAtEnd(m: KeyMatcher, part: Live, start: Live, width: nat)
    requires Pending(m, {}, part, start, width)
    ensures forall row :: LiveRows(part)[row] == if IsKeyRow(m, row) then 0 else LiveRows(start)[row]
  {
    forall row | IsKeyRow(m, row) ensures LiveRows(part)[row] == 0 {
      NoKeyRows(m, part, row);
    }
  }

  lemma {:induction false} NoKeyRows(m: KeyMatcher, live: Live, row: Row)
    requires IsKeyRow(m, row) && forall p <- live :: KeyRows(m, live[p].rows) == []
    ensures LiveRows(live)[row] == 0
    decreases |live|
  {
    if live != map[] {
      var p :| p in live && LiveRows(live) == multiset(live[p].rows) + LiveRows(live - {p});
      NoKeyRows(m, live - {p}, row);
      NoKeyRow(m, live[p].rows, row);
    }
  }

  lemma NoKeyRow(m: KeyMatcher, rows: seq<Row>, row: Row)
    requires IsKeyRow(m, row) && KeyRows(m, rows) == []
    ensures multiset(rows)[row] == 0
  {
    RowsDivide(m, rows);
    assert row !in OtherRowsOf(m, rows);
  }

  /** The other rows of a file hold every row that does not have the key as often as the file. */
  lemma OthersKept(m: KeyMatcher, rows: seq<Row>, row: Row)
    ensures multiset(OtherRowsOf(m, rows))[row] == if IsKeyRow(m, row) then 0 else multiset(rows)[row]
    ensures multiset(KeyRows(m, rows))[row] == if IsKeyRow(m, row) then multiset(rows)[row] else 0
  {
    RowsDivide(m, rows);
    if row in KeyRows(m, rows) { assert IsKeyRow(m, row); }
    if row in OtherRowsOf(m, rows) { assert !IsKeyRow(m, row); }
  }

  lemma {:induction false} OthersHaveNoKey(m: KeyMatcher, rows: seq<Row>)
    ensures KeyRows(m, OtherRowsOf(m, rows)) == []
  {
    if rows != [] {
      var before, row := rows[..|rows| - 1], rows[|rows| - 1];
      OthersHaveNoKey(m, before);
      var others := OtherRowsOf(m, rows);
      if !IsKeyRow(m, row) { assert others[..|others| - 1] == OtherRowsOf(m, before); }
    }
  }

  /** The live files after one file was swapped; `rest` holds its other rows, if there are any. */
  function Swapped(live: Live, p: Path, newPath: Path, rest: Option<DataFile>): Live {
    (if rest.Some? then live[newPath := rest.value] else live) - {p}
  }

  /** `rest` is a trusted file of exactly the other rows; there is none if all rows have the key. */
  ghost predicate IsRest(m: KeyMatcher, rows: seq<Row>, rest: Option<DataFile>, width: nat) {
    if rest.Some? then rest.value.rows == OtherRowsOf(m, rows) && FileOk(m, rest.value, width) && !Misread(m, rest.value)
    else KeyRows(m, rows) == rows
  }

  lemma SwappedRows(m: KeyMatcher, live: Live, p: Path, newPath: Path, rest: Option<DataFile>, row: Row)
    requires p in live && newPath !in live && !IsKeyRow(m, row)
    requires rest.Some? ==> rest.value.rows == OtherRowsOf(m, live[p].rows)
    requires rest.None? ==> KeyRows(m, live[p].rows) == live[p].rows
    ensures LiveRows(Swapped(live, p, newPath, rest))[row] == LiveRows(live)[row]
  {
    LiveRowsSplit(live, p);
    OthersKept(m, live[p].rows, row);
    if rest.Some? {
      LiveRowsAdd(live - {p}, newPath, rest.value);
      assert Swapped(live, p, newPath, rest) == (live - {p})[newPath := rest.value];
    }
  }

  lemma SwappedTrusted(m: KeyMatcher, live: Live, p: Path, newPath: Path, rest: Option<DataFile>, width: nat)
    requires Trusted(m, live, width) && (rest.Some? ==> FileOk(m, rest.value, width))
    ensures Trusted(m, Swapped(live, p, newPath, rest), width)
  {
    var live' := Swapped(live, p, newPath, rest);
    forall q | q in live' ensures FileOk(m, live'[q], width) {
      if q in live && live'[q] == live[q] { assert FileOk(m, live[q], width); }
    }
  }

  /** One more file was swapped. */
  lemma PendingStep(m: KeyMatcher, todo: set<Path>, part: Live, start: Live, width: nat,
                    p: Path, newPath: Path, rest: Option<DataFile>)
    requires Pending(m, todo, part, start, width) && p in part && newPath !in part
    requires IsRest(m, part[p].rows, rest, width)
    ensures Pending(m, todo - {p}, Swapped(part, p, newPath, rest), start, width)
  {
    var part' := Swapped(part, p, newPath, rest);
    SwappedTrusted(m, part, p, newPath, rest, width);
    forall q <- part' | KeyRows(m, part'[q].rows) != [] ensures q in todo - {p} {
      if rest.Some? && q == newPath { OthersHaveNoKey(m, part[p].rows); }
    }
    forall row | !IsKeyRow(m, row) ensures LiveRows(part')[row] == LiveRows(start)[row] {
      SwappedRows(m, part, p, newPath, rest, row);
    }
  }

  /** The files from i on, as paths. */
  function PathsFrom(files: seq<KeyFile>, i: nat): set<Path>
    requires i <= |files|
  {
    Paths(files[i..])
  }

  lemma NextPath(files: seq<KeyFile>, i: nat)
    requires i < |files|
    ensures PathsFrom(files, i) == {files[i].path} + PathsFrom(files, i + 1)
  {
    assert files[i..] == [files[i]] + files[i + 1..];
  }

  // ---- statistics of a new file ----------------------------------------------------------------

  method Statistics(m: KeyMatcher, rows: seq<Row>, ghost width: nat) returns (min: Stat, max: Stat)
    requires KeyOk(m) && Typed(m.kind, rows, width)
    ensures FileOk(m, DataFile(rows, min, max, |rows|), width) && !Misread(m, DataFile(rows, min, max, |rows|))
  {
    var column := ColumnOf(rows);
    OneChunk(column);
    forall v <- column | v.Some?
      ensures (m.kind == Integer ==> v.value.Number? && IsInt64(v.value.n)) && (m.kind == String ==> v.value.Characters?)
    {
      var i :| 0 <= i < |column| && column[i] == v;
      assert rows[i] in rows;
    }
    match m.kind {
      case Integer =>
        var first, low, high := IntegerMinMax([column]);
        IntegerStatisticsAreHonest(m, column, first, low, high);
        min, max := Written(first, NumberText(low)), Written(first, NumberText(high));
      case String =>
        var first, low, high := StringMinMax([column]);
        StringStatisticsAreHonest(m, column, first, low, high);
        min, max := Written(first, low), Written(first, high);
      case _ =>
        min, max := Absent, Absent;
    }
    if Misread(m, DataFile(rows, min, max, |rows|)) { MisreadIsOneNullRow(m, DataFile(rows, min, max, |rows|), width); }
  }

  // ---- the table as a transaction sees it ------------------------------------------------------

  /** Names of new files that no file has. */
  ghost predicate Fresh(names: nat -> Path, live: Live) {
    (forall i: nat :: names(i) !in live) && forall i: nat, j: nat | i != j :: names(i) != names(j)
  }

  class KeyTable {
    var live: Live
    var found: seq<KeyFile>       // found_files of the last search step
    var retired: set<Path>        // retired_files: found files that were removed since

    /** Writes rows as a new file; the store may fail. */
    method WriteFile(m: KeyMatcher, path: Path, rows: seq<Row>, fails: bool, ghost width: nat) returns (ok: bool, ghost file: DataFile)
      requires KeyOk(m) && Typed(m.kind, rows, width)
      modifies this`live
      ensures ok == !fails && file.rows == rows && FileOk(m, file, width) && !Misread(m, file)
      ensures live == if ok then old(live)[path := file] else old(live)
    {
      var min, max := Statistics(m, rows, width);
      file := DataFile(rows, min, max, |rows|);
      if fails { return false, file; }
      live := live[path := DataFile(rows, min, max, |rows|)];
      return true, file;
    }

    /** remove_key_rows: the other rows of the file, if any, go to a new file. */
    method RemoveKeyRows(m: KeyMatcher, file: KeyFile, newPath: Path, fails: bool, ghost width: nat)
      returns (ok: bool, ghost rest: Option<DataFile>)
      requires file.path in live && FileOk(m, live[file.path], width)
      requires !file.exact ==> Describes(m, file, live[file.path].rows)
      modifies this`live
      ensures ok ==> live == Swapped(old(live), file.path, newPath, rest)
      ensures Describes(m, file, old(live)[file.path].rows) ==> IsRest(m, old(live)[file.path].rows, rest, width)
      ensures file.exact ==> ok && rest == None
      ensures !ok ==> fails
    {
      ghost var rows := live[file.path].rows;
      rest := None;
      if file.AllRows() {
        if Describes(m, file, rows) { AllRowsHaveKey(m, file, rows); }
      } else {
        var kept := OtherRowsOfFile(m, file, rows, width);
        ghost var written;
        ok, written := WriteFile(m, newPath, kept, fails, width);
        rest := Some(written);
        if !ok { return; }
      }
      live := live - {file.path};
      ok := true;
    }

    /** remove_file(key) in explicit mode: afterwards no row has the key, and every other row occurs
        as often as before, but for the rows of misread files, which are lost. False: no row has the
        key, and no file is misread, or a write failed. */
    method RemoveFile(m: KeyMatcher, names: nat -> Path, fails: nat -> bool, ghost width: nat) returns (ok: bool)
      requires Trusted(m, live, width) && Fresh(names, live)
      modifies this`live
      ensures ok ==> Trusted(m, live, width)
      ensures ok ==> forall row :: LiveRows(live)[row] == if IsKeyRow(m, row) then 0 else LiveRows(Sane(m, old(live)))[row]
      ensures !ok ==> (exists i: nat :: fails(i)) ||
                      (live == old(live) && Sane(m, live) == live && forall row | IsKeyRow(m, row) :: LiveRows(live)[row] == 0)
    {
      ghost var start := live;
      var files := FindKeyFiles(m, live, false, width);
      DeletingAtStart(m, files, live, width);
      if |files| == 0 {
        DeletingAtEnd(m, files, live, start, width);
        return false;
      }
      for i := 0 to |files|
        invariant Deleting(m, files, i, live, start, width)
        invariant forall k: nat | k >= i :: names(k) !in live
      {
        ghost var before := live;
        ghost var rest;
        DeletingFile(m, files, i, live, start, width);
        ok, rest := RemoveKeyRows(m, files[i], names(i), fails(i), width);
        if !ok { return; }
        DeletingStep(m, files, i, before, start, width, names(i), rest);
      }
      DeletingAtEnd(m, files, live, start, width);
      ok := true;
    }
  }

  lemma AllRowsHaveKey(m: KeyMatcher, file: KeyFile, rows: seq<Row>)
    requires Describes(m, file, rows) && file.AllRows()
    ensures KeyRows(m, rows) == rows
  {
    if !file.exact { KeyEverywhere(m, rows); }
  }

  lemma {:induction false} KeyEverywhere(m: KeyMatcher, rows: seq<Row>)
    requires |KeyIndices(m, rows)| == |rows|
    ensures KeyRows(m, rows) == rows
  {
    if rows != [] {
      KeyEverywhere(m, rows[..|rows| - 1]);
      assert rows == rows[..|rows| - 1] + [rows[|rows| - 1]];
    }
  }

  method OtherRowsOfFile(m: KeyMatcher, file: KeyFile, ghost rows: seq<Row>, ghost width: nat) returns (kept: seq<Row>)
    requires Describes(m, file, rows) && !file.AllRows() && Typed(m.kind, rows, width)
    ensures kept == OtherRowsOf(m, rows) && Typed(m.kind, kept, width)
  {
    PickedRows(m, rows);
    RowsDivide(m, rows);
    var others := OtherRows(|file.data.value|, file.rows);
    OthersOfKey(m, rows, others);
    kept := SelectRows(file.data.value, others);
  }

  // ---- DELETE with misread files ---------------------------------------------------------------

  /** Files i and up are still as the search saw them; all files with rows of the key, and all
      misread ones, are among them. */
  ghost predicate Deleting(m: KeyMatcher, files: seq<KeyFile>, i: nat, live: Live, start: Live, width: nat) {
    && i <= |files| && Trusted(m, live, width)
    && (forall j, k | i <= j < k < |files| :: files[j].path != files[k].path)
    && (forall j | i <= j < |files| :: files[j].path in live && Answers(m, Some(files[j]), files[j].path, live[files[j].path], false))
    && MisreadAmong(m, live, PathsFrom(files, i))
    && Pending(m, PathsFrom(files, i), Sane(m, live), Sane(m, start), width)
  }

  lemma DeletingAtStart(m: KeyMatcher, files: seq<KeyFile>, start: Live, width: nat)
    requires Trusted(m, start, width) && Searched(m, files, start, {}, false)
    ensures Deleting(m, files, 0, start, start, width)
  {
    assert files[0..] == files;
    forall p <- start ensures p !in Paths(files) ==> KeyRows(m, start[p].rows) == [] && !Misread(m, start[p]) {
      if p !in Paths(files) { assert Answers(m, None, p, start[p], false); }
    }
  }

  lemma DeletingFile(m: KeyMatcher, files: seq<KeyFile>, i: nat, live: Live, start: Live, width: nat)
    requires Deleting(m, files, i, live, start, width) && i < |files|
    ensures var p := files[i].path;
            && p in live && FileOk(m, live[p], width)
            && (if Misread(m, live[p]) then files[i].exact else Describes(m, files[i], live[p].rows))
  {}

  /** The files that are still to be removed stay as they are. */
  lemma AnswersKept(m: KeyMatcher, files: seq<KeyFile>, i: nat, live: Live, newPath: Path, rest: Option<DataFile>)
    requires i < |files| && newPath !in live && forall j, k | i <= j < k < |files| :: files[j].path != files[k].path
    requires forall j | i <= j < |files| :: files[j].path in live && Answers(m, Some(files[j]), files[j].path, live[files[j].path], false)
    ensures var live' := Swapped(live, files[i].path, newPath, rest);
            forall j | i + 1 <= j < |files| ::
              files[j].path in live' && Answers(m, Some(files[j]), files[j].path, live'[files[j].path], false)
  {
    var live' := Swapped(live, files[i].path, newPath, rest);
    forall j | i + 1 <= j < |files|
      ensures files[j].path in live' && Answers(m, Some(files[j]), files[j].path, live'[files[j].path], false)
    {
      assert live'[files[j].path] == live[files[j].path];
    }
  }

  ghost predicate MisreadAmong(m: KeyMatcher, live: Live, paths: set<Path>) {
    forall p {:trigger Misread(m, live[p])} | p in live && Misread(m, live[p]) :: p in paths
  }

  /** The new file is not misread. */
  lemma MisreadStay(m: KeyMatcher, live: Live, p: Path, newPath: Path, rest: Option<DataFile>, paths: set<Path>)
    requires MisreadAmong(m, live, paths) && p in live && newPath !in live && (rest.Some? ==> !Misread(m, rest.value))
    ensures MisreadAmong(m, Swapped(live, p, newPath, rest), paths - {p})
  {
    var live' := Swapped(live, p, newPath, rest);
    forall q | q in live' && Misread(m, live'[q]) ensures q in paths - {p} {
      assert q in live && live'[q] == live[q];
    }
  }

  lemma DeletingStep(m: KeyMatcher, files: seq<KeyFile>, i: nat, live: Live, start: Live, width: nat,
                     newPath: Path, rest: Option<DataFile>)
    requires i < |files| && Deleting(m, files, i, live, start, width) && newPath !in live
    requires files[i].exact ==> rest == None
    requires Describes(m, files[i], live[files[i].path].rows) ==> IsRest(m, live[files[i].path].rows, rest, width)
    ensures Deleting(m, files, i + 1, Swapped(live, files[i].path, newPath, rest), start, width)
  {
    var p := files[i].path;
    DeletingFile(m, files, i, live, start, width);
    SwappedTrusted(m, live, p, newPath, rest, width);
    AnswersKept(m, files, i, live, newPath, rest);
    MisreadStay(m, live, p, newPath, rest, PathsFrom(files, i));
    DeletingPending(m, files, i, live, Sane(m, start), width, newPath, rest);
    NextPath(files, i);
    NotAgain(files, i);
  }

  lemma NotAgain(files: seq<KeyFile>, i: nat)
    requires i < |files| && forall j, k | i <= j < k < |files| :: files[j].path != files[k].path
    ensures PathsFrom(files, i) - {files[i].path} == PathsFrom(files, i + 1)
  {
    NextPath(files, i);
    var later := files[i + 1..];
    forall j | 0 <= j < |later| ensures later[j].path != files[i].path { assert later[j] == files[i + 1 + j]; }
  }

  lemma MisreadRemoved(m: KeyMatcher, todo: set<Path>, live: Live, start: Live, width: nat, p: Path)
    requires Pending(m, todo, Sane(m, live), start, width) && p in live && Misread(m, live[p])
    ensures Pending(m, todo - {p}, Sane(m, live - {p}), start, width)
  {
    assert Sane(m, live - {p}) == Sane(m, live);
  }

  lemma SaneSwapped(m: KeyMatcher, live: Live, p: Path, newPath: Path, rest: Option<DataFile>)
    requires p in live && !Misread(m, live[p]) && newPath !in live && (rest.Some? ==> !Misread(m, rest.value))
    ensures p in Sane(m, live) && newPath !in Sane(m, live)
    ensures Sane(m, Swapped(live, p, newPath, rest)) == Swapped(Sane(m, live), p, newPath, rest)
  {}

  lemma DeletingPending(m: KeyMatcher, files: seq<KeyFile>, i: nat, live: Live, start: Live, width: nat,
                        newPath: Path, rest: Option<DataFile>)
    requires i < |files| && files[i].path in live && newPath !in live
    requires Pending(m, PathsFrom(files, i), Sane(m, live), start, width)
    requires if Misread(m, live[files[i].path]) then rest == None else IsRest(m, live[files[i].path].rows, rest, width)
    ensures Pending(m, PathsFrom(files, i) - {files[i].path}, Sane(m, Swapped(live, files[i].path, newPath, rest)), start, width)
  {
    var p := files[i].path;
    if Misread(m, live[p]) {
      MisreadRemoved(m, PathsFrom(files, i), live, start, width, p);
      assert Swapped(live, p, newPath, rest) == live - {p};
    } else {
      SaneSwapped(m, live, p, newPath, rest);
      PendingStep(m, PathsFrom(files, i), Sane(m, live), start, width, p, newPath, rest);
    }
  }

  lemma DeletingAtEnd(m: KeyMatcher, files: seq<KeyFile>, live: Live, start: Live, width: nat)
    requires Deleting(m, files, |files|, live, start, width)
    ensures Sane(m, live) == live
    ensures forall row :: LiveRows(live)[row] == if IsKeyRow(m, row) then 0 else LiveRows(Sane(m, start))[row]
  {
    assert files[|files|..] == [];
    assert Sane(m, live) == live;
    PendingAtEnd(m, live, Sane(m, start), width);
  }

  lemma {:induction false} SubsetRows(part: Live, whole: Live, row: Row)
    requires part.Keys <= whole.Keys && forall p <- part :: part[p] == whole[p]
    ensures LiveRows(part)[row] <= LiveRows(whole)[row]
    decreases |whole|
  {
    if whole != map[] {
      var p :| p in whole && LiveRows(whole) == multiset(whole[p].rows) + LiveRows(whole - {p});
      if p in part { LiveRowsSplit(part, p); } else { assert part - {p} == part; }
      SubsetRows(part - {p}, whole - {p}, row);
    } else {
      assert part == map[];
    }
  }

  /** DELETE loses rows without the key exactly if a file is misread. */
  lemma DeleteIsExact(m: KeyMatcher, live: Live, width: nat)
    requires Trusted(m, live, width)
    ensures (forall row | !IsKeyRow(m, row) :: LiveRows(Sane(m, live))[row] == LiveRows(live)[row]) <==>
            (forall p <- live :: !Misread(m, live[p]))
  {
    if p :| p in live && Misread(m, live[p]) {
      MisreadIsOneNullRow(m, live[p], width);
      var row := live[p].rows[0];
      LiveRowsSplit(live, p);
      SubsetRows(Sane(m, live), live - {p}, row);
      assert live[p].rows == [row] && LiveRows(Sane(m, live))[row] < LiveRows(live)[row];
    } else {
      assert Sane(m, live) == live;
    }
  }
}
