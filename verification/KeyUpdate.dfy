/** Redoing an update of the rows of a key (execute_reroll_step: search, then the steps 'e' and
    'd' in either order) is relational UPDATE, because found files are removed only once. */
module KeyUpdate {
  import opened Options
  import opened DeltaReplay
  import opened KeyIndex
  import opened RowSelection
  import opened KeyDelete

  // ---- the update of a row -------------------------------------------------------------------

  datatype UpdateOp = REP | NONE | ADD | SUB | DIV | MUL

  const TWO31: int := 0x8000_0000

  predicate IsInt32(n: int) { -TWO31 <= n < TWO31 }

  /** 32-bit arithmetic that wraps around (two's complement). */
  function Wrap32(n: int): (r: int)
    ensures IsInt32(r) && (IsInt32(n) ==> r == n) && (r - n) % (2 * TWO31) == 0
  {
    (n + TWO31) % (2 * TWO31) - TWO31
  }

  function Abs(a: int): nat { if a < 0 then -a else a }

  /** C++ division rounds towards zero. */
  function Quotient(a: int, b: int): int
    requires b != 0
  {
    if (a < 0) == (b < 0) then Abs(a) / Abs(b) else -(Abs(a) / Abs(b))
  }

  function ApplyOp(op: UpdateOp, cell: Option<int>, val: int): Option<int>
    requires op == DIV ==> val != 0
  {
    if op == REP then Some(Wrap32(val))
    else if cell.None? then None
    else match op
      case ADD => Some(Wrap32(cell.value + val))
      case SUB => Some(Wrap32(cell.value - val))
      case DIV => Some(Wrap32(Quotient(cell.value, val)))
      case MUL => Some(Wrap32(cell.value * val))
      case _ => cell
  }

  /** build_string_col: compute does the arithmetic on texts. */
  function ApplyTextOp(op: UpdateOp, key: Option<Value>, val: Text, compute: (UpdateOp, Text, Text) -> Text): Option<Value> {
    if op == REP then Some(Characters(val))
    else if key.None? || !key.value.Characters? || op == NONE then key
    else Some(Characters(compute(op, key.value.text, val)))
  }

  /** A column, the key column being number 0, and the operand for it, as a number and as a text. */
  datatype Update = Update(column: nat, val: int, text: Text)

  /** op and updates: one registered update. int32: the columns of that type. textKey: the key column
      is a string column. Columns of other types are skipped. */
  datatype Command = Command(op: UpdateOp, updates: seq<Update>, int32: set<nat>, textKey: bool,
                             compute: (UpdateOp, Text, Text) -> Text)
  {
    /** No integer is divided by zero. */
    predicate Defined() {
      op == DIV ==> forall i | 0 <= i < |updates| :: Allows(updates[i])
    }

    predicate Allows(u: Update) { op == DIV && u.column in int32 ==> u.val != 0 }

    function Rest(): Command
      requires updates != []
    {
      this.(updates := updates[1..])
    }
  }

  /** The types of the columns fit the key's kind. */
  predicate Fits(m: KeyMatcher, cmd: Command) {
    if 0 in cmd.int32 then m.kind == Integer && !cmd.textKey else cmd.textKey ==> m.kind == String
  }

  /** The number in an integer column. */
  function NumberIn(key: Option<Value>): Option<int> {
    if key.Some? && key.value.Number? then Some(key.value.n) else None
  }

  function AsValue(number: Option<int>): Option<Value> {
    if number.Some? then Some(Number(number.value)) else None
  }

  function UpdateCell(row: Row, cmd: Command, u: Update): Row
    requires cmd.Allows(u)
  {
    if u.column == 0 && cmd.textKey then row.(key := ApplyTextOp(cmd.op, row.key, u.text, cmd.compute))
    else if u.column !in cmd.int32 || u.column > |row.cells| then row
    else if u.column == 0 then row.(key := AsValue(ApplyOp(cmd.op, NumberIn(row.key), u.val)))
    else row.(cells := row.cells[u.column - 1 := ApplyOp(cmd.op, row.cells[u.column - 1], u.val)])
  }

  /** One update after the other; columns the table does not have are skipped. */
  function Updated(row: Row, cmd: Command): (r: Row)
    requires cmd.Defined()
    ensures |r.cells| == |row.cells| && (0 !in cmd.int32 && !cmd.textKey ==> r.key == row.key)
    decreases |cmd.updates|
  {
    if cmd.updates == [] then row else Updated(UpdateCell(row, cmd, cmd.updates[0]), cmd.Rest())
  }

  function UpdatedRows(rows: seq<Row>, cmd: Command): (r: seq<Row>)
    requires cmd.Defined()
    ensures |r| == |rows| && forall i | 0 <= i < |rows| :: r[i] == Updated(rows[i], cmd)
  {
    seq(|rows|, i requires 0 <= i < |rows| => Updated(rows[i], cmd))
  }

  // ---- what an update does to a cell -------------------------------------------------------------

  /** r is n in 32 bits. */
  predicate Congruent(r: int, n: int) {
    -0x8000_0000 <= r < 0x8000_0000 && (r - n) % 0x1_0000_0000 == 0
  }

  /** q is a / b, rounded towards zero: the remainder is smaller than b and has the sign of a. */
  predicate IsQuotient(a: int, b: int, q: int) {
    var r := a - q * b;
    Abs(r) < Abs(b) && (r == 0 || (r < 0 <==> a < 0))
  }

  ghost predicate Computes(op: UpdateOp, before: Option<int>, val: int, after: Option<int>) {
    if op == REP then after.Some? && Congruent(after.value, val)
    else if before.None? then after.None?
    else
      && after.Some?
      && match op
         case ADD => Congruent(after.value, before.value + val)
         case SUB => Congruent(after.value, before.value - val)
         case MUL => Congruent(after.value, before.value * val)
         case DIV => exists q :: IsQuotient(before.value, val, q) && Congruent(after.value, q)
         case _ => after == before
  }

  lemma QuotientIsOne(a: int, b: int)
    requires b != 0
    ensures IsQuotient(a, b, Quotient(a, b))
  {
    Backwards(a, b);
    Remainder(Abs(a), Abs(b));
  }

  lemma Backwards(a: int, b: int)
    requires b != 0
    ensures var back := Abs(a) / Abs(b) * Abs(b); Quotient(a, b) * b == if a < 0 then -back else back
  {
    Signs(Abs(a) / Abs(b), Abs(b));
  }

  lemma Remainder(n: nat, d: nat)
    requires d != 0
    ensures 0 <= n - n / d * d < d
  {}

  lemma Signs(q: int, d: int)
    ensures (-q) * d == -(q * d) && q * (-d) == -(q * d) && (-q) * (-d) == q * d
  {}

  lemma ApplyOpComputes(op: UpdateOp, cell: Option<int>, val: int)
    requires op == DIV ==> val != 0
    ensures Computes(op, cell, val, ApplyOp(op, cell, val))
  {
    if op == DIV && cell.Some? { QuotientIsOne(cell.value, val); }
  }

  ghost predicate TextComputes(cmd: Command, before: Option<Value>, val: Text, after: Option<Value>) {
    if cmd.op == REP then after == Some(Characters(val))
    else if cmd.op == NONE || before.None? then after == before
    else before.value.Characters? ==> after == Some(Characters(cmd.compute(cmd.op, before.value.text, val)))
  }

  /** One update: the column it names is computed, if it exists and has one of the two types; all
      other columns stay. */
  ghost predicate Changes(row: Row, row': Row, cmd: Command, u: Update) {
    var c, n := u.column, |row.cells|;
    && |row'.cells| == n
    && (forall j | 0 <= j < n && j + 1 != c :: row'.cells[j] == row.cells[j])
    && (c != 0 || (!cmd.textKey && 0 !in cmd.int32) ==> row'.key == row.key)
    && (0 < c <= n && c !in cmd.int32 ==> row'.cells[c - 1] == row.cells[c - 1])
    && (0 < c <= n && c in cmd.int32 ==> Computes(cmd.op, row.cells[c - 1], u.val, row'.cells[c - 1]))
    && (c == 0 && cmd.textKey ==> TextComputes(cmd, row.key, u.text, row'.key))
    && (c == 0 && c in cmd.int32 && !cmd.textKey ==>
          && (row'.key.Some? ==> row'.key.value.Number?)
          && ((row.key.Some? ==> row.key.value.Number?) ==> Computes(cmd.op, KeyNumber(row), u.val, KeyNumber(row'))))
  }

  /** The key of a row whose key column holds integers. */
  function KeyNumber(row: Row): Option<int>
    requires row.key.Some? ==> row.key.value.Number?
  {
    match row.key
    case None => None
    case Some(value) => Some(value.n)
  }

  lemma UpdateCellChanges(row: Row, cmd: Command, u: Update)
    requires cmd.Allows(u)
    ensures Changes(row, UpdateCell(row, cmd, u), cmd, u)
  {
    var c := u.column;
    if c in cmd.int32 && c <= |row.cells| && (c == 0 ==> !cmd.textKey) {
      ApplyOpComputes(cmd.op, if c == 0 then NumberIn(row.key) else row.cells[c - 1], u.val);
    }
  }

  /** Updates are made in their order: the last one changes what the others left behind. */
  lemma {:induction false} LastUpdateChanges(row: Row, cmd: Command, before: seq<Update>, u: Update)
    requires cmd.(updates := before + [u]).Defined()
    ensures cmd.(updates := before).Defined()
    ensures Changes(Updated(row, cmd.(updates := before)), Updated(row, cmd.(updates := before + [u])), cmd, u)
    decreases |before|
  {
    var all, some := cmd.(updates := before + [u]), cmd.(updates := before);
    assert forall i | 0 <= i < |before| :: all.updates[i] == before[i];
    assert all.Allows(all.updates[|before|]);
    if before == [] {
      assert all.updates[1..] == [] && all.updates[0] == u;
      UpdateCellChanges(row, all, u);
    } else {
      var row' := UpdateCell(row, all, before[0]);
      assert all.updates[1..] == before[1..] + [u];
      assert forall i | 0 <= i < |all.updates| - 1 :: (before[1..] + [u])[i] == all.updates[i + 1];
      LastUpdateChanges(row', cmd, before[1..], u);
      assert UpdateCell(row, some, before[0]) == row';
    }
  }

  /** A command with one update changes that column of the row, and nothing else. */
  lemma OneUpdateChanges(row: Row, cmd: Command)
    requires cmd.Defined() && |cmd.updates| == 1
    ensures Changes(row, Updated(row, cmd), cmd, cmd.updates[0])
  {
    assert cmd.updates == [] + [cmd.updates[0]];
    LastUpdateChanges(row, cmd, [], cmd.updates[0]);
  }

  /** build_int_col: the operation on every value of a column. */
  method BuildIntCol(chunks: seq<seq<Option<int>>>, op: UpdateOp, val: int) returns (col: seq<Option<int>>)
    requires op == DIV ==> val != 0
    ensures var cells := Concatenated(chunks);
            |col| == |cells| && forall i | 0 <= i < |cells| :: col[i] == ApplyOp(op, cells[i], val)
    ensures forall i | 0 <= i < |col| :: Computes(op, Concatenated(chunks)[i], val, col[i])
  {
    col := [];
    ghost var done: seq<Option<int>> := [];
    for c := 0 to |chunks|
      invariant done + Concatenated(chunks[c..]) == Concatenated(chunks)
      invariant |col| == |done| && forall i | 0 <= i < |done| :: col[i] == ApplyOp(op, done[i], val)
    {
      var chunk := chunks[c];
      ghost var before := done;
      for i := 0 to |chunk|
        invariant done == before + chunk[..i]
        invariant |col| == |done| && forall j | 0 <= j < |done| :: col[j] == ApplyOp(op, done[j], val)
      {
        col := col + [ApplyOp(op, chunk[i], val)];
        done := done + [chunk[i]];
      }
      assert chunk[..|chunk|] == chunk && chunks[c..][1..] == chunks[c + 1..];
    }
    assert done == Concatenated(chunks);
    forall i | 0 <= i < |col| ensures Computes(op, done[i], val, col[i]) { ApplyOpComputes(op, done[i], val); }
  }

  /** build_string_col, on the key column. */
  method BuildStringCol(chunks: seq<Column>, op: UpdateOp, val: Text, compute: (UpdateOp, Text, Text) -> Text) returns (col: Column)
    ensures var cells := Concatenated(chunks);
            |col| == |cells| && forall i | 0 <= i < |cells| :: col[i] == ApplyTextOp(op, cells[i], val, compute)
  {
    col := [];
    ghost var done: Column := [];
    for c := 0 to |chunks|
      invariant done + Concatenated(chunks[c..]) == Concatenated(chunks)
      invariant |col| == |done| && forall i | 0 <= i < |done| :: col[i] == ApplyTextOp(op, done[i], val, compute)
    {
      var chunk := chunks[c];
      ghost var before := done;
      for i := 0 to |chunk|
        invariant done == before + chunk[..i]
        invariant |col| == |done| && forall j | 0 <= j < |done| :: col[j] == ApplyTextOp(op, done[j], val, compute)
      {
        col := col + [ApplyTextOp(op, chunk[i], val, compute)];
        done := done + [chunk[i]];
      }
      assert chunk[..|chunk|] == chunk && chunks[c..][1..] == chunks[c + 1..];
    }
    assert done == Concatenated(chunks);
  }

  /** One column of all rows is replaced. */
  method UpdateColumn(rows: seq<Row>, cmd: Command, u: Update, width: nat) returns (r: seq<Row>)
    requires cmd.Allows(u) && forall i | 0 <= i < |rows| :: |rows[i].cells| == width
    ensures |r| == |rows| && forall i | 0 <= i < |rows| :: r[i] == UpdateCell(rows[i], cmd, u)
  {
    var column := u.column;
    if column == 0 && cmd.textKey {
      OneChunk(ColumnOf(rows));
      var texts := BuildStringCol([ColumnOf(rows)], cmd.op, u.text, cmd.compute);
      return seq(|rows|, i requires 0 <= i < |rows| => rows[i].(key := texts[i]));
    }
    if column !in cmd.int32 || column > width { return rows; }
    var cells := seq(|rows|, i requires 0 <= i < |rows| =>
      if column == 0 then NumberIn(rows[i].key) else rows[i].cells[column - 1]);
    OneChunk(cells);
    var col := BuildIntCol([cells], cmd.op, u.val);
    r := seq(|rows|, i requires 0 <= i < |rows| =>
      if column == 0 then rows[i].(key := AsValue(col[i])) else rows[i].(cells := rows[i].cells[column - 1 := col[i]]));
  }

  /** The updates of all rows, column by column. */
  method UpdateColumns(rows: seq<Row>, cmd: Command, width: nat) returns (r: seq<Row>)
    requires cmd.Defined() && forall i | 0 <= i < |rows| :: |rows[i].cells| == width
    ensures r == UpdatedRows(rows, cmd)
  {
    r := rows;
    for u := 0 to |cmd.updates|
      invariant |r| == |rows| && forall i | 0 <= i < |rows| :: |r[i].cells| == width
      invariant forall i | 0 <= i < |rows| :: Updated(r[i], cmd.(updates := cmd.updates[u..])) == Updated(rows[i], cmd)
    {
      ghost var was, left := r, cmd.(updates := cmd.updates[u..]);
      assert left.updates[0] == cmd.updates[u] && left.Rest() == cmd.(updates := cmd.updates[u + 1..]);
      r := UpdateColumn(r, cmd, cmd.updates[u], width);
      forall i | 0 <= i < |rows|
        ensures |r[i].cells| == width && Updated(r[i], left.Rest()) == Updated(rows[i], cmd)
      {
        assert Updated(was[i], left) == Updated(rows[i], cmd);
      }
    }
    assert cmd.updates[|cmd.updates|..] == [];
  }

  // ---- the rows of the key in the found files ----------------------------------------------------

  function AllKeyRows(m: KeyMatcher, files: seq<KeyFile>): seq<Row> {
    if files == [] then []
    else
      var before, file := AllKeyRows(m, files[..|files| - 1]), files[|files| - 1];
      if file.data.Some? then before + KeyRows(m, file.data.value) else before
  }

  /** key_rows */
  method SelectKeyRows(m: KeyMatcher, files: seq<KeyFile>) returns (rows: seq<Row>)
    requires forall file <- files | file.data.Some? :: file.rows == KeyIndices(m, file.data.value)
    ensures rows == AllKeyRows(m, files)
  {
    rows := [];
    for i := 0 to |files|
      invariant rows == AllKeyRows(m, files[..i])
    {
      assert files[i] in files && files[..i + 1][..i] == files[..i];
      if files[i].data.Some? {
        PickedRows(m, files[i].data.value);
        var part := SelectRows(files[i].data.value, files[i].rows);
        rows := rows + part;
      }
    }
    assert files[..|files|] == files;
  }

  lemma FindsWithoutLast(m: KeyMatcher, files: seq<KeyFile>, live: Live)
    requires files != [] && Finds(m, files, live)
    ensures Finds(m, files[..|files| - 1], live - {files[|files| - 1].path})
  {
    var before, file := files[..|files| - 1], files[|files| - 1];
    var live' := live - {file.path};
    assert forall i | 0 <= i < |before| :: before[i] == files[i];
    forall i | 0 <= i < |before| ensures before[i].path in live' && Describes(m, before[i], live'[before[i].path].rows) {
      assert files[i].path in live && Describes(m, files[i], live[files[i].path].rows);
    }
    forall p <- live' | KeyRows(m, live'[p].rows) != [] ensures p in Paths(before) {
      var i :| 0 <= i < |files| && files[i].path == p;
      assert before[i] == files[i];
    }
  }

  /** After a search that read all files, these are all rows of the key in the table. */
  lemma {:induction false} FoundRowsAreKeyRows(m: KeyMatcher, files: seq<KeyFile>, live: Live, row: Row)
    requires Finds(m, files, live) && forall file <- files :: file.data.Some?
    ensures multiset(AllKeyRows(m, files))[row] == if IsKeyRow(m, row) then LiveRows(live)[row] else 0
    decreases |files|
  {
    if files == [] {
      if IsKeyRow(m, row) { NoKeyRows(m, live, row); }
    } else {
      var before, file := files[..|files| - 1], files[|files| - 1];
      assert file in files;
      FindsWithoutLast(m, files, live);
      LiveRowsSplit(live, file.path);
      FoundRowsAreKeyRows(m, before, live - {file.path}, row);
      OthersKept(m, file.data.value, row);
    }
  }

  // ---- the steps of a redo -----------------------------------------------------------------------

  /** The first n names. */
  ghost function Taken(names: nat -> Path, n: nat): set<Path> {
    if n == 0 then {} else Taken(names, n - 1) + {names(n - 1)}
  }

  lemma {:induction false} NotTaken(names: nat -> Path, n: nat, name: Path)
    requires forall k: nat :: names(k) != name
    ensures name !in Taken(names, n)
  {
    if n > 0 { NotTaken(names, n - 1, name); }
  }

  /** The search step: the key's files are read, and none of them is retired. */
  method Search(t: KeyTable, m: KeyMatcher, ghost width: nat)
    requires Trusted(m, t.live, width)
    modifies t`found, t`retired
    ensures Finds(m, t.found, t.live) && t.retired == {} && forall file <- t.found :: file.data.Some?
  {
    t.found := FindKeyFiles(m, t.live, true, width);
    t.retired := {};
  }

  ghost predicate Distinct(names: nat -> Path) {
    forall j: nat, k: nat | j != k :: names(j) != names(k)
  }

  /** The found files that are not retired are still as the search saw them, and have a new name. */
  ghost predicate Removable(m: KeyMatcher, files: seq<KeyFile>, live: Live, retired: set<Path>, names: nat -> Path, width: nat) {
    && (forall j, k | 0 <= j < k < |files| :: files[j].path != files[k].path)
    && (forall j | 0 <= j < |files| && files[j].path !in retired ::
          && files[j].path in live && names(j) !in live
          && FileOk(m, live[files[j].path], width) && Describes(m, files[j], live[files[j].path].rows))
  }

  /** The table after the swap of the first |rests| found files that are not retired. */
  ghost function AfterSwaps(live: Live, files: seq<KeyFile>, rests: seq<Option<DataFile>>, names: nat -> Path, retired: set<Path>): Live
    requires |rests| <= |files|
    decreases |rests|
  {
    if rests == [] then live
    else
      var i := |rests| - 1;
      var before := AfterSwaps(live, files, rests[..i], names, retired);
      if files[i].path in retired then before else Swapped(before, files[i].path, names(i), rests[i])
  }

  /** rests[i] holds the other rows of found file i. */
  ghost predicate AreRests(m: KeyMatcher, files: seq<KeyFile>, live: Live, retired: set<Path>, rests: seq<Option<DataFile>>, width: nat) {
    && |rests| <= |files|
    && forall j | 0 <= j < |rests| && files[j].path !in retired ::
         files[j].path in live && IsRest(m, live[files[j].path].rows, rests[j], width)
  }

  /** The files that are still to be swapped are untouched, and their new names are free. */
  ghost predicate Untouched(files: seq<KeyFile>, i: nat, live: Live, part: Live, retired: set<Path>, names: nat -> Path) {
    forall j | i <= j < |files| && files[j].path !in retired ::
      files[j].path in live && files[j].path in part && part[files[j].path] == live[files[j].path] && names(j) !in part
  }

  lemma {:induction false} SwapsKeepRest(m: KeyMatcher, files: seq<KeyFile>, live: Live, retired: set<Path>,
                                         rests: seq<Option<DataFile>>, names: nat -> Path, width: nat)
    requires Removable(m, files, live, retired, names, width) && Distinct(names) && |rests| <= |files|
    ensures Untouched(files, |rests|, live, AfterSwaps(live, files, rests, names, retired), retired, names)
    decreases |rests|
  {
    if rests != [] { SwapsKeepRest(m, files, live, retired, rests[..|rests| - 1], names, width); }
  }

  lemma {:induction false} SwapsTakeNames(live: Live, files: seq<KeyFile>, rests: seq<Option<DataFile>>, names: nat -> Path, retired: set<Path>)
    requires |rests| <= |files|
    ensures AfterSwaps(live, files, rests, names, retired).Keys <= live.Keys + Taken(names, |rests|)
    decreases |rests|
  {
    if rests != [] { SwapsTakeNames(live, files, rests[..|rests| - 1], names, retired); }
  }

  /** The next found file can be removed if it is not retired. */
  lemma NextFound(m: KeyMatcher, files: seq<KeyFile>, live: Live, retired: set<Path>,
                  rests: seq<Option<DataFile>>, names: nat -> Path, width: nat)
    requires Removable(m, files, live, retired, names, width) && Distinct(names) && |rests| < |files|
    requires files[|rests|].path !in retired
    ensures var path, part := files[|rests|].path, AfterSwaps(live, files, rests, names, retired);
            path in live && path in part && live[path] == part[path]
            && FileOk(m, live[path], width) && Describes(m, files[|rests|], live[path].rows)
  {
    SwapsKeepRest(m, files, live, retired, rests, names, width);
  }

  /** One more found file was swapped, or skipped. */
  lemma OneMoreRest(m: KeyMatcher, files: seq<KeyFile>, live: Live, retired: set<Path>,
                    rests: seq<Option<DataFile>>, rest: Option<DataFile>, names: nat -> Path, width: nat)
    requires |rests| < |files| && AreRests(m, files, live, retired, rests, width)
    requires files[|rests|].path !in retired ==>
               files[|rests|].path in live && IsRest(m, live[files[|rests|].path].rows, rest, width)
    ensures AreRests(m, files, live, retired, rests + [rest], width)
    ensures var part := AfterSwaps(live, files, rests, names, retired);
            AfterSwaps(live, files, rests + [rest], names, retired) ==
            if files[|rests|].path in retired then part else Swapped(part, files[|rests|].path, names(|rests|), rest)
  {
    assert (rests + [rest])[..|rests|] == rests;
  }

  lemma OneMoreRetired(files: seq<KeyFile>, i: nat, before: set<Path>)
    requires i < |files| && forall j, k | 0 <= j < k < |files| :: files[j].path != files[k].path
    ensures files[i].path in before + Paths(files[..i]) <==> files[i].path in before
    ensures before + Paths(files[..i]) + {files[i].path} == before + Paths(files[..i + 1])
  {
    assert files[..i + 1] == files[..i] + [files[i]];
    forall p <- Paths(files[..i]) ensures p != files[i].path {
      var j :| 0 <= j < i && files[..i][j].path == p;
    }
  }

  /** The next found file is swapped for its other rows, unless it is retired. */
  method RemoveNextFound(t: KeyTable, m: KeyMatcher, files: seq<KeyFile>, i: nat, name: Path, fails: bool, ghost live: Live,
                         ghost retired: set<Path>, ghost rests: seq<Option<DataFile>>, ghost names: nat -> Path, ghost width: nat)
    returns (ok: bool, ghost rest: Option<DataFile>)
    requires Removable(m, files, live, retired, names, width) && Distinct(names) && i == |rests| < |files| && name == names(i)
    requires t.live == AfterSwaps(live, files, rests, names, retired) && AreRests(m, files, live, retired, rests, width)
    requires files[i].path in t.retired <==> files[i].path in retired
    modifies t`live, t`retired
    ensures ok ==> t.live == AfterSwaps(live, files, rests + [rest], names, retired)
    ensures ok ==> AreRests(m, files, live, retired, rests + [rest], width)
    ensures ok ==> t.retired == old(t.retired) + {files[i].path}
  {
    ok, rest := true, None;
    if files[i].path !in t.retired {
      t.retired := t.retired + {files[i].path};
      NextFound(m, files, live, retired, rests, names, width);
      ok, rest := t.RemoveKeyRows(m, files[i], name, fails, width);
    }
    if ok { OneMoreRest(m, files, live, retired, rests, rest, names, width); }
  }

  /** remove_found_rows: every found file is swapped for its other rows, unless it is retired. */
  method RemoveFoundRows(t: KeyTable, m: KeyMatcher, names: nat -> Path, fails: nat -> bool, ghost width: nat)
    returns (ok: bool, ghost rests: seq<Option<DataFile>>)
    requires Removable(m, t.found, t.live, t.retired, names, width) && Distinct(names)
    modifies t`live, t`retired
    ensures ok ==> AreRests(m, t.found, old(t.live), old(t.retired), rests, width) && |rests| == |t.found|
    ensures ok ==> t.live == AfterSwaps(old(t.live), t.found, rests, names, old(t.retired))
    ensures ok ==> t.retired == old(t.retired) + Paths(t.found)
  {
    ghost var live, retired := t.live, t.retired;
    var files := t.found;
    ok, rests := true, [];
    for i := 0 to |files|
      invariant ok && |rests| == i && t.retired == retired + Paths(files[..i])
      invariant t.live == AfterSwaps(live, files, rests, names, retired)
      invariant AreRests(m, files, live, retired, rests, width)
    {
      ghost var rest;
      OneMoreRetired(files, i, retired);
      ok, rest := RemoveNextFound(t, m, files, i, names(i), fails(i), live, retired, rests, names, width);
      if !ok { return; }
      rests := rests + [rest];
    }
    assert files[..|files|] == files;
  }

  /** What was retired is not removed again. */
  lemma {:induction false} NothingAgain(live: Live, files: seq<KeyFile>, rests: seq<Option<DataFile>>, names: nat -> Path, retired: set<Path>)
    requires |rests| <= |files| && Paths(files) <= retired
    ensures AfterSwaps(live, files, rests, names, retired) == live
    decreases |rests|
  {
    if rests != [] { NothingAgain(live, files, rests[..|rests| - 1], names, retired); }
  }

  /** The first time, all found files lose their rows of the key. */
  lemma {:induction false} FirstRemoval(m: KeyMatcher, files: seq<KeyFile>, live: Live, rests: seq<Option<DataFile>>,
                                        names: nat -> Path, width: nat)
    requires Removable(m, files, live, {}, names, width) && Distinct(names) && AreRests(m, files, live, {}, rests, width)
    requires Pending(m, Paths(files), live, live, width)
    ensures Pending(m, PathsFrom(files, |rests|), AfterSwaps(live, files, rests, names, {}), live, width)
    decreases |rests|
  {
    if rests == [] {
      assert files[0..] == files;
    } else {
      var i := |rests| - 1;
      var part := AfterSwaps(live, files, rests[..i], names, {});
      FirstRemoval(m, files, live, rests[..i], names, width);
      SwapsKeepRest(m, files, live, {}, rests[..i], names, width);
      NextPath(files, i);
      PendingStep(m, PathsFrom(files, i), part, live, width, files[i].path, names(i), rests[i]);
    }
  }

  lemma SwapBeside(part: Live, newPath: Path, file: DataFile, p: Path, name: Path, rest: Option<DataFile>)
    requires newPath != p && newPath != name
    ensures Swapped(part[newPath := file], p, name, rest) == Swapped(part, p, name, rest)[newPath := file]
  {}

  /** The swaps do not touch the file of the updated rows. */
  lemma {:induction false} SwapsBeside(files: seq<KeyFile>, part: Live, newPath: Path, file: DataFile, rests: seq<Option<DataFile>>, names: nat -> Path)
    requires |rests| <= |files| && newPath !in part && newPath !in Paths(files) && forall k: nat :: names(k) != newPath
    ensures newPath !in AfterSwaps(part, files, rests, names, {})
    ensures AfterSwaps(part[newPath := file], files, rests, names, {}) == AfterSwaps(part, files, rests, names, {})[newPath := file]
    decreases |rests|
  {
    if rests != [] {
      var i := |rests| - 1;
      SwapsBeside(files, part, newPath, file, rests[..i], names);
      SwapBeside(AfterSwaps(part, files, rests[..i], names, {}), newPath, file, files[i].path, names(i), rests[i]);
    }
  }

  /** What a search leaves behind: the found files with their rows. */
  ghost predicate FoundAll(m: KeyMatcher, files: seq<KeyFile>, width: nat) {
    && (forall i | 0 <= i < |files| :: files[i].data.Some? && Typed(m.kind, files[i].data.value, width)
                                       && files[i].rows == KeyIndices(m, files[i].data.value))
    && (forall i, j | 0 <= i < j < |files| :: files[i].path != files[j].path)
  }

  lemma {:induction false} KeyRowsTyped(m: KeyMatcher, files: seq<KeyFile>, width: nat)
    requires FoundAll(m, files, width)
    ensures Typed(m.kind, AllKeyRows(m, files), width)
    decreases |files|
  {
    if files != [] {
      KeyRowsTyped(m, files[..|files| - 1], width);
      RowsDivide(m, files[|files| - 1].data.value);
    }
  }

  predicate TypedRow(kind: Kind, row: Row, width: nat) { Typed(kind, [row], width) }

  lemma {:induction false} UpdatedRowTyped(m: KeyMatcher, row: Row, cmd: Command, width: nat)
    requires TypedRow(m.kind, row, width) && cmd.Defined() && Fits(m, cmd)
    ensures TypedRow(m.kind, Updated(row, cmd), width)
    decreases |cmd.updates|
  {
    assert row in [row];
    if cmd.updates != [] {
      UpdatedRowTyped(m, UpdateCell(row, cmd, cmd.updates[0]), cmd.Rest(), width);
    }
  }

  /** Updated rows still fit the columns: keys that are changed stay 32-bit integers. */
  lemma UpdatedRowsTyped(m: KeyMatcher, rows: seq<Row>, cmd: Command, width: nat)
    requires Typed(m.kind, rows, width) && cmd.Defined() && Fits(m, cmd)
    ensures Typed(m.kind, UpdatedRows(rows, cmd), width)
  {
    forall row <- UpdatedRows(rows, cmd) ensures TypedRow(m.kind, row, width) && row in [row] {
      var i :| 0 <= i < |rows| && UpdatedRows(rows, cmd)[i] == row;
      assert rows[i] in rows;
      UpdatedRowTyped(m, rows[i], cmd, width);
    }
  }

  /** The first half of step 'e': the updated rows of the key become a new file. */
  method WriteUpdated(t: KeyTable, m: KeyMatcher, cmd: Command, newPath: Path, writeFails: bool, width: nat)
    returns (ok: bool, ghost file: DataFile)
    requires KeyOk(m) && FoundAll(m, t.found, width) && cmd.Defined() && Fits(m, cmd)
    modifies t`live
    ensures ok ==> t.live == old(t.live)[newPath := file] && FileOk(m, file, width)
    ensures ok ==> file.rows == UpdatedRows(AllKeyRows(m, t.found), cmd)
    ensures !ok ==> t.live == old(t.live)
    ensures ok <==> t.found != [] && !writeFails
  {
    file := DataFile([], Absent, Absent, 0);
    if |t.found| == 0 { return false, file; }
    KeyRowsTyped(m, t.found, width);
    UpdatedRowsTyped(m, AllKeyRows(m, t.found), cmd, width);
    forall f <- t.found | f.data.Some? ensures f.rows == KeyIndices(m, f.data.value) {}
    var base := SelectKeyRows(m, t.found);
    forall i | 0 <= i < |base| ensures |base[i].cells| == width { assert base[i] in base; }
    var rows := UpdateColumns(base, cmd, width);
    ok, file := t.WriteFile(m, newPath, rows, writeFails, width);
  }

  /** The rows of the key, whatever their order. */
  ghost predicate AreKeyRows(m: KeyMatcher, keyRows: seq<Row>, live: Live) {
    forall row :: multiset(keyRows)[row] == if IsKeyRow(m, row) then LiveRows(live)[row] else 0
  }

  /** The rows of the key are gone, and their updates are there, also those that have the key again. */
  ghost predicate Replaces(m: KeyMatcher, before: multiset<Row>, after: multiset<Row>, updated: seq<Row>) {
    forall row :: after[row] == (if IsKeyRow(m, row) then 0 else before[row]) + multiset(updated)[row]
  }

  /** Relational UPDATE. */
  ghost predicate IsUpdate(m: KeyMatcher, before: Live, after: Live, cmd: Command, keyRows: seq<Row>)
    requires cmd.Defined()
  {
    AreKeyRows(m, keyRows, before) && Replaces(m, LiveRows(before), LiveRows(after), UpdatedRows(keyRows, cmd))
  }

  lemma RedoneIsUpdate(m: KeyMatcher, before: Live, part: Live, newPath: Path, file: DataFile,
                       cmd: Command, keyRows: seq<Row>, width: nat)
    requires Pending(m, {}, part, before, width) && newPath !in part && cmd.Defined()
    requires AreKeyRows(m, keyRows, before) && file.rows == UpdatedRows(keyRows, cmd)
    ensures IsUpdate(m, before, part[newPath := file], cmd, keyRows)
  {
    PendingAtEnd(m, part, before, width);
    LiveRowsAdd(part, newPath, file);
  }

  lemma AllFound(m: KeyMatcher, files: seq<KeyFile>, live: Live)
    requires Finds(m, files, live) && forall f <- files :: f.data.Some?
    ensures AreKeyRows(m, AllKeyRows(m, files), live)
  {
    forall row ensures multiset(AllKeyRows(m, files))[row] == if IsKeyRow(m, row) then LiveRows(live)[row] else 0 {
      FoundRowsAreKeyRows(m, files, live, row);
    }
  }

  lemma AfterSearch(m: KeyMatcher, files: seq<KeyFile>, live: Live, names: nat -> Path, width: nat)
    requires Trusted(m, live, width) && Finds(m, files, live) && Fresh(names, live)
    requires forall f <- files :: f.data.Some?
    ensures FoundAll(m, files, width) && Removable(m, files, live, {}, names, width) && Distinct(names)
    ensures Pending(m, Paths(files), live, live, width)
  {
    forall i | 0 <= i < |files|
      ensures files[i].data.Some? && Typed(m.kind, files[i].data.value, width) && files[i].rows == KeyIndices(m, files[i].data.value)
    {
      assert files[i] in files && FileOk(m, live[files[i].path], width);
    }
  }

  /** A new file beside the found ones does not matter. */
  lemma RemovableBeside(m: KeyMatcher, files: seq<KeyFile>, live: Live, newPath: Path, file: DataFile, names: nat -> Path, width: nat)
    requires Removable(m, files, live, {}, names, width) && newPath !in live && forall k: nat :: names(k) != newPath
    ensures Removable(m, files, live[newPath := file], {}, names, width) && newPath !in Paths(files)
  {}

  /** After the edit step that comes first, or second. */
  lemma Edited(m: KeyMatcher, files: seq<KeyFile>, start: Live, rests: seq<Option<DataFile>>, names: nat -> Path,
               newPath: Path, file: DataFile, cmd: Command, keyRows: seq<Row>, width: nat)
    requires Removable(m, files, start, {}, names, width) && Distinct(names) && Pending(m, Paths(files), start, start, width)
    requires newPath !in start && newPath !in Paths(files) && forall k: nat :: names(k) != newPath
    requires AreRests(m, files, start, {}, rests, width) && |rests| == |files|
    requires cmd.Defined() && AreKeyRows(m, keyRows, start) && file.rows == UpdatedRows(keyRows, cmd) && FileOk(m, file, width)
    ensures var part := AfterSwaps(start, files, rests, names, {});
            && AfterSwaps(start[newPath := file], files, rests, names, {}) == part[newPath := file]
            && IsUpdate(m, start, part[newPath := file], cmd, keyRows) && Trusted(m, part[newPath := file], width)
  {
    FirstRemoval(m, files, start, rests, names, width);
    SwapsBeside(files, start, newPath, file, rests, names);
    assert files[|files|..] == [];
    RedoneIsUpdate(m, start, AfterSwaps(start, files, rests, names, {}), newPath, file, cmd, keyRows, width);
  }

  /** The rests of the found files are the same beside a new file. */
  lemma RestsBeside(m: KeyMatcher, files: seq<KeyFile>, live: Live, newPath: Path, file: DataFile, rests: seq<Option<DataFile>>, width: nat)
    requires AreRests(m, files, live[newPath := file], {}, rests, width) && newPath !in live && newPath !in Paths(files)
    ensures AreRests(m, files, live, {}, rests, width)
  {}

  /** A search and the edit step. */
  method SearchAndEdit(t: KeyTable, m: KeyMatcher, cmd: Command, newPath: Path,
                       names: nat -> Path, writeFails: bool, fails: nat -> bool, width: nat)
    returns (ok: bool, ghost keyRows: seq<Row>)
    requires Trusted(m, t.live, width) && Fresh(names, t.live) && cmd.Defined() && Fits(m, cmd)
    requires newPath !in t.live && forall k: nat :: names(k) != newPath
    modifies t
    ensures ok ==> IsUpdate(m, old(t.live), t.live, cmd, keyRows) && Trusted(m, t.live, width)
    ensures ok ==> t.live.Keys <= old(t.live).Keys + {newPath} + Taken(names, |t.found|)
    ensures ok ==> Paths(t.found) <= t.retired && forall j, k | 0 <= j < k < |t.found| :: t.found[j].path != t.found[k].path
  {
    ghost var start := t.live;
    Search(t, m, width);
    keyRows := AllKeyRows(m, t.found);
    AllFound(m, t.found, start);
    AfterSearch(m, t.found, start, names, width);
    ghost var file, rests;
    ok, file := WriteUpdated(t, m, cmd, newPath, writeFails, width);
    if !ok { return; }
    RemovableBeside(m, t.found, start, newPath, file, names, width);
    ok, rests := RemoveFoundRows(t, m, names, fails, width);
    if ok { EditedFirst(m, t.found, start, rests, names, newPath, file, cmd, keyRows, width); }
  }

  lemma EditedFirst(m: KeyMatcher, files: seq<KeyFile>, start: Live, rests: seq<Option<DataFile>>, names: nat -> Path,
                    newPath: Path, file: DataFile, cmd: Command, keyRows: seq<Row>, width: nat)
    requires Removable(m, files, start, {}, names, width) && Distinct(names) && Pending(m, Paths(files), start, start, width)
    requires newPath !in start && newPath !in Paths(files) && forall k: nat :: names(k) != newPath
    requires AreRests(m, files, start[newPath := file], {}, rests, width) && |rests| == |files|
    requires cmd.Defined() && AreKeyRows(m, keyRows, start) && file.rows == UpdatedRows(keyRows, cmd) && FileOk(m, file, width)
    ensures var live := AfterSwaps(start[newPath := file], files, rests, names, {});
            && IsUpdate(m, start, live, cmd, keyRows) && Trusted(m, live, width)
            && live.Keys <= start.Keys + {newPath} + Taken(names, |files|)
  {
    RestsBeside(m, files, start, newPath, file, rests, width);
    Edited(m, files, start, rests, names, newPath, file, cmd, keyRows, width);
    SwapsTakeNames(start[newPath := file], files, rests, names, {});
  }

  /** A search, the delete step and then the edit step's file. */
  method SearchRemoveAndWrite(t: KeyTable, m: KeyMatcher, cmd: Command, newPath: Path,
                              names: nat -> Path, writeFails: bool, fails: nat -> bool, width: nat)
    returns (ok: bool, ghost keyRows: seq<Row>)
    requires Trusted(m, t.live, width) && Fresh(names, t.live) && cmd.Defined() && Fits(m, cmd)
    requires newPath !in t.live && forall k: nat :: names(k) != newPath
    modifies t
    ensures ok ==> IsUpdate(m, old(t.live), t.live, cmd, keyRows)
    ensures ok ==> Paths(t.found) <= t.retired && forall j, k | 0 <= j < k < |t.found| :: t.found[j].path != t.found[k].path
  {
    ghost var start := t.live;
    Search(t, m, width);
    keyRows := AllKeyRows(m, t.found);
    AllFound(m, t.found, start);
    AfterSearch(m, t.found, start, names, width);
    ghost var file, rests;
    ok, rests := RemoveFoundRows(t, m, names, fails, width);
    if !ok { return; }
    ok, file := WriteUpdated(t, m, cmd, newPath, writeFails, width);
    if !ok { return; }
    RemovableBeside(m, t.found, start, newPath, file, names, width);
    Edited(m, t.found, start, rests, names, newPath, file, cmd, keyRows, width);
  }

  /** A search step, then the edit step and the delete step, in either order: every row of the key
      is replaced by its update exactly once, and no other row changes, even if the update changes
      the key itself. */
  method RedoUpdate(t: KeyTable, m: KeyMatcher, cmd: Command, editFirst: bool,
                    newPath: Path, names: nat -> Path, writeFails: bool, fails: nat -> bool, width: nat)
    returns (ok: bool, ghost keyRows: seq<Row>)
    requires Trusted(m, t.live, width) && Fresh(names, t.live) && cmd.Defined() && Fits(m, cmd)
    requires newPath !in t.live && forall k: nat :: names(k) != newPath
    modifies t
    ensures ok ==> IsUpdate(m, old(t.live), t.live, cmd, keyRows)
  {
    if editFirst {
      ok, keyRows := SearchAndEdit(t, m, cmd, newPath, names, writeFails, fails, width);
    } else {
      ok, keyRows := SearchRemoveAndWrite(t, m, cmd, newPath, names, writeFails, fails, width);
    }
    if ok { ok := RemoveNothing(t, m, names, fails, width); }
  }

  /** The second of the two steps finds all files retired. */
  method RemoveNothing(t: KeyTable, m: KeyMatcher, names: nat -> Path, fails: nat -> bool, ghost width: nat) returns (ok: bool)
    requires Paths(t.found) <= t.retired && forall j, k | 0 <= j < k < |t.found| :: t.found[j].path != t.found[k].path
    requires Distinct(names)
    modifies t`live, t`retired
    ensures ok ==> t.live == old(t.live)
  {
    ghost var live, retired := t.live, t.retired;
    ghost var rests;
    ok, rests := RemoveFoundRows(t, m, names, fails, width);
    if ok { NothingAgain(live, t.found, rests, names, retired); }
  }

  /** Relational DELETE. */
  ghost predicate Deletes(m: KeyMatcher, before: multiset<Row>, after: multiset<Row>) {
    forall row :: after[row] == if IsKeyRow(m, row) then 0 else before[row]
  }

  /** A search and the delete step delete, whatever the statistics say, because this
      search reads the files. */
  method SearchAndDelete(t: KeyTable, m: KeyMatcher, names: nat -> Path, fails: nat -> bool, width: nat) returns (ok: bool)
    requires Trusted(m, t.live, width) && Fresh(names, t.live)
    modifies t
    ensures ok ==> Deletes(m, LiveRows(old(t.live)), LiveRows(t.live))
  {
    ghost var start := t.live;
    Search(t, m, width);
    AfterSearch(m, t.found, start, names, width);
    ghost var rests;
    ok, rests := RemoveFoundRows(t, m, names, fails, width);
    if ok {
      FirstRemoval(m, t.found, start, rests, names, width);
      assert t.found[|t.found|..] == [];
      PendingAtEnd(m, t.live, start, width);
    }
  }

  /** With another search between the two steps, exactly the updated rows that have the searched key
      are removed as well; so it still is the UPDATE exactly if no updated row has that key. */
  method RedoWithSearchBetween(t: KeyTable, m: KeyMatcher, cmd: Command, newPath: Path,
                               names: nat -> Path, names': nat -> Path, fails: nat -> bool, width: nat)
    returns (ok: bool, ghost keyRows: seq<Row>)
    requires Trusted(m, t.live, width) && Fresh(names, t.live) && Fresh(names', t.live) && cmd.Defined() && Fits(m, cmd)
    requires newPath !in t.live && forall k: nat :: names(k) != newPath && names'(k) != newPath
    requires forall j: nat, k: nat :: names(j) != names'(k)
    modifies t
    ensures ok ==> AreKeyRows(m, keyRows, old(t.live))
    ensures ok ==> Thins(m, LiveRows(old(t.live)), LiveRows(t.live), UpdatedRows(keyRows, cmd))
    ensures ok ==> (IsUpdate(m, old(t.live), t.live, cmd, keyRows) <==>
                    forall row <- UpdatedRows(keyRows, cmd) :: !IsKeyRow(m, row))
  {
    ghost var start := t.live;
    ok, keyRows := SearchAndEdit(t, m, cmd, newPath, names, false, fails, width);
    if !ok { return; }
    ghost var middle := t.live;
    StillFresh(start, middle, newPath, names, |t.found|, names');
    ok := SearchAndDelete(t, m, names', fails, width);
    if ok { ThinnedIsExact(m, LiveRows(start), LiveRows(middle), LiveRows(t.live), UpdatedRows(keyRows, cmd)); }
  }

  lemma StillFresh(start: Live, live: Live, newPath: Path, names: nat -> Path, n: nat, names': nat -> Path)
    requires Fresh(names', start) && (forall k: nat :: names'(k) != newPath) && forall j: nat, k: nat :: names(j) != names'(k)
    requires live.Keys <= start.Keys + {newPath} + Taken(names, n)
    ensures Fresh(names', live)
  {
    forall k: nat ensures names'(k) !in live { NotTaken(names, n, names'(k)); }
  }

  /** The same without the updated rows that have the key. */
  ghost predicate Thins(m: KeyMatcher, before: multiset<Row>, after: multiset<Row>, updated: seq<Row>) {
    forall row :: after[row] == if IsKeyRow(m, row) then 0 else before[row] + multiset(updated)[row]
  }

  lemma ThinnedIsExact(m: KeyMatcher, before: multiset<Row>, middle: multiset<Row>, after: multiset<Row>, updated: seq<Row>)
    requires Replaces(m, before, middle, updated) && Deletes(m, middle, after)
    ensures Thins(m, before, after, updated)
    ensures Replaces(m, before, after, updated) <==> forall row <- updated :: !IsKeyRow(m, row)
  {
    if row :| row in updated && IsKeyRow(m, row) {
      assert multiset(updated)[row] > 0 && after[row] == 0;
    } else {
      forall row | IsKeyRow(m, row) ensures multiset(updated)[row] == 0 { assert row !in updated; }
    }
  }
}
