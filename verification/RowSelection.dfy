/** Finding the rows of a key in a file and separating them from the others (rows_of, select_rows,
    other_rows). */
module RowSelection {
  import opened Options
  import opened KeyIndex

  /** The key column and the other columns of a row. */
  datatype Row = Row(key: Option<Value>, cells: seq<Option<int>>)

  /** The row has the key. A text that is no value of the column's type is the key of no row. */
  predicate IsKeyRow(m: KeyMatcher, row: Row) { m.valid && row.key == Some(m.value) }

  function ColumnOf(rows: seq<Row>): (column: Column)
    ensures |column| == |rows| && forall i | 0 <= i < |rows| :: column[i] == rows[i].key
  {
    seq(|rows|, i requires 0 <= i < |rows| => rows[i].key)
  }

  // ---- filters -------------------------------------------------------------------------------

  function KeyRows(m: KeyMatcher, rows: seq<Row>): seq<Row> {
    if rows == [] then []
    else
      var before, row := KeyRows(m, rows[..|rows| - 1]), rows[|rows| - 1];
      if IsKeyRow(m, row) then before + [row] else before
  }

  function OtherRowsOf(m: KeyMatcher, rows: seq<Row>): seq<Row> {
    if rows == [] then []
    else
      var before, row := OtherRowsOf(m, rows[..|rows| - 1]), rows[|rows| - 1];
      if IsKeyRow(m, row) then before else before + [row]
  }

  /** The two parts are the rows of the file, divided by the key. */
  lemma {:induction false} RowsDivide(m: KeyMatcher, rows: seq<Row>)
    ensures multiset(KeyRows(m, rows)) + multiset(OtherRowsOf(m, rows)) == multiset(rows)
    ensures forall row <- KeyRows(m, rows) :: IsKeyRow(m, row) && row in rows
    ensures forall row <- OtherRowsOf(m, rows) :: !IsKeyRow(m, row) && row in rows
    ensures |KeyRows(m, rows)| + |OtherRowsOf(m, rows)| == |rows|
  {
    if rows != [] {
      RowsDivide(m, rows[..|rows| - 1]);
      assert rows == rows[..|rows| - 1] + [rows[|rows| - 1]];
    }
  }

  // ---- indices -------------------------------------------------------------------------------

  function KeyIndices(m: KeyMatcher, rows: seq<Row>): (r: seq<nat>)
    ensures Ascending(r, |rows|) && |r| <= |rows|
  {
    if rows == [] then []
    else
      var before := KeyIndices(m, rows[..|rows| - 1]);
      if IsKeyRow(m, rows[|rows| - 1]) then before + [|rows| - 1] else before
  }

  function OtherIndices(m: KeyMatcher, rows: seq<Row>): (r: seq<nat>)
    ensures Ascending(r, |rows|)
  {
    if rows == [] then []
    else
      var before := OtherIndices(m, rows[..|rows| - 1]);
      if IsKeyRow(m, rows[|rows| - 1]) then before else before + [|rows| - 1]
  }

  predicate Ascending(indices: seq<nat>, n: nat) {
    && |indices| <= n
    && (forall i | 0 <= i < |indices| :: indices[i] < n)
    && (forall i, j | 0 <= i < j < |indices| :: indices[i] < indices[j])
  }

  /** The rows at the given indices. */
  function Pick(rows: seq<Row>, indices: seq<nat>): (r: seq<Row>)
    requires forall i | 0 <= i < |indices| :: indices[i] < |rows|
    ensures |r| == |indices| && forall i | 0 <= i < |indices| :: r[i] == rows[indices[i]]
  {
    seq(|indices|, i requires 0 <= i < |indices| => rows[indices[i]])
  }

  lemma {:induction false} PickedRows(m: KeyMatcher, rows: seq<Row>)
    ensures Pick(rows, KeyIndices(m, rows)) == KeyRows(m, rows)
    ensures Pick(rows, OtherIndices(m, rows)) == OtherRowsOf(m, rows)
  {
    if rows != [] {
      var before := rows[..|rows| - 1];
      PickedRows(m, before);
      assert Pick(rows, KeyIndices(m, before)) == Pick(before, KeyIndices(m, before));
      assert Pick(rows, OtherIndices(m, before)) == Pick(before, OtherIndices(m, before));
    }
  }

  /** rows_of: the chunks of the column follow each other. */
  method RowsOf(m: KeyMatcher, chunks: seq<Column>, ghost rows: seq<Row>) returns (found: seq<nat>)
    requires Concatenated(chunks) == ColumnOf(rows) && m.valid
    ensures found == KeyIndices(m, rows)
  {
    found := [];
    var offset: nat := 0;
    ghost var rest := Concatenated(chunks);
    for c := 0 to |chunks|
      invariant offset <= |rows| && ColumnOf(rows)[offset..] == rest && rest == Concatenated(chunks[c..])
      invariant found == KeyIndices(m, rows[..offset])
    {
      ghost var after := Concatenated(chunks[c + 1..]);
      assert chunks[c..][1..] == chunks[c + 1..] && rest == chunks[c] + after;
      ChunkAt(chunks[c], after, rows, offset);
      found := RowsOfChunk(m, chunks[c], offset, found, rows);
      offset, rest := offset + |chunks[c]|, after;
    }
    assert rows[..|rows|] == rows;
  }

  lemma ChunkAt(chunk: Column, after: Column, rows: seq<Row>, offset: nat)
    requires offset <= |rows| && ColumnOf(rows)[offset..] == chunk + after
    ensures offset + |chunk| <= |rows| && ColumnOf(rows)[offset + |chunk|..] == after
    ensures forall i | 0 <= i < |chunk| :: chunk[i] == rows[offset + i].key
  {
    forall i | 0 <= i < |chunk| ensures chunk[i] == rows[offset + i].key {
      assert (chunk + after)[i] == ColumnOf(rows)[offset + i];
    }
  }

  method RowsOfChunk(m: KeyMatcher, chunk: Column, offset: nat, before: seq<nat>, ghost rows: seq<Row>) returns (found: seq<nat>)
    requires m.valid && offset + |chunk| <= |rows| && before == KeyIndices(m, rows[..offset])
    requires forall i | 0 <= i < |chunk| :: chunk[i] == rows[offset + i].key
    ensures found == KeyIndices(m, rows[..offset + |chunk|])
  {
    found := before;
    for i := 0 to |chunk|
      invariant found == KeyIndices(m, rows[..offset + i])
    {
      assert rows[..offset + i + 1][..offset + i] == rows[..offset + i];
      if chunk[i] == Some(m.value) { found := found + [offset + i]; }
    }
  }

  /** other_rows, for any ascending list of indices below n: the ones that are not in it, ascending. */
  method OtherRows(n: nat, found: seq<nat>) returns (others: seq<nat>)
    requires Ascending(found, n)
    ensures Ascending(others, n) && forall i: nat | i < n :: i in others <==> i !in found
  {
    others := [];
    var next := 0;
    for i := 0 to n
      invariant 0 <= next <= |found|
      invariant forall k | 0 <= k < |found| :: k < next <==> found[k] < i
      invariant Ascending(others, i) && forall j: nat | j < i :: j in others <==> j !in found
    {
      if next < |found| && found[next] == i {
        next := next + 1;
      } else {
        assert forall k | 0 <= k < |found| :: found[k] != i;
        others := others + [i];
      }
    }
  }

  lemma {:induction false} IndicesOfKey(m: KeyMatcher, rows: seq<Row>)
    ensures forall i: nat | i < |rows| :: i in KeyIndices(m, rows) <==> IsKeyRow(m, rows[i])
    ensures forall i: nat | i < |rows| :: i in OtherIndices(m, rows) <==> !IsKeyRow(m, rows[i])
  {
    if rows != [] {
      IndicesOfKey(m, rows[..|rows| - 1]);
    }
  }

  /** An ascending list is determined by its elements. */
  lemma {:induction false} AscendingIsUnique(a: seq<nat>, b: seq<nat>, n: nat)
    requires Ascending(a, n) && Ascending(b, n) && forall i: nat | i < n :: i in a <==> i in b
    ensures a == b
    decreases n
  {
    if n > 0 {
      var a' := BelowLast(a, n);
      var b' := BelowLast(b, n);
      AscendingIsUnique(a', b', n - 1);
    }
  }

  /** The list without n - 1, which can only be its last element. */
  lemma BelowLast(a: seq<nat>, n: nat) returns (a': seq<nat>)
    requires Ascending(a, n) && n > 0
    ensures Ascending(a', n - 1) && forall i: nat | i < n - 1 :: i in a' <==> i in a
    ensures a == if n - 1 in a then a' + [n - 1] else a'
  {
    if n - 1 in a {
      assert forall i | 0 <= i < |a| :: a[i] <= a[|a| - 1];
      a' := a[..|a| - 1];
    } else {
      if a != [] { AtLeast(a, n, |a| - 1); }
      a' := a;
    }
  }

  lemma OthersOfKey(m: KeyMatcher, rows: seq<Row>, others: seq<nat>)
    requires Ascending(others, |rows|) && forall i: nat | i < |rows| :: i in others <==> i !in KeyIndices(m, rows)
    ensures others == OtherIndices(m, rows)
  {
    IndicesOfKey(m, rows);
    AscendingIsUnique(others, OtherIndices(m, rows), |rows|);
  }

  lemma AllIndices(indices: seq<nat>, n: nat)
    requires Ascending(indices, n) && |indices| == n
    ensures forall i | 0 <= i < n :: indices[i] == i
  {
    forall i | 0 <= i < n ensures indices[i] == i {
      AtLeast(indices, n, i);
      AtMost(indices, n, i);
    }
  }

  lemma {:induction false} AtLeast(indices: seq<nat>, n: nat, i: nat)
    requires Ascending(indices, n) && i < |indices|
    ensures indices[i] >= i
  {
    if i > 0 { AtLeast(indices, n, i - 1); }
  }

  lemma {:induction false} AtMost(indices: seq<nat>, n: nat, i: nat)
    requires Ascending(indices, n) && i < |indices| == n
    ensures indices[i] <= i
    decreases n - i
  {
    if i + 1 < n { AtMost(indices, n, i + 1); }
  }

  /** select_rows: runs of adjacent indices are sliced at once. */
  method SelectRows(rows: seq<Row>, indices: seq<nat>) returns (selected: seq<Row>)
    requires Ascending(indices, |rows|)
    ensures selected == Pick(rows, indices)
  {
    if |indices| == |rows| {
      AllIndices(indices, |rows|);
      return rows;
    }
    selected := [];
    var i := 0;
    while i < |indices|
      invariant i <= |indices| && selected == Pick(rows, indices[..i])
    {
      var j := i;
      while j + 1 < |indices| && indices[j + 1] == indices[j] + 1
        invariant i <= j < |indices|
        invariant forall k | i <= k <= j :: indices[k] == indices[i] + (k - i)
      {
        j := j + 1;
      }
      var part := rows[indices[i]..indices[j] + 1];
      assert Pick(rows, indices[..j + 1]) == Pick(rows, indices[..i]) + part;
      selected := selected + part;
      i := j + 1;
    }
    assert indices[..|indices|] == indices;
  }
}
