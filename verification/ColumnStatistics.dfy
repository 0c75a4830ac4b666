/** The min/max statistics LakeVilla writes for its own files (computeStatistics): they are the real
    minimum and maximum, so they are honest to the key index. */
module ColumnStatistics {
  import opened Options
  import opened KeyIndex

  predicate Numbers(column: Column) { forall v <- column | v.Some? :: v.value.Number? && IsInt64(v.value.n) }

  predicate Texts(column: Column) { forall v <- column | v.Some? :: v.value.Characters? }

  predicate LeastNumber(column: Column, n: int) {
    HasRow(column, Number(n)) && forall v <- column | v.Some? && v.value.Number? :: n <= v.value.n
  }

  predicate GreatestNumber(column: Column, n: int) {
    HasRow(column, Number(n)) && forall v <- column | v.Some? && v.value.Number? :: v.value.n <= n
  }

  /** integer_min_max */
  method IntegerMinMax(chunks: seq<Column>) returns (first: bool, min: int, max: int)
    requires forall chunk <- chunks :: Numbers(chunk)
    ensures first <==> AllNull(Concatenated(chunks))
    ensures !first ==> LeastNumber(Concatenated(chunks), min) && GreatestNumber(Concatenated(chunks), max) && IsInt64(min) && IsInt64(max)
  {
    first, min, max := true, 0, 0;
    ghost var seen: Column := [];
    for c := 0 to |chunks|
      invariant seen + Concatenated(chunks[c..]) == Concatenated(chunks)
      invariant first <==> AllNull(seen)
      invariant !first ==> LeastNumber(seen, min) && GreatestNumber(seen, max) && IsInt64(min) && IsInt64(max)
    {
      var chunk := chunks[c];
      assert chunk in chunks;
      ghost var before, after := seen, Concatenated(chunks[c + 1..]);
      assert chunks[c..][1..] == chunks[c + 1..];
      assert before + chunk + after == Concatenated(chunks);
      for i := 0 to |chunk|
        invariant seen == before + chunk[..i]
        invariant first <==> AllNull(seen)
        invariant !first ==> LeastNumber(seen, min) && GreatestNumber(seen, max) && IsInt64(min) && IsInt64(max)
      {
        assert before + chunk[..i + 1] == seen + [chunk[i]] && chunk[i] in chunk;
        seen := seen + [chunk[i]];
        assert chunk[i] in seen;
        if chunk[i].Some? {
          var value := chunk[i].value.n;
          if first || value < min { min := value; }
          if first || value > max { max := value; }
          first := false;
        }
      }
      assert chunk[..|chunk|] == chunk;
    }
    assert seen == Concatenated(chunks);
  }

  /** string_min_max */
  method StringMinMax(chunks: seq<Column>) returns (first: bool, min: Text, max: Text)
    requires forall chunk <- chunks :: Texts(chunk)
    ensures first <==> AllNull(Concatenated(chunks))
    ensures !first ==> IsMinimum(Concatenated(chunks), min) && IsMaximum(Concatenated(chunks), max)
  {
    first, min, max := true, [], [];
    ghost var seen: Column := [];
    for c := 0 to |chunks|
      invariant seen + Concatenated(chunks[c..]) == Concatenated(chunks)
      invariant first <==> AllNull(seen)
      invariant !first ==> IsMinimum(seen, min) && IsMaximum(seen, max)
    {
      var chunk := chunks[c];
      assert chunk in chunks;
      ghost var before, after := seen, Concatenated(chunks[c + 1..]);
      assert chunks[c..][1..] == chunks[c + 1..];
      assert before + chunk + after == Concatenated(chunks);
      for i := 0 to |chunk|
        invariant seen == before + chunk[..i]
        invariant first <==> AllNull(seen)
        invariant !first ==> IsMinimum(seen, min) && IsMaximum(seen, max)
      {
        assert before + chunk[..i + 1] == seen + [chunk[i]] && chunk[i] in chunk;
        if chunk[i].Some? {
          var value := chunk[i].value.text;
          BoundsGrow(seen, value, first, min, max);
          if first || Before(value, min) { min := value; }
          if first || Before(max, value) { max := value; }
          first := false;
        }
        seen := seen + [chunk[i]];
      }
      assert chunk[..|chunk|] == chunk;
    }
    assert seen == Concatenated(chunks);
  }

  lemma BoundsGrow(seen: Column, value: Text, first: bool, min: Text, max: Text)
    requires if first then AllNull(seen) else IsMinimum(seen, min) && IsMaximum(seen, max)
    ensures IsMinimum(seen + [Some(Characters(value))], if first || Before(value, min) then value else min)
    ensures IsMaximum(seen + [Some(Characters(value))], if first || Before(max, value) then value else max)
  {
    BeforeTotal(value, value);
    forall v <- seen | v.Some? && v.value.Characters?
      ensures !first && Before(value, min) ==> !Before(v.value.text, value)
      ensures !first && Before(max, value) ==> !Before(value, v.value.text)
    {
      BeforeTotal(value, min);
      BeforeTotal(max, value);
      if !first && Before(value, min) { BeforeTransitive(value, min, v.value.text); }
      if !first && Before(max, value) { BeforeTransitive(v.value.text, max, value); }
    }
  }

  /** The statistics as they appear in the log. */
  function Written(first: bool, text: Text): Stat { if first then Absent else Is(text) }

  lemma IntegerStatisticsAreHonest(m: KeyMatcher, column: Column, first: bool, min: int, max: int)
    requires m.kind == Integer && (first <==> AllNull(column))
    requires !first ==> LeastNumber(column, min) && GreatestNumber(column, max) && IsInt64(min) && IsInt64(max)
    ensures Honest(m, column, Written(first, NumberText(min)), Written(first, NumberText(max)), |column|)
  {
    NumberTextRoundTrip(min);
    NumberTextRoundTrip(max);
  }

  lemma StringStatisticsAreHonest(m: KeyMatcher, column: Column, first: bool, min: Text, max: Text)
    requires m.kind == String && (first <==> AllNull(column))
    requires !first ==> IsMinimum(column, min) && IsMaximum(column, max)
    ensures Honest(m, column, Written(first, min), Written(first, max), |column|)
  {}

  /** With LakeVilla's own statistics the search is also sharp: an integer file is skipped exactly if
      the key lies outside its values, and exact only if it is one row with the key. */
  lemma IntegerSearchIsSharp(m: KeyMatcher, column: Column, min: int, max: int)
    requires m.kind == Integer && m.Consistent() && m.valid && Numbers(column)
    requires LeastNumber(column, min) && GreatestNumber(column, max)
    ensures var match_ := Classify(m, Some(NumberText(min)), Some(NumberText(max)), |column|);
            && (match_ == NoRow <==> m.value.n < min || max < m.value.n)
            && (match_ == Exact <==> column == [Some(m.value)])
  {
    NumberTextRoundTrip(min);
    NumberTextRoundTrip(max);
    assert Some(Number(min)) in column && Some(Number(max)) in column;
    if |column| == 1 { assert column == [column[0]]; }
  }

  /** The same for texts of fewer than 32 characters. */
  lemma StringSearchIsSharp(m: KeyMatcher, column: Column, min: Text, max: Text)
    requires m.kind == String && m.Consistent() && m.valid && Texts(column)
    requires IsMinimum(column, min) && IsMaximum(column, max) && CodePoints(max) < STRING_STATS_PREFIX
    ensures var match_ := Classify(m, Some(min), Some(max), |column|);
            && (match_ == NoRow <==> Before(m.key, min) || Before(max, m.key))
            && (match_ == Exact <==> column == [Some(m.value)])
  {
    assert Some(Characters(min)) in column && Some(Characters(max)) in column;
    BeforeTotal(m.key, m.key);
    if |column| == 1 { assert column == [column[0]]; }
  }
}
