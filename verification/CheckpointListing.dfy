/** Finding the newest complete checkpoint in a listing of the log directory
    (newest_checkpoint), and the file names it has to understand (log_file_name,
    parse_checkpoint). Names are relative to the log directory. */
module CheckpointListing {
  import opened Options
  import opened Decimal

  // ---- names ---------------------------------------------------------------------------------

  datatype Name = Single(version: nat) | Part(version: nat, part: nat, parts: nat) | Other

  const SINGLE := ".checkpoint.parquet"
  const WORD := ".checkpoint."
  const END := ".parquet"

  const TWO32 := 0x1_0000_0000
  const TWO64 := 0x1_0000_0000_0000_0000

  function ParseName(name: string): (r: Name)
    ensures r.Part? ==> r.parts >= 2 && 1 <= r.part <= r.parts
  {
    if |name| < 20 || !Digits(name[..20]) then Other
    else
      var version, suffix := Value(name[..20]), name[20..];
      if suffix == SINGLE then Single(version)
      else if |suffix| != 41 || suffix[..12] != WORD || !Digits(suffix[12..22]) || suffix[22] != '.'
           || !Digits(suffix[23..33]) || suffix[33..] != END then Other
      else
        var part, parts := Value(suffix[12..22]), Value(suffix[23..33]);
        if parts >= 2 && 1 <= part <= parts then Part(version, part, parts) else Other
  }

  /** std::stoull throws on the version of such a name. */
  predicate Overflows(name: string) {
    |name| >= 20 && Digits(name[..20]) && Value(name[..20]) >= TWO64
  }

  // ---- writing names and reading them back -------------------------------------------------------

  lemma {:induction false} PadValue(n: nat, w: nat)
    requires n < Pow10(w)
    ensures Value(Pad(n, w)) == n
  {
    if w > 0 {
      PadValue(n / 10, w - 1);
      assert Pad(n, w)[..w - 1] == Pad(n / 10, w - 1);
    }
  }

  function SingleName(version: nat): string
    requires version < Pow10(20)
  {
    Pad(version, 20) + SINGLE
  }

  /** Listing fails on a checkpoint exactly if its version does not fit into 64 bits. */
  lemma OverflowsFrom64Bits(version: nat)
    requires version < Pow10(20)
    ensures Overflows(SingleName(version)) <==> version >= 0x1_0000_0000_0000_0000
  {
    PadValue(version, 20);
    assert SingleName(version)[..20] == Pad(version, 20);
  }

  function PartName(version: nat, part: nat, parts: nat): string
    requires version < Pow10(20) && part < Pow10(10) && parts < Pow10(10)
  {
    Pad(version, 20) + PartSuffix(part, parts)
  }

  lemma SingleNameRoundTrip(version: nat)
    requires version < Pow10(20)
    ensures ParseName(SingleName(version)) == Single(version)
  {
    PadValue(version, 20);
    var name := SingleName(version);
    assert name[..20] == Pad(version, 20) && name[20..] == SINGLE;
  }

  function PartSuffix(part: nat, parts: nat): (s: string)
    requires part < Pow10(10) && parts < Pow10(10)
    ensures |s| == 41 && s[..12] == WORD && s[12..22] == Pad(part, 10) && s[22] == '.'
    ensures s[23..33] == Pad(parts, 10) && s[33..] == END
  {
    WORD + Pad(part, 10) + "." + Pad(parts, 10) + END
  }

  lemma NamesRoundTrip(version: nat, part: nat, parts: nat)
    requires version < Pow10(20) && 2 <= parts < Pow10(10) && 1 <= part <= parts
    ensures ParseName(PartName(version, part, parts)) == Part(version, part, parts)
  {
    PadValue(version, 20);
    PadValue(part, 10);
    PadValue(parts, 10);
    var name := PartName(version, part, parts);
    assert name[..20] == Pad(version, 20) && name[20..] == PartSuffix(part, parts);
    assert PartSuffix(part, parts) != SINGLE;
  }

  lemma {:induction false} ValueInjective(s: string, t: string)
    requires |s| == |t| && Digits(s) && Digits(t) && Value(s) == Value(t)
    ensures s == t
  {
    if s != "" {
      ValueInjective(s[..|s| - 1], t[..|t| - 1]);
      assert s == s[..|s| - 1] + [s[|s| - 1]] && t == t[..|t| - 1] + [t[|t| - 1]];
    }
  }

  /** Two names that mean the same checkpoint file are the same name. */
  lemma NamesAreUnique(s: string, t: string)
    requires ParseName(s) == ParseName(t) && !ParseName(s).Other?
    ensures s == t
  {
    ValueInjective(s[..20], t[..20]);
    assert s == s[..20] + s[20..] && t == t[..20] + t[20..];
    if ParseName(s).Part? {
      var x, y := s[20..], t[20..];
      ValueInjective(x[12..22], y[12..22]);
      ValueInjective(x[23..33], y[23..33]);
      assert x == x[..12] + x[12..22] + [x[22]] + x[23..33] + x[33..];
      assert y == y[..12] + y[12..22] + [y[22]] + y[23..33] + y[33..];
    }
  }

  // ---- complete checkpoints ------------------------------------------------------------------------

  /** Some file is part p of the n-part checkpoint of version v. */
  predicate HasPart(files: seq<Name>, v: nat, p: nat, n: nat) { Part(v, p, n) in files }

  /** All files of an n-part checkpoint of version v are there. */
  predicate Complete(files: seq<Name>, v: nat, n: nat) {
    if n == 1 then Single(v) in files else n >= 2 && forall p | 1 <= p <= n :: HasPart(files, v, p, n)
  }

  /** The code's count of the files of a checkpoint; a number of parts is cut to 32 bits. */
  function Tally(files: seq<Name>, v: nat, n: nat): nat {
    if files == [] then 0
    else
      var before := Tally(files[..|files| - 1], v, n);
      match files[|files| - 1]
      case Single(version) => if version == v && n == 1 then 1 else before
      case Part(version, _, parts) => if version == v && parts % TWO32 == n then before + 1 else before
      case Other => before
  }

  /** No file occurs twice, and part numbers make sense. */
  ghost predicate WellFormed(files: seq<Name>) {
    && (forall i, j | 0 <= i < j < |files| && files[i] == files[j] :: files[i].Other?)
    && (forall i | 0 <= i < |files| && files[i].Part? :: files[i].parts >= 2 && 1 <= files[i].part <= files[i].parts)
  }

  /** No checkpoint claims more parts than fit in 32 bits. */
  predicate SmallParts(files: seq<Name>) {
    forall i | 0 <= i < |files| && files[i].Part? :: files[i].parts < TWO32
  }

  function PartsFound(files: seq<Name>, v: nat, n: nat): (parts: set<nat>)
    ensures forall p :: p in parts <==> HasPart(files, v, p, n)
  {
    if files == [] then {}
    else
      var before, file := PartsFound(files[..|files| - 1], v, n), files[|files| - 1];
      if file.Part? && file.version == v && file.parts == n then before + {file.part} else before
  }

  lemma LastIsNew(files: seq<Name>)
    requires WellFormed(files) && files != []
    ensures WellFormed(files[..|files| - 1])
    ensures files[|files| - 1].Other? || files[|files| - 1] !in files[..|files| - 1]
  {
    var before := files[..|files| - 1];
    forall i, j | 0 <= i < j < |before| && before[i] == before[j] ensures before[i].Other? {
      assert files[i] == files[j];
    }
    forall i | 0 <= i < |before| && before[i].Part? ensures before[i].parts >= 2 && 1 <= before[i].part <= before[i].parts {
      assert files[i] == before[i];
    }
  }

  /** Each part is counted once. */
  lemma {:induction false} TallyCountsParts(files: seq<Name>, v: nat, n: nat)
    requires WellFormed(files) && SmallParts(files) && n >= 2
    ensures Tally(files, v, n) == |PartsFound(files, v, n)|
  {
    if files != [] {
      var before, file := files[..|files| - 1], files[|files| - 1];
      LastIsNew(files);
      assert SmallParts(before) by { assert forall i | 0 <= i < |before| :: before[i] == files[i]; }
      TallyCountsParts(before, v, n);
      PartAdded(files, v, n);
    }
  }

  lemma PartAdded(files: seq<Name>, v: nat, n: nat)
    requires WellFormed(files) && SmallParts(files) && n >= 2 && files != []
    ensures var before := files[..|files| - 1];
            |PartsFound(files, v, n)| - |PartsFound(before, v, n)| == Tally(files, v, n) - Tally(before, v, n)
  {
    var before, file := files[..|files| - 1], files[|files| - 1];
    LastIsNew(files);
    if file.Part? && file.version == v {
      assert file.parts % TWO32 == file.parts;
      if file.parts == n {
        assert file == Part(v, file.part, n);
        assert !HasPart(before, v, file.part, n);
      }
    }
  }

  lemma {:induction false} TallyFindsSingle(files: seq<Name>, v: nat)
    requires WellFormed(files) && SmallParts(files)
    ensures Tally(files, v, 1) == if Single(v) in files then 1 else 0
  {
    if files != [] {
      LastIsNew(files);
      TallyFindsSingle(files[..|files| - 1], v);
    }
  }

  function Upto(n: nat): (s: set<nat>)
    ensures |s| == n && forall p :: p in s <==> 1 <= p <= n
  {
    if n == 0 then {} else Upto(n - 1) + {n}
  }

  lemma {:induction false} SubsetSize(a: set<nat>, b: set<nat>)
    requires a <= b
    ensures |a| <= |b|
  {
    if a != {} {
      var x :| x in a;
      SubsetSize(a - {x}, b - {x});
    }
  }

  /** n different part numbers between 1 and n are all of them. */
  lemma Pigeonhole(found: set<nat>, n: nat)
    requires |found| == n && found <= Upto(n)
    ensures found == Upto(n)
  {
    if found != Upto(n) {
      var q :| q in Upto(n) && q !in found;
      SubsetSize(found, Upto(n) - {q});
    }
  }

  /** Counting is enough: the count reaches n exactly when every part is there. */
  lemma CountingIsComplete(files: seq<Name>, v: nat, n: nat)
    requires WellFormed(files) && SmallParts(files) && n >= 1
    ensures Tally(files, v, n) == n <==> Complete(files, v, n)
  {
    if n == 1 {
      TallyFindsSingle(files, v);
    } else {
      TallyCountsParts(files, v, n);
      var found := PartsFound(files, v, n);
      assert found <= Upto(n);
      if |found| == n {
        Pigeonhole(found, n);
        forall p | 1 <= p <= n ensures HasPart(files, v, p, n) { assert p in found; }
      }
      if Complete(files, v, n) {
        forall p | 1 <= p <= n ensures p in found { assert HasPart(files, v, p, n); }
        assert found == Upto(n);
      }
    }
  }

  const HUGE := TWO32 + 2

  lemma HugeTally(v: nat)
    ensures var files := [Part(v, 1, HUGE), Part(v, 2, HUGE)];
            WellFormed(files) && Tally(files, v, 2) == 2 && !Complete(files, v, 2) && !Complete(files, v, HUGE)
  {
    var files := [Part(v, 1, HUGE), Part(v, 2, HUGE)];
    assert files[..1] == [Part(v, 1, HUGE)] && files[..1][..0] == [];
    assert Tally(files[..1], v, 2) == 1;
    assert !HasPart(files, v, 1, 2) && !HasPart(files, v, 3, HUGE);
  }

  /** Cutting the number of parts to 32 bits makes two files of a huge checkpoint a complete one. */
  lemma HugePartsFool(v: nat)
    requires v < Pow10(20)
    ensures HUGE < Pow10(10)
    ensures var names := [PartName(v, 1, HUGE), PartName(v, 2, HUGE)];
            var files := Files(names);
            WellFormed(files) && Tally(files, v, 2) == 2 && !Complete(files, v, 2) && !Complete(files, v, HUGE)
  {
    assert Pow10(10) == 10000000000;
    NamesRoundTrip(v, 1, HUGE);
    NamesRoundTrip(v, 2, HUGE);
    HugeTally(v);
    assert Files([PartName(v, 1, HUGE), PartName(v, 2, HUGE)]) == [Part(v, 1, HUGE), Part(v, 2, HUGE)];
  }

  // ---- newest_checkpoint -----------------------------------------------------------------------------

  function Files(names: seq<string>): (files: seq<Name>)
    ensures |files| == |names| && forall i | 0 <= i < |names| :: files[i] == ParseName(names[i])
  {
    seq(|names|, i requires 0 <= i < |names| => ParseName(names[i]))
  }

  /** A listing without duplicates. */
  lemma ListingIsWellFormed(names: seq<string>)
    requires forall i, j | 0 <= i < j < |names| :: names[i] != names[j]
    ensures WellFormed(Files(names))
  {
    var files := Files(names);
    forall i, j | 0 <= i < j < |files| && files[i] == files[j] ensures files[i].Other? {
      assert files[i] == ParseName(names[i]) && files[j] == ParseName(names[j]);
      if !files[i].Other? { NamesAreUnique(names[i], names[j]); }
    }
    forall i | 0 <= i < |files| && files[i].Part?
      ensures files[i].parts >= 2 && 1 <= files[i].part <= files[i].parts
    {
      var name := ParseName(names[i]);
      assert files[i] == name;
    }
  }

  datatype CheckpointInfo = CheckpointInfo(version: nat, parts: nat)

  predicate Precedes(a: CheckpointInfo, b: CheckpointInfo) { a.version < b.version || (a.version == b.version && a.parts <= b.parts) }

  /** The first key of an ordered map. */
  lemma {:induction false} FirstKey(keys: set<CheckpointInfo>) returns (k: CheckpointInfo)
    requires keys != {}
    ensures k in keys && forall k' <- keys :: Precedes(k, k')
  {
    var k0 :| k0 in keys;
    var rest := keys - {k0};
    k := k0;
    if rest != {} {
      var first := FirstKey(rest);
      if Precedes(first, k) { k := first; }
    }
    assert forall k' <- keys :: k' in rest || k' == k0;
  }

  /** The map holds the counts of the files seen so far. */
  ghost predicate Counts(found: map<CheckpointInfo, nat>, files: seq<Name>, maxVersion: nat) {
    && (forall v: nat, n: nat :: CountIn(found, v, n) == if v <= maxVersion then Tally(files, v, n) else 0)
    && (forall k <- found :: k.version <= maxVersion && found[k] > 0)
  }

  function CountIn(found: map<CheckpointInfo, nat>, v: nat, n: nat): nat {
    if CheckpointInfo(v, n) in found then found[CheckpointInfo(v, n)] else 0
  }

  method Count(names: seq<string>, maxVersion: nat) returns (ok: bool, found: map<CheckpointInfo, nat>)
    ensures ok <==> forall i | 0 <= i < |names| :: !Overflows(names[i])
    ensures ok ==> Counts(found, Files(names), maxVersion)
  {
    found := map[];
    for i := 0 to |names|
      invariant forall j | 0 <= j < i :: !Overflows(names[j])
      invariant Counts(found, Files(names)[..i], maxVersion)
    {
      if Overflows(names[i]) { return false, found; }
      found := CountFile(found, ParseName(names[i]), maxVersion, Files(names)[..i]);
      assert Files(names)[..i + 1] == Files(names)[..i] + [ParseName(names[i])];
    }
    ok := true;
    assert Files(names)[..|names|] == Files(names);
  }

  method CountFile(before: map<CheckpointInfo, nat>, file: Name, maxVersion: nat, ghost files: seq<Name>)
    returns (found: map<CheckpointInfo, nat>)
    requires Counts(before, files, maxVersion)
    ensures Counts(found, files + [file], maxVersion)
  {
    assert (files + [file])[..|files|] == files;
    found := before;
    match file {
      case Other =>
      case Single(version) =>
        if version <= maxVersion { found := found[CheckpointInfo(version, 1) := 1]; }
      case Part(version, _, parts) =>
        if version <= maxVersion {
          var key := CheckpointInfo(version, parts % TWO32);
          found := found[key := (if key in found then found[key] else 0) + 1];
        }
    }
  }

  /** The checkpoint with the largest version whose count is complete; on equal versions, the one
      with the fewest parts. */
  method NewestCounted(found: map<CheckpointInfo, nat>) returns (newest: Option<CheckpointInfo>)
    ensures newest.None? <==> forall k <- found :: found[k] != k.parts
    ensures newest.Some? ==>
              var k := newest.value;
              k in found && found[k] == k.parts &&
              forall k' <- found | found[k'] == k'.parts :: k'.version < k.version || (k'.version == k.version && k.parts <= k'.parts)
  {
    newest := None;
    var rest := found.Keys;
    while rest != {}
      invariant rest <= found.Keys
      invariant forall k, k' | k in found && k !in rest && k' in rest :: Precedes(k, k')
      invariant newest.None? <==> forall k <- found | k !in rest :: found[k] != k.parts
      invariant newest.Some? ==>
                  var k := newest.value;
                  k in found && k !in rest && found[k] == k.parts &&
                  forall k' <- found | k' !in rest && found[k'] == k'.parts :: k'.version < k.version || (k'.version == k.version && k.parts <= k'.parts)
      decreases rest
    {
      var first := FirstKey(rest);
      var k :| k in rest && forall k' <- rest :: Precedes(k, k');
      if found[k] == k.parts && (newest.None? || k.version > newest.value.version) { newest := Some(k); }
      rest := rest - {k};
    }
  }

  /** For a listing without duplicates and part numbers below 2^32: the largest version up to
      maxVersion that has a complete checkpoint, and nothing exactly if there is none. */
  method NewestCheckpoint(names: seq<string>, maxVersion: nat) returns (ok: bool, newest: Option<CheckpointInfo>)
    requires forall i, j | 0 <= i < j < |names| :: names[i] != names[j]
    ensures ok <==> forall i | 0 <= i < |names| :: !Overflows(names[i])
    ensures ok && SmallParts(Files(names)) ==>
              (newest.None? <==> forall v: nat, n: nat | v <= maxVersion :: !Complete(Files(names), v, n))
    ensures ok && SmallParts(Files(names)) && newest.Some? ==>
              var CheckpointInfo(v, n) := newest.value;
              && v <= maxVersion && Complete(Files(names), v, n)
              && forall v': nat, n': nat | v' <= maxVersion && Complete(Files(names), v', n') :: v' < v || (v' == v && n <= n')
  {
    newest := None;
    var found;
    ok, found := Count(names, maxVersion);
    if !ok { return; }
    newest := NewestCounted(found);
    var files := Files(names);
    if SmallParts(files) {
      ListingIsWellFormed(names);
      forall v: nat, n: nat | v <= maxVersion
        ensures Complete(files, v, n) <==> CheckpointInfo(v, n) in found && found[CheckpointInfo(v, n)] == n
      {
        if n >= 1 { CountingIsComplete(files, v, n); }
      }
    }
  }
}
