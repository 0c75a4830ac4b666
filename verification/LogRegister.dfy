/** What DeltaLogManager keeps of a log, as a function of the actions it was given and of the order
    they came in; and why the order hardly matters: logs are parsed by several threads. */
module LogRegister {
  import opened Options
  import opened DeltaReplay

  datatype LogAction =
    | File(file: FileAction)
    | Protocol(json: string)
    | Metadata(json: string)
    | Txn(app: string, txnVersion: int, lastUpdated: int)
    | Domain(domain: string, configuration: Option<string>)  // None: the domain was removed

  /** What an action is about; the latest action about it counts. */
  datatype Slot = FileOf(path: Path) | TheProtocol | TheMetadata | TxnOf(app: string) | DomainOf(domain: string)

  /** An action and the log version it comes from. */
  datatype Item = Item(version: int, action: LogAction)

  function SlotOf(action: LogAction): Slot {
    match action
    case File(file) => FileOf(file.path)
    case Protocol(_) => TheProtocol
    case Metadata(_) => TheMetadata
    case Txn(app, _, _) => TxnOf(app)
    case Domain(domain, _) => DomainOf(domain)
  }

  predicate IsRemove(action: LogAction) { action.File? && action.file.Remove? }
  predicate IsAdd(action: LogAction) { action.File? && action.file.Add? }

  /** register_action for files: the higher version wins, at the same version a remove beats an
      add; set_protocol, set_metadata, set_transaction, set_domain_metadata: not an older version. */
  predicate Replaces(current: Item, item: Item) {
    if item.action.File? then
      current.version < item.version ||
      (current.version == item.version && IsAdd(current.action) && IsRemove(item.action))
    else current.version <= item.version
  }

  /** A remove without extended file metadata keeps that of the add. */
  function Inherit(current: Item, item: Item): Item {
    if IsRemove(item.action) && item.action.file.info.size < 0 && IsAdd(current.action) then
      var was, info := current.action.file.info, item.action.file.info;
      item.(action := File(Remove(item.action.file.path,
                                  info.(size := was.size, partitionValues := was.partitionValues))))
    else item
  }

  function Join(current: Option<Item>, item: Item): Item {
    if current.None? then item
    else if Replaces(current.value, item) then Inherit(current.value, item)
    else current.value
  }

  /** What a slot holds after the items were registered in this order. */
  function Latest(items: seq<Item>, k: Slot): Option<Item> {
    if items == [] then None
    else
      var before, item := Latest(items[..|items| - 1], k), items[|items| - 1];
      if SlotOf(item.action) == k then Some(Join(before, item)) else before
  }

  lemma LatestSnoc(items: seq<Item>, item: Item, k: Slot)
    ensures Latest(items + [item], k) ==
              if SlotOf(item.action) == k then Some(Join(Latest(items, k), item)) else Latest(items, k)
  {
    assert (items + [item])[..|items|] == items;
  }

  // ---- the winner, whatever the order ------------------------------------------------------------

  /** Version first, removes above adds. */
  predicate AtMost(a: Item, b: Item) {
    a.version < b.version || (a.version == b.version && (IsRemove(a.action) ==> IsRemove(b.action)))
  }

  /** After the actions were registered in any order, a path holds the maximum of
      (version, is-remove) over all its actions. */
  lemma {:induction false} HighestWins(items: seq<Item>, path: Path)
    ensures var r := Latest(items, FileOf(path));
            && (r.None? <==> forall i | 0 <= i < |items| :: SlotOf(items[i].action) != FileOf(path))
            && (r.Some? ==>
                  && r.value.action.File? && r.value.action.file.path == path
                  && (exists i | 0 <= i < |items| ::
                        SlotOf(items[i].action) == FileOf(path) && items[i].version == r.value.version
                        && IsRemove(items[i].action) == IsRemove(r.value.action))
                  && (forall i | 0 <= i < |items| && SlotOf(items[i].action) == FileOf(path) :: AtMost(items[i], r.value)))
  {
    if items != [] {
      HighestWins(items[..|items| - 1], path);
    }
  }

  /** So two parses of the same actions agree on the operation and version of every path, whatever
      their orders. */
  lemma OrderDoesNotMatter(items: seq<Item>, items': seq<Item>, path: Path)
    requires multiset(items) == multiset(items')
    ensures var r, r' := Latest(items, FileOf(path)), Latest(items', FileOf(path));
            && r.Some? == r'.Some?
            && (r.Some? ==> r.value.version == r'.value.version && IsRemove(r.value.action) == IsRemove(r'.value.action))
  {
    HighestWins(items, path);
    HighestWins(items', path);
    forall i | 0 <= i < |items| ensures items[i] in items' { assert items[i] in multiset(items'); }
    forall i | 0 <= i < |items'| ensures items'[i] in items { assert items'[i] in multiset(items); }
  }

  /** The metadata a remove inherits does depend on the order: here the add is parsed before the
      remove, or after it. */
  lemma InheritanceDependsOnOrder()
    ensures var add := Item(0, File(Add("f", FileInfo("", 7, 0, "", ""))));
            var remove := Item(1, File(Remove("f", FileInfo("", -1, 0, "", ""))));
            Latest([add, remove], FileOf("f")) != Latest([remove, add], FileOf("f"))
  {
    var add := Item(0, File(Add("f", FileInfo("", 7, 0, "", ""))));
    var remove := Item(1, File(Remove("f", FileInfo("", -1, 0, "", ""))));
    assert [add, remove] == [add] + [remove] && [remove, add] == [remove] + [add];
    LatestSnoc([add], remove, FileOf("f"));
    LatestSnoc([remove], add, FileOf("f"));
  }

  // ---- parsing by version ------------------------------------------------------------------------

  function OfVersion(items: seq<Item>, v: int): seq<Item> {
    if items == [] then []
    else
      var before, item := OfVersion(items[..|items| - 1], v), items[|items| - 1];
      if item.version == v then before + [item] else before
  }

  /** Everything but what a remove may have inherited. */
  function Bare(item: Item): Item {
    if IsRemove(item.action) then
      item.(action := File(item.action.file.(info := item.action.file.info.(size := 0, partitionValues := ""))))
    else item
  }

  /** A slot is decided by the highest version that mentions it, and within that version by the
      order of that version's actions alone. */
  lemma {:induction false} DecidedByOneVersion(items: seq<Item>, k: Slot)
    ensures var r := Latest(items, k);
            && (forall v :: Latest(OfVersion(items, v), k).Some? ==> r.Some? && v <= r.value.version)
            && (r.Some? ==>
                  && SlotOf(r.value.action) == k
                  && Latest(OfVersion(items, r.value.version), k).Some?
                  && Bare(Latest(OfVersion(items, r.value.version), k).value) == Bare(r.value))
  {
    if items != [] {
      var before, item := items[..|items| - 1], items[|items| - 1];
      DecidedByOneVersion(before, k);
      LatestSnoc(OfVersion(before, item.version), item, k);
      OfVersionVersions(before, item.version, k);
    }
  }

  lemma {:induction false} OfVersionVersions(items: seq<Item>, v: int, k: Slot)
    ensures Latest(OfVersion(items, v), k).Some? ==>
              Latest(OfVersion(items, v), k).value.version == v && SlotOf(Latest(OfVersion(items, v), k).value.action) == k
  {
    if items != [] {
      var before, item := items[..|items| - 1], items[|items| - 1];
      OfVersionVersions(before, v, k);
      if item.version == v { LatestSnoc(OfVersion(before, v), item, k); }
    }
  }

  /** Any two schedules that keep the order within each version leave the same state, except for
      what removes inherit. */
  lemma SchedulesAgree(items: seq<Item>, items': seq<Item>, k: Slot)
    requires forall v :: OfVersion(items, v) == OfVersion(items', v)
    ensures var r, r' := Latest(items, k), Latest(items', k);
            r.Some? == r'.Some? && (r.Some? ==> Bare(r.value) == Bare(r'.value))
  {
    DecidedByOneVersion(items, k);
    DecidedByOneVersion(items', k);
  }
}
