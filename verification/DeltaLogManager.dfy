/** The log state of one table, kept in place while actions are registered
    (DeltaLogManager.cpp), and the checkpoint written from it. */
module DeltaLogState {
  import opened Options
  import opened DeltaReplay
  import opened LogRegister
  import opened LogSchedule
  import opened Checkpoint

  datatype Operation = NONE | ADD | DELETE | METADATA

  datatype DeltaLogEntry = DeltaLogEntry(operation: Operation, info: FileInfo, version: int)

  datatype TransactionState = TransactionState(txnVersion: int, lastUpdated: int, version: int)

  datatype DomainState = DomainState(configuration: Option<string>, version: int)

  /** A line of the log: what it says may be flawed, or use deletion vectors. */
  datatype RawAction = Sound(action: LogAction) | InvalidTxn | InvalidDomain | WithVector(path: Path, info: FileInfo)

  function Flaw(raw: RawAction): string {
    match raw
    case Sound(_) => ""
    case InvalidTxn => "invalid txn action"
    case InvalidDomain => "invalid domainMetadata action"
    case WithVector(_, _) => "deletion vectors"
  }

  /** What is registered nevertheless. */
  function Effect(raw: RawAction): seq<LogAction> {
    match raw
    case Sound(action) => [action]
    case WithVector(path, info) => [File(Add(path, info))]
    case _ => []
  }

  function Effects(raws: seq<RawAction>): seq<LogAction> {
    if raws == [] then [] else Effects(raws[..|raws| - 1]) + Effect(raws[|raws| - 1])
  }

  // ---- checkpoint_blocker ----------------------------------------------------------------------------

  /** The protocol's JSON: versions if they are integers, features if they are lists; a feature that
      is no string is None. */
  datatype ProtocolDoc = Unreadable | ProtocolDoc(minReader: Option<int>, minWriter: Option<int>,
                                                  readerFeatures: seq<Option<string>>, writerFeatures: seq<Option<string>>)

  const READER_FEATURES: set<string> :=
    {"columnMapping", "timestampNtz", "typeWidening", "typeWidening-preview", "vacuumProtocolCheck"}
  const WRITER_FEATURES: set<string> :=
    {"appendOnly", "invariants", "checkConstraints", "changeDataFeed", "generatedColumns", "columnMapping",
     "identityColumns", "timestampNtz", "domainMetadata", "icebergCompatV1", "icebergCompatV2", "typeWidening",
     "typeWidening-preview", "vacuumProtocolCheck", "allowColumnDefaults"}

  predicate AllKnown(features: seq<Option<string>>, known: set<string>) {
    forall feature <- features :: feature.Some? && feature.value in known
  }

  /** A checkpoint written by LakeVilla loses nothing that the protocol asks for. */
  predicate Supported(doc: ProtocolDoc) {
    && doc.ProtocolDoc?
    && (doc.minReader.Some? ==> doc.minReader.value <= 3) && (doc.minWriter.Some? ==> doc.minWriter.value <= 7)
    && AllKnown(doc.readerFeatures, READER_FEATURES) && AllKnown(doc.writerFeatures, WRITER_FEATURES)
  }

  /** The first feature that is not known. */
  method CheckFeatures(features: seq<Option<string>>, known: set<string>, kind: string) returns (blocker: string)
    ensures blocker == "" <==> AllKnown(features, known)
  {
    for i := 0 to |features|
      invariant AllKnown(features[..i], known)
    {
      assert features[i] in features && |" feature "| > 0;
      if features[i].None? || features[i].value !in known {
        return kind + (" feature " + if features[i].Some? then features[i].value else "?");
      }
    }
    return "";
  }

  method CheckpointBlocker(doc: ProtocolDoc) returns (blocker: string)
    ensures blocker == "" <==> Supported(doc)
  {
    if doc.Unreadable? { return "an unreadable protocol"; }
    var reader := if doc.minReader.Some? then doc.minReader.value else 1;
    var writer := if doc.minWriter.Some? then doc.minWriter.value else 1;
    if reader > 3 || writer > 7 { return "an unknown protocol version"; }
    blocker := CheckFeatures(doc.readerFeatures, READER_FEATURES, "the reader");
    if blocker == "" { blocker := CheckFeatures(doc.writerFeatures, WRITER_FEATURES, "the writer"); }
  }

  function EntryOf(file: FileAction, v: int): DeltaLogEntry {
    DeltaLogEntry(if file.Add? then ADD else DELETE, file.info, v)
  }

  function ItemOf(path: Path, entry: DeltaLogEntry): Item {
    Item(entry.version, File(if entry.operation == ADD then Add(path, entry.info) else Remove(path, entry.info)))
  }

  class DeltaLogManager {
    var files: map<Path, DeltaLogEntry>
    var protocol: string
    var protocolVersion: int
    var metadata: string
    var metadataVersion: int
    var unsupported: string
    var transactions: map<string, TransactionState>
    var domains: map<string, DomainState>

    constructor ()
      ensures Valid() && unsupported == ""
      ensures Registered([])
    {
      files, transactions, domains := map[], map[], map[];
      protocol, protocolVersion, metadata, metadataVersion, unsupported := "", -1, "", -1, "";
    }

    /** Files only hold what log actions put there; -1 stands for no protocol and no metadata. */
    ghost predicate Valid()
      reads this
    {
      && (forall p <- files :: files[p].operation == ADD || files[p].operation == DELETE)
      && protocolVersion >= -1 && (protocolVersion == -1 ==> protocol == "")
      && metadataVersion >= -1 && (metadataVersion == -1 ==> metadata == "")
    }

    /** What a slot holds. */
    ghost function At(k: Slot): Option<Item>
      reads this
    {
      match k
      case FileOf(path) => if path in files then Some(ItemOf(path, files[path])) else None
      case TheProtocol => if protocolVersion == -1 then None else Some(Item(protocolVersion, Protocol(protocol)))
      case TheMetadata => if metadataVersion == -1 then None else Some(Item(metadataVersion, Metadata(metadata)))
      case TxnOf(app) =>
        if app in transactions then
          Some(Item(transactions[app].version, Txn(app, transactions[app].txnVersion, transactions[app].lastUpdated)))
        else None
      case DomainOf(domain) =>
        if domain in domains then Some(Item(domains[domain].version, Domain(domain, domains[domain].configuration)))
        else None
    }

    /** The state is the one the items leave when they are registered in this order. */
    ghost predicate Registered(items: seq<Item>)
      reads this
    {
      forall k :: At(k) == Latest(items, k)
    }

    method RegisterAction(path: Path, entry: DeltaLogEntry)
      requires Valid() && (entry.operation == ADD || entry.operation == DELETE)
      modifies this`files
      ensures Valid()
      ensures forall k :: At(k) == if k == FileOf(path) then Some(Join(old(At(k)), ItemOf(path, entry))) else old(At(k))
    {
      if path !in files {
        files := files[path := entry];
        return;
      }
      var current := files[path];
      if entry.version < current.version ||
         (entry.version == current.version && (current.operation == DELETE || entry.operation != DELETE)) {
        return;
      }
      var new_entry := entry;
      if entry.operation == DELETE && entry.info.size < 0 && current.operation == ADD {
        new_entry := entry.(info := entry.info.(size := current.info.size, partitionValues := current.info.partitionValues));
      }
      files := files[path := new_entry];
    }

    method SetProtocol(json: string, v: nat)
      requires Valid()
      modifies this`protocol, this`protocolVersion
      ensures Valid()
      ensures forall k :: At(k) == if k == TheProtocol then Some(Join(old(At(k)), Item(v, Protocol(json)))) else old(At(k))
    {
      if v >= protocolVersion {
        protocol, protocolVersion := json, v;
      }
    }

    method SetMetadata(json: string, v: nat)
      requires Valid()
      modifies this`metadata, this`metadataVersion
      ensures Valid()
      ensures forall k :: At(k) == if k == TheMetadata then Some(Join(old(At(k)), Item(v, Metadata(json)))) else old(At(k))
    {
      if v >= metadataVersion {
        metadata, metadataVersion := json, v;
      }
    }

    method SetTransaction(app: string, txnVersion: int, lastUpdated: int, v: nat)
      requires Valid()
      modifies this`transactions
      ensures Valid()
      ensures forall k ::
        At(k) == if k == TxnOf(app) then Some(Join(old(At(k)), Item(v, Txn(app, txnVersion, lastUpdated)))) else old(At(k))
    {
      if app in transactions && transactions[app].version > v { return; }
      transactions := transactions[app := TransactionState(txnVersion, lastUpdated, v)];
    }

    method SetDomainMetadata(domain: string, configuration: Option<string>, v: nat)
      requires Valid()
      modifies this`domains
      ensures Valid()
      ensures forall k ::
        At(k) == if k == DomainOf(domain) then Some(Join(old(At(k)), Item(v, Domain(domain, configuration)))) else old(At(k))
    {
      if domain in domains && domains[domain].version > v { return; }
      domains := domains[domain := DomainState(configuration, v)];
    }

    /** One action of a log version or of a checkpoint. */
    method Register(action: LogAction, v: nat, ghost items: seq<Item>)
      requires Valid() && Registered(items)
      modifies this`files, this`protocol, this`protocolVersion, this`metadata, this`metadataVersion,
               this`transactions, this`domains
      ensures Valid() && Registered(items + [Item(v, action)])
    {
      match action {
        case File(file) => RegisterAction(file.path, EntryOf(file, v));
        case Protocol(json) => SetProtocol(json, v);
        case Metadata(json) => SetMetadata(json, v);
        case Txn(app, txnVersion, lastUpdated) => SetTransaction(app, txnVersion, lastUpdated, v);
        case Domain(domain, configuration) => SetDomainMetadata(domain, configuration, v);
      }
      forall k ensures At(k) == Latest(items + [Item(v, action)], k) {
        LatestSnoc(items, Item(v, action), k);
      }
    }

    /** Registers the actions of one version, or the rows of a checkpoint, in their order. */
    method RegisterAll(actions: seq<LogAction>, v: nat, ghost items: seq<Item>)
      requires Valid() && Registered(items)
      modifies this`files, this`protocol, this`protocolVersion, this`metadata, this`metadataVersion,
               this`transactions, this`domains
      ensures Valid() && Registered(items + Stamp(actions, v))
    {
      assert items + Stamp(actions[..0], v) == items;
      for i := 0 to |actions|
        invariant Valid() && Registered(items + Stamp(actions[..i], v))
      {
        Register(actions[i], v, items + Stamp(actions[..i], v));
        assert items + Stamp(actions[..i + 1], v) == items + Stamp(actions[..i], v) + [Item(v, actions[i])];
      }
      assert actions[..|actions|] == actions;
    }

    /** One thread's part of parsing the log: versions a to b - 1. */
    method ParseVersions(log: Log, a: nat, b: nat, ghost items: seq<Item>)
      requires Valid() && Registered(items) && a <= b <= |log|
      modifies this`files, this`protocol, this`protocolVersion, this`metadata, this`metadataVersion,
               this`transactions, this`domains
      ensures Valid() && Registered(items + Sequential(log, a, b))
    {
      ghost var done := items;
      for v := a to b
        invariant Valid() && done == items + Sequential(log, a, v) && Registered(done)
      {
        RegisterAll(log[v], v, done);
        done := done + Stamp(log[v], v);
        assert Sequential(log, a, v + 1) == Sequential(log, a, v) + Stamp(log[v], v);
      }
    }

    /** mark_unsupported: the first reason stays. */
    method MarkUnsupported(reason: string)
      requires Valid()
      modifies this`unsupported
      ensures Valid() && unsupported == if old(unsupported) == "" then reason else old(unsupported)
    {
      if unsupported == "" { unsupported := reason; }
    }

    /** apply_log_action */
    method ApplyLogAction(raw: RawAction, v: nat, ghost items: seq<Item>)
      requires Valid() && Registered(items)
      modifies this
      ensures Valid() && Registered(items + Stamp(Effect(raw), v))
      ensures unsupported == if old(unsupported) == "" then Flaw(raw) else old(unsupported)
    {
      match raw {
        case Sound(action) => RegisterAll([action], v, items);
        case InvalidTxn => MarkUnsupported("invalid txn action");
        case InvalidDomain => MarkUnsupported("invalid domainMetadata action");
        case WithVector(path, info) =>
          MarkUnsupported("deletion vectors");
          RegisterAll([File(Add(path, info))], v, items);
      }
      assert Effect(raw) == [] ==> items + Stamp(Effect(raw), v) == items;
    }

    /** All lines of a version: what can be registered is, and the table stays free of reasons
        exactly if no line has a flaw. */
    method ApplyVersion(raws: seq<RawAction>, v: nat, ghost items: seq<Item>)
      requires Valid() && Registered(items)
      modifies this
      ensures Valid() && Registered(items + Stamp(Effects(raws), v))
      ensures unsupported == "" <==> old(unsupported) == "" && forall raw <- raws :: raw.Sound?
    {
      assert items + Stamp(Effects(raws[..0]), v) == items;
      for i := 0 to |raws|
        invariant Valid() && Registered(items + Stamp(Effects(raws[..i]), v))
        invariant unsupported == "" <==> old(unsupported) == "" && forall raw <- raws[..i] :: raw.Sound?
      {
        ghost var before := items + Stamp(Effects(raws[..i]), v);
        ApplyLogAction(raws[i], v, before);
        OneMoreEffect(raws, i, v);
        assert items + Stamp(Effects(raws[..i + 1]), v) == before + Stamp(Effect(raws[i]), v);
      }
      assert raws[..|raws|] == raws;
    }

    // ---- reading the state ---------------------------------------------------------------------

    /** The paths of all added files, each once. */
    method GetListRaw() returns (list: seq<Path>)
      ensures forall p :: p in list <==> p in files && files[p].operation == ADD
      ensures forall i, j | 0 <= i < j < |list| :: list[i] != list[j]
    {
      list := [];
      var rest := files.Keys;
      while rest != {}
        invariant rest <= files.Keys
        invariant forall p :: p in list <==> p in files && p !in rest && files[p].operation == ADD
        invariant forall i, j | 0 <= i < j < |list| :: list[i] != list[j]
        decreases rest
      {
        var p :| p in rest;
        if files[p].operation == ADD { list := list + [p]; }
        rest := rest - {p};
      }
    }

    // ---- write_checkpoint ------------------------------------------------------------------------

    /** What a row of the checkpoint keeps of a file. */
    function AddRow(p: Path, entry: DeltaLogEntry): LogAction { File(Add(p, entry.info)) }

    function RemoveRow(p: Path, entry: DeltaLogEntry): LogAction {
      File(Remove(p, FileInfo("", entry.info.size, entry.info.time, entry.info.partitionValues, "")))
    }

    /** get_entries: a row for every added file. */
    method AddRows(before: seq<LogAction>) returns (rows: seq<LogAction>)
      requires forall p :: Latest(Stamp(before, 0), FileOf(p)).None?
      ensures forall k :: Latest(Stamp(rows, 0), k) ==
                if k.FileOf? && k.path in files && files[k.path].operation == ADD then Some(Item(0, AddRow(k.path, files[k.path])))
                else Latest(Stamp(before, 0), k)
    {
      rows := before;
      var rest := files.Keys;
      while rest != {}
        invariant rest <= files.Keys
        invariant forall k :: Latest(Stamp(rows, 0), k) ==
                    if k.FileOf? && k.path in files && k.path !in rest && files[k.path].operation == ADD then
                      Some(Item(0, AddRow(k.path, files[k.path])))
                    else Latest(Stamp(before, 0), k)
        decreases rest
      {
        var p :| p in rest;
        if files[p].operation == ADD {
          RowAppended(rows, AddRow(p, files[p]));
          rows := rows + [AddRow(p, files[p])];
        }
        rest := rest - {p};
      }
    }

    /** get_tombstones: a row for every removed file that has to be kept. */
    method RemoveRows(before: seq<LogAction>, retentionStart: int) returns (rows: seq<LogAction>)
      requires forall p | p in files && files[p].operation == DELETE :: Latest(Stamp(before, 0), FileOf(p)).None?
      ensures forall k :: Latest(Stamp(rows, 0), k) ==
                if k.FileOf? && k.path in files && files[k.path].operation == DELETE && files[k.path].info.time >= retentionStart then
                  Some(Item(0, RemoveRow(k.path, files[k.path])))
                else Latest(Stamp(before, 0), k)
    {
      rows := before;
      var rest := files.Keys;
      while rest != {}
        invariant rest <= files.Keys
        invariant forall k :: Latest(Stamp(rows, 0), k) ==
                    if k.FileOf? && k.path in files && k.path !in rest && files[k.path].operation == DELETE
                       && files[k.path].info.time >= retentionStart then
                      Some(Item(0, RemoveRow(k.path, files[k.path])))
                    else Latest(Stamp(before, 0), k)
        decreases rest
      {
        var p :| p in rest;
        if files[p].operation == DELETE && files[p].info.time >= retentionStart {
          RowAppended(rows, RemoveRow(p, files[p]));
          rows := rows + [RemoveRow(p, files[p])];
        }
        rest := rest - {p};
      }
    }

    /** get_transactions */
    method TxnRows(before: seq<LogAction>) returns (rows: seq<LogAction>)
      requires forall app :: Latest(Stamp(before, 0), TxnOf(app)).None?
      ensures forall k :: Latest(Stamp(rows, 0), k) ==
                if k.TxnOf? && k.app in transactions then
                  Some(Item(0, Txn(k.app, transactions[k.app].txnVersion, transactions[k.app].lastUpdated)))
                else Latest(Stamp(before, 0), k)
    {
      rows := before;
      var rest := transactions.Keys;
      while rest != {}
        invariant rest <= transactions.Keys
        invariant forall k :: Latest(Stamp(rows, 0), k) ==
                    if k.TxnOf? && k.app in transactions && k.app !in rest then
                      Some(Item(0, Txn(k.app, transactions[k.app].txnVersion, transactions[k.app].lastUpdated)))
                    else Latest(Stamp(before, 0), k)
        decreases rest
      {
        var app :| app in rest;
        var row := Txn(app, transactions[app].txnVersion, transactions[app].lastUpdated);
        RowAppended(rows, row);
        rows := rows + [row];
        rest := rest - {app};
      }
    }

    /** get_domain_metadata: the domains that were not removed. */
    method DomainRows(before: seq<LogAction>) returns (rows: seq<LogAction>)
      requires forall d :: Latest(Stamp(before, 0), DomainOf(d)).None?
      ensures forall k :: Latest(Stamp(rows, 0), k) ==
                if k.DomainOf? && k.domain in domains && domains[k.domain].configuration.Some? then
                  Some(Item(0, Domain(k.domain, domains[k.domain].configuration)))
                else Latest(Stamp(before, 0), k)
    {
      rows := before;
      var rest := domains.Keys;
      while rest != {}
        invariant rest <= domains.Keys
        invariant forall k :: Latest(Stamp(rows, 0), k) ==
                    if k.DomainOf? && k.domain in domains && k.domain !in rest && domains[k.domain].configuration.Some? then
                      Some(Item(0, Domain(k.domain, domains[k.domain].configuration)))
                    else Latest(Stamp(before, 0), k)
        decreases rest
      {
        var d :| d in rest;
        if domains[d].configuration.Some? {
          RowAppended(rows, Domain(d, domains[d].configuration));
          rows := rows + [Domain(d, domains[d].configuration)];
        }
        rest := rest - {d};
      }
    }

    /** The rows mean what the state means, and every tombstone that is young enough has its row. */
    method CheckpointRows(retentionStart: int, ghost items: seq<Item>) returns (rows: seq<LogAction>)
      requires Valid() && Registered(items) && protocol != "" && metadata != ""
      ensures Keeps(rows, items) && KeepsTombstones(rows, items, retentionStart)
      ensures forall p | p in files && files[p].operation == DELETE ::
                Latest(Stamp(rows, 0), FileOf(p)) ==
                  if files[p].info.time >= retentionStart then Some(Item(0, RemoveRow(p, files[p]))) else None
    {
      rows := [Protocol(protocol), Metadata(metadata)];
      HeaderRows(protocol, metadata);
      rows := AddRows(rows);
      rows := RemoveRows(rows, retentionStart);
      rows := TxnRows(rows);
      rows := DomainRows(rows);
      forall k ensures Meaning(Latest(Stamp(rows, 0), k)) == Meaning(Latest(items, k)) {
        assert At(k) == Latest(items, k);
      }
      forall path ensures KeepsTombstone(Latest(Stamp(rows, 0), FileOf(path)), Latest(items, FileOf(path)), retentionStart) {
        assert At(FileOf(path)) == Latest(items, FileOf(path));
      }
    }

    /** write_checkpoint up to the upload. parse reads the protocol, encodes says whether rows can be
        encoded. */
    method WriteCheckpoint(parse: string -> ProtocolDoc, encodes: seq<LogAction> -> bool, retentionStart: int, ghost items: seq<Item>)
      returns (ok: bool, rows: seq<LogAction>)
      requires Valid() && Registered(items)
      ensures ok <==> unsupported == "" && protocol != "" && metadata != "" && Supported(parse(protocol)) && encodes(rows)
      ensures ok ==> Keeps(rows, items) && KeepsTombstones(rows, items, retentionStart)
      ensures ok ==> forall p | p in files && files[p].operation == DELETE ::
                Latest(Stamp(rows, 0), FileOf(p)) ==
                  if files[p].info.time >= retentionStart then Some(Item(0, RemoveRow(p, files[p]))) else None
    {
      if unsupported != "" || protocol == "" || metadata == "" { return false, []; }
      var blocker := CheckpointBlocker(parse(protocol));
      if blocker != "" { return false, []; }
      rows := CheckpointRows(retentionStart, items);
      ok := encodes(rows);
    }
  }

  /** The line adds the path; one with a deletion vector does, too. */
  predicate AddsFile(raw: RawAction, path: Path) {
    (raw.WithVector? && raw.path == path) || (raw.Sound? && IsAdd(raw.action) && raw.action.file.path == path)
  }

  predicate RemovesFile(raw: RawAction, path: Path) {
    raw.Sound? && IsRemove(raw.action) && raw.action.file.path == path
  }

  /** Which files a version adds and removes, line by line. */
  lemma FilesOfLines(raws: seq<RawAction>, path: Path)
    ensures path in FirstAdds(FilesOf(Effects(raws))) <==> exists i | 0 <= i < |raws| :: AddsFile(raws[i], path)
    ensures path in RemovedPaths(FilesOf(Effects(raws))) <==> exists i | 0 <= i < |raws| :: RemovesFile(raws[i], path)
  {
    LinesDecide(raws, path);
    SomeLine(raws, path);
  }

  predicate SomeAdds(raws: seq<RawAction>, path: Path) {
    raws != [] && (SomeAdds(raws[..|raws| - 1], path) || AddsFile(raws[|raws| - 1], path))
  }

  predicate SomeRemoves(raws: seq<RawAction>, path: Path) {
    raws != [] && (SomeRemoves(raws[..|raws| - 1], path) || RemovesFile(raws[|raws| - 1], path))
  }

  lemma {:induction false} LinesDecide(raws: seq<RawAction>, path: Path)
    ensures path in FirstAdds(FilesOf(Effects(raws))) <==> SomeAdds(raws, path)
    ensures path in RemovedPaths(FilesOf(Effects(raws))) <==> SomeRemoves(raws, path)
  {
    if raws != [] {
      LinesDecide(raws[..|raws| - 1], path);
      OneMoreLine(raws, path);
    }
  }

  lemma {:induction false} SomeLine(raws: seq<RawAction>, path: Path)
    ensures SomeAdds(raws, path) <==> exists i | 0 <= i < |raws| :: AddsFile(raws[i], path)
    ensures SomeRemoves(raws, path) <==> exists i | 0 <= i < |raws| :: RemovesFile(raws[i], path)
  {
    if raws != [] {
      var before := raws[..|raws| - 1];
      SomeLine(before, path);
      assert forall i | 0 <= i < |before| :: before[i] == raws[i];
    }
  }

  lemma OneMoreLine(raws: seq<RawAction>, path: Path)
    requires raws != []
    ensures var before, raw := raws[..|raws| - 1], raws[|raws| - 1];
            && (path in FirstAdds(FilesOf(Effects(raws))) <==> path in FirstAdds(FilesOf(Effects(before))) || AddsFile(raw, path))
            && (path in RemovedPaths(FilesOf(Effects(raws))) <==> path in RemovedPaths(FilesOf(Effects(before))) || RemovesFile(raw, path))
  {
    EffectFiles(Effects(raws[..|raws| - 1]), raws[|raws| - 1]);
  }

  lemma EffectFiles(actions: seq<LogAction>, raw: RawAction)
    ensures var files, all := FilesOf(actions), FilesOf(actions + Effect(raw));
            && FirstAdds(all).Keys == FirstAdds(files).Keys + AddedBy(raw)
            && RemovedPaths(all) == RemovedPaths(files) + if raw.Sound? && IsRemove(raw.action) then {raw.action.file.path} else {}
  {
    if Effect(raw) == [] {
      assert actions + Effect(raw) == actions;
    } else {
      var a := Effect(raw)[0];
      assert (actions + Effect(raw))[..|actions|] == actions && (actions + Effect(raw))[|actions|] == a;
      if a.File? {
        FirstAddsSnoc(FilesOf(actions), a.file);
        RemovedPathsSnoc(FilesOf(actions), a.file);
      }
    }
  }

  function AddedBy(raw: RawAction): set<Path> {
    if raw.WithVector? then {raw.path} else if raw.Sound? && IsAdd(raw.action) then {raw.action.file.path} else {}
  }

  lemma OneMoreEffect(raws: seq<RawAction>, i: nat, v: nat)
    requires i < |raws|
    ensures raws[..i + 1] == raws[..i] + [raws[i]]
    ensures Stamp(Effects(raws[..i + 1]), v) == Stamp(Effects(raws[..i]), v) + Stamp(Effect(raws[i]), v)
  {
    assert raws[..i + 1][..i] == raws[..i];
  }

  lemma RowAppended(rows: seq<LogAction>, row: LogAction)
    requires Latest(Stamp(rows, 0), SlotOf(row)).None?
    ensures forall k :: Latest(Stamp(rows + [row], 0), k) ==
              if k == SlotOf(row) then Some(Item(0, row)) else Latest(Stamp(rows, 0), k)
  {
    forall k ensures Latest(Stamp(rows + [row], 0), k) ==
                       if k == SlotOf(row) then Some(Item(0, row)) else Latest(Stamp(rows, 0), k) {
      LatestSnoc(Stamp(rows, 0), Item(0, row), k);
      assert Stamp(rows + [row], 0) == Stamp(rows, 0) + [Item(0, row)];
    }
  }

  lemma HeaderRows(protocol: string, metadata: string)
    ensures forall k :: Latest(Stamp([Protocol(protocol), Metadata(metadata)], 0), k) ==
              if k == TheProtocol then Some(Item(0, Protocol(protocol)))
              else if k == TheMetadata then Some(Item(0, Metadata(metadata)))
              else None
  {
    assert Stamp([], 0) == [];
    RowAppended([], Protocol(protocol));
    RowAppended([] + [Protocol(protocol)], Metadata(metadata));
    assert [] + [Protocol(protocol)] + [Metadata(metadata)] == [Protocol(protocol), Metadata(metadata)];
  }
}
