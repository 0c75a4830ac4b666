/** Level 2: one object, the global log, holds the visible version of every table. A transaction
    begins on one read of it and commits under a lock object: it validates, claims its versions
    by put-if-absent, rewrites the whole global log and deletes the lock
    (start_validation, create_global_snapshot, acquire_global_lock, release_global_lock). */
module GlobalLog {
  import opened ObjectStore

  type Table = nat
  type Versions = map<Table, nat>

  datatype Name = Lock | Log | Version(table: Table, version: nat)

  /** Token: the lock's content. Foreign: a commit of an engine that does not know the protocol. */
  datatype Body = Token(txn: nat) | Entries(entries: Versions) | Commit(author: nat) | Foreign


  datatype Config = Config(serializable: bool)

  datatype Phase = Active | Acquiring | Locked | Writing | Unlocking | Deleting | Done

  /** seen, published and gone are history: how many publications the snapshot contains, whether
      the rewritten global log was applied, whether a delete of the lock was applied. */
  datatype Client = Client(
    phase: Phase,
    snap: Versions,            // local_log: the global log at begin
    tables: set<Table>,
    writes: set<Table>,        // tables with created or deleted files
    merged: Versions,          // version_read_map after validation
    claimed: set<Table>,       // tables whose commit is written
    unsure: set<Table>,        // tables whose commit may have been written
    success: bool,             // what commit returns
    seen: nat, published: bool, gone: bool)

  /** One rewrite of the global log. */
  datatype Publication = Publication(id: nat, tables: set<Table>, snap: Versions, writes: Versions)

  /** first: the global log before the run. order: the rewrites so far. stolen: a retried delete
      hit the lock of another transaction. */
  datatype State = State(store: Store<Name, Body>, clients: map<nat, Client>,
                         first: Versions, order: seq<Publication>, stolen: bool)

  function Glog(s: State): Versions {
    if Log in s.store.objects && s.store.objects[Log].content.Entries? then s.store.objects[Log].content.entries
    else map[]
  }

  predicate LockIs(s: State, c: nat) {
    Lock in s.store.objects && s.store.objects[Lock].content == Token(c)
  }

  predicate WrittenBy(s: State, t: Table, v: nat, c: nat) {
    Version(t, v) in s.store.objects && s.store.objects[Version(t, v)].content == Commit(c)
  }

  // ---- steps ---------------------------------------------------------------------------------

  datatype Step =
    | Begin(c: nat)
    | Open(c: nat, t: Table, write: bool)
    | StartCommit(c: nat)
    | TryLock(c: nat, f: Fault)
    | ReadLock(c: nat)
    | Timeout(c: nat)
    | Validate(c: nat)
    | Claim(c: nat, t: Table, f: Fault)
    | Fail(c: nat)
    | Publish(c: nat, f: Fault)
    | SkipPublish(c: nat)
    | ReadOwnLock(c: nat)
    | DeleteLock(c: nat, f: Fault)
    | StopDelete(c: nat)
    | ForeignCommit(t: Table, v: nat)

  /** start_validation: a table that was only read must not be newer than what was read (under
      Serializable), a written one must be below the version to write. */
  predicate Valid(cfg: Config, cl: Client, glog: Versions)
    requires cl.tables <= cl.snap.Keys
  {
    forall t <- cl.tables :: t in glog ==>
      if t in cl.writes then glog[t] < cl.snap[t] + 1
      else cfg.serializable ==> glog[t] <= cl.snap[t]
  }

  /** version_read_map: what was read, raised to the global log, and all its other tables. */
  function Merged(cl: Client, glog: Versions): Versions
    requires cl.tables <= cl.snap.Keys
  {
    map t | t in (cl.tables + glog.Keys) - cl.writes ::
      if t !in cl.tables then glog[t]
      else if t in glog && cl.snap[t] < glog[t] then glog[t]
      else cl.snap[t]
  }

  function Claims(cl: Client): Versions
    requires cl.writes <= cl.snap.Keys
  {
    map t <- cl.writes :: cl.snap[t] + 1
  }

  predicate Has(s: State, c: nat, phase: Phase) {
    c in s.clients && s.clients[c].phase == phase
  }

  predicate WellOpened(cl: Client) {
    cl.writes <= cl.tables <= cl.snap.Keys
  }

  predicate MayPublish(s: State, c: nat) {
    Has(s, c, Writing) && WellOpened(s.clients[c]) && s.clients[c].claimed == s.clients[c].writes
  }

  predicate MayClaim(s: State, c: nat, t: Table) {
    && Has(s, c, Writing) && t in s.clients[c].snap
    && t in s.clients[c].writes - s.clients[c].claimed && s.clients[c].unsure <= {t}
  }

  predicate Enabled(cfg: Config, s: State, step: Step) {
    match step
    case Begin(c) => c !in s.clients
    case Open(c, t, _) => Has(s, c, Active) && t in s.clients[c].snap
    case StartCommit(c) => Has(s, c, Active)
    case TryLock(c, _) => Has(s, c, Acquiring)
    case ReadLock(c) => Has(s, c, Acquiring) && LockIs(s, c)
    case Timeout(c) => Has(s, c, Acquiring) && !LockIs(s, c)
    case Validate(c) => Has(s, c, Locked) && WellOpened(s.clients[c])
    case Claim(c, t, _) => MayClaim(s, c, t)
    case Fail(c) => Has(s, c, Writing) && s.clients[c].unsure != {}
    case Publish(c, _) => MayPublish(s, c)
    case SkipPublish(c) => Has(s, c, Writing) && s.clients[c].claimed == s.clients[c].writes
    case ReadOwnLock(c) => Has(s, c, Unlocking)
    case DeleteLock(c, _) => Has(s, c, Deleting)
    case StopDelete(c) => Has(s, c, Deleting)
    case ForeignCommit(t, v) =>
      Version(t, v) !in s.store.objects && v > 0 && Version(t, v - 1) in s.store.objects
  }

  function With(s: State, store: Store<Name, Body>, c: nat, cl: Client): State {
    s.(store := store, clients := s.clients[c := cl])
  }

  /** write_commit without markers. `ours`: the version holds this transaction's commit. */
  function Claimed(cl: Client, t: Table, status: WriteStatus, ours: bool): Client {
    if status.Error? then cl.(unsure := {t})
    else if status.Ok? || (t in cl.unsure && ours) then cl.(claimed := cl.claimed + {t}, unsure := {})
    else cl.(phase := Unlocking, unsure := {})
  }

  /** create_global_snapshot: one rewrite of the whole log. */
  function AfterPublish(s: State, c: nat, f: Fault): State
    requires MayPublish(s, c)
  {
    if f.Refused? then s
    else
      var cl := s.clients[c].(published := true);
      var p := Publication(c, cl.tables, cl.snap, Claims(cl));
      With(s, Stored(s.store, Log, Entries(cl.merged + Claims(cl))), c,
           if f.Delivered? then cl.(phase := Unlocking, success := true) else cl)
        .(order := if s.clients[c].published then s.order else s.order + [p])
  }

  function AfterClaim(s: State, c: nat, t: Table, f: Fault): State
    requires c in s.clients && t in s.clients[c].snap
  {
    var cl := s.clients[c];
    var (store, status) := PutIfAbsent(s.store, Version(t, cl.snap[t] + 1), Commit(c), f);
    With(s, store, c, Claimed(cl, t, status, WrittenBy(s.(store := store), t, cl.snap[t] + 1, c)))
  }

  function Apply(cfg: Config, s: State, step: Step): State
    requires Enabled(cfg, s, step)
  {
    match step
    case Begin(c) =>
      With(s, s.store, c, Client(Active, Glog(s), {}, {}, map[], {}, {}, false, |s.order|, false, false))
    case Open(c, t, write) =>
      var cl := s.clients[c];
      With(s, s.store, c, cl.(tables := cl.tables + {t}, writes := if write then cl.writes + {t} else cl.writes))
    case StartCommit(c) => With(s, s.store, c, s.clients[c].(phase := Acquiring))
    case TryLock(c, f) =>
      var (store, status) := PutIfAbsent(s.store, Lock, Token(c), f);
      With(s, store, c, if status.Ok? then s.clients[c].(phase := Locked) else s.clients[c])
    case ReadLock(c) => With(s, s.store, c, s.clients[c].(phase := Locked))
    case Timeout(c) => With(s, s.store, c, s.clients[c].(phase := Done))
    case Validate(c) =>
      var cl := s.clients[c];
      With(s, s.store, c, if Valid(cfg, cl, Glog(s)) then cl.(phase := Writing, merged := Merged(cl, Glog(s)))
                          else cl.(phase := Unlocking))
    case Claim(c, t, f) => AfterClaim(s, c, t, f)
    case Fail(c) => With(s, s.store, c, s.clients[c].(phase := Unlocking))
    case Publish(c, f) => AfterPublish(s, c, f)
    case SkipPublish(c) => With(s, s.store, c, s.clients[c].(phase := Unlocking, success := true))
    case ReadOwnLock(c) =>
      With(s, s.store, c, s.clients[c].(phase := if LockIs(s, c) then Deleting else Done))
    case DeleteLock(c, f) =>
      var (store, ok) := Erase(s.store, Lock, f);
      With(s, store, c, s.clients[c].(phase := if ok then Done else Deleting,
                                      gone := s.clients[c].gone || !f.Refused?))
        .(stolen := s.stolen || (!f.Refused? && Lock in s.store.objects && !LockIs(s, c)))
    case StopDelete(c) => With(s, s.store, c, s.clients[c].(phase := Done))
    case ForeignCommit(t, v) => s.(store := Stored(s.store, Version(t, v), Foreign))
  }

  /** A global log whose versions all exist, no transaction, no lock. Commits from before the run
      count as foreign. */
  ghost predicate Init(s: State) {
    && s.clients == map[] && s.order == [] && !s.stolen
    && Lock !in s.store.objects
    && Log in s.store.objects && s.store.objects[Log].content == Entries(s.first)
    && (forall t: Table, v: nat :: VisibleExists(s, t, v))
    && forall n: Name | n.Version? && n in s.store.objects :: s.store.objects[n].content == Foreign
  }

  ghost predicate ValidRun(cfg: Config, s: State, steps: seq<Step>)
    decreases |steps|
  {
    steps == [] || (Enabled(cfg, s, steps[0]) && ValidRun(cfg, Apply(cfg, s, steps[0]), steps[1..]))
  }

  ghost function Run(cfg: Config, s: State, steps: seq<Step>): State
    requires ValidRun(cfg, s, steps)
    decreases |steps|
  {
    if steps == [] then s else Run(cfg, Apply(cfg, s, steps[0]), steps[1..])
  }

  // ---- the invariant -------------------------------------------------------------------------

  /** The global log after the publications, in their order. */
  function LogAfter(first: Versions, order: seq<Publication>): Versions {
    if order == [] then first
    else LogAfter(first, order[..|order| - 1]) + order[|order| - 1].writes
  }

  predicate VisibleExists(s: State, t: Table, v: nat) {
    t in Glog(s) && v <= Glog(s)[t] ==> Version(t, v) in s.store.objects
  }

  /** The transaction believes that it holds the lock, and has not deleted it. */
  predicate Holding(cl: Client) {
    cl.phase.Locked? || cl.phase.Writing? || cl.phase.Unlocking? || (cl.phase.Deleting? && !cl.gone)
  }

  ghost predicate Publishes(p: Publication, c: nat, cl: Client)
    requires WellOpened(cl)
  {
    p.id == c && p.writes == Claims(cl)
  }

  ghost predicate ClientOk(cfg: Config, s: State, c: nat, cl: Client) {
    && cl.seen <= |s.order| && cl.snap == LogAfter(s.first, s.order[..cl.seen])
    && WellOpened(cl) && cl.claimed <= cl.writes && cl.unsure <= cl.writes - cl.claimed
    && (Holding(cl) ==> LockIs(s, c))
    && (cl.phase.Writing? && !cl.published ==> Valid(cfg, cl, Glog(s)) && cl.merged == Merged(cl, Glog(s)))
    && (cl.phase.Writing? && cl.published ==> Glog(s) == cl.merged + Claims(cl))
    && (cl.published || cl.success ==> cl.claimed == cl.writes)
    && (forall t <- cl.claimed :: WrittenBy(s, t, cl.snap[t] + 1, c))
    && (cl.published ==> cl.phase.Writing? || cl.success)
    && (cl.published ==> exists i | 0 <= i < |s.order| :: Publishes(s.order[i], c, cl))
    && (cl.success ==> cl.phase.Unlocking? || cl.phase.Deleting? || cl.phase.Done?)
    && (cl.phase.Active? || cl.phase.Acquiring? || cl.phase.Locked? ==> cl.claimed == {} && cl.unsure == {})
  }

  /** Publication i validated against exactly the publications before it. */
  ghost predicate PublicationOk(cfg: Config, s: State, i: nat)
    requires i < |s.order|
  {
    var p := s.order[i];
    var before := LogAfter(s.first, s.order[..i]);
    && p.id in s.clients && s.clients[p.id].published && (forall j | 0 <= j < i :: s.order[j].id != p.id)
    && p.writes.Keys <= p.tables <= p.snap.Keys && p.tables <= before.Keys
    && (forall t <- p.writes :: p.writes[t] == before[t] + 1 && p.snap[t] == before[t] && WrittenBy(s, t, p.writes[t], p.id))
    && (cfg.serializable ==> forall t <- p.tables :: p.snap[t] == before[t])
  }

  ghost predicate Good(cfg: Config, s: State) {
    && Log in s.store.objects && s.store.objects[Log].content == Entries(LogAfter(s.first, s.order))
    && (forall t: Table, v: nat :: VisibleExists(s, t, v))
    && (forall c {:trigger ClientOk(cfg, s, c, s.clients[c])} | c in s.clients :: ClientOk(cfg, s, c, s.clients[c]))
    && (forall i {:trigger PublicationOk(cfg, s, i)} | 0 <= i < |s.order| :: PublicationOk(cfg, s, i))
  }

  ghost predicate Inv(cfg: Config, s: State) {
    s.stolen || Good(cfg, s)
  }

  // ---- every step keeps it ---------------------------------------------------------------------

  /** What a step leaves alone: log versions never change, publications are only appended. */
  ghost predicate Extends(s: State, s': State) {
    && s'.first == s.first && s.order <= s'.order
    && forall n: Name | n.Version? && n in s.store.objects :: n in s'.store.objects && s'.store.objects[n].content == s.store.objects[n].content
  }

  lemma FrameClient(cfg: Config, s: State, s': State, c: nat, cl: Client)
    requires ClientOk(cfg, s, c, cl) && Extends(s, s')
    requires Holding(cl) ==> LockIs(s', c) && Glog(s') == Glog(s)
    ensures ClientOk(cfg, s', c, cl)
  {
    assert s'.order[..cl.seen] == s.order[..cl.seen];
    if cl.published {
      var i :| 0 <= i < |s.order| && Publishes(s.order[i], c, cl);
      assert Publishes(s'.order[i], c, cl);
    }
    forall t <- cl.claimed ensures WrittenBy(s', t, cl.snap[t] + 1, c) {
      assert WrittenBy(s, t, cl.snap[t] + 1, c);
    }
  }

  lemma FramePublication(cfg: Config, s: State, s': State, i: nat)
    requires i < |s.order| && PublicationOk(cfg, s, i) && Extends(s, s')
    requires s.order[i].id in s'.clients && s'.clients[s.order[i].id].published
    ensures PublicationOk(cfg, s', i)
  {
    assert s'.order[..i] == s.order[..i];
    var p := s.order[i];
    forall t <- p.writes ensures WrittenBy(s', t, p.writes[t], p.id) {
      assert WrittenBy(s, t, p.writes[t], p.id);
    }
  }

  /** A step of c that rewrites neither the global log nor, unless c holds it or it is free, the lock. */
  lemma LocalStep(cfg: Config, s: State, store: Store<Name, Body>, c: nat, cl: Client)
    requires Good(cfg, s)
    requires Extends(s, With(s, store, c, cl))
    requires Log in store.objects && store.objects[Log].content == s.store.objects[Log].content
    requires forall c2 <- s.clients | c2 != c && LockIs(s, c2) :: LockIs(s.(store := store), c2) || !Holding(s.clients[c2])
    requires ClientOk(cfg, With(s, store, c, cl), c, cl)
    requires c in s.clients && s.clients[c].published ==> cl.published
    ensures Good(cfg, With(s, store, c, cl))
  {
    var s' := With(s, store, c, cl);
    assert Glog(s') == Glog(s);
    forall t: Table, v: nat ensures VisibleExists(s', t, v) {
      assert VisibleExists(s, t, v);
    }
    forall c2 <- s'.clients ensures ClientOk(cfg, s', c2, s'.clients[c2]) {
      if c2 != c { FrameClient(cfg, s, s', c2, s.clients[c2]); }
    }
    forall i | 0 <= i < |s'.order| ensures PublicationOk(cfg, s', i) {
      assert PublicationOk(cfg, s, i);
      FramePublication(cfg, s, s', i);
    }
  }

  lemma BeginGood(cfg: Config, s: State, c: nat)
    requires Good(cfg, s) && Enabled(cfg, s, Begin(c))
    ensures Good(cfg, Apply(cfg, s, Begin(c)))
  {
    var s' := Apply(cfg, s, Begin(c));
    assert s.order[..|s.order|] == s.order;
    LocalStep(cfg, s, s.store, c, s'.clients[c]);
  }

  lemma OpenGood(cfg: Config, s: State, c: nat, t: Table, write: bool)
    requires Good(cfg, s) && Enabled(cfg, s, Open(c, t, write))
    ensures Good(cfg, Apply(cfg, s, Open(c, t, write)))
  {
    var s' := Apply(cfg, s, Open(c, t, write));
    assert ClientOk(cfg, s, c, s.clients[c]);
    LocalStep(cfg, s, s.store, c, s'.clients[c]);
  }

  /** Steps that only read, or decide. */
  lemma PhaseGood(cfg: Config, s: State, c: nat, cl': Client)
    requires Good(cfg, s) && c in s.clients
    requires var cl := s.clients[c];
             && cl' == cl.(phase := cl'.phase, success := cl'.success)
             && (Holding(cl') ==> LockIs(s, c)) && !cl'.phase.Writing?
             && (cl.success || cl.published ==> cl'.success)
             && (cl'.success ==> cl.claimed == cl.writes && (cl'.phase.Unlocking? || cl'.phase.Deleting? || cl'.phase.Done?))
             && (cl'.phase.Active? || cl'.phase.Acquiring? || cl'.phase.Locked? ==> cl.claimed == {} && cl.unsure == {})
    ensures Good(cfg, With(s, s.store, c, cl'))
  {
    assert ClientOk(cfg, s, c, s.clients[c]);
    var s' := With(s, s.store, c, cl');
    forall t <- cl'.claimed ensures WrittenBy(s', t, cl'.snap[t] + 1, c) {
      assert WrittenBy(s, t, cl'.snap[t] + 1, c);
    }
    LocalStep(cfg, s, s.store, c, cl');
  }

  lemma DecideGood(cfg: Config, s: State, step: Step)
    requires Good(cfg, s) && Enabled(cfg, s, step)
    requires step.StartCommit? || step.ReadLock? || step.Timeout? || step.Fail? || step.SkipPublish?
             || step.ReadOwnLock? || step.StopDelete?
    ensures Good(cfg, Apply(cfg, s, step))
  {
    var c := step.c;
    assert ClientOk(cfg, s, c, s.clients[c]);
    PhaseGood(cfg, s, c, Apply(cfg, s, step).clients[c]);
  }

  lemma ValidateGood(cfg: Config, s: State, c: nat)
    requires Good(cfg, s) && Enabled(cfg, s, Validate(c))
    ensures Good(cfg, Apply(cfg, s, Validate(c)))
  {
    var s' := Apply(cfg, s, Validate(c));
    assert ClientOk(cfg, s, c, s.clients[c]);
    assert Glog(s') == Glog(s);
    LocalStep(cfg, s, s.store, c, s'.clients[c]);
  }

  lemma TryLockGood(cfg: Config, s: State, c: nat, f: Fault)
    requires Good(cfg, s) && Enabled(cfg, s, TryLock(c, f))
    ensures Good(cfg, Apply(cfg, s, TryLock(c, f)))
  {
    var s' := Apply(cfg, s, TryLock(c, f));
    assert ClientOk(cfg, s, c, s.clients[c]);
    LocalStep(cfg, s, s'.store, c, s'.clients[c]);
  }

  /** Only a retried delete can hit somebody else's lock. */
  lemma DeleteLockGood(cfg: Config, s: State, c: nat, f: Fault)
    requires Good(cfg, s) && Enabled(cfg, s, DeleteLock(c, f))
    ensures Inv(cfg, Apply(cfg, s, DeleteLock(c, f)))
  {
    var cl := s.clients[c];
    assert ClientOk(cfg, s, c, cl);
    var (store, ok) := Erase(s.store, Lock, f);
    if f.Refused? || Lock !in s.store.objects || LockIs(s, c) {
      var cl' := cl.(phase := if ok then Done else Deleting, gone := cl.gone || !f.Refused?);
      DeletedClient(cfg, s, With(s, store, c, cl'), c, cl, cl');
      LocalStep(cfg, s, store, c, cl');
      assert Apply(cfg, s, DeleteLock(c, f)) == With(s, store, c, cl');
    }
  }

  lemma DeletedClient(cfg: Config, s: State, s': State, c: nat, cl: Client, cl': Client)
    requires ClientOk(cfg, s, c, cl) && cl.phase.Deleting?
    requires (cl'.phase.Done? || cl'.phase.Deleting?) && cl' == cl.(phase := cl'.phase, gone := cl'.gone)
    requires !cl'.gone ==> !cl.gone && s'.store == s.store
    requires Extends(s, s') && s'.order == s.order
    ensures ClientOk(cfg, s', c, cl')
  {
    forall t <- cl'.claimed ensures WrittenBy(s', t, cl'.snap[t] + 1, c) {
      assert WrittenBy(s, t, cl'.snap[t] + 1, c);
    }
  }

  lemma ClaimedOk(cfg: Config, s: State, s': State, c: nat, cl: Client, cl': Client, t: Table)
    requires ClientOk(cfg, s, c, cl) && cl.phase.Writing? && t in cl.writes - cl.claimed && cl.unsure <= {t}
    requires Extends(s, s') && s'.order == s.order && LockIs(s', c) && Glog(s') == Glog(s)
    requires || cl' == cl.(unsure := {t})
             || (cl' == cl.(claimed := cl.claimed + {t}, unsure := {}) && WrittenBy(s', t, cl.snap[t] + 1, c))
             || cl' == cl.(phase := Unlocking, unsure := {})
    ensures ClientOk(cfg, s', c, cl')
  {
    forall t2 <- cl'.claimed ensures WrittenBy(s', t2, cl'.snap[t2] + 1, c) {
      if t2 in cl.claimed { assert WrittenBy(s, t2, cl.snap[t2] + 1, c); }
    }
  }

  /** A put-if-absent of a log version touches neither the lock nor the global log nor other versions. */
  lemma ClaimStore(s: State, c: nat, t: Table, v: nat, f: Fault)
    ensures var (store, status) := PutIfAbsent(s.store, Version(t, v), Commit(c), f);
            && Extends(s, s.(store := store))
            && (forall n: Name | !n.Version? :: n in store.objects <==> n in s.store.objects)
            && (forall n: Name | !n.Version? && n in store.objects :: store.objects[n] == s.store.objects[n])
            && (status.Ok? ==> WrittenBy(s.(store := store), t, v, c))
  {}

  lemma ClaimClient(cfg: Config, s: State, c: nat, t: Table, f: Fault)
    requires MayClaim(s, c, t) && ClientOk(cfg, s, c, s.clients[c])
    ensures var s' := AfterClaim(s, c, t, f);
            ClientOk(cfg, s', c, s'.clients[c]) && s'.clients[c].published == s.clients[c].published
  {
    var cl, s' := s.clients[c], AfterClaim(s, c, t, f);
    ClaimStore(s, c, t, cl.snap[t] + 1, f);
    ClaimedOk(cfg, s, s', c, cl, s'.clients[c], t);
  }

  lemma ClaimGood(cfg: Config, s: State, c: nat, t: Table, f: Fault)
    requires Good(cfg, s) && MayClaim(s, c, t)
    ensures Good(cfg, AfterClaim(s, c, t, f))
  {
    var s' := AfterClaim(s, c, t, f);
    ClaimClient(cfg, s, c, t, f);
    ClaimStore(s, c, t, s.clients[c].snap[t] + 1, f);
    LocalStep(cfg, s, s'.store, c, s'.clients[c]);
  }

  // ---- the rewrite of the global log --------------------------------------------------------------

  lemma SnapshotIsPast(cfg: Config, s: State, c: nat)
    requires Good(cfg, s) && c in s.clients
    ensures Monotone(s.clients[c].snap, Glog(s))
  {
    var cl := s.clients[c];
    assert ClientOk(cfg, s, c, cl);
    PublicationsGrow(cfg, s, cl.seen, |s.order|);
    assert s.order[..|s.order|] == s.order;
  }

  lemma ValidatedIsCurrent(cfg: Config, cl: Client, glog: Versions)
    requires WellOpened(cl) && Monotone(cl.snap, glog) && Valid(cfg, cl, glog)
    ensures forall t <- cl.writes :: t in glog && cl.snap[t] == glog[t]
    ensures cfg.serializable ==> forall t <- cl.tables :: t in glog && cl.snap[t] == glog[t]
    ensures Merged(cl, glog) + Claims(cl) == glog + Claims(cl)
  {}

  /** Under the lock, the validated snapshot is the global log, so the rewrite changes exactly the
      written tables, each by one version. */
  lemma RewriteIsUpdate(cfg: Config, s: State, c: nat)
    requires Good(cfg, s) && Has(s, c, Writing) && !s.clients[c].published
    ensures var cl := s.clients[c];
            && WellOpened(cl) && Monotone(cl.snap, Glog(s))
            && cl.merged + Claims(cl) == Glog(s) + Claims(cl)
            && (forall t <- cl.writes :: t in Glog(s) && cl.snap[t] == Glog(s)[t])
            && (cfg.serializable ==> forall t <- cl.tables :: t in Glog(s) && cl.snap[t] == Glog(s)[t])
  {
    var cl := s.clients[c];
    assert ClientOk(cfg, s, c, cl);
    SnapshotIsPast(cfg, s, c);
    ValidatedIsCurrent(cfg, cl, Glog(s));
  }

  ghost predicate Monotone(a: Versions, b: Versions) {
    forall t <- a :: t in b && a[t] <= b[t]
  }

  /** The global log never goes back. */
  lemma {:induction false} PublicationsGrow(cfg: Config, s: State, i: nat, j: nat)
    requires i <= j <= |s.order|
    requires forall k | 0 <= k < |s.order| :: PublicationOk(cfg, s, k)
    ensures Monotone(LogAfter(s.first, s.order[..i]), LogAfter(s.first, s.order[..j]))
    decreases j
  {
    if i < j {
      PublicationsGrow(cfg, s, i, j - 1);
      assert s.order[..j][..j - 1] == s.order[..j - 1];
      assert PublicationOk(cfg, s, j - 1);
    }
  }

  lemma PublishedOk(cfg: Config, s: State, s': State, c: nat, cl': Client)
    requires c in s.clients && ClientOk(cfg, s, c, s.clients[c]) && Extends(s, s') && LockIs(s', c)
    requires var cl := s.clients[c];
             && cl.phase.Writing? && cl.claimed == cl.writes && Glog(s') == cl.merged + Claims(cl)
             && cl' == cl.(phase := cl'.phase, success := cl'.success, published := true)
    requires if cl'.success then cl'.phase.Unlocking? else cl'.phase.Writing?
    requires exists i | 0 <= i < |s'.order| :: Publishes(s'.order[i], c, s.clients[c])
    ensures ClientOk(cfg, s', c, cl')
  {
    var cl := s.clients[c];
    assert s'.order[..cl.seen] == s.order[..cl.seen];
    var i :| 0 <= i < |s'.order| && Publishes(s'.order[i], c, cl);
    assert Publishes(s'.order[i], c, cl');
    forall t <- cl'.claimed ensures WrittenBy(s', t, cl'.snap[t] + 1, c) {
      assert WrittenBy(s, t, cl.snap[t] + 1, c);
    }
  }

  /** A retry writes the same global log once more. */
  lemma PublishAgainGood(cfg: Config, s: State, c: nat, f: Fault)
    requires Good(cfg, s) && MayPublish(s, c) && !f.Refused? && s.clients[c].published
    ensures Good(cfg, AfterPublish(s, c, f))
  {
    var s' := AfterPublish(s, c, f);
    var cl := s.clients[c];
    assert ClientOk(cfg, s, c, cl);
    PublishedOk(cfg, s, s', c, s'.clients[c]);
    LocalStep(cfg, s, s'.store, c, s'.clients[c]);
  }

  function Published(s: State, c: nat): State
    requires c in s.clients && WellOpened(s.clients[c])
  {
    var cl := s.clients[c];
    s.(store := Stored(s.store, Log, Entries(cl.merged + Claims(cl))),
       order := s.order + [Publication(c, cl.tables, cl.snap, Claims(cl))])
  }

  lemma NewPublicationOk(cfg: Config, s: State, s': State, c: nat)
    requires Good(cfg, s) && Has(s, c, Writing) && !s.clients[c].published && s.clients[c].claimed == s.clients[c].writes
    requires WellOpened(s.clients[c]) && s'.first == s.first
    requires s'.store == Published(s, c).store && s'.order == Published(s, c).order
    requires c in s'.clients && s'.clients[c].published
    ensures PublicationOk(cfg, s', |s.order|)
  {
    RewriteIsUpdate(cfg, s, c);
    var cl := s.clients[c];
    assert ClientOk(cfg, s, c, cl);
    var p := s'.order[|s.order|];
    assert s'.order[..|s.order|] == s.order;
    forall j | 0 <= j < |s.order| ensures s'.order[j].id != c { assert PublicationOk(cfg, s, j); }
    forall t <- p.writes ensures WrittenBy(s', t, p.writes[t], p.id) {
      assert WrittenBy(s, t, cl.snap[t] + 1, c);
    }
  }

  lemma PublishedVisible(s: State, c: nat, t: Table, v: nat)
    requires c in s.clients && WellOpened(s.clients[c])
    requires var cl := s.clients[c]; cl.merged + Claims(cl) == Glog(s) + Claims(cl)
    requires var cl := s.clients[c];
             forall t <- cl.writes :: t in Glog(s) && cl.snap[t] == Glog(s)[t] && WrittenBy(s, t, cl.snap[t] + 1, c)
    requires forall u: nat :: VisibleExists(s, t, u)
    ensures VisibleExists(Published(s, c), t, v)
  {
    var cl := s.clients[c];
    assert VisibleExists(s, t, v);
    if t in cl.writes { assert WrittenBy(s, t, cl.snap[t] + 1, c); }
  }

  lemma PublishedLog(cfg: Config, s: State, c: nat)
    requires Good(cfg, s) && Has(s, c, Writing) && !s.clients[c].published && s.clients[c].claimed == s.clients[c].writes
    ensures WellOpened(s.clients[c])
    ensures var s1 := Published(s, c);
            && Extends(s, s1) && Glog(s1) == LogAfter(s1.first, s1.order)
            && forall t: Table, v: nat :: VisibleExists(s1, t, v)
  {
    RewriteIsUpdate(cfg, s, c);
    var cl := s.clients[c];
    assert ClientOk(cfg, s, c, cl);
    var s1 := Published(s, c);
    assert s1.order[..|s1.order| - 1] == s.order;
    forall t: Table, v: nat ensures VisibleExists(s1, t, v) {
      PublishedVisible(s, c, t, v);
    }
  }

  lemma PublishOnceGood(cfg: Config, s: State, s': State, c: nat)
    requires Good(cfg, s) && Has(s, c, Writing) && !s.clients[c].published && s.clients[c].claimed == s.clients[c].writes
    requires WellOpened(s.clients[c]) && s'.first == s.first
    requires s'.store == Published(s, c).store && s'.order == Published(s, c).order
    requires c in s'.clients && s'.clients == s.clients[c := s'.clients[c]]
    requires var cl' := s'.clients[c];
             && cl' == s.clients[c].(phase := cl'.phase, success := cl'.success, published := true)
             && if cl'.success then cl'.phase.Unlocking? else cl'.phase.Writing?
    ensures Good(cfg, s')
  {
    PublishedLog(cfg, s, c);
    NewPublicationOk(cfg, s, s', c);
    PublishedRest(cfg, s, s', c);
    forall t: Table, v: nat ensures VisibleExists(s', t, v) {
      assert VisibleExists(Published(s, c), t, v);
    }
  }

  lemma PublishedRest(cfg: Config, s: State, s': State, c: nat)
    requires Good(cfg, s) && Has(s, c, Writing) && !s.clients[c].published && s.clients[c].claimed == s.clients[c].writes
    requires WellOpened(s.clients[c]) && Extends(s, s')
    requires s'.store == Published(s, c).store && s'.order == Published(s, c).order
    requires c in s'.clients && s'.clients == s.clients[c := s'.clients[c]]
    requires var cl' := s'.clients[c];
             && cl' == s.clients[c].(phase := cl'.phase, success := cl'.success, published := true)
             && if cl'.success then cl'.phase.Unlocking? else cl'.phase.Writing?
    ensures forall c2 <- s'.clients :: ClientOk(cfg, s', c2, s'.clients[c2])
    ensures forall i | 0 <= i < |s.order| :: PublicationOk(cfg, s', i)
  {
    assert ClientOk(cfg, s, c, s.clients[c]);
    forall c2 <- s'.clients ensures ClientOk(cfg, s', c2, s'.clients[c2]) {
      if c2 == c {
        assert Publishes(s'.order[|s.order|], c, s.clients[c]);
        PublishedOk(cfg, s, s', c, s'.clients[c]);
      }
      else {
        assert ClientOk(cfg, s, c2, s.clients[c2]);
        FrameClient(cfg, s, s', c2, s.clients[c2]);
      }
    }
    forall i | 0 <= i < |s.order| ensures PublicationOk(cfg, s', i) {
      assert PublicationOk(cfg, s, i);
      FramePublication(cfg, s, s', i);
    }
  }

  lemma PublishGood(cfg: Config, s: State, c: nat, f: Fault)
    requires Good(cfg, s) && MayPublish(s, c)
    ensures Good(cfg, AfterPublish(s, c, f))
  {
    if !f.Refused? {
      if s.clients[c].published {
        PublishAgainGood(cfg, s, c, f);
      } else {
        assert ClientOk(cfg, s, c, s.clients[c]);
        PublishOnceGood(cfg, s, AfterPublish(s, c, f), c);
      }
    }
  }

  // ---- every run -----------------------------------------------------------------------------------

  lemma ForeignGood(cfg: Config, s: State, t: Table, v: nat)
    requires Good(cfg, s) && Enabled(cfg, s, ForeignCommit(t, v))
    ensures Good(cfg, Apply(cfg, s, ForeignCommit(t, v)))
  {
    var s' := Apply(cfg, s, ForeignCommit(t, v));
    assert Glog(s') == Glog(s);
    forall t2: Table, v2: nat ensures VisibleExists(s', t2, v2) {
      assert VisibleExists(s, t2, v2);
    }
    forall c <- s'.clients ensures ClientOk(cfg, s', c, s'.clients[c]) {
      FrameClient(cfg, s, s', c, s.clients[c]);
    }
    forall i | 0 <= i < |s'.order| ensures PublicationOk(cfg, s', i) {
      assert PublicationOk(cfg, s, i);
      FramePublication(cfg, s, s', i);
    }
  }

  lemma StepInv(cfg: Config, s: State, step: Step)
    requires Inv(cfg, s) && Enabled(cfg, s, step)
    ensures Inv(cfg, Apply(cfg, s, step))
  {
    if !s.stolen {
      match step
      case Begin(c) => BeginGood(cfg, s, c);
      case Open(c, t, write) => OpenGood(cfg, s, c, t, write);
      case TryLock(c, f) => TryLockGood(cfg, s, c, f);
      case Validate(c) => ValidateGood(cfg, s, c);
      case Claim(c, t, f) => ClaimGood(cfg, s, c, t, f);
      case Publish(c, f) => PublishGood(cfg, s, c, f);
      case DeleteLock(c, f) => DeleteLockGood(cfg, s, c, f);
      case ForeignCommit(t, v) => ForeignGood(cfg, s, t, v);
      case _ => DecideGood(cfg, s, step);
    }
  }

  lemma {:induction false} RunInv(cfg: Config, s: State, steps: seq<Step>)
    requires Inv(cfg, s) && ValidRun(cfg, s, steps)
    ensures Inv(cfg, Run(cfg, s, steps))
    decreases |steps|
  {
    if steps != [] {
      StepInv(cfg, s, steps[0]);
      RunInv(cfg, Apply(cfg, s, steps[0]), steps[1..]);
    }
  }
}
