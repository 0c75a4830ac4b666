/** The marker protocol of levels 0 and 1 as a transition system: every store request of every
    transaction is one step, steps of different transactions interleave freely, any request may be
    refused or lose its response, and a transaction that takes no more steps has crashed. */
module MarkerProtocol {
  import opened ObjectStore
  import opened DeltaReplay
  import opened MarkerWorld
  import StoreClock

  /** serializable: the isolation level. sublogs: level 0, operations can be redone.
      lease, grace: MARKER_LEASE_MS and MARKER_GRACE_MS. maxRedos: MAX_REDOS. */
  datatype Config = Config(serializable: bool, sublogs: bool, lease: nat, grace: nat, maxRedos: nat)
  {
    /** The commit has to be written this long before the deadline. */
    function Margin(): nat { StoreClock.Margin(lease) }
  }

  /** A transaction's view of one table it opened. */
  datatype Tab = Tab(
    pos: nat,                  // the version its marker reserved
    etag: nat,
    deadline: int,
    valid: bool,               // Marker::valid
    shifting: bool,            // the version was given up, the next one is not reserved yet
    loading: set<nat>,         // versions below pos not parsed yet
    base: set<nat>,            // versions in the snapshot the operations were computed on
    markers: set<nat>,         // prev_markers: versions to wait for at commit
    waited: set<nat>,          // prev_markers found final since
    pass: set<nat>,            // those waited for in this pass of the commit loop
    recent: set<nat>,          // history: those waited for since the operations were last redone
    abandoned: set<nat>,       // own versions given up by a shift
    wasRead: bool,
    changed: bool,             // concurrent_change
    removed: set<Path>,        // concurrent_removes
    dirty: bool,               // the transaction creates or deletes files of the table
    actions: seq<FileAction>,  // the commit's actions
    uncertain: bool,           // a write of the commit may have been applied
    lost: bool,                // write_commit reported Lost
    committed: bool)

  datatype Phase = Active | Committing | Writing | Done | Aborted

  /** ranked, rank, held, late and doubled are history: the time of the validation that preceded the
      first commit, the tables whose reservations were still held then, whether a version was
      shifted after the first commit, and whether a redo discarded a commit already written. */
  datatype Client = Client(
    phase: Phase,
    tables: map<nat, Tab>,
    implicit: bool,            // !explicit_log: operations are deferred and redone at commit
    redone: bool,
    rounds: nat,               // shifts and repeated redos of this commit
    turning: bool,             // the commit loop moves markers and then starts over
    ranked: bool,
    rank: nat,
    held: set<nat>,
    late: bool,
    doubled: bool)

  datatype State = State(w: World, clients: map<nat, Client>)

  datatype Step =
    | Begin(c: nat)
    | Reserve(c: nat, t: nat, h: nat, nowMs: int, f: Fault)
    | Load(c: nat, t: nat, u: nat, deferred: bool)
    | FailOpen(c: nat, t: nat, f: Fault)
    | Read(c: nat, t: nat)
    | Stage(c: nat, t: nat, actions: seq<FileAction>)
    | StartCommit(c: nat)
    | Wait(c: nat, t: nat, u: nat)
    | TakeOver(c: nat, t: nat, u: nat, earliest: int, f: Fault)
    | GiveUp(c: nat, t: nat, latest: int, f: Fault)
    | ReserveAgain(c: nat, t: nat, h: nat, nowMs: int, f: Fault)
    | NextPass(c: nat)
    | Redo(c: nat, plan: map<nat, seq<FileAction>>)
    | Validate(c: nat, latest: int)
    | Write(c: nat, t: nat, f: Fault)
    | Finish(c: nat)
    | Abort(c: nat)
    | ReleaseMarker(c: nat, t: nat, f: Fault)
    | ForeignCommit(t: nat, h: nat, actions: seq<FileAction>)

  // ---- what a step needs ---------------------------------------------------------------------

  predicate Committed(cl: Client) {
    exists t <- cl.tables :: cl.tables[t].committed
  }

  /** All prev_markers were found final in this pass; nothing is half open. */
  predicate AllWaited(cl: Client) {
    forall t <- cl.tables :: var tab := cl.tables[t];
      tab.loading == {} && !tab.shifting && tab.markers <= tab.pass
  }

  /** has_read_conflict, has_write_conflict */
  predicate Conflict(cfg: Config, tab: Tab) {
    || (cfg.serializable && tab.wasRead && tab.changed)
    || RemovedPaths(tab.actions) * tab.removed != {}
  }

  /** lease_expiring, for a reading `latest` of the store clock */
  predicate LeaseExpiring(cfg: Config, tab: Tab, latest: int) {
    tab.valid && latest + cfg.Margin() >= tab.deadline
  }

  /** The store still holds the transaction's own marker. */
  predicate StillReserved(w: World, t: nat, tab: Tab) {
    w.Carries(Key(t, tab.pos), tab.etag)
  }

  ghost predicate NextFree(w: World, t: nat, h: nat) {
    w.Exists(Key(t, h)) && !w.Exists(Key(t, h + 1))
  }

  predicate Has(s: State, c: nat, phase: Phase) {
    c in s.clients && s.clients[c].phase == phase
  }

  predicate HasTab(s: State, c: nat, phase: Phase, t: nat) {
    Has(s, c, phase) && t in s.clients[c].tables
  }

  ghost predicate CanReserve(s: State, c: nat, t: nat, h: nat) {
    Has(s, c, Active) && t !in s.clients[c].tables && NextFree(s.w, t, h)
  }

  predicate CanLoad(s: State, c: nat, t: nat, u: nat) {
    HasTab(s, c, Active, t) && u in s.clients[c].tables[t].loading
  }

  predicate CanFailOpen(s: State, c: nat, t: nat) {
    HasTab(s, c, Active, t) && !s.clients[c].tables[t].wasRead && !s.clients[c].tables[t].dirty
  }

  predicate IsOpen(s: State, c: nat, t: nat) {
    HasTab(s, c, Active, t) && s.clients[c].tables[t].loading == {}
  }

  predicate CanStartCommit(s: State, c: nat) {
    Has(s, c, Active) && forall t <- s.clients[c].tables :: s.clients[c].tables[t].loading == {}
  }

  /** Every pass waits for every prev_marker again. */
  predicate Waits(s: State, c: nat, t: nat, u: nat) {
    HasTab(s, c, Committing, t) && !s.clients[c].turning && u in s.clients[c].tables[t].markers
  }

  predicate CanWait(s: State, c: nat, t: nat, u: nat) {
    Waits(s, c, t, u) && s.w.Final(Key(t, u))
  }

  ghost predicate CanTakeOver(cfg: Config, s: State, c: nat, t: nat, u: nat, earliest: int) {
    && Waits(s, c, t, u)
    && s.w.Exists(Key(t, u)) && s.w.Holds(Key(t, u)).Marker?
    && earliest > s.w.Holds(Key(t, u)).deadline + cfg.grace
  }

  predicate CanGiveUp(cfg: Config, s: State, c: nat, t: nat, latest: int) {
    && HasTab(s, c, Committing, t) && s.clients[c].rounds < cfg.maxRedos
    && var cl, tab := s.clients[c], s.clients[c].tables[t];
       && tab.dirty && !tab.committed && !tab.shifting
       && (tab.lost || ((cl.turning || AllWaited(cl)) && LeaseExpiring(cfg, tab, latest)))
  }

  ghost predicate CanReserveAgain(s: State, c: nat, t: nat, h: nat) {
    && HasTab(s, c, Committing, t) && s.clients[c].tables[t].shifting
    && s.clients[c].tables[t].pos <= h && NextFree(s.w, t, h)
  }

  /** The markers are moved: the loop starts over. */
  predicate CanNextPass(cfg: Config, s: State, c: nat) {
    && Has(s, c, Committing) && s.clients[c].turning && s.clients[c].rounds < cfg.maxRedos
    && forall t <- s.clients[c].tables :: !s.clients[c].tables[t].shifting && !s.clients[c].tables[t].lost
  }

  predicate CanRedo(cfg: Config, s: State, c: nat) {
    && Has(s, c, Committing)
    && var cl := s.clients[c];
       && cl.implicit && !cl.turning && AllWaited(cl)
       && (cl.redone ==> cl.rounds < cfg.maxRedos && exists t <- cl.tables :: Conflict(cfg, cl.tables[t]))
  }

  predicate CanValidate(cfg: Config, s: State, c: nat, latest: int) {
    && Has(s, c, Committing)
    && var cl := s.clients[c];
       && !cl.turning && AllWaited(cl) && (cl.implicit ==> cl.redone)
       && forall t <- cl.tables :: var tab := cl.tables[t];
            && !Conflict(cfg, tab) && !tab.lost
            && (tab.dirty && !tab.committed ==> !LeaseExpiring(cfg, tab, latest))
  }

  predicate CanWrite(s: State, c: nat, t: nat) {
    && HasTab(s, c, Writing, t)
    && var cl := s.clients[c];
       && cl.tables[t].dirty && !cl.tables[t].committed
       && forall t' <- cl.tables :: cl.tables[t'].uncertain ==> t' == t
  }

  predicate CanFinish(s: State, c: nat) {
    Has(s, c, Writing) &&
    forall t <- s.clients[c].tables :: s.clients[c].tables[t].dirty ==> s.clients[c].tables[t].committed
  }

  predicate CanRelease(s: State, c: nat, t: nat) {
    (HasTab(s, c, Done, t) || HasTab(s, c, Aborted, t)) && s.clients[c].tables[t].valid
  }

  ghost predicate Enabled(cfg: Config, s: State, step: Step) {
    match step
    case Begin(c) => c !in s.clients
    case Reserve(c, t, h, _, _) => CanReserve(s, c, t, h)
    case Load(c, t, u, _) => CanLoad(s, c, t, u)
    case FailOpen(c, t, _) => CanFailOpen(s, c, t)
    case Read(c, t) => IsOpen(s, c, t)
    case Stage(c, t, _) => IsOpen(s, c, t)
    case StartCommit(c) => CanStartCommit(s, c)
    case Wait(c, t, u) => CanWait(s, c, t, u)
    case TakeOver(c, t, u, earliest, _) => CanTakeOver(cfg, s, c, t, u, earliest)
    case GiveUp(c, t, latest, _) => CanGiveUp(cfg, s, c, t, latest)
    case ReserveAgain(c, t, h, _, _) => CanReserveAgain(s, c, t, h)
    case NextPass(c) => CanNextPass(cfg, s, c)
    case Redo(c, _) => CanRedo(cfg, s, c)
    case Validate(c, latest) => CanValidate(cfg, s, c, latest)
    case Write(c, t, _) => CanWrite(s, c, t)
    case Finish(c) => CanFinish(s, c)
    case Abort(c) => Has(s, c, Active) || Has(s, c, Committing) || Has(s, c, Writing)
    case ReleaseMarker(c, t, _) => CanRelease(s, c, t)
    case ForeignCommit(t, h, _) => NextFree(s.w, t, h)
  }

  // ---- what a step does ----------------------------------------------------------------------

  function Below(n: nat): (r: set<nat>)
    ensures forall u: nat :: u in r <==> u < n
  {
    if n == 0 then {} else Below(n - 1) + {n - 1}
  }

  /** load_table: everything below the reserved version is still to be parsed. */
  function Opened(pos: nat, etag: nat, deadline: int): Tab {
    Tab(pos, etag, deadline, true, false, Below(pos), {}, {}, {}, {}, {}, {},
        false, false, {}, false, [], false, false, false)
  }

  function WithTab(cl: Client, t: nat, tab: Tab): Client {
    cl.(tables := cl.tables[t := tab])
  }

  function With(s: State, w: World, c: nat, cl: Client): State {
    State(w, s.clients[c := cl])
  }

  /** parse_logentries2: a marker, or a version beyond the visible snapshot, is waited for later. */
  function LoadedTab(w: World, t: nat, tab: Tab, u: nat, deferred: bool): Tab {
    var read := !deferred && w.Final(Key(t, u));
    tab.(loading := tab.loading - {u},
         base := if read then tab.base + {u} else tab.base,
         markers := if read then tab.markers else tab.markers + {u})
  }

  function Loaded(cfg: Config, w: World, cl: Client, t: nat, u: nat, deferred: bool): Client
    requires t in cl.tables
  {
    WithTab(cl, t, LoadedTab(w, t, cl.tables[t], u, deferred))
      .(implicit := cl.implicit || (cfg.sublogs && !deferred && !w.Final(Key(t, u))))
  }

  /** wait_for_marker on a final version: it joins the snapshot and is recorded for validation. */
  function Waited(tab: Tab, u: nat, actions: seq<FileAction>): Tab {
    tab.(waited := tab.waited + {u}, pass := tab.pass + {u}, recent := tab.recent + {u},
         changed := tab.changed || actions != [],
         removed := tab.removed + RemovedPaths(actions))
  }

  /** redo(1): the operations are computed again on everything below the reserved version. If they
      were redone before (again), rebuild_state has discarded the files they created and deleted, and
      with them which tables were committed. */
  function RedoneTab(tab: Tab, again: bool, plan: map<nat, seq<FileAction>>, t: nat): Tab {
    tab.(base := tab.base + tab.waited, recent := {}, changed := false, removed := {},
         actions := if t in plan then plan[t] else if again then [] else tab.actions,
         dirty := t in plan || (tab.dirty && !again),
         committed := tab.committed && !again)
  }

  function Redone(cl: Client, plan: map<nat, seq<FileAction>>): Client {
    cl.(tables := map t <- cl.tables :: RedoneTab(cl.tables[t], cl.redone, plan, t),
        redone := true, rounds := if cl.redone then cl.rounds + 1 else cl.rounds,
        doubled := cl.doubled || (cl.redone && Committed(cl)))
  }

  function Turned(cl: Client): Client {
    cl.(tables := map t <- cl.tables :: cl.tables[t].(pass := {}), turning := false, rounds := cl.rounds + 1)
  }

  /** The validation before the first commit is the one that counts. */
  function Validated(w: World, cl: Client): Client {
    var first := !Committed(cl);
    cl.(phase := Writing, ranked := cl.ranked || first, rank := if first then w.time else cl.rank,
        held := if first then set t | t in cl.tables && StillReserved(w, t, cl.tables[t]) else cl.held)
  }

  function CommittedTab(tab: Tab): Tab { tab.(committed := true, valid := false, uncertain := false) }

  function LostTab(tab: Tab): Tab { tab.(lost := true, valid := false, uncertain := false) }

  /** write_commit reports Lost; after an uncertain attempt the version is read back first. */
  predicate WasLost(w: World, c: nat, t: nat, tab: Tab, status: WriteStatus) {
    var k := Key(t, tab.pos);
    var ours := k in w.store.objects && w.Holds(k) == Commit(Writer(c), tab.actions);
    !status.Error? && !status.Ok? && !(tab.uncertain && ours)
  }

  function Concluded(w: World, c: nat, t: nat, tab: Tab, status: WriteStatus): Tab {
    if status.Error? then tab.(uncertain := true)
    else if WasLost(w, c, t, tab, status) then LostTab(tab)
    else CommittedTab(tab)
  }

  /** One attempt of write_commit. `w` is the store after the attempt. */
  function Written(w: World, c: nat, cl: Client, t: nat, status: WriteStatus): Client
    requires t in cl.tables
  {
    var cl' := WithTab(cl, t, Concluded(w, c, t, cl.tables[t], status));
    if WasLost(w, c, t, cl.tables[t], status) then
      cl'.(phase := Committing, turning := true, ranked := cl.ranked && Committed(cl))
    else cl'
  }

  function AfterReserve(cfg: Config, s: State, c: nat, t: nat, h: nat, nowMs: int, f: Fault): State
    requires c in s.clients
  {
    var deadline := nowMs + cfg.lease;
    var (w, status) := PlaceMarker(s.w, Key(t, h + 1), c, deadline, f);
    var cl := s.clients[c];
    With(s, w, c, if status.Ok? then WithTab(cl, t, Opened(h + 1, w.store.nextEtag, deadline)) else cl)
  }

  /** open_tableV2 after a failed load: the version is released without looking. */
  function AfterFailOpen(s: State, c: nat, t: nat, f: Fault): State
    requires CanFailOpen(s, c, t)
  {
    var cl := s.clients[c];
    With(s, Overwrite(s.w, Key(t, cl.tables[t].pos), f), c, cl.(tables := cl.tables - {t}))
  }

  /** A change of one table in memory. */
  function AfterLocal(s: State, c: nat, t: nat, tab: Tab): State
    requires c in s.clients
  {
    With(s, Tick(s.w), c, WithTab(s.clients[c], t, tab))
  }

  function AfterPhase(s: State, c: nat, phase: Phase): State
    requires c in s.clients
  {
    With(s, Tick(s.w), c, s.clients[c].(phase := phase))
  }

  function AfterTakeOver(s: State, c: nat, t: nat, u: nat, f: Fault): State
    requires HasTab(s, c, Committing, t) && Key(t, u) in s.w.store.objects
  {
    var k := Key(t, u);
    var (w, status) := Swap(s.w, k, RELEASED, s.w.store.objects[k].etag, f);
    var cl := s.clients[c];
    With(s, w, c, if status.Ok? then WithTab(cl, t, Waited(cl.tables[t], u, [])) else cl)
  }

  function GivenUpTab(tab: Tab): Tab {
    tab.(valid := false, shifting := true, abandoned := tab.abandoned + {tab.pos})
  }

  function GivenUp(cl: Client, t: nat): Client
    requires t in cl.tables
  {
    WithTab(cl, t, GivenUpTab(cl.tables[t])).(turning := true, late := cl.late || Committed(cl))
  }

  /** shift_marker, first half: an own marker is released. */
  function AfterGiveUp(s: State, c: nat, t: nat, f: Fault): State
    requires HasTab(s, c, Committing, t)
  {
    var cl := s.clients[c];
    var tab := cl.tables[t];
    var w := if tab.valid then Swap(s.w, Key(t, tab.pos), RELEASED, tab.etag, f).0 else Tick(s.w);
    With(s, w, c, GivenUp(cl, t))
  }

  /** All versions between the old one and the new one will be waited for. */
  function Shifted(tab: Tab, h: nat, etag: nat, deadline: int): Tab {
    tab.(pos := h + 1, etag := etag, deadline := deadline, valid := true, shifting := false, lost := false,
         markers := tab.markers + (Below(h + 1) - Below(tab.pos + 1)))
  }

  /** shift_marker, second half: a later version is reserved. */
  function AfterReserveAgain(cfg: Config, s: State, c: nat, t: nat, h: nat, nowMs: int, f: Fault): State
    requires HasTab(s, c, Committing, t)
  {
    var deadline := nowMs + cfg.lease;
    var (w, status) := PlaceMarker(s.w, Key(t, h + 1), c, deadline, f);
    var cl := s.clients[c];
    With(s, w, c, if status.Ok? then WithTab(cl, t, Shifted(cl.tables[t], h, w.store.nextEtag, deadline)) else cl)
  }

  function AfterWrite(s: State, c: nat, t: nat, f: Fault): State
    requires HasTab(s, c, Writing, t)
  {
    var tab := s.clients[c].tables[t];
    var (w, status) := Swap(s.w, Key(t, tab.pos), Commit(Writer(c), tab.actions), tab.etag, f);
    With(s, w, c, Written(w, c, s.clients[c], t, status))
  }

  /** Marker::release after a commit or an abort. */
  function AfterRelease(s: State, c: nat, t: nat, f: Fault): State
    requires CanRelease(s, c, t)
  {
    var cl := s.clients[c];
    var tab := cl.tables[t];
    var (w, status) := Swap(s.w, Key(t, tab.pos), RELEASED, tab.etag, f);
    With(s, w, c, if status.Error? then cl else WithTab(cl, t, tab.(valid := false)))
  }

  function Apply(cfg: Config, s: State, step: Step): State
    requires Enabled(cfg, s, step)
  {
    match step
    case Begin(c) =>
      With(s, Tick(s.w), c, Client(Active, map[], false, false, 0, false, false, 0, {}, false, false))
    case Reserve(c, t, h, nowMs, f) => AfterReserve(cfg, s, c, t, h, nowMs, f)
    case Load(c, t, u, deferred) => With(s, Tick(s.w), c, Loaded(cfg, s.w, s.clients[c], t, u, deferred))
    case FailOpen(c, t, f) => AfterFailOpen(s, c, t, f)
    case Read(c, t) => AfterLocal(s, c, t, s.clients[c].tables[t].(wasRead := true))
    case Stage(c, t, actions) => AfterLocal(s, c, t, s.clients[c].tables[t].(dirty := true, actions := actions))
    case StartCommit(c) => AfterPhase(s, c, Committing)
    case Wait(c, t, u) => AfterLocal(s, c, t, Waited(s.clients[c].tables[t], u, Actions(s.w.Holds(Key(t, u)))))
    case TakeOver(c, t, u, _, f) => AfterTakeOver(s, c, t, u, f)
    case GiveUp(c, t, _, f) => AfterGiveUp(s, c, t, f)
    case ReserveAgain(c, t, h, nowMs, f) => AfterReserveAgain(cfg, s, c, t, h, nowMs, f)
    case NextPass(c) => With(s, Tick(s.w), c, Turned(s.clients[c]))
    case Redo(c, plan) => With(s, Tick(s.w), c, Redone(s.clients[c], plan))
    case Validate(c, _) => With(s, Tick(s.w), c, Validated(s.w, s.clients[c]))
    case Write(c, t, f) => AfterWrite(s, c, t, f)
    case Finish(c) => AfterPhase(s, c, Done)
    case Abort(c) => AfterPhase(s, c, Aborted)
    case ReleaseMarker(c, t, f) => AfterRelease(s, c, t, f)
    case ForeignCommit(t, h, actions) => State(LegacyCommit(s.w, Key(t, h + 1), actions), s.clients)
  }

  // ---- runs ----------------------------------------------------------------------------------

  /** Tables with some final versions, no transactions. */
  ghost predicate Init(s: State) {
    s.clients == map[] && WorldInv(s.w) && s.w.owner == map[]
  }

  ghost predicate ValidRun(cfg: Config, s: State, steps: seq<Step>)
    decreases |steps|
  {
    steps == [] || (Enabled(cfg, s, steps[0]) && ValidRun(cfg, Apply(cfg, s, steps[0]), steps[1..]))
  }

  ghost function Run(cfg: Config, s: State, steps: seq<Step>): State
    requires ValidRun(cfg, s, steps)
    decreases |steps|
  {
    if steps == [] then s else Run(cfg, Apply(cfg, s, steps[0]), steps[1..])
  }
}
