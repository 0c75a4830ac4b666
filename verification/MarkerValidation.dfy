/** Which transactions pass the validation of the marker protocol: what concurrent_change and
    concurrent_removes record, when they stop a commit, and what a redo starts from. */
module MarkerValidation {
  import opened ObjectStore
  import opened DeltaReplay
  import opened MarkerWorld
  import opened MarkerProtocol
  import opened MarkerInvariant
  import opened MarkerSafety
  import opened MarkerTheorems

  // ---- what is recorded ----------------------------------------------------------------------------

  ghost predicate SomeChange(w: World, t: nat, versions: set<nat>) {
    exists u <- versions :: EffectOf(w, Key(t, u)) != []
  }

  ghost predicate SomeRemove(w: World, t: nat, versions: set<nat>, p: Path) {
    exists u <- versions :: p in RemovedPaths(EffectOf(w, Key(t, u)))
  }

  /** concurrent_change and concurrent_removes are exactly what the versions waited for since the last
      redo did. */
  ghost predicate Records(w: World, t: nat, tab: Tab) {
    && (forall u <- tab.recent :: w.Final(Key(t, u)))
    && (tab.changed <==> SomeChange(w, t, tab.recent))
    && forall p :: p in tab.removed <==> SomeRemove(w, t, tab.recent, p)
  }

  /** Without a redo those are all the versions waited for, and none of them is in the snapshot. */
  predicate Sorted(redone: bool, tab: Tab) {
    && tab.recent <= tab.waited && tab.loading !! tab.base + tab.markers + tab.abandoned && tab.abandoned !! tab.markers
    && (!redone ==> tab.recent == tab.waited && tab.base !! tab.markers)
  }

  ghost predicate Recorded(w: World, cl: Client, t: nat)
    requires t in cl.tables
  {
    Records(w, t, cl.tables[t]) && Sorted(cl.redone, cl.tables[t])
  }

  ghost predicate AllRecorded(s: State) {
    forall c, t {:trigger Recorded(s.w, s.clients[c], t)} | c in s.clients && t in s.clients[c].tables :: Recorded(s.w, s.clients[c], t)
  }

  // ---- every step keeps the records ------------------------------------------------------------------

  lemma RecordsKept(w: World, w': World, t: nat, tab: Tab, tab': Tab)
    requires Records(w, t, tab) && forall u: nat :: SameFinal(w, w', Key(t, u))
    requires tab'.recent == tab.recent && tab'.changed == tab.changed && tab'.removed == tab.removed
    ensures Records(w', t, tab')
  {
    forall u <- tab.recent ensures w'.Final(Key(t, u)) && EffectOf(w', Key(t, u)) == EffectOf(w, Key(t, u)) {
      assert SameFinal(w, w', Key(t, u));
    }
    forall p ensures SomeRemove(w', t, tab'.recent, p) == SomeRemove(w, t, tab.recent, p) {}
  }

  lemma RecordsWaited(w: World, t: nat, tab: Tab, u: nat)
    requires Records(w, t, tab) && w.Final(Key(t, u))
    ensures Records(w, t, Waited(tab, u, Actions(w.Holds(Key(t, u)))))
  {
    var tab' := Waited(tab, u, Actions(w.Holds(Key(t, u))));
    assert u in tab'.recent;
    assert forall x <- tab.recent :: x in tab'.recent;
    forall p ensures p in tab'.removed <==> SomeRemove(w, t, tab'.recent, p) {}
  }

  /** Nothing of a table changes that the records speak of. */
  predicate SameRecords(tab: Tab, tab': Tab) {
    && tab'.loading == tab.loading && tab'.base == tab.base && tab'.markers == tab.markers && tab'.abandoned == tab.abandoned
    && tab'.waited == tab.waited && tab'.recent == tab.recent && tab'.changed == tab.changed && tab'.removed == tab.removed
  }

  ghost predicate SameFinals(w: World, w': World) {
    forall k :: SameFinal(w, w', k)
  }

  predicate Follows(s: State, c: nat, cl': Client, t: nat)
    requires t in cl'.tables
  {
    && c in s.clients && t in s.clients[c].tables && cl'.redone == s.clients[c].redone
    && SameRecords(s.clients[c].tables[t], cl'.tables[t])
  }

  lemma FollowsRecorded(s: State, w': World, c: nat, cl': Client, t: nat)
    requires AllRecorded(s) && SameFinals(s.w, w') && t in cl'.tables && Follows(s, c, cl', t)
    ensures Recorded(w', cl', t)
  {
    assert Recorded(s.w, s.clients[c], t);
    forall u: nat ensures SameFinal(s.w, w', Key(t, u)) {}
    RecordsKept(s.w, w', t, s.clients[c].tables[t], cl'.tables[t]);
  }

  /** The tables a step does not touch follow. */
  lemma ConcludeRecorded(s: State, w': World, c: nat, cl': Client)
    requires AllRecorded(s) && SameFinals(s.w, w')
    requires forall t | t in cl'.tables :: Follows(s, c, cl', t) || Recorded(w', cl', t)
    ensures AllRecorded(With(s, w', c, cl'))
  {
    var s' := With(s, w', c, cl');
    forall c2, t | c2 in s'.clients && t in s'.clients[c2].tables ensures Recorded(w', s'.clients[c2], t) {
      if c2 != c || Follows(s, c, cl', t) { FollowsRecorded(s, w', c2, s'.clients[c2], t); }
    }
  }

  /** A step that changes one table. */
  lemma TabRecorded(s: State, w': World, c: nat, t: nat, tab': Tab, cl': Client)
    requires AllRecorded(s) && SameFinals(s.w, w') && c in s.clients
    requires cl'.tables == s.clients[c].tables[t := tab'] && cl'.redone == s.clients[c].redone
    requires Records(w', t, tab') && Sorted(cl'.redone, tab')
    ensures AllRecorded(With(s, w', c, cl'))
  {
    ConcludeRecorded(s, w', c, cl');
  }

  lemma NowRecorded(s: State, w': World, c: nat, t: nat)
    requires AllRecorded(s) && SameFinals(s.w, w') && c in s.clients && t in s.clients[c].tables
    ensures Recorded(w', s.clients[c], t)
  {
    FollowsRecorded(s, w', c, s.clients[c], t);
  }

  lemma OpenRecorded(s: State, w': World, c: nat, t: nat, pos: nat, etag: nat, deadline: int)
    requires AllRecorded(s) && SameFinals(s.w, w') && c in s.clients
    ensures AllRecorded(With(s, w', c, WithTab(s.clients[c], t, Opened(pos, etag, deadline))))
  {
    TabRecorded(s, w', c, t, Opened(pos, etag, deadline), WithTab(s.clients[c], t, Opened(pos, etag, deadline)));
  }

  lemma LoadRecorded(cfg: Config, s: State, w': World, c: nat, t: nat, u: nat, deferred: bool)
    requires AllRecorded(s) && SameFinals(s.w, w') && CanLoad(s, c, t, u)
    ensures AllRecorded(With(s, w', c, Loaded(cfg, s.w, s.clients[c], t, u, deferred)))
  {
    NowRecorded(s, w', c, t);
    TabRecorded(s, w', c, t, LoadedTab(s.w, t, s.clients[c].tables[t], u, deferred),
                Loaded(cfg, s.w, s.clients[c], t, u, deferred));
  }

  lemma WaitRecorded(s: State, w': World, c: nat, t: nat, u: nat)
    requires AllRecorded(s) && SameFinals(s.w, w') && Waits(s, c, t, u) && w'.Final(Key(t, u))
    ensures var tab' := Waited(s.clients[c].tables[t], u, Actions(w'.Holds(Key(t, u))));
            AllRecorded(With(s, w', c, WithTab(s.clients[c], t, tab')))
  {
    var tab' := Waited(s.clients[c].tables[t], u, Actions(w'.Holds(Key(t, u))));
    NowRecorded(s, w', c, t);
    RecordsWaited(w', t, s.clients[c].tables[t], u);
    TabRecorded(s, w', c, t, tab', WithTab(s.clients[c], t, tab'));
  }

  lemma GiveUpRecorded(s: State, w': World, c: nat, t: nat)
    requires AllRecorded(s) && SameFinals(s.w, w') && HasTab(s, c, Committing, t) && TabInv(s.w, c, t, s.clients[c].tables[t])
    ensures AllRecorded(With(s, w', c, GivenUp(s.clients[c], t)))
  {
    var tab := s.clients[c].tables[t];
    NowRecorded(s, w', c, t);
    assert BelowInv(s.w, c, t, tab, tab.pos);
    RecordsKept(w', w', t, tab, GivenUpTab(tab));
    TabRecorded(s, w', c, t, GivenUpTab(tab), GivenUp(s.clients[c], t));
  }

  lemma ShiftRecorded(s: State, w': World, c: nat, t: nat, h: nat, etag: nat, deadline: int)
    requires AllRecorded(s) && SameFinals(s.w, w') && HasTab(s, c, Committing, t) && TabInv(s.w, c, t, s.clients[c].tables[t])
    ensures AllRecorded(With(s, w', c, WithTab(s.clients[c], t, Shifted(s.clients[c].tables[t], h, etag, deadline))))
  {
    var tab := s.clients[c].tables[t];
    var tab' := Shifted(tab, h, etag, deadline);
    NowRecorded(s, w', c, t);
    forall u: nat ensures (u in tab.loading + tab.base ==> u < tab.pos) && (u in tab.abandoned ==> u <= tab.pos) {
      assert BelowInv(s.w, c, t, tab, u);
    }
    RecordsKept(w', w', t, tab, tab');
    TabRecorded(s, w', c, t, tab', WithTab(s.clients[c], t, tab'));
  }

  lemma RedoRecorded(s: State, w': World, c: nat, plan: map<nat, seq<FileAction>>)
    requires AllRecorded(s) && SameFinals(s.w, w') && c in s.clients
    requires forall t | t in s.clients[c].tables :: TabInv(s.w, c, t, s.clients[c].tables[t])
    ensures AllRecorded(With(s, w', c, Redone(s.clients[c], plan)))
  {
    var cl, cl' := s.clients[c], Redone(s.clients[c], plan);
    forall t | t in cl'.tables ensures Recorded(w', cl', t) {
      NowRecorded(s, w', c, t);
      forall u <- cl.tables[t].waited ensures u in cl.tables[t].markers { assert BelowInv(s.w, c, t, cl.tables[t], u); }
    }
    ConcludeRecorded(s, w', c, cl');
  }

  lemma ReserveRecorded(cfg: Config, s: State, c: nat, t: nat, h: nat, nowMs: int, f: Fault)
    requires AllRecorded(s) && CanReserve(s, c, t, h) && SameFinals(s.w, AfterReserve(cfg, s, c, t, h, nowMs, f).w)
    ensures AllRecorded(AfterReserve(cfg, s, c, t, h, nowMs, f))
  {
    var w' := AfterReserve(cfg, s, c, t, h, nowMs, f).w;
    if f.Delivered? { OpenRecorded(s, w', c, t, h + 1, w'.store.nextEtag, nowMs + cfg.lease); }
    else { ConcludeRecorded(s, w', c, s.clients[c]); }
  }

  lemma TakeOverRecorded(cfg: Config, s: State, c: nat, t: nat, u: nat, earliest: int, f: Fault)
    requires AllRecorded(s) && CanTakeOver(cfg, s, c, t, u, earliest) && SameFinals(s.w, AfterTakeOver(s, c, t, u, f).w)
    ensures AllRecorded(AfterTakeOver(s, c, t, u, f))
  {
    var w' := AfterTakeOver(s, c, t, u, f).w;
    if f.Delivered? { WaitRecorded(s, w', c, t, u); } else { ConcludeRecorded(s, w', c, s.clients[c]); }
  }

  lemma ReserveAgainRecorded(cfg: Config, s: State, c: nat, t: nat, h: nat, nowMs: int, f: Fault)
    requires AllRecorded(s) && CanReserveAgain(s, c, t, h) && TabInv(s.w, c, t, s.clients[c].tables[t])
    requires SameFinals(s.w, AfterReserveAgain(cfg, s, c, t, h, nowMs, f).w)
    ensures AllRecorded(AfterReserveAgain(cfg, s, c, t, h, nowMs, f))
  {
    var w' := AfterReserveAgain(cfg, s, c, t, h, nowMs, f).w;
    if f.Delivered? { ShiftRecorded(s, w', c, t, h, w'.store.nextEtag, nowMs + cfg.lease); }
    else { ConcludeRecorded(s, w', c, s.clients[c]); }
  }

  /** The steps that move versions from one set to another. */
  lemma MoveRecorded(cfg: Config, s: State, step: Step)
    requires Inv(cfg, s) && Enabled(cfg, s, step) && AllRecorded(s) && SameFinals(s.w, Apply(cfg, s, step).w)
    requires step.Load? || step.Wait? || step.GiveUp? || step.ReserveAgain? || step.Redo?
    ensures AllRecorded(Apply(cfg, s, step))
  {
    var w' := Apply(cfg, s, step).w;
    forall t | t in s.clients[step.c].tables ensures TabInv(s.w, step.c, t, s.clients[step.c].tables[t]) { KnownTab(cfg, s, step.c, t); }
    match step
    case Load(c, t, u, deferred) => LoadRecorded(cfg, s, w', c, t, u, deferred);
    case Wait(c, t, u) => WaitRecorded(s, w', c, t, u);
    case GiveUp(c, t, _, _) => GiveUpRecorded(s, w', c, t);
    case ReserveAgain(c, t, h, nowMs, f) => ReserveAgainRecorded(cfg, s, c, t, h, nowMs, f);
    case Redo(c, plan) => RedoRecorded(s, w', c, plan);
  }

  /** A step after which all tables of its transaction are what they were, as far as the records go. */
  lemma LocalRecorded(cfg: Config, s: State, step: Step)
    requires Enabled(cfg, s, step) && AllRecorded(s) && SameFinals(s.w, Apply(cfg, s, step).w)
    requires step.Begin? || step.StartCommit? || step.Validate? || step.Finish? || step.Abort? || step.NextPass?
    ensures AllRecorded(Apply(cfg, s, step))
  {
    ConcludeRecorded(s, Tick(s.w), step.c, Apply(cfg, s, step).clients[step.c]);
  }

  lemma OneTabRecorded(s: State, w': World, c: nat, t: nat, tab': Tab)
    requires AllRecorded(s) && SameFinals(s.w, w') && c in s.clients && t in s.clients[c].tables
    requires SameRecords(s.clients[c].tables[t], tab')
    ensures AllRecorded(With(s, w', c, WithTab(s.clients[c], t, tab')))
  {
    ConcludeRecorded(s, w', c, WithTab(s.clients[c], t, tab'));
  }

  lemma ReleaseRecorded(s: State, c: nat, t: nat, f: Fault)
    requires AllRecorded(s) && CanRelease(s, c, t) && SameFinals(s.w, AfterRelease(s, c, t, f).w)
    ensures AllRecorded(AfterRelease(s, c, t, f))
  {
    var tab, s' := s.clients[c].tables[t], AfterRelease(s, c, t, f);
    if f.Delivered? { OneTabRecorded(s, s'.w, c, t, tab.(valid := false)); } else { ConcludeRecorded(s, s'.w, c, s.clients[c]); }
  }

  lemma FailOpenRecorded(s: State, c: nat, t: nat, f: Fault)
    requires AllRecorded(s) && CanFailOpen(s, c, t) && SameFinals(s.w, AfterFailOpen(s, c, t, f).w)
    ensures AllRecorded(AfterFailOpen(s, c, t, f))
  {
    ConcludeRecorded(s, AfterFailOpen(s, c, t, f).w, c, s.clients[c].(tables := s.clients[c].tables - {t}));
  }

  lemma WrittenFollows(s: State, w: World, c: nat, t: nat, status: WriteStatus)
    requires HasTab(s, c, Writing, t)
    ensures var cl' := Written(w, c, s.clients[c], t, status);
            forall t2 | t2 in cl'.tables :: Follows(s, c, cl', t2)
  {}

  lemma WriteRecorded(s: State, c: nat, t: nat, f: Fault)
    requires AllRecorded(s) && HasTab(s, c, Writing, t) && SameFinals(s.w, AfterWrite(s, c, t, f).w)
    ensures AllRecorded(AfterWrite(s, c, t, f))
  {
    var tab := s.clients[c].tables[t];
    var (w', status) := Swap(s.w, Key(t, tab.pos), Commit(Writer(c), tab.actions), tab.etag, f);
    WrittenFollows(s, w', c, t, status);
    ConcludeRecorded(s, w', c, Written(w', c, s.clients[c], t, status));
  }

  lemma ForeignRecorded(s: State, w': World)
    requires AllRecorded(s) && SameFinals(s.w, w')
    ensures AllRecorded(State(w', s.clients))
  {
    var s' := State(w', s.clients);
    forall c, t | c in s'.clients && t in s'.clients[c].tables ensures Recorded(s'.w, s'.clients[c], t) {
      NowRecorded(s, w', c, t);
    }
  }

  lemma StepSameFinals(cfg: Config, s: State, step: Step)
    requires Inv(cfg, s) && Enabled(cfg, s, step)
    ensures SameFinals(s.w, Apply(cfg, s, step).w)
  {
    forall k ensures SameFinal(s.w, Apply(cfg, s, step).w, k) { StepKeeps(cfg, s, step, k); }
  }

  lemma StepRecorded(cfg: Config, s: State, step: Step)
    requires Inv(cfg, s) && Enabled(cfg, s, step) && AllRecorded(s)
    ensures AllRecorded(Apply(cfg, s, step))
  {
    StepSameFinals(cfg, s, step);
    match step
    case Reserve(c, t, h, nowMs, f) => ReserveRecorded(cfg, s, c, t, h, nowMs, f);
    case Load(_, _, _, _) => MoveRecorded(cfg, s, step);
    case FailOpen(c, t, f) => FailOpenRecorded(s, c, t, f);
    case Read(c, t) => OneTabRecorded(s, Tick(s.w), c, t, s.clients[c].tables[t].(wasRead := true));
    case Stage(c, t, actions) => OneTabRecorded(s, Tick(s.w), c, t, s.clients[c].tables[t].(dirty := true, actions := actions));
    case Wait(_, _, _) => MoveRecorded(cfg, s, step);
    case TakeOver(c, t, u, earliest, f) => TakeOverRecorded(cfg, s, c, t, u, earliest, f);
    case GiveUp(_, _, _, _) => MoveRecorded(cfg, s, step);
    case ReserveAgain(_, _, _, _, _) => MoveRecorded(cfg, s, step);
    case Redo(_, _) => MoveRecorded(cfg, s, step);
    case Write(c, t, f) => WriteRecorded(s, c, t, f);
    case ReleaseMarker(c, t, f) => ReleaseRecorded(s, c, t, f);
    case ForeignCommit(_, _, _) => ForeignRecorded(s, Apply(cfg, s, step).w);
    case _ => LocalRecorded(cfg, s, step);
  }

  lemma {:induction false} RunRecorded(cfg: Config, s: State, steps: seq<Step>)
    requires Inv(cfg, s) && ValidRun(cfg, s, steps) && AllRecorded(s)
    ensures AllRecorded(Run(cfg, s, steps))
    decreases |steps|
  {
    if steps != [] {
      StepInv(cfg, s, steps[0]);
      StepRecorded(cfg, s, steps[0]);
      RunRecorded(cfg, Apply(cfg, s, steps[0]), steps[1..]);
    }
  }

  lemma ReachedRecorded(cfg: Config, s: State, c: nat, t: nat)
    requires Reachable(cfg, s) && c in s.clients && t in s.clients[c].tables
    ensures Recorded(s.w, s.clients[c], t)
  {
    var s0, steps :| Reaches(cfg, s0, steps, s);
    InitInv(cfg, s0);
    RunRecorded(cfg, s0, steps);
  }

  /** In every reachable state: concurrent_change says that a version waited for since the last redo
      has actions, concurrent_removes are the paths those versions remove; and without a redo those
      are all the versions waited for. */
  lemma RecordsAreExact(cfg: Config, s: State, c: nat, t: nat)
    requires Reachable(cfg, s) && c in s.clients && t in s.clients[c].tables
    ensures var tab := s.clients[c].tables[t];
            && (forall u <- tab.recent :: s.w.Final(Key(t, u)))
            && (tab.changed <==> exists u <- tab.recent :: EffectOf(s.w, Key(t, u)) != [])
            && (forall p :: p in tab.removed <==> exists u <- tab.recent :: p in RemovedPaths(EffectOf(s.w, Key(t, u))))
            && (!s.clients[c].redone ==> tab.recent == tab.waited)
  {
    ReachedRecorded(cfg, s, c, t);
    forall p ensures SomeRemove(s.w, t, s.clients[c].tables[t].recent, p) <==>
                       exists u <- s.clients[c].tables[t].recent :: p in RemovedPaths(EffectOf(s.w, Key(t, u))) {}
  }

  // ---- which transactions pass -----------------------------------------------------------------------

  /** The commit loop has waited for everything, has redone what is to be redone, and all leases last. */
  predicate Ready(cfg: Config, s: State, c: nat, latest: int) {
    && Has(s, c, Committing) && !s.clients[c].turning && AllWaited(s.clients[c])
    && (s.clients[c].implicit ==> s.clients[c].redone)
    && forall t <- s.clients[c].tables :: var tab := s.clients[c].tables[t];
         !tab.lost && (tab.dirty && !tab.committed && tab.valid ==> latest + cfg.Margin() < tab.deadline)
  }

  /** What a version did to the table does not matter to the transaction. */
  ghost predicate Harmless(cfg: Config, w: World, t: nat, tab: Tab, u: nat) {
    && RemovedPaths(EffectOf(w, Key(t, u))) !! RemovedPaths(tab.actions)
    && (cfg.serializable && tab.wasRead ==> EffectOf(w, Key(t, u)) == [])
  }

  /** A transaction that is ready passes exactly if no version it waited for since its operations were
      last redone removed a file it removes, and, only under Serializable, no such version changed a
      table it read. */
  lemma ValidationIsExact(cfg: Config, s: State, c: nat, latest: int)
    requires Reachable(cfg, s) && Ready(cfg, s, c, latest)
    ensures Enabled(cfg, s, Validate(c, latest)) <==>
              forall t, u | t in s.clients[c].tables && u in s.clients[c].tables[t].recent ::
                Harmless(cfg, s.w, t, s.clients[c].tables[t], u)
  {
    var cl := s.clients[c];
    forall t | t in cl.tables
      ensures Conflict(cfg, cl.tables[t]) <==> exists u <- cl.tables[t].recent :: !Harmless(cfg, s.w, t, cl.tables[t], u)
    {
      ReachedRecorded(cfg, s, c, t);
      ConflictIsHarm(cfg, s.w, t, cl.tables[t]);
    }
    PassesWithoutConflict(cfg, s, c, latest);
  }

  lemma PassesWithoutConflict(cfg: Config, s: State, c: nat, latest: int)
    requires Ready(cfg, s, c, latest)
    ensures CanValidate(cfg, s, c, latest) <==> forall t | t in s.clients[c].tables :: !Conflict(cfg, s.clients[c].tables[t])
  {}

  lemma ConflictIsHarm(cfg: Config, w: World, t: nat, tab: Tab)
    requires Records(w, t, tab)
    ensures Conflict(cfg, tab) <==> exists u <- tab.recent :: !Harmless(cfg, w, t, tab, u)
  {
    if p :| p in RemovedPaths(tab.actions) * tab.removed {
      var u :| u in tab.recent && p in RemovedPaths(EffectOf(w, Key(t, u)));
      assert !Harmless(cfg, w, t, tab, u);
    }
    if tab.changed {
      var u :| u in tab.recent && EffectOf(w, Key(t, u)) != [];
      assert cfg.serializable && tab.wasRead ==> !Harmless(cfg, w, t, tab, u);
    }
    if u :| u in tab.recent && !Harmless(cfg, w, t, tab, u) {
      HarmConflicts(cfg, w, t, tab, u);
    }
  }

  lemma HarmConflicts(cfg: Config, w: World, t: nat, tab: Tab, u: nat)
    requires Records(w, t, tab) && u in tab.recent && !Harmless(cfg, w, t, tab, u)
    ensures Conflict(cfg, tab)
  {
    if p :| p in RemovedPaths(EffectOf(w, Key(t, u))) && p in RemovedPaths(tab.actions) {
      assert SomeRemove(w, t, tab.recent, p);
      assert p in RemovedPaths(tab.actions) * tab.removed;
    } else {
      assert SomeChange(w, t, tab.recent);
    }
  }

  // ---- the first pass --------------------------------------------------------------------------------

  /** Without a redo: a transaction that is ready passes exactly if all versions below its
      reservations that it has not read, apart from its own, are harmless to it. */
  lemma FirstValidationIsExact(cfg: Config, s: State, c: nat, latest: int)
    requires Reachable(cfg, s) && Ready(cfg, s, c, latest) && !s.clients[c].redone
    ensures Enabled(cfg, s, Validate(c, latest)) <==>
              forall t, u: nat | t in s.clients[c].tables && Unread(s.clients[c].tables[t], u) ::
                Harmless(cfg, s.w, t, s.clients[c].tables[t], u)
  {
    var cl := s.clients[c];
    ValidationIsExact(cfg, s, c, latest);
    forall t, u: nat | t in cl.tables ensures Unread(cl.tables[t], u) <==> u in cl.tables[t].recent {
      UnreadIsRecent(cfg, s, c, t, u);
    }
  }

  predicate Unread(tab: Tab, u: nat) { u < tab.pos && u !in tab.base && u !in tab.abandoned }

  lemma UnreadIsRecent(cfg: Config, s: State, c: nat, t: nat, u: nat)
    requires Reachable(cfg, s) && Has(s, c, Committing) && AllWaited(s.clients[c]) && !s.clients[c].redone && t in s.clients[c].tables
    ensures Unread(s.clients[c].tables[t], u) <==> u in s.clients[c].tables[t].recent
  {
    ReachedRecorded(cfg, s, c, t);
    ReachedInv(cfg, s);
    KnownTab(cfg, s, c, t);
    assert BelowInv(s.w, c, t, s.clients[c].tables[t], u);
  }

  // ---- what a redo starts from -----------------------------------------------------------------------

  /** After a redo the operations rest on everything below the reservations, and nothing conflicts:
      what it computed is committed as soon as the leases allow. */
  lemma RedoStartsOver(cfg: Config, s: State, c: nat, plan: map<nat, seq<FileAction>>, t: nat, latest: int)
    requires Reachable(cfg, s) && Enabled(cfg, s, Redo(c, plan)) && t in s.clients[c].tables
    ensures var s' := Apply(cfg, s, Redo(c, plan)); var tab, tab' := s.clients[c].tables[t], s'.clients[c].tables[t];
            && (!s.clients[c].doubled ==> Snapshot(s'.w, t, tab') == StateBefore(s'.w, t, tab.pos))
            && tab'.pos == tab.pos && tab'.wasRead == tab.wasRead
            && (t in plan ==> tab'.dirty && tab'.actions == plan[t])
            && (t !in plan && !s.clients[c].redone ==> tab'.dirty == tab.dirty && tab'.actions == tab.actions)
            && (t !in plan && s.clients[c].redone ==> !tab'.dirty && tab'.actions == [])
            && (tab'.committed <==> tab.committed && !s.clients[c].redone)
            && (Ready(cfg, s', c, latest) ==> Enabled(cfg, s', Validate(c, latest)))
  {
    var s', tab := Apply(cfg, s, Redo(c, plan)), s.clients[c].tables[t];
    ReachedInv(cfg, s);
    if !s.clients[c].doubled { RedoneSnapshot(cfg, s, c, plan, t); }
    PassesAfterRedo(cfg, s, c, plan, latest);
  }

  lemma PassesAfterRedo(cfg: Config, s: State, c: nat, plan: map<nat, seq<FileAction>>, latest: int)
    requires CanRedo(cfg, s, c)
    ensures var s' := With(s, Tick(s.w), c, Redone(s.clients[c], plan));
            Ready(cfg, s', c, latest) ==> CanValidate(cfg, s', c, latest)
  {}

  lemma RedoneSnapshot(cfg: Config, s: State, c: nat, plan: map<nat, seq<FileAction>>, t: nat)
    requires Inv(cfg, s) && CanRedo(cfg, s, c) && t in s.clients[c].tables && !s.clients[c].doubled
    ensures var tab := s.clients[c].tables[t];
            Snapshot(Tick(s.w), t, RedoneTab(tab, s.clients[c].redone, plan, t)) == StateBefore(Tick(s.w), t, tab.pos)
  {
    var tab := s.clients[c].tables[t];
    var tab' := RedoneTab(tab, s.clients[c].redone, plan, t);
    Known(cfg, s, c, t);
    forall u: nat | u < tab.pos ensures KnownLog(Tick(s.w), t, tab')[u] == TableLog(Tick(s.w), t, tab.pos)[u] {
      assert BelowInv(s.w, c, t, tab, u);
      if u in tab.abandoned { assert NoCommitAt(s.w, t, u); }
    }
    assert KnownLog(Tick(s.w), t, tab') == TableLog(Tick(s.w), t, tab.pos);
  }
}
