/** Every step of the marker protocol keeps the invariant. */
module MarkerSafety {
  import opened ObjectStore
  import opened DeltaReplay
  import opened MarkerWorld
  import opened MarkerProtocol
  import opened MarkerInvariant

  /** The commits of c in the log are current reservations. */
  ghost predicate OwnCommits(w: World, c: nat, cl: Client) {
    !cl.doubled ==> forall k | w.Final(k) && w.Holds(k).author == Writer(c) :: OwnCommit(cl, k)
  }

  ghost predicate OwnCommit(cl: Client, k: Key) {
    && k.table in cl.tables && cl.tables[k.table].pos == k.version
    && (cl.tables[k.table].committed || cl.tables[k.table].uncertain)
  }

  /** What the invariant of a table knows of its transaction. */
  ghost predicate SameContext(cl: Client, cl': Client) {
    && cl'.phase == cl.phase && cl'.ranked == cl.ranked && cl'.rank == cl.rank
    && cl'.held == cl.held && cl'.late == cl.late && cl'.doubled == cl.doubled
  }

  /** Reservations that may hold a commit stay. */
  ghost predicate KeepsReservations(cl: Client, cl': Client) {
    && (cl.doubled ==> cl'.doubled)
    && (!cl'.doubled ==> forall t <- cl.tables | cl.tables[t].committed || cl.tables[t].uncertain ::
          && t in cl'.tables && cl'.tables[t].pos == cl.tables[t].pos
          && (cl'.tables[t].committed || cl'.tables[t].uncertain))
  }

  /** A step of c that writes no commit. */
  ghost predicate Quiet(s: State, w': World, c: nat) {
    c in s.clients && WorldInv(w') && Evolves(s.w, w', c, Nothing)
  }

  // ---- assembling the invariant after a step ----------------------------------------------------

  lemma AuthorKept(cfg: Config, s: State, w': World, c: nat, cl': Client, at: Target, k: Key)
    requires Inv(cfg, s) && WorldInv(w') && Evolves(s.w, w', c, at) && OwnCommits(w', c, cl')
    ensures AuthorInv(With(s, w', c, cl'), k)
  {
    assert AuthorInv(s, k) && KeyEvolves(s.w, w', c, at, k) && KeyInv(w', k) && KeyInv(s.w, k);
    if w'.Final(k) && w'.Holds(k).author == Writer(c) && !cl'.doubled { assert OwnCommit(cl', k); }
  }

  lemma Conclude(cfg: Config, s: State, w': World, c: nat, cl': Client, at: Target)
    requires Inv(cfg, s) && WorldInv(w') && Evolves(s.w, w', c, at)
    requires at.Only? ==> at.key in s.w.owner && s.w.owner[at.key] == c
    requires ClientInv(w', cfg, c, cl') && OwnCommits(w', c, cl')
    ensures Inv(cfg, With(s, w', c, cl'))
  {
    var s' := With(s, w', c, cl');
    forall c2 | c2 in s'.clients ensures ClientInv(w', cfg, c2, s'.clients[c2]) {
      if c2 != c {
        assert ClientInv(s.w, cfg, c2, s.clients[c2]);
        FrameClient(s.w, w', c, at, cfg, c2, s.clients[c2]);
      }
    }
    forall k ensures AuthorInv(s', k) { AuthorKept(cfg, s, w', c, cl', at, k); }
    forall k <- w'.owner ensures w'.owner[k] in s'.clients { assert KeyEvolves(s.w, w', c, at, k); }
  }

  lemma KeepOwnCommits(cfg: Config, s: State, w': World, c: nat, cl': Client)
    requires Inv(cfg, s) && Quiet(s, w', c) && KeepsReservations(s.clients[c], cl')
    ensures OwnCommits(w', c, cl')
  {
    if !cl'.doubled {
      forall k | w'.Final(k) && w'.Holds(k).author == Writer(c) ensures OwnCommit(cl', k) {
        assert AuthorInv(s, k) && KeyEvolves(s.w, w', c, Nothing, k) && KeyInv(w', k);
      }
    }
  }

  lemma ConcludeQuiet(cfg: Config, s: State, w': World, c: nat, cl': Client)
    requires Inv(cfg, s) && Quiet(s, w', c) && KeepsReservations(s.clients[c], cl') && ClientInv(w', cfg, c, cl')
    ensures Inv(cfg, With(s, w', c, cl'))
  {
    KeepOwnCommits(cfg, s, w', c, cl');
    Conclude(cfg, s, w', c, cl', Nothing);
  }

  lemma Known(cfg: Config, s: State, c: nat, t: nat)
    requires Inv(cfg, s) && c in s.clients && t in s.clients[c].tables
    ensures TabOk(s.w, cfg, c, s.clients[c], t) && ContextInv(s.w, cfg, s.clients[c])
  {
    assert ClientInv(s.w, cfg, c, s.clients[c]);
  }

  lemma CommittedRanked(cfg: Config, s: State, c: nat)
    requires Inv(cfg, s) && c in s.clients
    ensures Committed(s.clients[c]) && !s.clients[c].doubled ==> s.clients[c].ranked
  {
    if t :| t in s.clients[c].tables && s.clients[c].tables[t].committed { Known(cfg, s, c, t); }
  }

  lemma KnownContext(cfg: Config, s: State, c: nat)
    requires Inv(cfg, s) && c in s.clients
    ensures ContextInv(s.w, cfg, s.clients[c])
  {
    assert ClientInv(s.w, cfg, c, s.clients[c]);
  }

  /** A table as it is, in the store after a quiet step. */
  lemma FrameOk(cfg: Config, s: State, w': World, c: nat, t: nat)
    requires Inv(cfg, s) && Quiet(s, w', c) && t in s.clients[c].tables
    ensures TabOk(w', cfg, c, s.clients[c], t)
  {
    var cl := s.clients[c];
    Known(cfg, s, c, t);
    FrameTab(s.w, w', c, Nothing, c, t, cl.tables[t]);
    if !cl.doubled { FrameSafe(s.w, w', c, Nothing, cfg, c, cl, t, cl.tables[t]); }
  }

  lemma SameTab(w: World, cfg: Config, c: nat, cl: Client, cl': Client, t: nat)
    requires t in cl.tables && t in cl'.tables && cl'.tables[t] == cl.tables[t]
    requires SameContext(cl, cl') && TabOk(w, cfg, c, cl, t)
    ensures TabOk(w, cfg, c, cl', t)
  {}

  lemma SameCommitted(cl: Client, cl': Client)
    requires forall t :: t in cl'.tables <==> t in cl.tables
    requires forall t | t in cl.tables :: cl'.tables[t].committed == cl.tables[t].committed
    ensures Committed(cl') == Committed(cl)
  {
    if t :| t in cl.tables && cl.tables[t].committed { assert cl'.tables[t].committed; }
    if t :| t in cl'.tables && cl'.tables[t].committed { assert cl.tables[t].committed; }
  }

  /** A quiet step that changes one table, which stays as committed as it was. */
  lemma TabStep(cfg: Config, s: State, w': World, c: nat, t: nat, tab': Tab)
    requires Inv(cfg, s) && Quiet(s, w', c) && t in s.clients[c].tables
    requires var tab := s.clients[c].tables[t];
             && tab'.committed == tab.committed && tab'.uncertain == tab.uncertain
             && (!s.clients[c].doubled && (tab.committed || tab.uncertain) ==> tab'.pos == tab.pos)
    requires TabOk(w', cfg, c, WithTab(s.clients[c], t, tab'), t)
    ensures Inv(cfg, With(s, w', c, WithTab(s.clients[c], t, tab')))
  {
    var cl := s.clients[c];
    var cl' := WithTab(cl, t, tab');
    KnownContext(cfg, s, c);
    SameCommitted(cl, cl');
    forall t2 | t2 in cl'.tables ensures TabOk(w', cfg, c, cl', t2) {
      if t2 != t {
        FrameOk(cfg, s, w', c, t2);
        SameTab(w', cfg, c, cl, cl', t2);
      }
    }
    ConcludeQuiet(cfg, s, w', c, cl');
  }

  /** A transaction that is not committing yet has nothing to lose but its table t. */
  lemma ActiveStep(cfg: Config, s: State, w': World, c: nat, cl': Client, t: nat)
    requires Inv(cfg, s) && Quiet(s, w', c) && Has(s, c, Active)
    requires cl' == s.clients[c].(tables := cl'.tables, implicit := cl'.implicit)
    requires forall t2 | t2 != t :: (t2 in cl'.tables <==> t2 in s.clients[c].tables) &&
                                    (t2 in cl'.tables ==> cl'.tables[t2] == s.clients[c].tables[t2])
    requires t in cl'.tables ==> TabOk(w', cfg, c, cl', t)
    ensures Inv(cfg, With(s, w', c, cl'))
  {
    var cl := s.clients[c];
    KnownContext(cfg, s, c);
    forall t2 | t2 in cl'.tables ensures TabOk(w', cfg, c, cl', t2) {
      if t2 != t {
        FrameOk(cfg, s, w', c, t2);
        SameTab(w', cfg, c, cl, cl', t2);
      }
    }
    if t in cl.tables { NothingYet(cfg, s, c, t); }
    ConcludeQuiet(cfg, s, w', c, cl');
  }

  lemma NothingYet(cfg: Config, s: State, c: nat, t: nat)
    requires Inv(cfg, s) && HasTab(s, c, Active, t)
    ensures var tab := s.clients[c].tables[t]; !tab.committed && !tab.uncertain && !tab.lost && !tab.shifting
    ensures var k := Key(t, s.clients[c].tables[t].pos); s.w.Exists(k) && (s.w.Holds(k).Marker? || s.w.Holds(k) == RELEASED)
  {
    Known(cfg, s, c, t);
  }

  // ---- before the commit ---------------------------------------------------------------------------

  /** Below an existing version every version exists. */
  lemma {:induction false} NoGap(w: World, t: nat, h: nat, u: nat)
    requires WorldInv(w) && w.Exists(Key(t, h)) && u <= h
    ensures w.Exists(Key(t, u))
    decreases h
  {
    assert KeyInv(w, Key(t, h));
    if u < h { NoGap(w, t, h - 1, u); }
  }

  lemma BeginInv(cfg: Config, s: State, c: nat)
    requires Inv(cfg, s) && Enabled(cfg, s, Begin(c))
    ensures Inv(cfg, Apply(cfg, s, Begin(c)))
  {
    TickEvolves(s.w, c, Nothing);
    var s' := Apply(cfg, s, Begin(c));
    forall k | s'.w.Final(k) ensures s'.w.Holds(k).author != Writer(c) {
      assert AuthorInv(s, k);
    }
    assert ContextInv(s'.w, cfg, s'.clients[c]);
    Conclude(cfg, s, s'.w, c, s'.clients[c], Nothing);
  }

  lemma OpenedInv(w: World, cfg: Config, c: nat, t: nat, h: nat, deadline: int)
    requires WorldInv(w) && NextFree(w, t, h)
    ensures var w' := PlaceMarker(w, Key(t, h + 1), c, deadline, Delivered).0;
            TabInv(w', c, t, Opened(h + 1, w'.store.nextEtag, deadline))
  {
    var w' := PlaceMarker(w, Key(t, h + 1), c, deadline, Delivered).0;
    var tab := Opened(h + 1, w'.store.nextEtag, deadline);
    forall u: nat ensures BelowInv(w', c, t, tab, u) {
      if u <= h { NoGap(w, t, h, u); }
    }
  }

  /** A marker promises nothing yet. */
  lemma OpenedSafe(w: World, cfg: Config, c: nat, cl: Client, t: nat, tab: Tab)
    requires cl.phase.Active? && !cl.ranked && w.Exists(Key(t, tab.pos)) && w.Holds(Key(t, tab.pos)).Marker?
    requires tab == Opened(tab.pos, tab.etag, tab.deadline)
    ensures TabSafe(w, cfg, c, cl, t, tab)
  {}

  lemma ReserveInv(cfg: Config, s: State, c: nat, t: nat, h: nat, nowMs: int, f: Fault)
    requires Inv(cfg, s) && CanReserve(s, c, t, h)
    ensures Inv(cfg, AfterReserve(cfg, s, c, t, h, nowMs, f))
  {
    var deadline := nowMs + cfg.lease;
    var w' := PlaceMarker(s.w, Key(t, h + 1), c, deadline, f).0;
    PlaceMarkerEvolves(s.w, Key(t, h + 1), c, deadline, f, Nothing);
    if f.Delivered? {
      var cl' := WithTab(s.clients[c], t, Opened(h + 1, w'.store.nextEtag, deadline));
      OpenedInv(s.w, cfg, c, t, h, deadline);
      KnownContext(cfg, s, c);
      OpenedSafe(w', cfg, c, cl', t, cl'.tables[t]);
      ActiveStep(cfg, s, w', c, cl', t);
    } else {
      ActiveStep(cfg, s, w', c, s.clients[c], t);
    }
  }

  lemma LoadedTabInv(w: World, c: nat, t: nat, tab: Tab, u: nat, deferred: bool)
    requires TabInv(w, c, t, tab) && u in tab.loading
    ensures TabInv(w, c, t, LoadedTab(w, t, tab, u, deferred))
  {
    forall x: nat ensures BelowInv(w, c, t, LoadedTab(w, t, tab, u, deferred), x) { assert BelowInv(w, c, t, tab, x); }
  }

  /** Before the commit a transaction works on a table without writing to the log. */
  lemma ActiveTab(cfg: Config, s: State, c: nat, t: nat, cl': Client)
    requires Inv(cfg, s) && HasTab(s, c, Active, t)
    requires cl' == s.clients[c].(tables := cl'.tables, implicit := cl'.implicit) && t in cl'.tables
    requires cl'.tables == s.clients[c].tables[t := cl'.tables[t]]
    requires var tab, tab' := s.clients[c].tables[t], cl'.tables[t];
             tab' == tab.(loading := tab'.loading, base := tab'.base, markers := tab'.markers,
                          wasRead := tab'.wasRead, dirty := tab'.dirty, actions := tab'.actions)
    requires TabInv(s.w, c, t, cl'.tables[t])
    ensures Inv(cfg, With(s, Tick(s.w), c, cl'))
  {
    TickEvolves(s.w, c, Nothing);
    FrameTab(s.w, Tick(s.w), c, Nothing, c, t, cl'.tables[t]);
    Known(cfg, s, c, t);
    ActiveSafe(s.w, cfg, c, s.clients[c], cl', t);
    ActiveStep(cfg, s, Tick(s.w), c, cl', t);
  }

  lemma ActiveSafe(w: World, cfg: Config, c: nat, cl: Client, cl': Client, t: nat)
    requires t in cl.tables && t in cl'.tables && cl.phase.Active? && !cl.ranked && SameContext(cl, cl')
    requires TabSafe(w, cfg, c, cl, t, cl.tables[t]) && w.Exists(Key(t, cl.tables[t].pos))
    requires var tab, tab' := cl.tables[t], cl'.tables[t];
             tab' == tab.(loading := tab'.loading, base := tab'.base, markers := tab'.markers,
                          wasRead := tab'.wasRead, dirty := tab'.dirty, actions := tab'.actions)
    ensures TabSafe(Tick(w), cfg, c, cl', t, cl'.tables[t])
  {
    forall u <- cl'.tables[t].abandoned ensures NoCommitAt(Tick(w), t, u) { assert NoCommitAt(w, t, u); }
  }

  lemma LoadInv(cfg: Config, s: State, c: nat, t: nat, u: nat, deferred: bool)
    requires Inv(cfg, s) && CanLoad(s, c, t, u)
    ensures Inv(cfg, With(s, Tick(s.w), c, Loaded(cfg, s.w, s.clients[c], t, u, deferred)))
  {
    KnownTab(cfg, s, c, t);
    LoadedTabInv(s.w, c, t, s.clients[c].tables[t], u, deferred);
    LoadedInv(cfg, s, c, t, LoadedTab(s.w, t, s.clients[c].tables[t], u, deferred),
              Loaded(cfg, s.w, s.clients[c], t, u, deferred).implicit);
  }

  lemma LoadedInv(cfg: Config, s: State, c: nat, t: nat, tab': Tab, implicit: bool)
    requires Inv(cfg, s) && HasTab(s, c, Active, t) && TabInv(s.w, c, t, tab')
    requires tab' == s.clients[c].tables[t].(loading := tab'.loading, base := tab'.base, markers := tab'.markers)
    ensures Inv(cfg, With(s, Tick(s.w), c, WithTab(s.clients[c], t, tab').(implicit := implicit)))
  {
    ActiveTab(cfg, s, c, t, WithTab(s.clients[c], t, tab').(implicit := implicit));
  }

  lemma KnownTab(cfg: Config, s: State, c: nat, t: nat)
    requires Inv(cfg, s) && c in s.clients && t in s.clients[c].tables
    ensures TabInv(s.w, c, t, s.clients[c].tables[t])
  {
    Known(cfg, s, c, t);
  }

  lemma FailOpenInv(cfg: Config, s: State, c: nat, t: nat, f: Fault)
    requires Inv(cfg, s) && CanFailOpen(s, c, t)
    ensures Inv(cfg, AfterFailOpen(s, c, t, f))
  {
    var cl := s.clients[c];
    NothingYet(cfg, s, c, t);
    OverwriteEvolves(s.w, Key(t, cl.tables[t].pos), f, c, Nothing);
    ActiveStep(cfg, s, Overwrite(s.w, Key(t, cl.tables[t].pos), f), c, cl.(tables := cl.tables - {t}), t);
  }

  /** Read and Stage change nothing the invariant of an open table speaks about. */
  lemma LocalInv(cfg: Config, s: State, c: nat, t: nat, tab': Tab)
    requires Inv(cfg, s) && HasTab(s, c, Active, t)
    requires var tab := s.clients[c].tables[t];
             tab' == tab.(wasRead := tab'.wasRead, dirty := tab'.dirty, actions := tab'.actions)
    ensures Inv(cfg, AfterLocal(s, c, t, tab'))
  {
    Known(cfg, s, c, t);
    forall x: nat ensures BelowInv(s.w, c, t, tab', x) {
      assert BelowInv(s.w, c, t, s.clients[c].tables[t], x);
    }
    ActiveTab(cfg, s, c, t, WithTab(s.clients[c], t, tab'));
  }

  /** A step that only moves c to another phase. */
  lemma PhaseInv(cfg: Config, s: State, c: nat, phase: Phase)
    requires Inv(cfg, s) && c in s.clients
    requires phase.Committing? ==> s.clients[c].phase.Active?
    requires phase.Aborted? || phase.Done? || phase.Committing?
    requires phase.Done? ==> forall t <- s.clients[c].tables :: s.clients[c].tables[t].dirty ==> s.clients[c].tables[t].committed
    ensures Inv(cfg, AfterPhase(s, c, phase))
  {
    TickEvolves(s.w, c, Nothing);
    var w', cl := Tick(s.w), s.clients[c];
    var cl' := cl.(phase := phase);
    forall t | t in cl'.tables ensures TabOk(w', cfg, c, cl', t) {
      FrameOk(cfg, s, w', c, t);
      if !cl.doubled { PhaseSafe(w', cfg, c, cl, phase, t, cl.tables[t]); }
    }
    KnownContext(cfg, s, c);
    if phase.Committing? { NothingCommitted(cfg, s, c); }
    ConcludeQuiet(cfg, s, w', c, cl');
  }

  lemma NothingCommitted(cfg: Config, s: State, c: nat)
    requires Inv(cfg, s) && Has(s, c, Active)
    ensures !Committed(s.clients[c])
  {
    forall t | t in s.clients[c].tables ensures !s.clients[c].tables[t].committed { NothingYet(cfg, s, c, t); }
  }

  lemma PhaseSafe(w: World, cfg: Config, c: nat, cl: Client, phase: Phase, t: nat, tab: Tab)
    requires TabSafe(w, cfg, c, cl, t, tab)
    requires phase.Aborted? || (phase.Done? && (tab.dirty ==> tab.committed)) || (phase.Committing? && cl.phase.Active?)
    ensures TabSafe(w, cfg, c, cl.(phase := phase), t, tab)
  {}

  // ---- waiting ---------------------------------------------------------------------------------------

  lemma WaitedTab(w: World, c: nat, t: nat, tab: Tab, u: nat)
    requires TabInv(w, c, t, tab) && u in tab.markers && w.Final(Key(t, u))
    ensures TabInv(w, c, t, Waited(tab, u, Actions(w.Holds(Key(t, u)))))
  {
    var tab' := Waited(tab, u, Actions(w.Holds(Key(t, u))));
    forall x: nat ensures BelowInv(w, c, t, tab', x) {
      assert BelowInv(w, c, t, tab, x);
    }
  }

  /** The safe part does not depend on what was waited for, nor on a marker being valid. */
  lemma SafeIgnoresWaiting(w: World, cfg: Config, c: nat, cl: Client, t: nat, tab: Tab, tab': Tab)
    requires TabSafe(w, cfg, c, cl, t, tab) && (tab'.valid ==> tab.valid)
    requires tab' == tab.(waited := tab'.waited, pass := tab'.pass, recent := tab'.recent,
                          changed := tab'.changed, removed := tab'.removed, valid := tab'.valid)
    ensures TabSafe(w, cfg, c, cl, t, tab')
  {
    assert forall u: nat :: SettledAt(w, cfg, t, tab, u) == SettledAt(w, cfg, t, tab', u);
    assert forall u: nat :: EarlyAt(w, t, tab, u, cl.rank) == EarlyAt(w, t, tab', u, cl.rank);
    assert Settled(w, cfg, t, tab) == Settled(w, cfg, t, tab') && Early(w, t, tab, cl.rank) == Early(w, t, tab', cl.rank);
  }

  /** A final prev_marker joins the waited ones. */
  lemma WaitedInv(cfg: Config, s: State, w': World, c: nat, t: nat, u: nat)
    requires Inv(cfg, s) && Quiet(s, w', c) && Waits(s, c, t, u) && w'.Final(Key(t, u))
    ensures var tab' := Waited(s.clients[c].tables[t], u, Actions(w'.Holds(Key(t, u))));
            Inv(cfg, With(s, w', c, WithTab(s.clients[c], t, tab')))
  {
    var cl, tab := s.clients[c], s.clients[c].tables[t];
    var tab' := Waited(tab, u, Actions(w'.Holds(Key(t, u))));
    FrameOk(cfg, s, w', c, t);
    WaitedTab(w', c, t, tab, u);
    if !cl.doubled { SafeIgnoresWaiting(w', cfg, c, cl, t, tab, tab'); }
    TabStep(cfg, s, w', c, t, tab');
  }

  lemma WaitInv(cfg: Config, s: State, c: nat, t: nat, u: nat)
    requires Inv(cfg, s) && CanWait(s, c, t, u)
    ensures Inv(cfg, AfterLocal(s, c, t, Waited(s.clients[c].tables[t], u, Actions(s.w.Holds(Key(t, u))))))
  {
    TickEvolves(s.w, c, Nothing);
    WaitedInv(cfg, s, Tick(s.w), c, t, u);
  }

  lemma TakeOverInv(cfg: Config, s: State, c: nat, t: nat, u: nat, earliest: int, f: Fault)
    requires Inv(cfg, s) && CanTakeOver(cfg, s, c, t, u, earliest)
    ensures Inv(cfg, AfterTakeOver(s, c, t, u, f))
  {
    var k := Key(t, u);
    var w' := Swap(s.w, k, RELEASED, s.w.store.objects[k].etag, f).0;
    SwapEvolves(s.w, k, RELEASED, s.w.store.objects[k].etag, f, c, Nothing);
    if f.Delivered? { WaitedInv(cfg, s, w', c, t, u); } else { NothingLearned(cfg, s, w', c, t); }
  }

  /** A request that may have been applied, but told the client nothing. */
  lemma NothingLearned(cfg: Config, s: State, w': World, c: nat, t: nat)
    requires Inv(cfg, s) && Quiet(s, w', c) && t in s.clients[c].tables
    ensures Inv(cfg, With(s, w', c, s.clients[c]))
  {
    FrameOk(cfg, s, w', c, t);
    assert WithTab(s.clients[c], t, s.clients[c].tables[t]) == s.clients[c];
    TabStep(cfg, s, w', c, t, s.clients[c].tables[t]);
  }

  // ---- shifting ----------------------------------------------------------------------------------------

  lemma GivenUpTabInv(w: World, cfg: Config, c: nat, t: nat, tab: Tab, tab': Tab)
    requires TabInv(w, c, t, tab) && tab' == GivenUpTab(tab)
    ensures TabInv(w, c, t, tab')
    ensures (forall u <- tab.abandoned :: NoCommitAt(w, t, u)) && NoCommitAt(w, t, tab.pos) ==>
              forall u <- tab'.abandoned :: NoCommitAt(w, t, u)
  {
    forall x: nat ensures BelowInv(w, c, t, tab', x) {
      assert BelowInv(w, c, t, tab, x);
    }
  }

  /** A shift after the first commit makes its client late, which asks less of its tables. */
  lemma GivenUpOk(w: World, cfg: Config, c: nat, cl: Client, t: nat, t2: nat)
    requires cl.phase.Committing? && (!cl.doubled && cl.ranked ==> Committed(cl))
    requires t in cl.tables && t2 in cl.tables && TabOk(w, cfg, c, cl, t2)
    requires cl.tables[t].dirty && !cl.tables[t].committed
    ensures TabOk(w, cfg, c, GivenUp(cl, t), t2)
  {
    if t2 == t { GivenUpTabInv(w, cfg, c, t, cl.tables[t], GivenUp(cl, t).tables[t]); }
  }

  lemma GivenUpTable(cfg: Config, s: State, w': World, c: nat, t: nat, t2: nat)
    requires Inv(cfg, s) && Quiet(s, w', c) && HasTab(s, c, Committing, t) && t2 in s.clients[c].tables
    requires s.clients[c].tables[t].dirty && !s.clients[c].tables[t].committed
    ensures TabOk(w', cfg, c, GivenUp(s.clients[c], t), t2)
  {
    KnownContext(cfg, s, c);
    FrameOk(cfg, s, w', c, t2);
    GivenUpOk(w', cfg, c, s.clients[c], t, t2);
  }

  lemma GivenUpContext(cfg: Config, s: State, c: nat, t: nat)
    requires Inv(cfg, s) && HasTab(s, c, Committing, t) && !s.clients[c].tables[t].committed
    ensures var cl, cl' := s.clients[c], GivenUp(s.clients[c], t);
            ContextInv(s.w, cfg, cl') && KeepsReservations(cl, cl')
  {
    KnownContext(cfg, s, c);
    SameCommitted(s.clients[c], GivenUp(s.clients[c], t));
    CommittedRanked(cfg, s, c);
  }

  lemma GivenUpInv(cfg: Config, s: State, w': World, c: nat, t: nat)
    requires Inv(cfg, s) && Quiet(s, w', c) && HasTab(s, c, Committing, t)
    requires s.clients[c].tables[t].dirty && !s.clients[c].tables[t].committed
    ensures Inv(cfg, With(s, w', c, GivenUp(s.clients[c], t)))
  {
    var cl' := GivenUp(s.clients[c], t);
    GivenUpContext(cfg, s, c, t);
    forall t2 | t2 in cl'.tables ensures TabOk(w', cfg, c, cl', t2) { GivenUpTable(cfg, s, w', c, t, t2); }
    ConcludeQuiet(cfg, s, w', c, cl');
  }

  lemma NoneUncertain(cfg: Config, s: State, c: nat, t: nat)
    requires Inv(cfg, s) && HasTab(s, c, Committing, t)
    ensures !s.clients[c].doubled ==> !s.clients[c].tables[t].uncertain
  {
    Known(cfg, s, c, t);
  }

  lemma GiveUpInv(cfg: Config, s: State, c: nat, t: nat, latest: int, f: Fault)
    requires Inv(cfg, s) && CanGiveUp(cfg, s, c, t, latest)
    ensures Inv(cfg, AfterGiveUp(s, c, t, f))
  {
    var tab := s.clients[c].tables[t];
    if tab.valid {
      OwnMarker(cfg, s, c, t);
      SwapEvolves(s.w, Key(t, tab.pos), RELEASED, tab.etag, f, c, Nothing);
    } else {
      TickEvolves(s.w, c, Nothing);
    }
    GivenUpInv(cfg, s, AfterGiveUp(s, c, t, f).w, c, t);
  }

  /** What a reservation's ETag identifies is the marker. */
  lemma OwnMarker(cfg: Config, s: State, c: nat, t: nat)
    requires Inv(cfg, s) && c in s.clients && t in s.clients[c].tables
    ensures var tab := s.clients[c].tables[t]; var k := Key(t, tab.pos);
            && s.w.Exists(k) && (s.w.Carries(k, tab.etag) <==> s.w.Holds(k).Marker?)
            && k in s.w.owner && s.w.owner[k] == c
  {
    Known(cfg, s, c, t);
  }

  lemma ShiftedTab(w: World, w': World, c: nat, t: nat, tab: Tab, h: nat, deadline: int)
    requires WorldInv(w) && WorldInv(w') && NextFree(w, t, h) && TabInv(w', c, t, tab) && tab.shifting && tab.pos <= h
    requires w' == PlaceMarker(w, Key(t, h + 1), c, deadline, Delivered).0
    ensures TabInv(w', c, t, Shifted(tab, h, w'.store.nextEtag, deadline))
  {
    var tab' := Shifted(tab, h, w'.store.nextEtag, deadline);
    forall x: nat ensures BelowInv(w', c, t, tab', x) {
      assert BelowInv(w', c, t, tab, x);
      if x <= h { NoGap(w', t, h, x); }
    }
  }

  /** A table between two reservations owes the safe part nothing but its abandoned versions. */
  lemma ShiftedSafe(w: World, cfg: Config, c: nat, cl: Client, t: nat, tab: Tab, tab': Tab)
    requires cl.phase.Committing? && tab.shifting && TabSafe(w, cfg, c, cl, t, tab)
    requires tab'.pos > 0 && tab' == Shifted(tab, tab'.pos - 1, tab'.etag, tab'.deadline)
    requires w.Exists(Key(t, tab'.pos)) && w.Holds(Key(t, tab'.pos)).Marker?
    ensures TabSafe(w, cfg, c, cl, t, tab')
  {}

  lemma ReservedAgainInv(cfg: Config, s: State, w': World, c: nat, t: nat, h: nat, deadline: int)
    requires Inv(cfg, s) && CanReserveAgain(s, c, t, h) && Quiet(s, w', c)
    requires w' == PlaceMarker(s.w, Key(t, h + 1), c, deadline, Delivered).0
    ensures Inv(cfg, With(s, w', c, WithTab(s.clients[c], t, Shifted(s.clients[c].tables[t], h, w'.store.nextEtag, deadline))))
  {
    var cl, tab := s.clients[c], s.clients[c].tables[t];
    var tab' := Shifted(tab, h, w'.store.nextEtag, deadline);
    FrameOk(cfg, s, w', c, t);
    ShiftedTab(s.w, w', c, t, tab, h, deadline);
    if !cl.doubled { ShiftedSafe(w', cfg, c, cl, t, tab, tab'); }
    TabStep(cfg, s, w', c, t, tab');
  }

  lemma ReserveAgainInv(cfg: Config, s: State, c: nat, t: nat, h: nat, nowMs: int, f: Fault)
    requires Inv(cfg, s) && CanReserveAgain(s, c, t, h)
    ensures Inv(cfg, AfterReserveAgain(cfg, s, c, t, h, nowMs, f))
  {
    var deadline := nowMs + cfg.lease;
    var w' := PlaceMarker(s.w, Key(t, h + 1), c, deadline, f).0;
    PlaceMarkerEvolves(s.w, Key(t, h + 1), c, deadline, f, Nothing);
    if f.Delivered? { ReservedAgainInv(cfg, s, w', c, t, h, deadline); } else { NothingLearned(cfg, s, w', c, t); }
  }

  lemma TurnedTab(w: World, c: nat, t: nat, tab: Tab)
    requires TabInv(w, c, t, tab)
    ensures TabInv(w, c, t, tab.(pass := {}))
  {
    forall x: nat ensures BelowInv(w, c, t, tab.(pass := {}), x) { assert BelowInv(w, c, t, tab, x); }
  }

  lemma NextPassInv(cfg: Config, s: State, c: nat)
    requires Inv(cfg, s) && CanNextPass(cfg, s, c)
    ensures Inv(cfg, With(s, Tick(s.w), c, Turned(s.clients[c])))
  {
    TickEvolves(s.w, c, Nothing);
    var w', cl := Tick(s.w), s.clients[c];
    var cl' := Turned(cl);
    KnownContext(cfg, s, c);
    SameCommitted(cl, cl');
    forall t | t in cl'.tables ensures TabOk(w', cfg, c, cl', t) {
      FrameOk(cfg, s, w', c, t);
      TurnedTab(w', c, t, cl.tables[t]);
      if !cl.doubled { SafeIgnoresWaiting(w', cfg, c, cl, t, cl.tables[t], cl'.tables[t]); }
    }
    ConcludeQuiet(cfg, s, w', c, cl');
  }

  // ---- redo and validation -------------------------------------------------------------------------------

  lemma RedoneTabInv(w: World, c: nat, t: nat, tab: Tab, again: bool, plan: map<nat, seq<FileAction>>)
    requires TabInv(w, c, t, tab)
    ensures TabInv(w, c, t, RedoneTab(tab, again, plan, t))
  {
    forall x: nat ensures BelowInv(w, c, t, RedoneTab(tab, again, plan, t), x) {
      assert BelowInv(w, c, t, tab, x);
    }
  }

  /** Without a commit so far, a redo is free to change what will be committed. */
  lemma RedoneSafe(w: World, cfg: Config, c: nat, cl: Client, cl': Client, t: nat, tab: Tab, plan: map<nat, seq<FileAction>>)
    requires TabSafe(w, cfg, c, cl, t, tab) && cl.phase.Committing? && !cl.ranked && SameContext(cl, cl')
    ensures TabSafe(w, cfg, c, cl', t, RedoneTab(tab, cl.redone, plan, t))
  {}

  lemma RedoKeepsContext(cfg: Config, s: State, c: nat, plan: map<nat, seq<FileAction>>)
    requires Inv(cfg, s) && CanRedo(cfg, s, c)
    ensures var cl, cl' := s.clients[c], Redone(s.clients[c], plan);
            && ContextInv(Tick(s.w), cfg, cl') && (!cl'.doubled ==> !cl.ranked && SameContext(cl, cl'))
            && KeepsReservations(cl, cl')
  {
    var cl, cl' := s.clients[c], Redone(s.clients[c], plan);
    KnownContext(cfg, s, c);
    if Committed(cl') {
      var t :| t in cl'.tables && cl'.tables[t].committed;
      assert cl.tables[t].committed;
    }
    forall t | t in cl.tables && !cl'.doubled ensures !cl.tables[t].uncertain { NoneUncertain(cfg, s, c, t); }
  }

  lemma RedoInv(cfg: Config, s: State, c: nat, plan: map<nat, seq<FileAction>>)
    requires Inv(cfg, s) && CanRedo(cfg, s, c)
    ensures Inv(cfg, With(s, Tick(s.w), c, Redone(s.clients[c], plan)))
  {
    TickEvolves(s.w, c, Nothing);
    var w', cl := Tick(s.w), s.clients[c];
    var cl' := Redone(cl, plan);
    RedoKeepsContext(cfg, s, c, plan);
    forall t | t in cl'.tables ensures TabOk(w', cfg, c, cl', t) {
      FrameOk(cfg, s, w', c, t);
      RedoneTabInv(w', c, t, cl.tables[t], cl.redone, plan);
      if !cl'.doubled { RedoneSafe(w', cfg, c, cl, cl', t, cl.tables[t], plan); }
    }
    ConcludeQuiet(cfg, s, w', c, cl');
  }

  /** Everything below was waited for and nothing conflicts: the operations rest on settled ground. */
  lemma ValidationSettles(w: World, cfg: Config, c: nat, cl: Client, t: nat)
    requires WorldInv(w) && AllWaited(cl) && t in cl.tables && TabInv(w, c, t, cl.tables[t])
    requires !Conflict(cfg, cl.tables[t])
    ensures Settled(w, cfg, t, cl.tables[t]) && Early(w, t, cl.tables[t], w.time)
  {
    var tab := cl.tables[t];
    forall u: nat ensures SettledAt(w, cfg, t, tab, u) && EarlyAt(w, t, tab, u, w.time) {
      assert BelowInv(w, c, t, tab, u);
      assert KeyInv(w, Key(t, u));
    }
  }

  lemma ValidatedSafe(w: World, w': World, cfg: Config, c: nat, cl: Client, t: nat)
    requires WorldInv(w) && w' == Tick(w) && !cl.doubled && (Committed(cl) ==> cl.ranked)
    requires cl.phase.Committing? && t in cl.tables && !cl.tables[t].shifting && !cl.tables[t].lost
    requires TabInv(w, c, t, cl.tables[t]) && TabSafe(w', cfg, c, cl, t, cl.tables[t])
    requires Settled(w', cfg, t, cl.tables[t]) && Early(w', t, cl.tables[t], w.time)
    ensures TabSafe(w', cfg, c, Validated(w, cl), t, cl.tables[t])
  {
    assert KeyInv(w, Key(t, cl.tables[t].pos));
  }

  lemma ValidatedOk(cfg: Config, s: State, c: nat, latest: int, t: nat)
    requires Inv(cfg, s) && CanValidate(cfg, s, c, latest) && t in s.clients[c].tables
    ensures TabOk(Tick(s.w), cfg, c, Validated(s.w, s.clients[c]), t)
  {
    var w', cl := Tick(s.w), s.clients[c];
    TickEvolves(s.w, c, Nothing);
    Known(cfg, s, c, t);
    ValidationSettles(s.w, cfg, c, cl, t);
    FrameSettled(s.w, w', c, Nothing, cfg, t, cl.tables[t]);
    FrameEarly(s.w, w', c, Nothing, t, cl.tables[t], s.w.time);
    FrameOk(cfg, s, w', c, t);
    CommittedRanked(cfg, s, c);
    if !cl.doubled { ValidatedSafe(s.w, w', cfg, c, cl, t); }
  }

  lemma ValidateInv(cfg: Config, s: State, c: nat, latest: int)
    requires Inv(cfg, s) && CanValidate(cfg, s, c, latest)
    ensures Inv(cfg, With(s, Tick(s.w), c, Validated(s.w, s.clients[c])))
  {
    TickEvolves(s.w, c, Nothing);
    var cl := s.clients[c];
    var w', cl' := Tick(s.w), Validated(s.w, cl);
    KnownContext(cfg, s, c);
    SameCommitted(cl, cl');
    forall t | t in cl'.tables ensures TabOk(w', cfg, c, cl', t) { ValidatedOk(cfg, s, c, latest, t); }
    ConcludeQuiet(cfg, s, w', c, cl');
  }

  // ---- the end, and others --------------------------------------------------------------------------------

  lemma InvalidTab(w: World, c: nat, t: nat, tab: Tab)
    requires TabInv(w, c, t, tab)
    ensures TabInv(w, c, t, tab.(valid := false))
  {
    forall x: nat ensures BelowInv(w, c, t, tab.(valid := false), x) { assert BelowInv(w, c, t, tab, x); }
  }

  lemma ReleaseMarkerInv(cfg: Config, s: State, c: nat, t: nat, f: Fault)
    requires Inv(cfg, s) && CanRelease(s, c, t)
    ensures Inv(cfg, AfterRelease(s, c, t, f))
  {
    var cl, tab := s.clients[c], s.clients[c].tables[t];
    var w' := Swap(s.w, Key(t, tab.pos), RELEASED, tab.etag, f).0;
    OwnMarker(cfg, s, c, t);
    SwapEvolves(s.w, Key(t, tab.pos), RELEASED, tab.etag, f, c, Nothing);
    if f.Delivered? { ReleasedInv(cfg, s, w', c, t); } else { NothingLearned(cfg, s, w', c, t); }
  }

  lemma ReleasedInv(cfg: Config, s: State, w': World, c: nat, t: nat)
    requires Inv(cfg, s) && Quiet(s, w', c) && t in s.clients[c].tables
    ensures Inv(cfg, With(s, w', c, WithTab(s.clients[c], t, s.clients[c].tables[t].(valid := false))))
  {
    var cl, tab := s.clients[c], s.clients[c].tables[t];
    FrameOk(cfg, s, w', c, t);
    InvalidTab(w', c, t, tab);
    if !cl.doubled { SafeIgnoresWaiting(w', cfg, c, cl, t, tab, tab.(valid := false)); }
    TabStep(cfg, s, w', c, t, tab.(valid := false));
  }

  lemma ForeignInv(cfg: Config, s: State, t: nat, h: nat, actions: seq<FileAction>)
    requires Inv(cfg, s) && NextFree(s.w, t, h)
    ensures Inv(cfg, State(LegacyCommit(s.w, Key(t, h + 1), actions), s.clients))
  {
    LegacyEvolves(s.w, Key(t, h + 1), actions, 0, Nothing);
    var s' := State(LegacyCommit(s.w, Key(t, h + 1), actions), s.clients);
    forall c | c in s'.clients ensures ClientInv(s'.w, cfg, c, s'.clients[c]) {
      assert ClientInv(s.w, cfg, c, s.clients[c]);
      FrameClient(s.w, s'.w, 0, Nothing, cfg, c, s.clients[c]);
    }
    forall k ensures AuthorInv(s', k) {
      assert AuthorInv(s, k) && KeyEvolves(s.w, s'.w, 0, Nothing, k);
    }
  }

  // ---- one attempt of write_commit ------------------------------------------------------------

  lemma SettledSame(w: World, cfg: Config, t: nat, tab: Tab, tab': Tab, rank: nat)
    requires tab' == tab.(valid := tab'.valid, uncertain := tab'.uncertain, lost := tab'.lost, committed := tab'.committed)
    ensures Settled(w, cfg, t, tab) == Settled(w, cfg, t, tab') && Early(w, t, tab, rank) == Early(w, t, tab', rank)
  {
    assert forall u: nat :: SettledAt(w, cfg, t, tab, u) == SettledAt(w, cfg, t, tab', u);
    assert forall u: nat :: EarlyAt(w, t, tab, u, rank) == EarlyAt(w, t, tab', u, rank);
  }

  /** The reservation after an attempt, before the client has learned anything. */
  lemma AttemptedSafe(w: World, w': World, cfg: Config, c: nat, cl: Client, t: nat, tab: Tab)
    requires WorldInv(w) && WorldInv(w') && cl.phase.Writing? && tab.dirty && !tab.committed && !tab.shifting
    requires TabInv(w, c, t, tab) && TabSafe(w, cfg, c, cl, t, tab) && cl.rank < w.time
    requires var k := Key(t, tab.pos);
             && Evolves(w, w', c, Only(k))
             && (w'.Final(k) && !w.Final(k) ==> w'.Holds(k) == Commit(Writer(c), tab.actions))
    ensures TabSafe(w', cfg, c, cl, t, tab.(uncertain := true))
  {
    var k, tab' := Key(t, tab.pos), tab.(uncertain := true);
    forall u <- tab.abandoned ensures NoCommitAt(w', t, u) {
      assert BelowInv(w, c, t, tab, u);
      FrameNoCommit(w, w', c, Only(k), t, u);
    }
    FrameSettled(w, w', c, Only(k), cfg, t, tab);
    if Early(w, t, tab, cl.rank) { FrameEarly(w, w', c, Only(k), t, tab, cl.rank); }
    SettledSame(w', cfg, t, tab, tab', cl.rank);
    assert KeyInv(w, k) && KeyInv(w', k) && KeyEvolves(w, w', c, Only(k), k);
  }

  lemma AttemptOther(cfg: Config, s: State, w': World, c: nat, k: Key, t2: nat)
    requires Inv(cfg, s) && c in s.clients && t2 in s.clients[c].tables && t2 != k.table
    requires WorldInv(w') && Evolves(s.w, w', c, Only(k))
    ensures TabOk(w', cfg, c, s.clients[c], t2)
  {
    var cl := s.clients[c];
    Known(cfg, s, c, t2);
    FrameTab(s.w, w', c, Only(k), c, t2, cl.tables[t2]);
    if !cl.doubled { FrameSafe(s.w, w', c, Only(k), cfg, c, cl, t2, cl.tables[t2]); }
  }

  lemma AnsweredTab(w: World, c: nat, t: nat, tab: Tab, tab': Tab)
    requires TabInv(w, c, t, tab) && (tab'.valid ==> tab.valid)
    requires tab' == tab.(valid := tab'.valid, uncertain := tab'.uncertain, lost := tab'.lost, committed := tab'.committed)
    ensures TabInv(w, c, t, tab')
  {
    forall x: nat ensures BelowInv(w, c, t, tab', x) { assert BelowInv(w, c, t, tab, x); }
  }

  lemma AnsweredOk(w: World, cfg: Config, c: nat, cl: Client, t: nat, tab: Tab)
    requires cl.phase.Writing? && cl.ranked && !tab.committed && TabSafe(w, cfg, c, cl, t, tab.(uncertain := true))
    requires var k := Key(t, tab.pos); w.Exists(k) && w.Holds(k) == Commit(Writer(c), tab.actions)
    ensures TabSafe(w, cfg, c, cl, t, CommittedTab(tab))
  {
    SettledSame(w, cfg, t, tab.(uncertain := true), CommittedTab(tab), cl.rank);
  }

  lemma AnsweredLost(w: World, cfg: Config, c: nat, cl: Client, cl': Client, t: nat, tab: Tab)
    requires cl.phase.Writing? && cl.ranked && !tab.committed && TabSafe(w, cfg, c, cl, t, tab.(uncertain := true))
    requires var k := Key(t, tab.pos); w.Final(k) && w.Holds(k) != Commit(Writer(c), tab.actions)
    requires cl'.phase.Committing? && cl'.rank == cl.rank && cl'.late == cl.late && cl'.held == cl.held
    requires cl'.ranked ==> cl.ranked
    ensures TabSafe(w, cfg, c, cl', t, LostTab(tab))
  {
    SettledSame(w, cfg, t, tab.(uncertain := true), LostTab(tab), cl.rank);
  }

  /** What the store may answer to an attempt on version k. */
  ghost predicate Answer(w: World, k: Key, ours: Content, uncertain: bool, status: WriteStatus) {
    && (status.Ok? ==> w.Exists(k) && w.Holds(k) == ours)
    && (!status.Ok? && !status.Error? ==> w.Final(k) && (w.Holds(k) == ours ==> uncertain))
  }

  lemma SafeSameContext(w: World, cfg: Config, c: nat, cl: Client, cl': Client, t: nat, tab: Tab)
    requires TabSafe(w, cfg, c, cl, t, tab) && SameContext(cl, cl')
    ensures TabSafe(w, cfg, c, cl', t, tab)
  {}

  /** What the client concludes from the answer is true of the version. */
  lemma AnsweredSafe(w: World, cfg: Config, c: nat, cl: Client, cl': Client, t: nat, tab: Tab, status: WriteStatus)
    requires cl.phase.Writing? && cl.ranked && !tab.committed && TabSafe(w, cfg, c, cl, t, tab.(uncertain := true))
    requires Answer(w, Key(t, tab.pos), Commit(Writer(c), tab.actions), tab.uncertain, status)
    requires if WasLost(w, c, t, tab, status) then WaitsAgain(cl, cl') else SameContext(cl, cl')
    ensures TabSafe(w, cfg, c, cl', t, Concluded(w, c, t, tab, status))
  {
    if WasLost(w, c, t, tab, status) {
      AnsweredLost(w, cfg, c, cl, cl', t, tab);
    } else {
      if !status.Error? { AnsweredOk(w, cfg, c, cl, t, tab); }
      SafeSameContext(w, cfg, c, cl, cl', t, Concluded(w, c, t, tab, status));
    }
  }

  ghost predicate WaitsAgain(cl: Client, cl': Client) {
    && cl'.phase.Committing? && cl'.turning && cl'.ranked == (cl.ranked && Committed(cl))
    && cl'.rank == cl.rank && cl'.late == cl.late && cl'.held == cl.held
  }

  /** A table that holds no commit is content with its client waiting again. */
  lemma LostElsewhere(w: World, cfg: Config, c: nat, cl: Client, cl': Client, t2: nat, tab: Tab)
    requires TabSafe(w, cfg, c, cl, t2, tab) && cl.phase.Writing? && !tab.uncertain
    requires cl'.phase.Committing? && cl'.rank == cl.rank && cl'.late == cl.late && cl'.held == cl.held
    requires cl'.ranked == cl.ranked || (!cl'.ranked && !tab.committed)
    ensures TabSafe(w, cfg, c, cl', t2, tab)
  {}

  /** What an answer changes: one table, and the client waits again if the version was lost. */
  ghost predicate AnswerShape(w: World, c: nat, cl: Client, cl': Client, t: nat, status: WriteStatus)
    requires t in cl.tables
  {
    && cl'.tables == cl.tables[t := Concluded(w, c, t, cl.tables[t], status)]
    && cl' == cl.(tables := cl'.tables, phase := cl'.phase, turning := cl'.turning, ranked := cl'.ranked)
    && if WasLost(w, c, t, cl.tables[t], status) then WaitsAgain(cl, cl') else SameContext(cl, cl')
  }

  lemma WrittenOther(w: World, cfg: Config, c: nat, cl: Client, cl': Client, t: nat, t2: nat, status: WriteStatus)
    requires t in cl.tables && AnswerShape(w, c, cl, cl', t, status) && cl.phase.Writing? && t2 in cl.tables && t2 != t
    requires !cl.tables[t2].uncertain && TabOk(w, cfg, c, cl, t2)
    ensures TabOk(w, cfg, c, cl', t2)
  {
    if WasLost(w, c, t, cl.tables[t], status) {
      if !cl.doubled { LostElsewhere(w, cfg, c, cl, cl', t2, cl.tables[t2]); }
    } else {
      SameTab(w, cfg, c, cl, cl', t2);
    }
  }

  lemma WrittenTab(w: World, cfg: Config, c: nat, cl: Client, cl': Client, t: nat, status: WriteStatus)
    requires t in cl.tables && cl.phase.Writing? && !cl.tables[t].committed && TabInv(w, c, t, cl.tables[t])
    requires !cl.doubled ==> cl.ranked && TabSafe(w, cfg, c, cl, t, cl.tables[t].(uncertain := true))
    requires !cl.doubled ==> Answer(w, Key(t, cl.tables[t].pos), Commit(Writer(c), cl.tables[t].actions), cl.tables[t].uncertain, status)
    requires AnswerShape(w, c, cl, cl', t, status)
    ensures TabOk(w, cfg, c, cl', t)
  {
    AnsweredTab(w, c, t, cl.tables[t], cl'.tables[t]);
    if !cl.doubled { AnsweredSafe(w, cfg, c, cl, cl', t, cl.tables[t], status); }
  }

  lemma WrittenContext(w: World, w': World, cfg: Config, c: nat, cl: Client, cl': Client, t: nat, status: WriteStatus)
    requires ContextInv(w, cfg, cl) && w'.time > w.time && cl.phase.Writing?
    requires t in cl.tables && AnswerShape(w', c, cl, cl', t, status) && !cl.tables[t].committed
    ensures ContextInv(w', cfg, cl')
  {
    if t0 :| t0 in cl.tables && cl.tables[t0].committed { assert cl'.tables[t0].committed; }
  }

  /** The version the attempt was aimed at is the only one whose commit may be news. */
  lemma OldCommit(cfg: Config, s: State, w': World, c: nat, k0: Key, k: Key)
    requires Inv(cfg, s) && c in s.clients && !s.clients[c].doubled && WorldInv(w')
    requires Evolves(s.w, w', c, Only(k0)) && k != k0
    requires w'.Final(k) && w'.Holds(k).author == Writer(c)
    ensures OwnCommit(s.clients[c], k)
  {
    assert AuthorInv(s, k) && KeyEvolves(s.w, w', c, Only(k0), k);
  }

  /** An uncertain write is resolved by reading the version back: nothing ours is overlooked. */
  lemma WrittenOwnCommits(cfg: Config, s: State, w': World, c: nat, t: nat, status: WriteStatus)
    requires Inv(cfg, s) && HasTab(s, c, Writing, t) && WorldInv(w')
    requires var tab := s.clients[c].tables[t]; var k := Key(t, tab.pos);
             && Evolves(s.w, w', c, Only(k)) && w'.Exists(k) && !tab.committed
             && (!s.clients[c].doubled && !status.Ok? && !status.Error? && w'.Final(k) && w'.Holds(k).author == Writer(c) ==>
                   tab.uncertain && w'.Holds(k) == Commit(Writer(c), tab.actions))
    ensures OwnCommits(w', c, Written(w', c, s.clients[c], t, status))
  {
    var cl := s.clients[c];
    var k0 := Key(t, cl.tables[t].pos);
    var cl' := Written(w', c, cl, t, status);
    if !cl'.doubled {
      forall k | w'.Final(k) && w'.Holds(k).author == Writer(c) ensures OwnCommit(cl', k) {
        if k != k0 { OldCommit(cfg, s, w', c, k0, k); }
      }
    }
  }

  /** The store's part of an attempt. */
  lemma Attempted(cfg: Config, s: State, c: nat, t: nat, f: Fault)
    requires Inv(cfg, s) && CanWrite(s, c, t)
    ensures var tab := s.clients[c].tables[t]; var k := Key(t, tab.pos); var ours := Commit(Writer(c), tab.actions);
            var (w', status) := Swap(s.w, k, ours, tab.etag, f);
            && WorldInv(w') && Evolves(s.w, w', c, Only(k)) && w'.Exists(k) && k in s.w.owner && s.w.owner[k] == c
            && TabInv(w', c, t, tab)
            && (!s.clients[c].doubled ==>
                  && Answer(w', k, ours, tab.uncertain, status)
                  && TabSafe(w', cfg, c, s.clients[c], t, tab.(uncertain := true)))
  {
    var cl, tab := s.clients[c], s.clients[c].tables[t];
    var k := Key(t, tab.pos);
    var w' := Swap(s.w, k, Commit(Writer(c), tab.actions), tab.etag, f).0;
    Known(cfg, s, c, t);
    SwapEvolves(s.w, k, Commit(Writer(c), tab.actions), tab.etag, f, c, Only(k));
    FrameTab(s.w, w', c, Only(k), c, t, tab);
    if !cl.doubled { AttemptedSafe(s.w, w', cfg, c, cl, t, tab); }
  }

  /** Whose commit a refused attempt found. */
  lemma NotOverlooked(cfg: Config, s: State, c: nat, t: nat, f: Fault)
    requires Inv(cfg, s) && CanWrite(s, c, t) && !s.clients[c].doubled
    ensures var tab := s.clients[c].tables[t]; var k := Key(t, tab.pos);
            var (w', status) := Swap(s.w, k, Commit(Writer(c), tab.actions), tab.etag, f);
            !status.Ok? && !status.Error? && w'.Final(k) && w'.Holds(k).author == Writer(c) ==>
              tab.uncertain && w'.Holds(k) == Commit(Writer(c), tab.actions)
  {
    Known(cfg, s, c, t);
  }

  lemma WriteInv(cfg: Config, s: State, c: nat, t: nat, f: Fault)
    requires Inv(cfg, s) && CanWrite(s, c, t)
    ensures Inv(cfg, AfterWrite(s, c, t, f))
  {
    var cl, tab := s.clients[c], s.clients[c].tables[t];
    var (w', status) := Swap(s.w, Key(t, tab.pos), Commit(Writer(c), tab.actions), tab.etag, f);
    Attempted(cfg, s, c, t, f);
    if !cl.doubled { NotOverlooked(cfg, s, c, t, f); }
    WrittenOwnCommits(cfg, s, w', c, t, status);
    WrittenClient(cfg, s, w', c, t, status);
    Conclude(cfg, s, w', c, Written(w', c, cl, t, status), Only(Key(t, tab.pos)));
  }

  lemma WrittenClient(cfg: Config, s: State, w': World, c: nat, t: nat, status: WriteStatus)
    requires Inv(cfg, s) && CanWrite(s, c, t) && WorldInv(w') && Evolves(s.w, w', c, Only(Key(t, s.clients[c].tables[t].pos)))
    requires var cl, tab := s.clients[c], s.clients[c].tables[t];
             && TabInv(w', c, t, tab)
             && (!cl.doubled ==>
                   && Answer(w', Key(t, tab.pos), Commit(Writer(c), tab.actions), tab.uncertain, status)
                   && TabSafe(w', cfg, c, cl, t, tab.(uncertain := true)))
    ensures ClientInv(w', cfg, c, Written(w', c, s.clients[c], t, status))
  {
    var cl := s.clients[c];
    var cl' := Written(w', c, cl, t, status);
    KnownContext(cfg, s, c);
    Ranked(cfg, s, c, t);
    WrittenContext(s.w, w', cfg, c, cl, cl', t, status);
    WrittenTab(w', cfg, c, cl, cl', t, status);
    forall t2 | t2 in cl'.tables ensures TabOk(w', cfg, c, cl', t2) {
      if t2 != t {
        AttemptOther(cfg, s, w', c, Key(t, cl.tables[t].pos), t2);
        WrittenOther(w', cfg, c, cl, cl', t, t2, status);
      }
    }
  }

  lemma Ranked(cfg: Config, s: State, c: nat, t: nat)
    requires Inv(cfg, s) && HasTab(s, c, Writing, t)
    ensures !s.clients[c].doubled ==> s.clients[c].ranked
  {
    Known(cfg, s, c, t);
  }

  // ---- every run --------------------------------------------------------------------------------

  lemma StepInv(cfg: Config, s: State, step: Step)
    requires Inv(cfg, s) && Enabled(cfg, s, step)
    ensures Inv(cfg, Apply(cfg, s, step))
  {
    match step
    case Begin(c) => BeginInv(cfg, s, c);
    case Reserve(c, t, h, nowMs, f) => ReserveInv(cfg, s, c, t, h, nowMs, f);
    case Load(c, t, u, deferred) => LoadInv(cfg, s, c, t, u, deferred);
    case FailOpen(c, t, f) => FailOpenInv(cfg, s, c, t, f);
    case Read(c, t) => LocalInv(cfg, s, c, t, s.clients[c].tables[t].(wasRead := true));
    case Stage(c, t, actions) => LocalInv(cfg, s, c, t, s.clients[c].tables[t].(dirty := true, actions := actions));
    case StartCommit(c) => PhaseInv(cfg, s, c, Committing);
    case Wait(c, t, u) => WaitInv(cfg, s, c, t, u);
    case TakeOver(c, t, u, earliest, f) => TakeOverInv(cfg, s, c, t, u, earliest, f);
    case GiveUp(c, t, latest, f) => GiveUpInv(cfg, s, c, t, latest, f);
    case ReserveAgain(c, t, h, nowMs, f) => ReserveAgainInv(cfg, s, c, t, h, nowMs, f);
    case NextPass(c) => NextPassInv(cfg, s, c);
    case Redo(c, plan) => RedoInv(cfg, s, c, plan);
    case Validate(c, latest) => ValidateInv(cfg, s, c, latest);
    case Write(c, t, f) => WriteInv(cfg, s, c, t, f);
    case Finish(c) => PhaseInv(cfg, s, c, Done);
    case Abort(c) => PhaseInv(cfg, s, c, Aborted);
    case ReleaseMarker(c, t, f) => ReleaseMarkerInv(cfg, s, c, t, f);
    case ForeignCommit(t, h, actions) => ForeignInv(cfg, s, t, h, actions);
  }

  /** The invariant holds in every state every run reaches. */
  lemma {:induction false} RunInv(cfg: Config, s: State, steps: seq<Step>)
    requires Inv(cfg, s) && ValidRun(cfg, s, steps)
    ensures Inv(cfg, Run(cfg, s, steps))
    decreases |steps|
  {
    if steps != [] {
      StepInv(cfg, s, steps[0]);
      RunInv(cfg, Apply(cfg, s, steps[0]), steps[1..]);
    }
  }

  lemma InitInv(cfg: Config, s: State)
    requires Init(s)
    ensures Inv(cfg, s)
  {
    forall k ensures AuthorInv(s, k) { assert KeyInv(s.w, k); }
  }
}
