/** What every reachable state of the marker protocol satisfies. */
module MarkerInvariant {
  import opened ObjectStore
  import opened DeltaReplay
  import opened MarkerWorld
  import opened MarkerProtocol

  /** What holds for a version below a reservation, by where the transaction put it. */
  ghost predicate BelowInv(w: World, c: nat, t: nat, tab: Tab, u: nat) {
    var k := Key(t, u);
    && (u < tab.pos ==> w.Exists(k) && (u in tab.loading || u in tab.base || u in tab.markers || u in tab.abandoned))
    && (u in tab.loading || u in tab.base || u in tab.markers ==> u < tab.pos)
    && (u in tab.base || u in tab.waited ==> w.Final(k))
    && (u in tab.pass ==> u in tab.waited) && (u in tab.waited ==> u in tab.markers)
    && (u in tab.waited && u !in tab.base && w.Final(k) ==>
          (Actions(w.Holds(k)) != [] ==> tab.changed) && RemovedPaths(Actions(w.Holds(k))) <= tab.removed)
    && (u in tab.abandoned ==> k in w.owner && w.owner[k] == c && u <= tab.pos && (u == tab.pos ==> tab.shifting))
  }

  ghost predicate TabInv(w: World, c: nat, t: nat, tab: Tab) {
    var k := Key(t, tab.pos);
    && w.Exists(k) && k in w.owner && w.owner[k] == c
    && tab.etag <= w.store.nextEtag
    && (w.Carries(k, tab.etag) <==> w.Holds(k).Marker?)
    && (w.Holds(k).Marker? ==> w.Holds(k).deadline == tab.deadline)
    && (tab.shifting ==> !tab.valid && tab.pos in tab.abandoned)
    && forall u: nat :: BelowInv(w, c, t, tab, u)
  }

  /** The version is final, and what it did is either in the snapshot the operations were computed
      on or cannot matter to them. */
  ghost predicate SettledAt(w: World, cfg: Config, t: nat, tab: Tab, u: nat) {
    var k := Key(t, u);
    u < tab.pos ==>
      || u in tab.abandoned
      || (w.Final(k) &&
          (u in tab.base ||
           ((cfg.serializable && tab.wasRead ==> Actions(w.Holds(k)) == []) &&
            RemovedPaths(tab.actions) * RemovedPaths(Actions(w.Holds(k))) == {})))
  }

  ghost predicate Settled(w: World, cfg: Config, t: nat, tab: Tab) {
    tab.loading == {} && forall u: nat :: SettledAt(w, cfg, t, tab, u)
  }

  /** Everything below became final before the given time. */
  ghost predicate EarlyAt(w: World, t: nat, tab: Tab, u: nat, rank: nat) {
    u < tab.pos ==> u in tab.abandoned || (Key(t, u) in w.finalAt && w.finalAt[Key(t, u)] < rank)
  }

  ghost predicate Early(w: World, t: nat, tab: Tab, rank: nat) {
    forall u: nat :: EarlyAt(w, t, tab, u, rank)
  }

  ghost predicate After(w: World, k: Key, rank: nat) {
    k in w.finalAt ==> rank < w.finalAt[k]
  }

  /** The version of a reservation was released, or holds the transaction's own commit. */
  ghost predicate Outcome(w: World, c: nat, t: nat, tab: Tab) {
    var k := Key(t, tab.pos);
    w.Final(k) ==>
      || w.Holds(k) == RELEASED
      || (w.Holds(k) == Commit(Writer(c), tab.actions) && (tab.committed || tab.uncertain))
  }

  ghost predicate NoCommitAt(w: World, t: nat, u: nat) {
    w.Final(Key(t, u)) ==> w.Holds(Key(t, u)) == RELEASED
  }

  /** The part of the invariant that a redo after a partial commit gives up. */
  ghost predicate TabSafe(w: World, cfg: Config, c: nat, cl: Client, t: nat, tab: Tab) {
    var k := Key(t, tab.pos);
    && (forall u <- tab.abandoned :: NoCommitAt(w, t, u))
    && Outcome(w, c, t, tab)
    && (tab.committed ==> w.Exists(k) && w.Holds(k) == Commit(Writer(c), tab.actions) && !tab.valid && !tab.uncertain)
    && (tab.lost ==> w.Exists(k) && NoCommitAt(w, t, tab.pos) && !tab.valid && !tab.committed)
    && (tab.uncertain ==> (cl.phase.Writing? || cl.phase.Aborted?) && !tab.lost)
    && (tab.committed || tab.uncertain ==>
          !tab.shifting && tab.dirty && cl.ranked && Settled(w, cfg, t, tab))
    && (w.Final(k) && w.Holds(k).author == Writer(c) ==> After(w, k, cl.rank))
    && (cl.phase.Writing? ==> Settled(w, cfg, t, tab) && cl.ranked && !tab.shifting && !tab.lost)
    && (cl.ranked && !cl.late ==>
          Settled(w, cfg, t, tab) && Early(w, t, tab, cl.rank) && !tab.shifting && (t in cl.held ==> After(w, k, cl.rank)))
    && (cl.phase.Active? ==> !tab.committed && !tab.uncertain && !tab.lost && !tab.shifting)
  }

  /** What does not depend on a single table. */
  ghost predicate ContextInv(w: World, cfg: Config, cl: Client) {
    && (cl.ranked ==> cl.rank < w.time) && cl.rounds <= cfg.maxRedos
    && (cl.phase.Active? ==> !cl.ranked && !cl.late && !cl.redone && !cl.doubled)
    && (cl.phase.Committing? && Committed(cl) ==> cl.turning || cl.rounds >= 1)
    && (cl.doubled ==> cl.rounds >= 2)
    && (!cl.doubled ==>
          && (cl.phase.Committing? && cl.ranked ==> Committed(cl))
          && (cl.ranked && cl.implicit ==> cl.redone)
          && (cl.late ==> cl.ranked && Committed(cl)))
  }

  ghost predicate TabOk(w: World, cfg: Config, c: nat, cl: Client, t: nat)
    requires t in cl.tables
  {
    TabInv(w, c, t, cl.tables[t]) && (!cl.doubled ==> TabSafe(w, cfg, c, cl, t, cl.tables[t]))
  }

  /** The triggers keep the parts folded until they are asked for. */
  ghost predicate ClientInv(w: World, cfg: Config, c: nat, cl: Client) {
    && ContextInv(w, cfg, cl)
    && forall t {:trigger TabOk(w, cfg, c, cl, t)} | t in cl.tables :: TabOk(w, cfg, c, cl, t)
  }

  /** A commit in the log is the current reservation of its author, written after the author's
      validation. */
  ghost predicate AuthorInv(s: State, k: Key) {
    s.w.Final(k) && s.w.Holds(k).author.Writer? ==>
      var c := s.w.Holds(k).author.txn;
      && c in s.clients
      && (!s.clients[c].doubled ==>
            && k.table in s.clients[c].tables
            && var tab := s.clients[c].tables[k.table];
               tab.pos == k.version && (tab.committed || tab.uncertain))
  }

  ghost predicate Inv(cfg: Config, s: State) {
    && WorldInv(s.w)
    && (forall c {:trigger ClientInv(s.w, cfg, c, s.clients[c])} | c in s.clients :: ClientInv(s.w, cfg, c, s.clients[c]))
    && (forall k :: AuthorInv(s, k))
    && (forall k <- s.w.owner :: s.w.owner[k] in s.clients)
  }

  // ---- a step of one transaction leaves the others alone ---------------------------------------

  lemma FrameBelow(w: World, w': World, actor: nat, at: Target, c: nat, t: nat, tab: Tab, u: nat)
    requires Evolves(w, w', actor, at) && BelowInv(w, c, t, tab, u)
    ensures BelowInv(w', c, t, tab, u)
  {
    assert KeyEvolves(w, w', actor, at, Key(t, u));
  }

  lemma FrameTab(w: World, w': World, actor: nat, at: Target, c: nat, t: nat, tab: Tab)
    requires WorldInv(w) && WorldInv(w') && Evolves(w, w', actor, at) && TabInv(w, c, t, tab)
    ensures TabInv(w', c, t, tab)
  {
    assert KeyEvolves(w, w', actor, at, Key(t, tab.pos));
    forall u: nat ensures BelowInv(w', c, t, tab, u) {
      FrameBelow(w, w', actor, at, c, t, tab, u);
    }
  }

  lemma FrameSettled(w: World, w': World, actor: nat, at: Target, cfg: Config, t: nat, tab: Tab)
    requires WorldInv(w) && Evolves(w, w', actor, at) && Settled(w, cfg, t, tab)
    ensures Settled(w', cfg, t, tab)
  {
    forall u: nat ensures SettledAt(w', cfg, t, tab, u) {
      assert SettledAt(w, cfg, t, tab, u);
      assert KeyEvolves(w, w', actor, at, Key(t, u));
    }
  }

  lemma FrameEarly(w: World, w': World, actor: nat, at: Target, t: nat, tab: Tab, rank: nat)
    requires WorldInv(w) && Evolves(w, w', actor, at) && Early(w, t, tab, rank)
    ensures Early(w', t, tab, rank)
  {
    forall u: nat ensures EarlyAt(w', t, tab, u, rank) {
      assert EarlyAt(w, t, tab, u, rank);
      assert KeyInv(w, Key(t, u)) && KeyEvolves(w, w', actor, at, Key(t, u));
    }
  }

  lemma FrameNoCommit(w: World, w': World, actor: nat, at: Target, t: nat, u: nat)
    requires Evolves(w, w', actor, at) && NoCommitAt(w, t, u) && w.Exists(Key(t, u)) && at != Only(Key(t, u))
    ensures NoCommitAt(w', t, u)
  {
    assert KeyEvolves(w, w', actor, at, Key(t, u));
  }

  lemma FrameAfter(w: World, w': World, actor: nat, at: Target, k: Key, rank: nat)
    requires WorldInv(w) && WorldInv(w') && Evolves(w, w', actor, at) && After(w, k, rank) && w.Exists(k) && rank < w.time
    ensures After(w', k, rank)
  {
    assert KeyInv(w, k) && KeyInv(w', k) && KeyEvolves(w, w', actor, at, k);
  }

  /** Nothing about an untouched reservation changes, whoever acts: `at` is not one of its versions. */
  lemma FrameSafe(w: World, w': World, actor: nat, at: Target, cfg: Config, c: nat, cl: Client, t: nat, tab: Tab)
    requires WorldInv(w) && WorldInv(w') && Evolves(w, w', actor, at)
    requires TabInv(w, c, t, tab) && TabSafe(w, cfg, c, cl, t, tab)
    requires cl.ranked ==> cl.rank < w.time
    requires at.Only? && at.key.table == t ==> at.key.version != tab.pos && at.key.version !in tab.abandoned
    ensures TabSafe(w', cfg, c, cl, t, tab)
  {
    var k := Key(t, tab.pos);
    assert KeyEvolves(w, w', actor, at, k);
    forall u <- tab.abandoned ensures NoCommitAt(w', t, u) {
      assert BelowInv(w, c, t, tab, u);
      FrameNoCommit(w, w', actor, at, t, u);
    }
    if Settled(w, cfg, t, tab) { FrameSettled(w, w', actor, at, cfg, t, tab); }
    if Early(w, t, tab, cl.rank) { FrameEarly(w, w', actor, at, t, tab, cl.rank); }
    if cl.ranked && After(w, k, cl.rank) { FrameAfter(w, w', actor, at, k, cl.rank); }
  }

  lemma FrameClient(w: World, w': World, actor: nat, at: Target, cfg: Config, c: nat, cl: Client)
    requires WorldInv(w) && WorldInv(w') && Evolves(w, w', actor, at) && ClientInv(w, cfg, c, cl)
    requires at.Only? ==> at.key in w.owner && w.owner[at.key] != c
    ensures ClientInv(w', cfg, c, cl)
  {
    forall t | t in cl.tables ensures TabOk(w', cfg, c, cl, t) {
      var tab := cl.tables[t];
      assert TabOk(w, cfg, c, cl, t);
      FrameTab(w, w', actor, at, c, t, tab);
      assert at.Only? ==> BelowInv(w, c, t, tab, at.key.version);
      if !cl.doubled { FrameSafe(w, w', actor, at, cfg, c, cl, t, tab); }
    }
  }
}
