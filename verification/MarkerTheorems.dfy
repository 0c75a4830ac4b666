/** What the marker protocol guarantees, over every run: finality, gap-free logs, exactly-once
    commits, serializable reads and a serial order across tables. */
module MarkerTheorems {
  import opened ObjectStore
  import opened DeltaReplay
  import opened MarkerWorld
  import opened MarkerProtocol
  import opened MarkerInvariant
  import opened MarkerSafety

  ghost predicate Reaches(cfg: Config, s0: State, steps: seq<Step>, s: State) {
    Init(s0) && ValidRun(cfg, s0, steps) && s == Run(cfg, s0, steps)
  }

  /** Some run from some initial state gets here. */
  ghost predicate Reachable(cfg: Config, s: State) {
    exists s0, steps :: Reaches(cfg, s0, steps, s)
  }

  lemma ReachedInv(cfg: Config, s: State)
    requires Reachable(cfg, s)
    ensures Inv(cfg, s)
  {
    var s0, steps :| Reaches(cfg, s0, steps, s);
    InitInv(cfg, s0);
    RunInv(cfg, s0, steps);
  }

  // ---- finality ------------------------------------------------------------------------------------

  ghost predicate SameFinal(w: World, w': World, k: Key) {
    w.Final(k) ==> w'.Final(k) && w'.Holds(k) == w.Holds(k)
  }

  /** A swap aimed at a marker leaves final versions alone. */
  lemma SwapKeeps(w: World, k0: Key, content: Content, etag: nat, f: Fault, k: Key)
    requires w.Carries(k0, etag) ==> w.Holds(k0).Marker?
    ensures SameFinal(w, Swap(w, k0, content, etag, f).0, k)
  {}

  /** The requests a transaction sends to its own version: it is a marker, or released. */
  lemma HolderKeeps(cfg: Config, s: State, step: Step, k: Key)
    requires Inv(cfg, s) && Enabled(cfg, s, step)
    requires step.GiveUp? || step.Write? || step.ReleaseMarker?
    ensures SameFinal(s.w, Apply(cfg, s, step).w, k)
  {
    var tab := s.clients[step.c].tables[step.t];
    OwnMarker(cfg, s, step.c, step.t);
    SwapKeeps(s.w, Key(step.t, tab.pos), if step.Write? then Commit(Writer(step.c), tab.actions) else RELEASED, tab.etag, step.f, k);
  }

  lemma FailOpenKeeps(cfg: Config, s: State, c: nat, t: nat, f: Fault, k: Key)
    requires Inv(cfg, s) && CanFailOpen(s, c, t)
    ensures SameFinal(s.w, AfterFailOpen(s, c, t, f).w, k)
  {
    NothingYet(cfg, s, c, t);
  }

  lemma TakeOverKeeps(s: State, c: nat, t: nat, u: nat, f: Fault, k: Key)
    requires HasTab(s, c, Committing, t) && s.w.Exists(Key(t, u)) && s.w.Holds(Key(t, u)).Marker?
    ensures SameFinal(s.w, AfterTakeOver(s, c, t, u, f).w, k)
  {
    SwapKeeps(s.w, Key(t, u), RELEASED, s.w.store.objects[Key(t, u)].etag, f, k);
  }

  lemma StepKeeps(cfg: Config, s: State, step: Step, k: Key)
    requires Inv(cfg, s) && Enabled(cfg, s, step)
    ensures SameFinal(s.w, Apply(cfg, s, step).w, k)
  {
    match step
    case FailOpen(c, t, f) => FailOpenKeeps(cfg, s, c, t, f, k);
    case TakeOver(c, t, u, _, f) => TakeOverKeeps(s, c, t, u, f, k);
    case GiveUp(_, _, _, _) => HolderKeeps(cfg, s, step, k);
    case Write(_, _, _) => HolderKeeps(cfg, s, step, k);
    case ReleaseMarker(_, _, _) => HolderKeeps(cfg, s, step, k);
    case _ =>
  }

  lemma {:induction false} RunKeeps(cfg: Config, s: State, steps: seq<Step>, k: Key)
    requires Inv(cfg, s) && ValidRun(cfg, s, steps)
    ensures SameFinal(s.w, Run(cfg, s, steps).w, k)
    decreases |steps|
  {
    if steps != [] {
      StepKeeps(cfg, s, steps[0], k);
      StepInv(cfg, s, steps[0]);
      RunKeeps(cfg, Apply(cfg, s, steps[0]), steps[1..], k);
    }
  }

  /** A version that is not a marker any more never changes again, whoever writes to the log and
      whatever requests fail: not through commits, releases, takeovers or shifts, and not through
      the unconditional write after a failed open. */
  lemma Finality(cfg: Config, s: State, after: seq<Step>, k: Key)
    requires Reachable(cfg, s) && ValidRun(cfg, s, after) && s.w.Final(k)
    ensures var s' := Run(cfg, s, after); s'.w.Final(k) && s'.w.Holds(k) == s.w.Holds(k)
  {
    ReachedInv(cfg, s);
    RunKeeps(cfg, s, after, k);
  }

  /** The versions of a table are always 0, 1, ..., n without a gap. */
  lemma LogIsContiguous(cfg: Config, s: State, t: nat, h: nat, u: nat)
    requires Reachable(cfg, s) && s.w.Exists(Key(t, h)) && u <= h
    ensures s.w.Exists(Key(t, u))
  {
    ReachedInv(cfg, s);
    NoGap(s.w, t, h, u);
  }

  // ---- exactly once ----------------------------------------------------------------------------------

  /** What write_commit reports is what the log says for ever: after Ok (committed) the version holds
      this commit, and after Lost (the client waits again) it is an empty version, although any
      single request may have been applied behind an error. Only a client whose redo discarded a
      commit may find that commit in a lost version. */
  lemma CommitVerdict(cfg: Config, s: State, c: nat, t: nat, f: Fault, after: seq<Step>)
    requires Reachable(cfg, s) && Enabled(cfg, s, Write(c, t, f))
    requires ValidRun(cfg, Apply(cfg, s, Write(c, t, f)), after)
    ensures var s1 := Apply(cfg, s, Write(c, t, f));
            var w2 := Run(cfg, s1, after).w;
            var tab := s1.clients[c].tables[t];
            var k := Key(t, tab.pos);
            && (tab.committed ==> w2.Final(k) && w2.Holds(k) == Commit(Writer(c), tab.actions))
            && (s1.clients[c].phase.Committing? ==>
                  w2.Final(k) && (w2.Holds(k) == RELEASED || (s.clients[c].doubled && w2.Holds(k).author == Writer(c))))
            && (tab.committed || s1.clients[c].phase.Committing? || tab.uncertain)
  {
    ReachedInv(cfg, s);
    var s1 := Apply(cfg, s, Write(c, t, f));
    StepInv(cfg, s, Write(c, t, f));
    OkIsThere(cfg, s, c, t, f);
    LostIsFinal(cfg, s, c, t, f);
    RunKeeps(cfg, s1, after, Key(t, s.clients[c].tables[t].pos));
  }

  /** After Ok the version holds the commit. */
  lemma OkIsThere(cfg: Config, s: State, c: nat, t: nat, f: Fault)
    requires Inv(cfg, s) && CanWrite(s, c, t)
    ensures var s1 := AfterWrite(s, c, t, f); var tab := s1.clients[c].tables[t]; var k := Key(t, tab.pos);
            && tab.pos == s.clients[c].tables[t].pos
            && (tab.committed ==> s1.w.Final(k) && s1.w.Holds(k) == Commit(Writer(c), tab.actions))
            && (tab.committed || s1.clients[c].phase.Committing? || tab.uncertain)
  {}

  /** After Lost it does not. */
  lemma LostIsFinal(cfg: Config, s: State, c: nat, t: nat, f: Fault)
    requires Inv(cfg, s) && CanWrite(s, c, t)
    ensures var s1 := AfterWrite(s, c, t, f); var k := Key(t, s.clients[c].tables[t].pos);
            s1.clients[c].phase.Committing? ==>
              s1.w.Final(k) && (s1.w.Holds(k) == RELEASED || (s.clients[c].doubled && s1.w.Holds(k).author == Writer(c)))
  {
    var cl, tab := s.clients[c], s.clients[c].tables[t];
    OwnMarker(cfg, s, c, t);
    assert KeyInv(s.w, Key(t, tab.pos));
    if !cl.doubled {
      Known(cfg, s, c, t);
      assert Outcome(s.w, c, t, tab);
    }
  }

  /** Only a commit that goes through two rounds can discard a commit. */
  lemma DoublingTakesRounds(cfg: Config, s: State, c: nat)
    requires Reachable(cfg, s) && c in s.clients
    ensures s.clients[c].rounds <= cfg.maxRedos
    ensures s.clients[c].doubled ==> 2 <= s.clients[c].rounds
  {
    ReachedInv(cfg, s);
    KnownContext(cfg, s, c);
  }

  /** A transaction commits at most one version of a table, unless a redo discarded a commit; that
      takes two rounds, so with MAX_REDOS below two there is no exception. */
  lemma AtMostOnce(cfg: Config, s: State, k1: Key, k2: Key, c: nat)
    requires Reachable(cfg, s)
    requires s.w.Final(k1) && s.w.Holds(k1).author == Writer(c)
    requires s.w.Final(k2) && s.w.Holds(k2).author == Writer(c)
    requires k1.table == k2.table
    ensures c in s.clients && (k1 == k2 || (s.clients[c].doubled && 2 <= s.clients[c].rounds <= cfg.maxRedos))
  {
    ReachedInv(cfg, s);
    assert AuthorInv(s, k1) && AuthorInv(s, k2);
    KnownContext(cfg, s, c);
  }

  // ---- what a transaction read -------------------------------------------------------------------

  function EffectOf(w: World, k: Key): seq<FileAction> {
    if k in w.store.objects then Actions(w.Holds(k)) else []
  }

  /** What the versions below n did. */
  function TableLog(w: World, t: nat, n: nat): (log: seq<seq<FileAction>>)
    ensures |log| == n && forall u: nat :: u < n ==> log[u] == EffectOf(w, Key(t, u))
  {
    seq(n, (u: nat) => EffectOf(w, Key(t, u)))
  }

  /** The part of it the transaction's operations were computed on: parsed or redone upon. */
  function KnownLog(w: World, t: nat, tab: Tab): (log: seq<seq<FileAction>>)
    ensures |log| == tab.pos
    ensures forall u: nat :: u < tab.pos ==> log[u] == if u in tab.base then EffectOf(w, Key(t, u)) else []
  {
    seq(tab.pos, (u: nat) => if u in tab.base then EffectOf(w, Key(t, u)) else [])
  }

  /** The table as the transaction read it. */
  function Snapshot(w: World, t: nat, tab: Tab): LiveFiles { Replay(KnownLog(w, t, tab)) }

  /** The table just before a version. */
  function StateBefore(w: World, t: nat, pos: nat): LiveFiles { Replay(TableLog(w, t, pos)) }

  lemma SettledSnapshot(w: World, cfg: Config, c: nat, cl: Client, t: nat, tab: Tab)
    requires TabSafe(w, cfg, c, cl, t, tab) && Settled(w, cfg, t, tab)
    requires cfg.serializable && tab.wasRead
    ensures Snapshot(w, t, tab) == StateBefore(w, t, tab.pos)
  {
    forall u: nat | u < tab.pos ensures KnownLog(w, t, tab)[u] == TableLog(w, t, tab.pos)[u] {
      assert SettledAt(w, cfg, t, tab, u);
      if u in tab.abandoned { assert NoCommitAt(w, t, u); }
    }
    assert KnownLog(w, t, tab) == TableLog(w, t, tab.pos);
  }

  /** Whoever has a commit in the log: every lower version is final (or an own reservation that was
      given up and stays without effect), no version the transaction did not build on removed a
      file it removes, and under Serializable what it read of the table is the replay of all
      lower versions. */
  lemma CommitsRestOnTheirPast(cfg: Config, s: State, k: Key, c: nat)
    requires Reachable(cfg, s)
    requires s.w.Final(k) && s.w.Holds(k).author == Writer(c)
    ensures c in s.clients
    ensures !s.clients[c].doubled ==> k.table in s.clients[c].tables
    ensures !s.clients[c].doubled ==>
              var tab := s.clients[c].tables[k.table];
              && tab.pos == k.version && s.w.Holds(k).actions == tab.actions
              && (forall u: nat :: u < k.version ==>
                    s.w.Exists(Key(k.table, u)) &&
                    (s.w.Final(Key(k.table, u)) || (u in tab.abandoned && Key(k.table, u) in s.w.owner && s.w.owner[Key(k.table, u)] == c)))
              && (forall u: nat | u < k.version && s.w.Final(Key(k.table, u)) && u !in tab.base ::
                    RemovedPaths(tab.actions) * RemovedPaths(Actions(s.w.Holds(Key(k.table, u)))) == {})
              && (cfg.serializable && tab.wasRead ==>
                    Snapshot(s.w, k.table, tab) == StateBefore(s.w, k.table, k.version))
  {
    ReachedInv(cfg, s);
    assert AuthorInv(s, k);
    var cl := s.clients[c];
    if !cl.doubled {
      var t, tab := k.table, cl.tables[k.table];
      Known(cfg, s, c, t);
      forall u: nat | u < k.version ensures s.w.Exists(Key(t, u)) { NoGap(s.w, t, k.version, u); }
      forall u: nat | u < k.version
        ensures s.w.Final(Key(t, u)) || (u in tab.abandoned && Key(t, u) in s.w.owner && s.w.owner[Key(t, u)] == c)
        ensures s.w.Final(Key(t, u)) && u !in tab.base ==>
                  RemovedPaths(tab.actions) * RemovedPaths(Actions(s.w.Holds(Key(t, u)))) == {}
      {
        assert SettledAt(s.w, cfg, t, tab, u) && BelowInv(s.w, c, t, tab, u);
        if u in tab.abandoned { assert NoCommitAt(s.w, t, u); }
      }
      if cfg.serializable && tab.wasRead { SettledSnapshot(s.w, cfg, c, cl, t, tab); }
    }
  }

  // ---- the serial order ---------------------------------------------------------------------------

  ghost predicate CommittedAt(s: State, c: nat, k: Key) {
    s.w.Final(k) && s.w.Holds(k).author == Writer(c)
  }

  /** Its versions are those it validated: nothing was shifted, nothing redone, after the first commit. */
  ghost predicate Steady(s: State, c: nat) {
    c in s.clients && !s.clients[c].late && !s.clients[c].doubled
  }

  /** Version order agrees with the order of validations on every table. */
  lemma VersionOrderIsRankOrder(cfg: Config, s: State, t: nat, a: nat, va: nat, b: nat, vb: nat)
    requires Reachable(cfg, s)
    requires CommittedAt(s, a, Key(t, va)) && CommittedAt(s, b, Key(t, vb)) && va < vb && a != b
    requires a in s.clients && !s.clients[a].doubled && Steady(s, b)
    ensures s.clients[a].rank < s.clients[b].rank
  {
    ReachedInv(cfg, s);
    assert AuthorInv(s, Key(t, va)) && AuthorInv(s, Key(t, vb));
    assert KeyInv(s.w, Key(t, va));
    var taba, tabb := s.clients[a].tables[t], s.clients[b].tables[t];
    Known(cfg, s, a, t);
    Known(cfg, s, b, t);
    assert EarlyAt(s.w, t, tabb, va, s.clients[b].rank) && BelowInv(s.w, b, t, tabb, va);
  }

  /** b comes before c on some table both committed. */
  ghost predicate Precedes(s: State, b: nat, c: nat) {
    b != c && exists t: nat, vb: nat, vc: nat :: vb < vc && CommittedAt(s, b, Key(t, vb)) && CommittedAt(s, c, Key(t, vc))
  }

  /** However many tables and transactions are involved, version order has no cycle among
      transactions that did not shift after their first commit; so no two of them are ever ordered
      oppositely on two tables. */
  lemma {:induction false} VersionOrderIsAcyclic(cfg: Config, s: State, cs: seq<nat>)
    requires Reachable(cfg, s) && |cs| > 0
    requires forall i | 0 <= i < |cs| :: Steady(s, cs[i])
    requires forall i | 0 <= i < |cs| - 1 :: Precedes(s, cs[i], cs[i + 1])
    ensures !Precedes(s, cs[|cs| - 1], cs[0])
  {
    RanksAscend(cfg, s, cs);
    if Precedes(s, cs[|cs| - 1], cs[0]) { PrecedesRank(cfg, s, cs[|cs| - 1], cs[0]); }
  }

  lemma PrecedesRank(cfg: Config, s: State, b: nat, c: nat)
    requires Reachable(cfg, s) && Steady(s, b) && Steady(s, c) && Precedes(s, b, c)
    ensures s.clients[b].rank < s.clients[c].rank
  {
    var t: nat, vb: nat, vc: nat :| vb < vc && CommittedAt(s, b, Key(t, vb)) && CommittedAt(s, c, Key(t, vc));
    VersionOrderIsRankOrder(cfg, s, t, b, vb, c, vc);
  }

  lemma {:induction false} RanksAscend(cfg: Config, s: State, cs: seq<nat>)
    requires Reachable(cfg, s) && |cs| > 0
    requires forall i | 0 <= i < |cs| :: Steady(s, cs[i])
    requires forall i | 0 <= i < |cs| - 1 :: Precedes(s, cs[i], cs[i + 1])
    ensures Steady(s, cs[0]) && Steady(s, cs[|cs| - 1]) && s.clients[cs[0]].rank <= s.clients[cs[|cs| - 1]].rank
    decreases |cs|
  {
    if |cs| > 1 {
      RanksAscend(cfg, s, cs[..|cs| - 1]);
      PrecedesRank(cfg, s, cs[|cs| - 2], cs[|cs| - 1]);
    }
  }

  /** Its version is where it validated: it held the reservation then, as it does on every table it
      commits. */
  ghost predicate Placed(cl: Client, t: nat)
    requires t in cl.tables
  {
    t in cl.held || cl.tables[t].committed
  }

  /** Serializability across tables. A validated transaction that shifted nothing after its first
      commit read on every table exactly the replay of the versions below its reservation, and
      everyone with a commit there validated before it. On the tables it commits, and on all others
      whose reservation it still held when it validated, everyone who validated before it is there,
      and everyone who commits above validated after it. So running the transactions one by one in
      the order of their validations gives the same reads and the same logs. */
  lemma SerializableAcrossTables(cfg: Config, s: State, c: nat, t: nat)
    requires Reachable(cfg, s) && Steady(s, c) && s.clients[c].ranked && t in s.clients[c].tables
    ensures var cl := s.clients[c]; var tab := cl.tables[t];
            && (forall u: nat :: u < tab.pos ==> s.w.Exists(Key(t, u)))
            && (cfg.serializable && tab.wasRead ==> Snapshot(s.w, t, tab) == StateBefore(s.w, t, tab.pos))
            && forall b: nat, v: nat | b != c && Steady(s, b) && CommittedAt(s, b, Key(t, v)) ::
                 && (v < tab.pos ==> s.clients[b].rank < cl.rank)
                 && (Placed(cl, t) ==> v != tab.pos && (v < tab.pos <==> s.clients[b].rank < cl.rank))
  {
    ReachedInv(cfg, s);
    var cl, tab := s.clients[c], s.clients[c].tables[t];
    Known(cfg, s, c, t);
    forall u: nat | u < tab.pos ensures s.w.Exists(Key(t, u)) { NoGap(s.w, t, tab.pos, u); }
    if cfg.serializable && tab.wasRead { SettledSnapshot(s.w, cfg, c, cl, t, tab); }
    forall b: nat, v: nat | b != c && Steady(s, b) && CommittedAt(s, b, Key(t, v))
      ensures v < tab.pos ==> s.clients[b].rank < cl.rank
      ensures Placed(cl, t) ==> v != tab.pos && (v < tab.pos <==> s.clients[b].rank < cl.rank)
    {
      BelowIsEarlier(cfg, s, c, t, b, v);
      if Placed(cl, t) { AboveIsLater(cfg, s, c, t, b, v); }
    }
  }

  lemma BelowIsEarlier(cfg: Config, s: State, c: nat, t: nat, b: nat, v: nat)
    requires Inv(cfg, s) && Steady(s, c) && s.clients[c].ranked && t in s.clients[c].tables
    requires b != c && Steady(s, b) && CommittedAt(s, b, Key(t, v))
    ensures v < s.clients[c].tables[t].pos ==> s.clients[b].rank < s.clients[c].rank
  {
    var tab := s.clients[c].tables[t];
    assert AuthorInv(s, Key(t, v)) && KeyInv(s.w, Key(t, v));
    Known(cfg, s, c, t);
    Known(cfg, s, b, t);
    assert EarlyAt(s.w, t, tab, v, s.clients[c].rank) && BelowInv(s.w, c, t, tab, v);
  }

  lemma AboveIsLater(cfg: Config, s: State, c: nat, t: nat, b: nat, v: nat)
    requires Inv(cfg, s) && Steady(s, c) && s.clients[c].ranked && t in s.clients[c].tables && Placed(s.clients[c], t)
    requires b != c && Steady(s, b) && CommittedAt(s, b, Key(t, v))
    ensures v != s.clients[c].tables[t].pos && (v > s.clients[c].tables[t].pos ==> s.clients[c].rank < s.clients[b].rank)
  {
    var tab := s.clients[c].tables[t];
    assert AuthorInv(s, Key(t, v)) && KeyInv(s.w, Key(t, v)) && KeyInv(s.w, Key(t, tab.pos));
    var tabb := s.clients[b].tables[t];
    Known(cfg, s, c, t);
    Known(cfg, s, b, t);
    assert EarlyAt(s.w, t, tabb, tab.pos, s.clients[b].rank) && BelowInv(s.w, b, t, tabb, tab.pos);
  }
}
