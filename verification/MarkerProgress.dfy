/** The commit loop of the marker protocol never gets stuck: while rounds are left, there is always a
    next step, or a conflict that cannot be redone. And what single requests achieve. */
module MarkerProgress {
  import opened ObjectStore
  import opened DeltaReplay
  import opened MarkerWorld
  import opened MarkerProtocol
  import opened MarkerInvariant
  import opened MarkerSafety
  import opened MarkerTheorems
  import opened MarkerValidation

  // ---- where a transaction is in the loop --------------------------------------------------------------

  predicate TabInLoop(phase: Phase, turning: bool, tab: Tab) {
    && (phase.Active? ==> !tab.shifting && !tab.lost && !tab.uncertain && !tab.committed)
    && (phase.Committing? || phase.Writing? ==> tab.loading == {})
    && (phase.Writing? || (phase.Committing? && !turning) ==> !tab.shifting && !tab.lost)
    && (tab.lost ==> tab.dirty && !tab.committed)
    && (tab.uncertain ==> (phase.Writing? || phase.Aborted?) && tab.dirty && !tab.committed)
  }

  /** At most one write at a time is unanswered. */
  ghost predicate InLoop(cl: Client) {
    && (cl.turning ==> cl.phase.Committing? || cl.phase.Aborted?)
    && (forall t {:trigger cl.tables[t]} | t in cl.tables :: TabInLoop(cl.phase, cl.turning, cl.tables[t]))
    && forall t, t' | t in cl.tables && t' in cl.tables && cl.tables[t].uncertain && cl.tables[t'].uncertain :: t == t'
  }

  ghost predicate AllInLoop(s: State) {
    forall c {:trigger s.clients[c]} | c in s.clients :: InLoop(s.clients[c])
  }

  lemma TabStaysInLoop(cl: Client, t: nat, tab': Tab)
    requires InLoop(cl) && t in cl.tables && TabInLoop(cl.phase, cl.turning, tab') && tab'.uncertain == cl.tables[t].uncertain
    ensures InLoop(WithTab(cl, t, tab'))
  {}

  lemma LostInLoop(cl: Client, cl': Client, t: nat)
    requires InLoop(cl) && cl.phase.Writing? && t in cl.tables && cl.tables[t].dirty && !cl.tables[t].committed
    requires forall t' <- cl.tables :: cl.tables[t'].uncertain ==> t' == t
    requires cl'.tables == cl.tables[t := LostTab(cl.tables[t])] && cl'.phase.Committing? && cl'.turning
    ensures InLoop(cl')
  {}

  lemma AnsweredInLoop(cl: Client, t: nat, tab': Tab)
    requires InLoop(cl) && cl.phase.Writing? && t in cl.tables && cl.tables[t].dirty && !cl.tables[t].committed
    requires forall t' <- cl.tables :: cl.tables[t'].uncertain ==> t' == t
    requires tab' == CommittedTab(cl.tables[t]) || tab' == cl.tables[t].(uncertain := true)
    ensures InLoop(WithTab(cl, t, tab'))
  {}

  lemma WrittenInLoop(w: World, c: nat, cl: Client, t: nat, status: WriteStatus)
    requires InLoop(cl) && cl.phase.Writing? && t in cl.tables && cl.tables[t].dirty && !cl.tables[t].committed
    requires forall t' <- cl.tables :: cl.tables[t'].uncertain ==> t' == t
    ensures InLoop(Written(w, c, cl, t, status))
  {
    if WasLost(w, c, t, cl.tables[t], status) {
      LostInLoop(cl, Written(w, c, cl, t, status), t);
    } else {
      AnsweredInLoop(cl, t, Concluded(w, c, t, cl.tables[t], status));
    }
  }

  lemma OpenedInLoop(cl: Client, t: nat, pos: nat, etag: nat, deadline: int)
    requires InLoop(cl) && cl.phase.Active?
    ensures InLoop(WithTab(cl, t, Opened(pos, etag, deadline)))
  {}

  lemma GivenUpInLoop(cl: Client, t: nat)
    requires InLoop(cl) && cl.phase.Committing? && t in cl.tables && cl.tables[t].dirty && !cl.tables[t].committed
    ensures InLoop(GivenUp(cl, t))
  {}

  lemma RedoneInLoop(cl: Client, plan: map<nat, seq<FileAction>>)
    requires InLoop(cl) && cl.phase.Committing? && !cl.turning
    ensures InLoop(Redone(cl, plan))
  {}

  lemma TurnedInLoop(cl: Client)
    requires InLoop(cl) && cl.phase.Committing? && forall t <- cl.tables :: !cl.tables[t].shifting && !cl.tables[t].lost
    ensures InLoop(Turned(cl))
  {}

  lemma LoadedInLoop(cfg: Config, w: World, cl: Client, t: nat, u: nat, deferred: bool)
    requires InLoop(cl) && cl.phase.Active? && t in cl.tables
    ensures InLoop(Loaded(cfg, w, cl, t, u, deferred))
  {}

  lemma LocalInLoop(cfg: Config, s: State, step: Step)
    requires AllInLoop(s) && Enabled(cfg, s, step)
    requires step.Begin? || step.StartCommit? || step.Validate? || step.Finish? || step.Abort?
    ensures InLoop(Apply(cfg, s, step).clients[step.c])
  {
    if !step.Begin? { assert InLoop(s.clients[step.c]); }
  }

  lemma RequestInLoop(cfg: Config, s: State, step: Step)
    requires AllInLoop(s) && Enabled(cfg, s, step)
    requires step.Reserve? || step.FailOpen? || step.TakeOver? || step.ReserveAgain? || step.ReleaseMarker?
    ensures InLoop(Apply(cfg, s, step).clients[step.c])
  {
    var cl, cl' := s.clients[step.c], Apply(cfg, s, step).clients[step.c];
    assert InLoop(cl);
    if !step.Reserve? && !step.FailOpen? && cl' != cl { TabStaysInLoop(cl, step.t, cl'.tables[step.t]); }
  }

  lemma TabStepInLoop(cfg: Config, s: State, step: Step)
    requires AllInLoop(s) && Enabled(cfg, s, step)
    requires step.Load? || step.Read? || step.Stage? || step.Wait?
    ensures InLoop(Apply(cfg, s, step).clients[step.c])
  {
    assert InLoop(s.clients[step.c]);
    match step
    case Load(c, t, u, deferred) => LoadedInLoop(cfg, s.w, s.clients[c], t, u, deferred);
    case Read(c, t) => TabStaysInLoop(s.clients[c], t, s.clients[c].tables[t].(wasRead := true));
    case Stage(c, t, actions) => TabStaysInLoop(s.clients[c], t, s.clients[c].tables[t].(dirty := true, actions := actions));
    case Wait(c, t, u) => TabStaysInLoop(s.clients[c], t, Waited(s.clients[c].tables[t], u, Actions(s.w.Holds(Key(t, u)))));
  }

  lemma LoopStepInLoop(cfg: Config, s: State, step: Step)
    requires AllInLoop(s) && Enabled(cfg, s, step)
    requires step.GiveUp? || step.NextPass? || step.Redo? || step.Write?
    ensures InLoop(Apply(cfg, s, step).clients[step.c])
  {
    assert InLoop(s.clients[step.c]);
    match step
    case GiveUp(c, t, _, _) => GivenUpInLoop(s.clients[c], t);
    case NextPass(c) => TurnedInLoop(s.clients[c]);
    case Redo(c, plan) => RedoneInLoop(s.clients[c], plan);
    case Write(c, t, f) =>
      var tab := s.clients[c].tables[t];
      var (w, status) := Swap(s.w, Key(t, tab.pos), Commit(Writer(c), tab.actions), tab.etag, f);
      WrittenInLoop(w, c, s.clients[c], t, status);
  }

  lemma StepInLoop(cfg: Config, s: State, step: Step)
    requires AllInLoop(s) && Enabled(cfg, s, step) && !step.ForeignCommit?
    ensures InLoop(Apply(cfg, s, step).clients[step.c])
  {
    if step.Load? || step.Read? || step.Stage? || step.Wait? { TabStepInLoop(cfg, s, step); }
    else if step.GiveUp? || step.NextPass? || step.Redo? || step.Write? { LoopStepInLoop(cfg, s, step); }
    else if step.Reserve? || step.FailOpen? || step.TakeOver? || step.ReserveAgain? || step.ReleaseMarker? { RequestInLoop(cfg, s, step); }
    else { LocalInLoop(cfg, s, step); }
  }

  lemma OthersSame(cfg: Config, s: State, step: Step)
    requires Enabled(cfg, s, step)
    ensures var s' := Apply(cfg, s, step);
            s'.clients == if step.ForeignCommit? then s.clients else s.clients[step.c := s'.clients[step.c]]
  {}

  lemma {:induction false} RunInLoop(cfg: Config, s: State, steps: seq<Step>)
    requires ValidRun(cfg, s, steps) && AllInLoop(s)
    ensures AllInLoop(Run(cfg, s, steps))
    decreases |steps|
  {
    if steps != [] {
      AllStayInLoop(cfg, s, steps[0]);
      RunInLoop(cfg, Apply(cfg, s, steps[0]), steps[1..]);
    }
  }

  lemma AllStayInLoop(cfg: Config, s: State, step: Step)
    requires AllInLoop(s) && Enabled(cfg, s, step)
    ensures AllInLoop(Apply(cfg, s, step))
  {
    OthersSame(cfg, s, step);
    if !step.ForeignCommit? { StepInLoop(cfg, s, step); }
  }

  lemma ReachedInLoop(cfg: Config, s: State, c: nat)
    requires Reachable(cfg, s) && c in s.clients
    ensures InLoop(s.clients[c])
  {
    var s0, steps :| Reaches(cfg, s0, steps, s);
    RunInLoop(cfg, s0, steps);
  }

  // ---- there is always a next step --------------------------------------------------------------------------

  /** A table has a last version, above any that exists. */
  lemma {:induction false} SomeFree(w: World, t: nat, v: nat) returns (h: nat)
    requires w.Exists(Key(t, v))
    ensures v <= h && NextFree(w, t, h)
    decreases |Above(w, t, v)|
  {
    if w.Exists(Key(t, v + 1)) {
      assert Above(w, t, v + 1) + {Key(t, v + 1)} <= Above(w, t, v) && Key(t, v + 1) !in Above(w, t, v + 1);
      Fewer(Above(w, t, v + 1), Above(w, t, v), Key(t, v + 1));
      h := SomeFree(w, t, v + 1);
    } else {
      h := v;
    }
  }

  function Above(w: World, t: nat, v: nat): set<Key> {
    set k <- w.store.objects | k.table == t && k.version > v
  }

  lemma Fewer(a: set<Key>, b: set<Key>, k: Key)
    requires a + {k} <= b && k !in a
    ensures |a| < |b|
  {
    Smaller(a + {k}, b);
  }

  lemma {:induction false} Smaller(a: set<Key>, b: set<Key>)
    requires a <= b
    ensures |a| <= |b|
  {
    if k :| k in a { Smaller(a - {k}, b - {k}); }
  }

  /** The waiting of this pass is over, unless the pass is given up anyway. */
  predicate DoneWaiting(cl: Client) {
    cl.turning || forall t <- cl.tables :: cl.tables[t].markers <= cl.tables[t].pass
  }

  /** While rounds are left, a transaction that has waited goes on: it reserves again, gives a version
      up, starts over, redoes or validates. Only if its operations cannot be redone, a version that
      is not harmless stops it. */
  lemma LoopAdvances(cfg: Config, s: State, c: nat, latest: int, f: Fault)
    requires Reachable(cfg, s) && Has(s, c, Committing) && s.clients[c].rounds < cfg.maxRedos && DoneWaiting(s.clients[c])
    ensures
      || (exists t, h :: Enabled(cfg, s, ReserveAgain(c, t, h, latest, f)))
      || (exists t :: Enabled(cfg, s, GiveUp(c, t, latest, f)))
      || Enabled(cfg, s, NextPass(c)) || Enabled(cfg, s, Redo(c, map[])) || Enabled(cfg, s, Validate(c, latest))
      || (!s.clients[c].implicit && exists t, u :: Harmful(cfg, s, c, t, u))
  {
    var cl := s.clients[c];
    ReachedInLoop(cfg, s, c);
    if t :| t in cl.tables && cl.tables[t].shifting {
      ReachedInv(cfg, s);
      KnownTab(cfg, s, c, t);
      var h := SomeFree(s.w, t, cl.tables[t].pos);
      assert Enabled(cfg, s, ReserveAgain(c, t, h, latest, f));
    } else if t :| t in cl.tables && cl.tables[t].lost {
      assert Enabled(cfg, s, GiveUp(c, t, latest, f));
    } else if cl.turning {
      assert Enabled(cfg, s, NextPass(c));
    } else {
      PassAdvances(cfg, s, c, latest, f);
    }
  }

  ghost predicate Harmful(cfg: Config, s: State, c: nat, t: nat, u: nat) {
    && c in s.clients && t in s.clients[c].tables && u in s.clients[c].tables[t].recent
    && !Harmless(cfg, s.w, t, s.clients[c].tables[t], u)
  }

  lemma PassAdvances(cfg: Config, s: State, c: nat, latest: int, f: Fault)
    requires Reachable(cfg, s) && Has(s, c, Committing) && s.clients[c].rounds < cfg.maxRedos
    requires InLoop(s.clients[c]) && DoneWaiting(s.clients[c]) && !s.clients[c].turning
    ensures
      || (exists t :: Enabled(cfg, s, GiveUp(c, t, latest, f)))
      || Enabled(cfg, s, Redo(c, map[])) || Enabled(cfg, s, Validate(c, latest))
      || (!s.clients[c].implicit && exists t, u :: Harmful(cfg, s, c, t, u))
  {
    var cl := s.clients[c];
    assert AllWaited(cl);
    if t :| t in cl.tables && cl.tables[t].dirty && !cl.tables[t].committed && LeaseExpiring(cfg, cl.tables[t], latest) {
      assert Enabled(cfg, s, GiveUp(c, t, latest, f));
    } else if t :| t in cl.tables && Conflict(cfg, cl.tables[t]) {
      if !cl.implicit {
        ReachedRecorded(cfg, s, c, t);
        ConflictIsHarm(cfg, s.w, t, cl.tables[t]);
        var u :| u in cl.tables[t].recent && !Harmless(cfg, s.w, t, cl.tables[t], u);
        assert Harmful(cfg, s, c, t, u);
      } else {
        assert Enabled(cfg, s, Redo(c, map[]));
      }
    } else if cl.implicit && !cl.redone {
      assert Enabled(cfg, s, Redo(c, map[]));
    } else {
      assert Enabled(cfg, s, Validate(c, latest));
    }
  }

  /** Waiting for a version ends when it is final, or when the lease of its marker and the grace
      period are over. */
  lemma WaitingEnds(cfg: Config, s: State, c: nat, t: nat, u: nat, earliest: int, f: Fault)
    requires Reachable(cfg, s) && HasTab(s, c, Committing, t) && !s.clients[c].turning && u in s.clients[c].tables[t].markers
    ensures s.w.Exists(Key(t, u))
    ensures match s.w.Holds(Key(t, u))
            case Commit(_, _) => Enabled(cfg, s, Wait(c, t, u))
            case Marker(_, deadline) => Enabled(cfg, s, TakeOver(c, t, u, earliest, f)) <==> earliest > deadline + cfg.grace
  {
    ReachedInv(cfg, s);
    KnownTab(cfg, s, c, t);
    assert BelowInv(s.w, c, t, s.clients[c].tables[t], u);
  }

  lemma TableToWrite(cl: Client)
    requires InLoop(cl) && cl.phase.Writing?
    ensures
      || (forall t <- cl.tables :: cl.tables[t].dirty ==> cl.tables[t].committed)
      || exists t :: IsToWrite(cl, t)
  {
    if t :| t in cl.tables && cl.tables[t].uncertain {
      assert IsToWrite(cl, t);
    } else if t :| t in cl.tables && cl.tables[t].dirty && !cl.tables[t].committed {
      assert IsToWrite(cl, t);
    }
  }

  ghost predicate IsToWrite(cl: Client, t: nat) {
    && t in cl.tables && cl.tables[t].dirty && !cl.tables[t].committed
    && forall t' <- cl.tables :: cl.tables[t'].uncertain ==> t' == t
  }

  /** Before the loop starts over, every version whose lease ends too soon can be given up, and every
      lost one; no other. */
  lemma GivingUpIsExact(cfg: Config, s: State, c: nat, t: nat, latest: int, f: Fault)
    requires Reachable(cfg, s) && HasTab(s, c, Committing, t) && s.clients[c].rounds < cfg.maxRedos && DoneWaiting(s.clients[c])
    requires var tab := s.clients[c].tables[t]; tab.dirty && !tab.committed && !tab.shifting
    ensures var tab := s.clients[c].tables[t];
            Enabled(cfg, s, GiveUp(c, t, latest, f)) <==> tab.lost || (tab.valid && tab.deadline <= latest + cfg.Margin())
  {
    ReachedInLoop(cfg, s, c);
    if !s.clients[c].turning { assert AllWaited(s.clients[c]); }
  }

  /** A transaction that writes always has a table to write, or is done. */
  lemma WritingAdvances(cfg: Config, s: State, c: nat, f: Fault)
    requires Reachable(cfg, s) && Has(s, c, Writing)
    ensures Enabled(cfg, s, Finish(c)) || exists t :: Enabled(cfg, s, Write(c, t, f))
  {
    var cl := s.clients[c];
    ReachedInLoop(cfg, s, c);
    TableToWrite(cl);
    if !CanFinish(s, c) {
      var t :| IsToWrite(cl, t);
      assert Enabled(cfg, s, Write(c, t, f));
    }
  }

  // ---- what single requests achieve ------------------------------------------------------------------------

  /** A version that is given up, released after the end or overwritten after a failed open is not
      reserved any more if the request was applied: nobody has to wait for its lease. */
  lemma ReleaseEndsReservation(cfg: Config, s: State, step: Step)
    requires Reachable(cfg, s) && Enabled(cfg, s, step) && (step.GiveUp? || step.ReleaseMarker? || step.FailOpen?)
    requires !step.f.Refused? && s.clients[step.c].tables[step.t].valid
    ensures var k := Key(step.t, s.clients[step.c].tables[step.t].pos);
            && s.w.Exists(k) && Apply(cfg, s, step).w.Final(k)
            && (s.w.Holds(k).Marker? ==> Apply(cfg, s, step).w.Holds(k) == RELEASED)
  {
    ReachedInv(cfg, s);
    OwnMarker(cfg, s, step.c, step.t);
  }

  /** One attempt to write a commit: it succeeds if the reservation stands, or if an attempt before it
      that was not answered has written this very commit; otherwise the version is lost. Without an
      answer it stays open. */
  lemma WriteConcludes(cfg: Config, s: State, c: nat, t: nat, f: Fault)
    requires Reachable(cfg, s) && Enabled(cfg, s, Write(c, t, f))
    ensures var tab, cl' := s.clients[c].tables[t], Apply(cfg, s, Write(c, t, f)).clients[c];
            var k := Key(t, tab.pos);
            && s.w.Exists(k) && t in cl'.tables
            && if !f.Delivered? then cl'.phase.Writing? && cl'.tables[t].uncertain
               else if s.w.Holds(k).Marker? || (tab.uncertain && s.w.Holds(k) == Commit(Writer(c), tab.actions)) then
                 cl'.phase.Writing? && cl'.tables[t].committed
               else cl'.phase.Committing? && cl'.tables[t].lost && !cl'.tables[t].committed
  {
    ReachedInv(cfg, s);
    OwnMarker(cfg, s, c, t);
  }

  /** Parsing puts a version into the snapshot exactly if it is final and not beyond the visible one;
      all others are waited for. Meeting a reservation makes a transaction of level 0 defer its
      operations, and nothing else does. */
  lemma LoadingSorts(cfg: Config, s: State, c: nat, t: nat, u: nat, deferred: bool)
    requires Reachable(cfg, s) && Enabled(cfg, s, Load(c, t, u, deferred))
    ensures var cl' := Apply(cfg, s, Load(c, t, u, deferred)).clients[c];
            && t in cl'.tables && s.w.Exists(Key(t, u)) && u !in cl'.tables[t].loading
            && (u in cl'.tables[t].base <==> !deferred && s.w.Holds(Key(t, u)).Commit?)
            && (u in cl'.tables[t].markers <==> u !in cl'.tables[t].base)
            && (cl'.implicit <==> s.clients[c].implicit || (cfg.sublogs && !deferred && s.w.Holds(Key(t, u)).Marker?))
  {
    ReachedRecorded(cfg, s, c, t);
    ReachedInv(cfg, s);
    KnownTab(cfg, s, c, t);
    assert BelowInv(s.w, c, t, s.clients[c].tables[t], u);
  }
}
