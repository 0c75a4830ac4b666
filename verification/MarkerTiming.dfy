/** The marker protocol in store time: every reading of the store clock is an estimate of a trusted
    observer, and a commit that arrives in time is never lost. */
module MarkerTiming {
  import opened ObjectStore
  import opened DeltaReplay
  import opened StoreClock
  import opened MarkerWorld
  import opened MarkerProtocol
  import opened MarkerInvariant
  import opened MarkerSafety
  import opened MarkerTheorems

  /** A state, the store's time, and when each transaction last checked its leases. */
  datatype Timed = Timed(s: State, now: int, checked: map<nat, int>)

  /** A step and the store time at which its request arrives; of a validation, the time at which the
      leases are checked. */
  datatype Event = Event(step: Step, at: int)

  /** Some observer's earliest estimate, taken at this time or before. */
  ghost predicate EarliestBefore(earliest: int, at: int) {
    exists o: Observer, local: int :: o.Trusted() && o.Estimate(local).Earliest() == earliest && local + o.offset <= at
  }

  /** Some observer's latest estimate, taken at this time. */
  ghost predicate LatestAt(latest: int, at: int) {
    exists o: Observer, local: int :: o.Trusted() && o.Estimate(local).Latest() == latest && local + o.offset == at
  }

  ghost predicate Happens(cfg: Config, ts: Timed, e: Event) {
    && Enabled(cfg, ts.s, e.step) && ts.now <= e.at
    && (e.step.TakeOver? ==> EarliestBefore(e.step.earliest, e.at))
    && (e.step.Validate? ==> LatestAt(e.step.latest, e.at))
  }

  function Next(cfg: Config, ts: Timed, e: Event): Timed
    requires Enabled(cfg, ts.s, e.step)
  {
    Timed(Apply(cfg, ts.s, e.step), e.at, if e.step.Validate? then ts.checked[e.step.c := e.at] else ts.checked)
  }

  ghost predicate ValidTimes(cfg: Config, ts: Timed, events: seq<Event>)
    decreases |events|
  {
    events == [] || (Happens(cfg, ts, events[0]) && ValidTimes(cfg, Next(cfg, ts, events[0]), events[1..]))
  }

  ghost function TimedRun(cfg: Config, ts: Timed, events: seq<Event>): Timed
    requires ValidTimes(cfg, ts, events)
    decreases |events|
  {
    if events == [] then ts else TimedRun(cfg, Next(cfg, ts, events[0]), events[1..])
  }

  // ---- the invariant ------------------------------------------------------------------------------------

  /** What a reservation that its holder still believes in has come to. */
  ghost predicate HeldInTime(cfg: Config, w: World, now: int, c: nat, t: nat, tab: Tab) {
    var k := Key(t, tab.pos);
    w.Final(k) ==> now > tab.deadline + cfg.grace || (tab.uncertain && w.Holds(k) == Commit(Writer(c), tab.actions))
  }

  ghost predicate Working(cl: Client) { cl.phase.Active? || cl.phase.Committing? || cl.phase.Writing? }

  /** The lease check that came before the writing. */
  ghost predicate CheckedInTime(cfg: Config, checked: map<nat, int>, c: nat, cl: Client, tab: Tab) {
    cl.phase.Writing? && tab.valid && tab.dirty && !tab.committed ==> c in checked && checked[c] + cfg.Margin() < tab.deadline
  }

  ghost predicate TabInTime(cfg: Config, w: World, now: int, checked: map<nat, int>, c: nat, cl: Client, t: nat)
    requires t in cl.tables
  {
    var tab := cl.tables[t];
    && (Working(cl) && tab.valid ==> HeldInTime(cfg, w, now, c, t, tab))
    && (cl.phase.Active? || cl.phase.Committing? ==> !tab.uncertain)
    && CheckedInTime(cfg, checked, c, cl, tab)
  }

  ghost predicate TimeInv(cfg: Config, ts: Timed) {
    && Inv(cfg, ts.s)
    && forall c, t {:trigger TabInTime(cfg, ts.s.w, ts.now, ts.checked, c, ts.s.clients[c], t)}
         | c in ts.s.clients && t in ts.s.clients[c].tables ::
         TabInTime(cfg, ts.s.w, ts.now, ts.checked, c, ts.s.clients[c], t)
  }

  // ---- who ends a reservation ---------------------------------------------------------------------------

  /** The version a step writes to, if any. */
  ghost predicate Touches(s: State, step: Step, k: Key) {
    match step
    case TakeOver(_, t, u, _, _) => k == Key(t, u)
    case Reserve(_, t, h, _, _) => k == Key(t, h + 1)
    case ReserveAgain(_, t, h, _, _) => k == Key(t, h + 1)
    case ForeignCommit(t, h, _) => k == Key(t, h + 1)
    case FailOpen(c, t, _) => c in s.clients && t in s.clients[c].tables && k == Key(t, s.clients[c].tables[t].pos)
    case GiveUp(c, t, _, _) => c in s.clients && t in s.clients[c].tables && k == Key(t, s.clients[c].tables[t].pos)
    case Write(c, t, _) => c in s.clients && t in s.clients[c].tables && k == Key(t, s.clients[c].tables[t].pos)
    case ReleaseMarker(c, t, _) => c in s.clients && t in s.clients[c].tables && k == Key(t, s.clients[c].tables[t].pos)
    case _ => false
  }

  ghost predicate SameVersion(w: World, w': World, k: Key) {
    (w'.Exists(k) <==> w.Exists(k)) && (w.Exists(k) ==> w'.store.objects[k] == w.store.objects[k])
  }

  lemma SwapElsewhere(w: World, k0: Key, content: Content, etag: nat, f: Fault, k: Key)
    requires k != k0
    ensures SameVersion(w, Swap(w, k0, content, etag, f).0, k)
  {}

  lemma PlaceElsewhere(w: World, k0: Key, c: nat, deadline: int, f: Fault, k: Key)
    requires k != k0
    ensures SameVersion(w, PlaceMarker(w, k0, c, deadline, f).0, k)
  {}

  lemma OnlyTouched(cfg: Config, s: State, step: Step, k: Key)
    requires Enabled(cfg, s, step) && !Touches(s, step, k)
    ensures SameVersion(s.w, Apply(cfg, s, step).w, k)
  {
    match step
    case TakeOver(_, t, u, _, f) => SwapElsewhere(s.w, Key(t, u), RELEASED, s.w.store.objects[Key(t, u)].etag, f, k);
    case Reserve(c, t, h, nowMs, f) => PlaceElsewhere(s.w, Key(t, h + 1), c, nowMs + cfg.lease, f, k);
    case ReserveAgain(c, t, h, nowMs, f) => PlaceElsewhere(s.w, Key(t, h + 1), c, nowMs + cfg.lease, f, k);
    case GiveUp(c, t, _, f) => var tab := s.clients[c].tables[t]; SwapElsewhere(s.w, Key(t, tab.pos), RELEASED, tab.etag, f, k);
    case ReleaseMarker(c, t, f) => var tab := s.clients[c].tables[t]; SwapElsewhere(s.w, Key(t, tab.pos), RELEASED, tab.etag, f, k);
    case Write(c, t, f) =>
      var tab := s.clients[c].tables[t];
      SwapElsewhere(s.w, Key(t, tab.pos), Commit(Writer(c), tab.actions), tab.etag, f, k);
    case _ =>
  }

  /** Step is about the reservation of table t itself. */
  ghost predicate Handles(step: Step, c: nat, t: nat) {
    (step.FailOpen? || step.GiveUp? || step.Write? || step.ReleaseMarker?) && step.c == c && step.t == t
  }

  /** A reservation is written to by its holder, or taken over. */
  lemma Touchers(cfg: Config, s: State, step: Step, c: nat, t: nat)
    requires Inv(cfg, s) && Enabled(cfg, s, step) && c in s.clients && t in s.clients[c].tables
    requires Touches(s, step, Key(t, s.clients[c].tables[t].pos))
    ensures step.TakeOver? || Handles(step, c, t)
  {
    OwnMarker(cfg, s, c, t);
    if step.FailOpen? || step.GiveUp? || step.Write? || step.ReleaseMarker? { OwnMarker(cfg, s, step.c, step.t); }
  }

  // ---- every step keeps the invariant ------------------------------------------------------------------------

  lemma KnownTime(cfg: Config, ts: Timed, c: nat, t: nat)
    requires TimeInv(cfg, ts) && c in ts.s.clients && t in ts.s.clients[c].tables
    ensures TabInTime(cfg, ts.s.w, ts.now, ts.checked, c, ts.s.clients[c], t)
  {}

  /** Whoever takes a marker over does so after its deadline and the grace period. */
  lemma TakenInTime(cfg: Config, s: State, e: Event)
    requires e.step.TakeOver? && Enabled(cfg, s, e.step) && EarliestBefore(e.step.earliest, e.at)
    ensures e.at > s.w.Holds(Key(e.step.t, e.step.u)).deadline + cfg.grace
  {
    var o: Observer, local: int :|
      o.Trusted() && o.Estimate(local).Earliest() == e.step.earliest && local + o.offset <= e.at;
    TrueTimeIsInside(o.samples, o.offset, local);
  }

  lemma HeldKept(cfg: Config, ts: Timed, e: Event, c: nat, t: nat, tab': Tab)
    requires TimeInv(cfg, ts) && Happens(cfg, ts, e) && c in ts.s.clients && t in ts.s.clients[c].tables && !Handles(e.step, c, t)
    requires var tab := ts.s.clients[c].tables[t];
             && HeldInTime(cfg, ts.s.w, ts.now, c, t, tab) && tab'.pos == tab.pos && tab'.deadline == tab.deadline
             && tab'.uncertain == tab.uncertain && (tab.uncertain ==> tab'.actions == tab.actions)
    ensures HeldInTime(cfg, Apply(cfg, ts.s, e.step).w, e.at, c, t, tab')
  {
    var k := Key(t, ts.s.clients[c].tables[t].pos);
    KnownTab(cfg, ts.s, c, t);
    if Touches(ts.s, e.step, k) {
      Touchers(cfg, ts.s, e.step, c, t);
      TakenInTime(cfg, ts.s, e);
    } else {
      OnlyTouched(cfg, ts.s, e.step, k);
    }
  }

  /** A step of c that changes one of its tables. */
  ghost predicate OneTable(s: State, s': State, c: nat, u: nat) {
    && c in s.clients && c in s'.clients
    && var cl, cl' := s.clients[c], s'.clients[c];
       && (forall t | t != u :: (t in cl'.tables <==> t in cl.tables) && (t in cl.tables ==> cl'.tables[t] == cl.tables[t]))
       && (cl'.phase == cl.phase || (cl.phase.Writing? && cl'.phase.Committing?))
       && (cl'.late ==> cl.late || Committed(cl)) && cl'.doubled == cl.doubled
  }

  lemma ReserveChanges(cfg: Config, s: State, c: nat, t: nat, h: nat, nowMs: int, f: Fault)
    requires CanReserve(s, c, t, h)
    ensures OneTable(s, AfterReserve(cfg, s, c, t, h, nowMs, f), c, t)
  {}

  lemma FailOpenChanges(s: State, c: nat, t: nat, f: Fault)
    requires CanFailOpen(s, c, t)
    ensures OneTable(s, AfterFailOpen(s, c, t, f), c, t)
  {}

  lemma TakeOverChanges(cfg: Config, s: State, c: nat, t: nat, u: nat, earliest: int, f: Fault)
    requires CanTakeOver(cfg, s, c, t, u, earliest)
    ensures OneTable(s, AfterTakeOver(s, c, t, u, f), c, t)
  {}

  lemma GiveUpChanges(cfg: Config, s: State, c: nat, t: nat, latest: int, f: Fault)
    requires CanGiveUp(cfg, s, c, t, latest)
    ensures OneTable(s, AfterGiveUp(s, c, t, f), c, t)
  {}

  lemma ReserveAgainChanges(cfg: Config, s: State, c: nat, t: nat, h: nat, nowMs: int, f: Fault)
    requires CanReserveAgain(s, c, t, h)
    ensures OneTable(s, AfterReserveAgain(cfg, s, c, t, h, nowMs, f), c, t)
  {}

  lemma WriteChanges(s: State, c: nat, t: nat, f: Fault)
    requires CanWrite(s, c, t)
    ensures OneTable(s, AfterWrite(s, c, t, f), c, t)
  {}

  lemma ReleaseChanges(s: State, c: nat, t: nat, f: Fault)
    requires CanRelease(s, c, t)
    ensures OneTable(s, AfterRelease(s, c, t, f), c, t)
  {}

  lemma LocalChanges(s: State, c: nat, t: nat, tab': Tab)
    requires c in s.clients
    ensures OneTable(s, AfterLocal(s, c, t, tab'), c, t)
  {}

  lemma LoadChanges(cfg: Config, s: State, c: nat, t: nat, u: nat, deferred: bool)
    requires CanLoad(s, c, t, u)
    ensures OneTable(s, With(s, Tick(s.w), c, Loaded(cfg, s.w, s.clients[c], t, u, deferred)), c, t)
  {}

  ghost predicate OnTable(step: Step) {
    step.Reserve? || step.Load? || step.FailOpen? || step.Read? || step.Stage? || step.Wait? || step.TakeOver?
    || step.GiveUp? || step.ReserveAgain? || step.Write? || step.ReleaseMarker?
  }

  lemma StepChanges(cfg: Config, s: State, step: Step)
    requires OnTable(step) && Enabled(cfg, s, step)
    ensures OneTable(s, Apply(cfg, s, step), step.c, step.t)
  {
    match step
    case Reserve(c, t, h, nowMs, f) => ReserveChanges(cfg, s, c, t, h, nowMs, f);
    case Load(c, t, u, deferred) => LoadChanges(cfg, s, c, t, u, deferred);
    case FailOpen(c, t, f) => FailOpenChanges(s, c, t, f);
    case Read(c, t) => LocalChanges(s, c, t, s.clients[c].tables[t].(wasRead := true));
    case Stage(c, t, actions) => LocalChanges(s, c, t, s.clients[c].tables[t].(dirty := true, actions := actions));
    case Wait(c, t, u) => LocalChanges(s, c, t, Waited(s.clients[c].tables[t], u, Actions(s.w.Holds(Key(t, u)))));
    case TakeOver(c, t, u, earliest, f) => TakeOverChanges(cfg, s, c, t, u, earliest, f);
    case GiveUp(c, t, latest, f) => GiveUpChanges(cfg, s, c, t, latest, f);
    case ReserveAgain(c, t, h, nowMs, f) => ReserveAgainChanges(cfg, s, c, t, h, nowMs, f);
    case Write(c, t, f) => WriteChanges(s, c, t, f);
    case ReleaseMarker(c, t, f) => ReleaseChanges(s, c, t, f);
  }

  ghost predicate TabNow(cfg: Config, ts: Timed, c: nat, t: nat)
    requires c in ts.s.clients && t in ts.s.clients[c].tables
  {
    TabInTime(cfg, ts.s.w, ts.now, ts.checked, c, ts.s.clients[c], t)
  }

  /** A table that stays as it is. */
  lemma SameTabInTime(cfg: Config, ts: Timed, e: Event, c: nat, t: nat)
    requires TimeInv(cfg, ts) && Happens(cfg, ts, e) && c in ts.s.clients && t in ts.s.clients[c].tables && !Handles(e.step, c, t)
    requires var ts' := Next(cfg, ts, e);
             && c in ts'.s.clients && t in ts'.s.clients[c].tables
             && var cl, cl' := ts.s.clients[c], ts'.s.clients[c];
                && cl'.tables[t] == cl.tables[t] && (!e.step.Validate? || e.step.c != c)
                && (cl'.phase == cl.phase || cl'.phase.Done? || cl'.phase.Aborted? || (cl'.phase.Committing? && cl.phase.Active?) ||
                    (cl'.phase.Committing? && cl.phase.Writing? && !cl.tables[t].uncertain))
    ensures TabNow(cfg, Next(cfg, ts, e), c, t)
  {
    KnownTime(cfg, ts, c, t);
    if Working(ts.s.clients[c]) && ts.s.clients[c].tables[t].valid { HeldKept(cfg, ts, e, c, t, ts.s.clients[c].tables[t]); }
  }

  /** Other transactions. */
  lemma OthersInTime(cfg: Config, ts: Timed, e: Event, c: nat, t: nat)
    requires TimeInv(cfg, ts) && Happens(cfg, ts, e) && c in ts.s.clients && t in ts.s.clients[c].tables
    requires e.step.ForeignCommit? || e.step.c != c
    ensures c in Next(cfg, ts, e).s.clients && Next(cfg, ts, e).s.clients[c] == ts.s.clients[c] && TabNow(cfg, Next(cfg, ts, e), c, t)
  {
    OtherClientSame(cfg, ts.s, e.step, c);
    SameTabInTime(cfg, ts, e, c, t);
  }

  lemma OtherClientSame(cfg: Config, s: State, step: Step, c: nat)
    requires Enabled(cfg, s, step) && c in s.clients && (step.ForeignCommit? || step.c != c)
    ensures var s' := Apply(cfg, s, step); c in s'.clients && s'.clients[c] == s.clients[c]
  {}

  /** The other tables of a transaction that changes one. */
  lemma OtherTablesInTime(cfg: Config, ts: Timed, e: Event, t: nat)
    requires TimeInv(cfg, ts) && Happens(cfg, ts, e) && OnTable(e.step) && t != e.step.t
    requires e.step.c in Next(cfg, ts, e).s.clients && t in Next(cfg, ts, e).s.clients[e.step.c].tables
    ensures TabNow(cfg, Next(cfg, ts, e), e.step.c, t)
  {
    StepChanges(cfg, ts.s, e.step);
    SameTabInTime(cfg, ts, e, e.step.c, t);
  }

  /** Work on a table that is no business of its marker. */
  ghost predicate SameReservation(tab: Tab, tab': Tab) {
    && tab'.pos == tab.pos && tab'.deadline == tab.deadline && tab'.uncertain == tab.uncertain && tab'.valid == tab.valid
    && tab'.shifting == tab.shifting && tab'.lost == tab.lost && tab'.committed == tab.committed
  }

  lemma LocalInTime(cfg: Config, ts: Timed, e: Event, cl': Client)
    requires TimeInv(cfg, ts) && Happens(cfg, ts, e)
    requires e.step.Load? || e.step.Read? || e.step.Stage? || e.step.Wait? || e.step.TakeOver?
    requires e.step.t in cl'.tables && cl'.phase == ts.s.clients[e.step.c].phase
    requires SameReservation(ts.s.clients[e.step.c].tables[e.step.t], cl'.tables[e.step.t])
    ensures TabInTime(cfg, Apply(cfg, ts.s, e.step).w, e.at, ts.checked, e.step.c, cl', e.step.t)
  {
    var c, t := e.step.c, e.step.t;
    KnownTime(cfg, ts, c, t);
    if ts.s.clients[c].tables[t].valid { HeldKept(cfg, ts, e, c, t, cl'.tables[t]); }
  }

  lemma NewMarkerInTime(cfg: Config, ts: Timed, e: Event)
    requires TimeInv(cfg, ts) && Happens(cfg, ts, e) && (e.step.Reserve? || e.step.ReserveAgain?)
    requires e.step.c in Next(cfg, ts, e).s.clients && e.step.t in Next(cfg, ts, e).s.clients[e.step.c].tables
    ensures TabNow(cfg, Next(cfg, ts, e), e.step.c, e.step.t)
  {
    if e.step.ReserveAgain? {
      KnownTime(cfg, ts, e.step.c, e.step.t);
      KnownTab(cfg, ts.s, e.step.c, e.step.t);
    }
  }

  lemma GiveUpInTime(cfg: Config, ts: Timed, e: Event)
    requires TimeInv(cfg, ts) && Happens(cfg, ts, e) && (e.step.GiveUp? || e.step.ReleaseMarker?)
    ensures var c, t, ts' := e.step.c, e.step.t, Next(cfg, ts, e);
            c in ts'.s.clients && t in ts'.s.clients[c].tables ==> TabNow(cfg, ts', c, t)
  {
    KnownTime(cfg, ts, e.step.c, e.step.t);
  }

  /** An attempt of the holder that ends in an error: what it found is a marker, its own commit, or
      it is late. */
  lemma AttemptInTime(cfg: Config, w: World, now: int, at: int, c: nat, t: nat, tab: Tab, f: Fault)
    requires now <= at && HeldInTime(cfg, w, now, c, t, tab) && !f.Delivered?
    requires w.Exists(Key(t, tab.pos)) && (w.Carries(Key(t, tab.pos), tab.etag) <==> w.Holds(Key(t, tab.pos)).Marker?)
    ensures var w' := Swap(w, Key(t, tab.pos), Commit(Writer(c), tab.actions), tab.etag, f).0;
            HeldInTime(cfg, w', at, c, t, tab.(uncertain := true))
  {}

  lemma UncertainIfUnanswered(w: World, c: nat, t: nat, tab: Tab, status: WriteStatus)
    ensures var tab' := Concluded(w, c, t, tab, status);
            if status.Error? then tab' == tab.(uncertain := true) else !tab'.valid && !tab'.uncertain
  {}

  lemma WriteInTime(cfg: Config, ts: Timed, c: nat, t: nat, f: Fault, at: int)
    requires TimeInv(cfg, ts) && CanWrite(ts.s, c, t) && ts.now <= at
    ensures var s' := AfterWrite(ts.s, c, t, f);
            c in s'.clients && t in s'.clients[c].tables && TabInTime(cfg, s'.w, at, ts.checked, c, s'.clients[c], t)
  {
    KnownTime(cfg, ts, c, t);
    OwnMarker(cfg, ts.s, c, t);
    var tab := ts.s.clients[c].tables[t];
    var (w', status) := Swap(ts.s.w, Key(t, tab.pos), Commit(Writer(c), tab.actions), tab.etag, f);
    UncertainIfUnanswered(w', c, t, tab, status);
    if !f.Delivered? && tab.valid { AttemptInTime(cfg, ts.s.w, ts.now, at, c, t, tab, f); }
  }

  lemma LoopInTime(cfg: Config, ts: Timed, e: Event, t: nat)
    requires TimeInv(cfg, ts) && Happens(cfg, ts, e) && (e.step.NextPass? || e.step.Redo?) && t in ts.s.clients[e.step.c].tables
    ensures var ts' := Next(cfg, ts, e); t in ts'.s.clients[e.step.c].tables && TabNow(cfg, ts', e.step.c, t)
  {
    var c := e.step.c;
    KnownTime(cfg, ts, c, t);
    var tab' := Next(cfg, ts, e).s.clients[c].tables[t];
    if ts.s.clients[c].tables[t].valid { HeldKept(cfg, ts, e, c, t, tab'); }
  }

  lemma LatestIsLate(latest: int, at: int)
    requires LatestAt(latest, at)
    ensures at <= latest
  {
    var o: Observer, local: int :| o.Trusted() && o.Estimate(local).Latest() == latest && local + o.offset == at;
    TrueTimeIsInside(o.samples, o.offset, local);
  }

  /** The lease check of a validation holds in store time. */
  lemma ValidatedInTime(cfg: Config, w': World, at: int, checked: map<nat, int>, c: nat, cl': Client, t: nat, latest: int)
    requires cl'.phase.Writing? && t in cl'.tables && at <= latest && c in checked && checked[c] == at
    requires var tab := cl'.tables[t];
             && (tab.valid ==> HeldInTime(cfg, w', at, c, t, tab))
             && (tab.dirty && !tab.committed ==> !LeaseExpiring(cfg, tab, latest))
    ensures TabInTime(cfg, w', at, checked, c, cl', t)
  {}

  lemma ValidatedTables(w: World, cl: Client)
    ensures Validated(w, cl).phase.Writing? && Validated(w, cl).tables == cl.tables
  {}

  lemma ValidateInTime(cfg: Config, ts: Timed, c: nat, latest: int, at: int, t: nat)
    requires TimeInv(cfg, ts) && CanValidate(cfg, ts.s, c, latest) && ts.now <= at && LatestAt(latest, at) && t in ts.s.clients[c].tables
    ensures t in Validated(ts.s.w, ts.s.clients[c]).tables
    ensures TabInTime(cfg, Tick(ts.s.w), at, ts.checked[c := at], c, Validated(ts.s.w, ts.s.clients[c]), t)
  {
    var cl := ts.s.clients[c];
    KnownTime(cfg, ts, c, t);
    LatestIsLate(latest, at);
    ValidatedTables(ts.s.w, cl);
    if cl.tables[t].valid { HeldKept(cfg, ts, Event(Validate(c, latest), at), c, t, cl.tables[t]); }
    ValidatedInTime(cfg, Tick(ts.s.w), at, ts.checked[c := at], c, Validated(ts.s.w, cl), t, latest);
  }

  // ---- every run ---------------------------------------------------------------------------------------------

  lemma WorkShape(cfg: Config, s: State, step: Step)
    requires Enabled(cfg, s, step) && (step.Load? || step.Read? || step.Stage? || step.Wait? || step.TakeOver?)
    ensures var c, t, s' := step.c, step.t, Apply(cfg, s, step);
            && c in s'.clients && t in s'.clients[c].tables && s'.clients[c].phase == s.clients[c].phase
            && SameReservation(s.clients[c].tables[t], s'.clients[c].tables[t])
  {}

  lemma WorkInTime(cfg: Config, ts: Timed, e: Event)
    requires TimeInv(cfg, ts) && Happens(cfg, ts, e)
    requires e.step.Load? || e.step.Read? || e.step.Stage? || e.step.Wait? || e.step.TakeOver?
    ensures var c, t, ts' := e.step.c, e.step.t, Next(cfg, ts, e);
            c in ts'.s.clients && t in ts'.s.clients[c].tables && TabNow(cfg, ts', c, t)
  {
    WorkShape(cfg, ts.s, e.step);
    LocalInTime(cfg, ts, e, Next(cfg, ts, e).s.clients[e.step.c]);
  }

  lemma OwnInTime(cfg: Config, ts: Timed, e: Event)
    requires TimeInv(cfg, ts) && Happens(cfg, ts, e) && OnTable(e.step)
    ensures var c, t, ts' := e.step.c, e.step.t, Next(cfg, ts, e);
            c in ts'.s.clients && t in ts'.s.clients[c].tables ==> TabNow(cfg, ts', c, t)
  {
    match e.step
    case Reserve(c, t, _, _, _) => if t in Next(cfg, ts, e).s.clients[c].tables { NewMarkerInTime(cfg, ts, e); }
    case ReserveAgain(_, _, _, _, _) => NewMarkerInTime(cfg, ts, e);
    case GiveUp(_, _, _, _) => GiveUpInTime(cfg, ts, e);
    case ReleaseMarker(_, _, _) => GiveUpInTime(cfg, ts, e);
    case Write(c, t, f) => WriteInTime(cfg, ts, c, t, f, e.at);
    case FailOpen(_, _, _) =>
    case _ => WorkInTime(cfg, ts, e);
  }

  lemma PhaseInTime(cfg: Config, ts: Timed, e: Event, t: nat)
    requires TimeInv(cfg, ts) && Happens(cfg, ts, e) && (e.step.StartCommit? || e.step.Finish? || e.step.Abort?)
    requires t in ts.s.clients[e.step.c].tables
    ensures var c, ts' := e.step.c, Next(cfg, ts, e);
            c in ts'.s.clients && t in ts'.s.clients[c].tables && TabNow(cfg, ts', c, t)
  {
    SameTabInTime(cfg, ts, e, e.step.c, t);
  }

  /** Steps that concern all tables of their transaction. */
  lemma AllTablesInTime(cfg: Config, ts: Timed, e: Event, t: nat)
    requires TimeInv(cfg, ts) && Happens(cfg, ts, e) && !OnTable(e.step) && !e.step.ForeignCommit? && !e.step.Begin?
    requires t in ts.s.clients[e.step.c].tables
    ensures var c, ts' := e.step.c, Next(cfg, ts, e);
            c in ts'.s.clients && t in ts'.s.clients[c].tables && TabNow(cfg, ts', c, t)
  {
    if e.step.NextPass? || e.step.Redo? {
      LoopInTime(cfg, ts, e, t);
    } else if e.step.Validate? {
      ValidateInTime(cfg, ts, e.step.c, e.step.latest, e.at, t);
    } else {
      PhaseInTime(cfg, ts, e, t);
    }
  }

  lemma TableInTime(cfg: Config, ts: Timed, e: Event, c: nat, t: nat)
    requires TimeInv(cfg, ts) && Happens(cfg, ts, e)
    requires c in Next(cfg, ts, e).s.clients && t in Next(cfg, ts, e).s.clients[c].tables
    ensures TabNow(cfg, Next(cfg, ts, e), c, t)
  {
    OldClient(cfg, ts.s, e.step, c, t);
    if e.step.ForeignCommit? || e.step.c != c {
      OthersInTime(cfg, ts, e, c, t);
    } else if !OnTable(e.step) {
      AllTablesInTime(cfg, ts, e, t);
    } else if t == e.step.t {
      OwnInTime(cfg, ts, e);
    } else {
      OtherTablesInTime(cfg, ts, e, t);
    }
  }

  /** Who is new has no tables, and who reserves has one more. */
  lemma OldClient(cfg: Config, s: State, step: Step, c: nat, t: nat)
    requires Enabled(cfg, s, step) && c in Apply(cfg, s, step).clients && t in Apply(cfg, s, step).clients[c].tables
    ensures c in s.clients && (t in s.clients[c].tables || (step.Reserve? && step.c == c && step.t == t))
    ensures !step.Begin? || step.c != c
  {}

  lemma StepTime(cfg: Config, ts: Timed, e: Event)
    requires TimeInv(cfg, ts) && Happens(cfg, ts, e)
    ensures TimeInv(cfg, Next(cfg, ts, e))
  {
    var ts' := Next(cfg, ts, e);
    StepInv(cfg, ts.s, e.step);
    forall c, t | c in ts'.s.clients && t in ts'.s.clients[c].tables
      ensures TabInTime(cfg, ts'.s.w, ts'.now, ts'.checked, c, ts'.s.clients[c], t)
    {
      TableInTime(cfg, ts, e, c, t);
    }
  }

  lemma {:induction false} RunTime(cfg: Config, ts: Timed, events: seq<Event>)
    requires TimeInv(cfg, ts) && ValidTimes(cfg, ts, events)
    ensures TimeInv(cfg, TimedRun(cfg, ts, events))
    decreases |events|
  {
    if events != [] {
      StepTime(cfg, ts, events[0]);
      RunTime(cfg, Next(cfg, ts, events[0]), events[1..]);
    }
  }

  /** The attempt was not lost: an answer says that the version holds the commit. */
  ghost predicate Lands(s1: State, c: nat, t: nat, answered: bool) {
    && HasTab(s1, c, Writing, t)
    && var tab := s1.clients[c].tables[t]; var k := Key(t, tab.pos);
       if answered then tab.committed && s1.w.Final(k) && s1.w.Holds(k) == Commit(Writer(c), tab.actions) else tab.uncertain
  }

  /** In a run whose readings of the store clock can be trusted, a commit that arrives within the
      margin and the grace period of its lease check is never lost: if it is answered, its version
      holds it, although earlier attempts may have failed, and even if the operations were redone. */
  lemma TimelyCommitIsNotLost(cfg: Config, s0: State, now: int, events: seq<Event>, c: nat, t: nat, f: Fault, at: int)
    requires Init(s0) && ValidTimes(cfg, Timed(s0, now, map[]), events)
    requires var ts := TimedRun(cfg, Timed(s0, now, map[]), events);
             && Happens(cfg, ts, Event(Write(c, t, f), at)) && ts.s.clients[c].tables[t].valid
             && c in ts.checked && at <= ts.checked[c] + cfg.Margin() + cfg.grace
    ensures Lands(AfterWrite(TimedRun(cfg, Timed(s0, now, map[]), events).s, c, t, f), c, t, f.Delivered?)
  {
    var ts := TimedRun(cfg, Timed(s0, now, map[]), events);
    InitInv(cfg, s0);
    RunTime(cfg, Timed(s0, now, map[]), events);
    KnownTime(cfg, ts, c, t);
    TimelyWrite(cfg, ts.s, ts.now, at, c, t, f);
  }

  lemma TimelyWrite(cfg: Config, s: State, now: int, at: int, c: nat, t: nat, f: Fault)
    requires Inv(cfg, s) && CanWrite(s, c, t) && now <= at
    requires var tab := s.clients[c].tables[t]; HeldInTime(cfg, s.w, now, c, t, tab) && at <= tab.deadline + cfg.grace
    ensures Lands(AfterWrite(s, c, t, f), c, t, f.Delivered?)
  {
    var tab := s.clients[c].tables[t];
    var (w', status) := Swap(s.w, Key(t, tab.pos), Commit(Writer(c), tab.actions), tab.etag, f);
    OwnMarker(cfg, s, c, t);
    TimelyAttempt(cfg, s.w, now, at, c, t, tab, f);
    NotLost(s, c, t, f);
    LandedTab(With(s, w', c, WithTab(s.clients[c], t, Concluded(w', c, t, tab, status))), c, t, tab, status);
  }

  lemma NotLost(s: State, c: nat, t: nat, f: Fault)
    requires CanWrite(s, c, t)
    requires var tab := s.clients[c].tables[t];
             var (w', status) := Swap(s.w, Key(t, tab.pos), Commit(Writer(c), tab.actions), tab.etag, f);
             !WasLost(w', c, t, tab, status)
    ensures var tab := s.clients[c].tables[t];
            var (w', status) := Swap(s.w, Key(t, tab.pos), Commit(Writer(c), tab.actions), tab.etag, f);
            AfterWrite(s, c, t, f) == With(s, w', c, WithTab(s.clients[c], t, Concluded(w', c, t, tab, status)))
  {}

  lemma LandedTab(s1: State, c: nat, t: nat, tab: Tab, status: WriteStatus)
    requires HasTab(s1, c, Writing, t) && s1.clients[c].tables[t] == Concluded(s1.w, c, t, tab, status)
    requires !WasLost(s1.w, c, t, tab, status)
    requires var k := Key(t, tab.pos);
             !status.Error? ==> s1.w.Final(k) && s1.w.Holds(k) == Commit(Writer(c), tab.actions)
    ensures Lands(s1, c, t, !status.Error?)
  {}

  lemma TimelyAttempt(cfg: Config, w: World, now: int, at: int, c: nat, t: nat, tab: Tab, f: Fault)
    requires now <= at && HeldInTime(cfg, w, now, c, t, tab) && at <= tab.deadline + cfg.grace
    requires w.Exists(Key(t, tab.pos)) && (w.Carries(Key(t, tab.pos), tab.etag) <==> w.Holds(Key(t, tab.pos)).Marker?)
    ensures var k := Key(t, tab.pos);
            var (w', status) := Swap(w, k, Commit(Writer(c), tab.actions), tab.etag, f);
            && !WasLost(w', c, t, tab, status) && (status.Error? <==> !f.Delivered?)
            && (f.Delivered? ==> w'.Final(k) && w'.Holds(k) == Commit(Writer(c), tab.actions))
  {}

  // ---- punctual transactions ---------------------------------------------------------------------------------

  /** The attempts of c arrive in time. */
  ghost predicate Punctual(cfg: Config, ts: Timed, e: Event, c: nat) {
    e.step.Write? && e.step.c == c ==> c in ts.checked && e.at <= ts.checked[c] + cfg.Margin() + cfg.grace
  }

  ghost predicate PunctualRun(cfg: Config, ts: Timed, events: seq<Event>, c: nat)
    requires ValidTimes(cfg, ts, events)
    decreases |events|
  {
    events == [] || (Punctual(cfg, ts, events[0], c) && PunctualRun(cfg, Next(cfg, ts, events[0]), events[1..], c))
  }

  ghost predicate TabOnSchedule(cl: Client, t: nat)
    requires t in cl.tables
  {
    var tab := cl.tables[t];
    && !tab.lost && (Working(cl) ==> tab.valid || tab.shifting || tab.committed)
    && (cl.phase.Active? || cl.phase.Committing? ==> !tab.committed && !tab.uncertain)
    && (cl.phase.Writing? ==> !tab.shifting)
  }

  /** Nothing was lost, so nothing was shifted or redone after a commit. */
  ghost predicate OnSchedule(cl: Client) {
    !cl.late && !cl.doubled && forall t {:trigger TabOnSchedule(cl, t)} | t in cl.tables :: TabOnSchedule(cl, t)
  }

  lemma NotYetCommitted(cl: Client)
    requires OnSchedule(cl) && (cl.phase.Active? || cl.phase.Committing?)
    ensures !Committed(cl)
  {
    forall t | t in cl.tables ensures !cl.tables[t].committed { assert TabOnSchedule(cl, t); }
  }

  lemma WorkOnSchedule(cfg: Config, s: State, step: Step)
    requires Enabled(cfg, s, step) && (step.Load? || step.Read? || step.Stage? || step.Wait? || step.TakeOver?)
    requires OnSchedule(s.clients[step.c])
    ensures OnSchedule(Apply(cfg, s, step).clients[step.c])
  {
    var cl, cl' := s.clients[step.c], Apply(cfg, s, step).clients[step.c];
    StepChanges(cfg, s, step);
    WorkShape(cfg, s, step);
    NotYetCommitted(cl);
    forall t | t in cl'.tables ensures TabOnSchedule(cl', t) { assert TabOnSchedule(cl, t); }
  }

  lemma ReserveOnSchedule(cfg: Config, s: State, c: nat, t: nat, h: nat, nowMs: int, f: Fault)
    requires CanReserve(s, c, t, h) && OnSchedule(s.clients[c])
    ensures OnSchedule(AfterReserve(cfg, s, c, t, h, nowMs, f).clients[c])
  {
    var cl, cl' := s.clients[c], AfterReserve(cfg, s, c, t, h, nowMs, f).clients[c];
    forall t2 | t2 in cl'.tables ensures TabOnSchedule(cl', t2) { assert t2 in cl.tables ==> TabOnSchedule(cl, t2); }
  }

  lemma FailOpenOnSchedule(s: State, c: nat, t: nat, f: Fault)
    requires CanFailOpen(s, c, t) && OnSchedule(s.clients[c])
    ensures OnSchedule(AfterFailOpen(s, c, t, f).clients[c])
  {
    var cl, cl' := s.clients[c], AfterFailOpen(s, c, t, f).clients[c];
    forall t2 | t2 in cl'.tables ensures TabOnSchedule(cl', t2) { assert TabOnSchedule(cl, t2); }
  }

  lemma GiveUpOnSchedule(cl: Client, t: nat)
    requires t in cl.tables && cl.phase.Committing? && OnSchedule(cl)
    ensures OnSchedule(GivenUp(cl, t))
  {
    NotYetCommitted(cl);
    forall t2 | t2 in cl.tables ensures TabOnSchedule(GivenUp(cl, t), t2) { assert TabOnSchedule(cl, t2); }
  }

  lemma ReserveAgainOnSchedule(cfg: Config, s: State, c: nat, t: nat, h: nat, nowMs: int, f: Fault)
    requires CanReserveAgain(s, c, t, h) && OnSchedule(s.clients[c])
    ensures OnSchedule(AfterReserveAgain(cfg, s, c, t, h, nowMs, f).clients[c])
  {
    var cl, cl' := s.clients[c], AfterReserveAgain(cfg, s, c, t, h, nowMs, f).clients[c];
    forall t2 | t2 in cl'.tables ensures TabOnSchedule(cl', t2) { assert TabOnSchedule(cl, t2); }
  }

  lemma ReleaseOnSchedule(s: State, c: nat, t: nat, f: Fault)
    requires CanRelease(s, c, t) && OnSchedule(s.clients[c])
    ensures OnSchedule(AfterRelease(s, c, t, f).clients[c])
  {
    var cl, cl' := s.clients[c], AfterRelease(s, c, t, f).clients[c];
    forall t2 | t2 in cl'.tables ensures TabOnSchedule(cl', t2) { assert TabOnSchedule(cl, t2); }
  }

  lemma TurnedOnSchedule(cl: Client)
    requires cl.phase.Committing? && OnSchedule(cl)
    ensures OnSchedule(Turned(cl))
  {
    forall t | t in cl.tables ensures TabOnSchedule(Turned(cl), t) { assert TabOnSchedule(cl, t); }
  }

  lemma RedoneOnSchedule(cl: Client, plan: map<nat, seq<FileAction>>)
    requires cl.phase.Committing? && OnSchedule(cl)
    ensures OnSchedule(Redone(cl, plan))
  {
    NotYetCommitted(cl);
    forall t | t in cl.tables ensures TabOnSchedule(Redone(cl, plan), t) { assert TabOnSchedule(cl, t); }
  }

  lemma ValidatedOnSchedule(w: World, cl: Client)
    requires cl.phase.Committing? && OnSchedule(cl) && AllWaited(cl)
    ensures OnSchedule(Validated(w, cl))
  {
    forall t | t in cl.tables ensures TabOnSchedule(Validated(w, cl), t) { assert TabOnSchedule(cl, t); }
  }

  lemma PhaseOnSchedule(cl: Client, phase: Phase)
    requires OnSchedule(cl) && (phase.Done? || phase.Aborted? || (phase.Committing? && cl.phase.Active?))
    ensures OnSchedule(cl.(phase := phase))
  {
    forall t | t in cl.tables ensures TabOnSchedule(cl.(phase := phase), t) { assert TabOnSchedule(cl, t); }
  }

  /** A punctual attempt is not lost, so the transaction goes on writing. */
  lemma WriteOnSchedule(cfg: Config, ts: Timed, c: nat, t: nat, f: Fault, at: int)
    requires TimeInv(cfg, ts) && Happens(cfg, ts, Event(Write(c, t, f), at)) && Punctual(cfg, ts, Event(Write(c, t, f), at), c)
    requires OnSchedule(ts.s.clients[c])
    ensures OnSchedule(AfterWrite(ts.s, c, t, f).clients[c])
  {
    var cl, cl' := ts.s.clients[c], AfterWrite(ts.s, c, t, f).clients[c];
    assert TabOnSchedule(cl, t);
    KnownTime(cfg, ts, c, t);
    TimelyWrite(cfg, ts.s, ts.now, at, c, t, f);
    WriteChanges(ts.s, c, t, f);
    WriteKeeps(ts.s, c, t, f);
    forall t2 | t2 in cl'.tables ensures TabOnSchedule(cl', t2) { assert TabOnSchedule(cl, t2); }
  }

  /** Without a loss an attempt shifts nothing. */
  lemma WriteKeeps(s: State, c: nat, t: nat, f: Fault)
    requires CanWrite(s, c, t) && HasTab(AfterWrite(s, c, t, f), c, Writing, t)
    ensures var cl, cl' := s.clients[c], AfterWrite(s, c, t, f).clients[c];
            && cl'.late == cl.late
            && cl'.tables[t].lost == cl.tables[t].lost && cl'.tables[t].shifting == cl.tables[t].shifting
            && (cl'.tables[t].committed || cl'.tables[t].valid == cl.tables[t].valid)
  {}

  lemma StaysOnSchedule(cfg: Config, ts: Timed, e: Event, c: nat)
    requires TimeInv(cfg, ts) && Happens(cfg, ts, e) && Punctual(cfg, ts, e, c)
    requires c in ts.s.clients ==> OnSchedule(ts.s.clients[c])
    ensures var s' := Apply(cfg, ts.s, e.step); c in s'.clients ==> OnSchedule(s'.clients[c])
  {
    if e.step.ForeignCommit? || e.step.c != c {
      if c in ts.s.clients { OtherClientSame(cfg, ts.s, e.step, c); }
    } else {
      OwnStepOnSchedule(cfg, ts, e);
    }
  }

  lemma OwnStepOnSchedule(cfg: Config, ts: Timed, e: Event)
    requires TimeInv(cfg, ts) && Happens(cfg, ts, e) && !e.step.ForeignCommit? && Punctual(cfg, ts, e, e.step.c)
    requires e.step.c in ts.s.clients ==> OnSchedule(ts.s.clients[e.step.c])
    ensures var s' := Apply(cfg, ts.s, e.step); e.step.c in s'.clients && OnSchedule(s'.clients[e.step.c])
  {
    match e.step
    case Begin(_) =>
    case Reserve(c, t, h, nowMs, f) => ReserveOnSchedule(cfg, ts.s, c, t, h, nowMs, f);
    case FailOpen(c, t, f) => FailOpenOnSchedule(ts.s, c, t, f);
    case StartCommit(c) => PhaseOnSchedule(ts.s.clients[c], Committing);
    case GiveUp(c, t, _, _) => GiveUpOnSchedule(ts.s.clients[c], t);
    case ReserveAgain(c, t, h, nowMs, f) => ReserveAgainOnSchedule(cfg, ts.s, c, t, h, nowMs, f);
    case NextPass(c) => TurnedOnSchedule(ts.s.clients[c]);
    case Redo(c, plan) => RedoneOnSchedule(ts.s.clients[c], plan);
    case Validate(c, _) => ValidatedOnSchedule(ts.s.w, ts.s.clients[c]);
    case Write(c, t, f) => WriteOnSchedule(cfg, ts, c, t, f, e.at);
    case Finish(c) => PhaseOnSchedule(ts.s.clients[c], Done);
    case Abort(c) => PhaseOnSchedule(ts.s.clients[c], Aborted);
    case ReleaseMarker(c, t, f) => ReleaseOnSchedule(ts.s, c, t, f);
    case _ => WorkOnSchedule(cfg, ts.s, e.step);
  }

  lemma {:induction false} RunOnSchedule(cfg: Config, ts: Timed, events: seq<Event>, c: nat)
    requires TimeInv(cfg, ts) && ValidTimes(cfg, ts, events) && PunctualRun(cfg, ts, events, c)
    requires c in ts.s.clients ==> OnSchedule(ts.s.clients[c])
    ensures var s' := TimedRun(cfg, ts, events).s; c in s'.clients ==> OnSchedule(s'.clients[c])
    decreases |events|
  {
    if events != [] {
      StepTime(cfg, ts, events[0]);
      StaysOnSchedule(cfg, ts, events[0], c);
      RunOnSchedule(cfg, Next(cfg, ts, events[0]), events[1..], c);
    }
  }

  /** A transaction whose commits all arrive in time shifts nothing after its first commit and
      discards none: what the theorems on the serial order and on exactly-once commits ask for. */
  lemma PunctualIsSteady(cfg: Config, s0: State, now: int, events: seq<Event>, c: nat)
    requires Init(s0) && ValidTimes(cfg, Timed(s0, now, map[]), events)
    requires PunctualRun(cfg, Timed(s0, now, map[]), events, c)
    ensures var s := TimedRun(cfg, Timed(s0, now, map[]), events).s; c in s.clients ==> Steady(s, c)
  {
    InitInv(cfg, s0);
    RunOnSchedule(cfg, Timed(s0, now, map[]), events, c);
  }

  /** What happens in a timed run happens in a run. */
  lemma {:induction false} TimedRunIsRun(cfg: Config, ts: Timed, events: seq<Event>) returns (steps: seq<Step>)
    requires ValidTimes(cfg, ts, events)
    ensures ValidRun(cfg, ts.s, steps) && Run(cfg, ts.s, steps) == TimedRun(cfg, ts, events).s
    decreases |events|
  {
    if events == [] {
      steps := [];
    } else {
      var rest := TimedRunIsRun(cfg, Next(cfg, ts, events[0]), events[1..]);
      steps := [events[0].step] + rest;
      assert steps[1..] == rest;
    }
  }

  /** So every punctual transaction commits a table at most once. */
  lemma PunctualCommitsOnce(cfg: Config, s0: State, now: int, events: seq<Event>, c: nat, k1: Key, k2: Key)
    requires Init(s0) && ValidTimes(cfg, Timed(s0, now, map[]), events)
    requires PunctualRun(cfg, Timed(s0, now, map[]), events, c) && k1.table == k2.table
    requires var s := TimedRun(cfg, Timed(s0, now, map[]), events).s; CommittedAt(s, c, k1) && CommittedAt(s, c, k2)
    ensures k1 == k2
  {
    var ts := Timed(s0, now, map[]);
    var steps := TimedRunIsRun(cfg, ts, events);
    assert Reaches(cfg, s0, steps, TimedRun(cfg, ts, events).s);
    PunctualIsSteady(cfg, s0, now, events, c);
    AtMostOnce(cfg, TimedRun(cfg, ts, events).s, k1, k2, c);
  }
}
