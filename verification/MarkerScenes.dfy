/** States of the marker protocol as scenes: two transactions, 0 and 1, that meet on two tables, 0 and
    1, of at most four versions. A run is followed step by step, one line a step; every request is
    delivered, but a transaction may sleep between two of them. */
module MarkerScenes {
  import opened Options
  import opened ObjectStore
  import opened DeltaReplay
  import opened MarkerWorld
  import opened MarkerProtocol
  import opened MarkerTheorems

  const INFO: FileInfo := FileInfo("", 1, 0, "", "")
  const A: seq<FileAction> := [Add("a", INFO)]
  const B: seq<FileAction> := [Add("b", INFO)]
  const DROP: seq<FileAction> := [Remove("f", INFO)]

  /** Version 0 of both tables holds file f. */
  const OLD: Object<Content> := Object(Commit(Legacy, [Add("f", INFO)]), 1)

  // ---- reachable states ----------------------------------------------------------------------------

  /** Any property that steps keep. The runs below are followed for an arbitrary one; being
      reachable is the one of interest. */
  ghost predicate Closed(cfg: Config, p: State -> bool) {
    forall s, step :: p(s) && Enabled(cfg, s, step) ==> p(Apply(cfg, s, step))
  }

  lemma {:induction false} RunSnoc(cfg: Config, s: State, steps: seq<Step>, step: Step)
    requires ValidRun(cfg, s, steps) && Enabled(cfg, Run(cfg, s, steps), step)
    ensures ValidRun(cfg, s, steps + [step])
    ensures Run(cfg, s, steps + [step]) == Apply(cfg, Run(cfg, s, steps), step)
    decreases |steps|
  {
    if steps != [] {
      RunSnoc(cfg, Apply(cfg, s, steps[0]), steps[1..], step);
      assert (steps + [step])[1..] == steps[1..] + [step];
    } else {
      assert [step][1..] == [];
    }
  }

  lemma ReachableClosed(cfg: Config)
    ensures Closed(cfg, s => Reachable(cfg, s))
  {
    forall s, step | Reachable(cfg, s) && Enabled(cfg, s, step) ensures Reachable(cfg, Apply(cfg, s, step)) {
      var s0, steps :| Reaches(cfg, s0, steps, s);
      RunSnoc(cfg, s0, steps, step);
      assert Reaches(cfg, s0, steps + [step], Apply(cfg, s, step));
    }
  }

  function Start(): State {
    State(World(Store(map[Key(0, 0) := OLD, Key(1, 0) := OLD], 2), 1, map[Key(0, 0) := 0, Key(1, 0) := 0], map[]), map[])
  }

  lemma StartReachable(cfg: Config)
    ensures Reachable(cfg, Start())
  {
    var s := Start();
    forall k ensures KeyInv(s.w, k) {}
    assert Reaches(cfg, s, [], s);
  }

  // ---- scenes: states without their history --------------------------------------------------------

  type Slot = Option<Object<Content>>

  /** Versions 1, 2 and 3 of a table. */
  datatype Log = Log(v1: Slot, v2: Slot, v3: Slot)
  {
    function At(u: nat): Slot {
      if u == 0 then Some(OLD) else if u == 1 then v1 else if u == 2 then v2 else if u == 3 then v3 else None
    }

    function Put(u: nat, content: Content, etag: nat): Log {
      var o := Some(Object(content, etag));
      if u == 1 then Log(o, v2, v3) else if u == 2 then Log(v1, o, v3) else Log(v1, v2, o)
    }
  }

  /** A transaction; its tables are kept apart, its rank does not matter. */
  datatype Actor = Actor(cl: Client, zero: Tab, one: Tab)
  {
    function Tab(t: nat): Tab { if t == 0 then zero else one }

    function Put(t: nat, tab: Tab): Actor {
      if t == 0 then Actor(cl, tab, one) else Actor(cl, zero, tab)
    }

    predicate HasCommitted() { zero.committed || one.committed }
  }

  datatype Scene = Scene(log0: Log, log1: Log, etag: nat, a: Actor, b: Actor)
  {
    function Log(t: nat): Log { if t == 0 then log0 else log1 }

    function Actor(c: nat): Actor { if c == 0 then a else b }

    function Write(t: nat, u: nat, content: Content): Scene {
      if t == 0 then Scene(log0.Put(u, content, etag + 1), log1, etag + 1, a, b)
      else Scene(log0, log1.Put(u, content, etag + 1), etag + 1, a, b)
    }

    function Put(c: nat, actor: Actor): Scene {
      if c == 0 then Scene(log0, log1, etag, actor, b) else Scene(log0, log1, etag, a, actor)
    }

    function PutTab(c: nat, t: nat, tab: Tab): Scene { Put(c, Actor(c).Put(t, tab)) }
  }

  ghost predicate Shelves(w: World, sc: Scene, k: Key) {
    var slot := if k.table < 2 then sc.Log(k.table).At(k.version) else None;
    (k in w.store.objects <==> slot.Some?) && (k in w.store.objects ==> w.store.objects[k] == slot.value)
  }

  ghost predicate Plays(cl: Client, actor: Actor) {
    && cl.tables.Keys == {0, 1} && cl.tables[0] == actor.zero && cl.tables[1] == actor.one
    && Alike(cl, actor.cl)
  }

  ghost predicate Alike(cl: Client, cl': Client) {
    && cl.phase == cl'.phase && cl.implicit == cl'.implicit && cl.redone == cl'.redone && cl.rounds == cl'.rounds
    && cl.turning == cl'.turning && cl.ranked == cl'.ranked && cl.held == cl'.held && cl.late == cl'.late
    && cl.doubled == cl'.doubled
  }

  ghost predicate Shows(s: State, sc: Scene) {
    && (forall k :: Shelves(s.w, sc, k)) && s.w.store.nextEtag == sc.etag
    && (forall c: nat :: c in s.clients <==> c < 2)
    && (forall c: nat {:trigger Plays(s.clients[c], sc.Actor(c))} | c < 2 :: Plays(s.clients[c], sc.Actor(c)))
  }

  // ---- one step, every request delivered --------------------------------------------------------------

  lemma PlaysTab(cl: Client, actor: Actor, t: nat, tab: Tab)
    requires Plays(cl, actor) && t < 2
    ensures Plays(WithTab(cl, t, tab), actor.Put(t, tab)) && cl.tables[t] == actor.Tab(t)
  {}

  lemma PlaysCommitted(cl: Client, actor: Actor)
    requires Plays(cl, actor)
    ensures Committed(cl) == actor.HasCommitted()
  {}

  lemma Shelf(s: State, sc: Scene, t: nat, u: nat)
    requires Shows(s, sc) && t < 2
    ensures Key(t, u) in s.w.store.objects <==> sc.Log(t).At(u).Some?
    ensures Key(t, u) in s.w.store.objects ==> s.w.store.objects[Key(t, u)] == sc.Log(t).At(u).value
  {
    assert Shelves(s.w, sc, Key(t, u));
  }

  lemma Cast(s: State, sc: Scene, c: nat)
    requires Shows(s, sc) && c < 2
    ensures c in s.clients && Plays(s.clients[c], sc.Actor(c))
  {}

  lemma OthersPlay(s: State, sc: Scene, sc': Scene, c: nat, cl': Client, actor': Actor)
    requires Shows(s, sc) && c < 2 && Plays(cl', actor') && sc'.a == sc.a && sc'.b == sc.b
    ensures forall c2: nat {:trigger Plays(s.clients[c := cl'][c2], sc'.Put(c, actor').Actor(c2))} | c2 < 2 ::
              Plays(s.clients[c := cl'][c2], sc'.Put(c, actor').Actor(c2))
  {
    forall c2: nat | c2 < 2 ensures Plays(s.clients[c := cl'][c2], sc'.Put(c, actor').Actor(c2)) {
      if c2 != c { Cast(s, sc, c2); }
    }
  }

  /** Only the transaction changes. */
  lemma InMemory(s: State, sc: Scene, c: nat, cl': Client, actor': Actor)
    requires Shows(s, sc) && c < 2 && Plays(cl', actor')
    ensures Shows(With(s, Tick(s.w), c, cl'), sc.Put(c, actor'))
  {
    OthersPlay(s, sc, sc, c, cl', actor');
    forall k ensures Shelves(Tick(s.w), sc.Put(c, actor'), k) { assert Shelves(s.w, sc, k); }
  }

  lemma Shelved(w: World, w': World, sc: Scene, t: nat, u: nat, content: Content, c: nat, actor': Actor, k: Key)
    requires Shelves(w, sc, k) && w.store.nextEtag == sc.etag && t < 2 && 0 < u < 4
    requires w'.store == Stored(w.store, Key(t, u), content)
    ensures Shelves(w', sc.Write(t, u, content).Put(c, actor'), k)
  {}

  /** A version is written, and one table of the transaction changes. */
  lemma InStore(s: State, w': World, sc: Scene, t: nat, u: nat, content: Content, c: nat, tab': Tab)
    requires Shows(s, sc) && c < 2 && t < 2 && 0 < u < 4 && w'.store == Stored(s.w.store, Key(t, u), content)
    ensures Shows(With(s, w', c, WithTab(s.clients[c], t, tab')), sc.Write(t, u, content).PutTab(c, t, tab'))
  {
    Cast(s, sc, c);
    PlaysTab(s.clients[c], sc.Actor(c), t, tab');
    OthersPlay(s, sc, sc.Write(t, u, content), c, WithTab(s.clients[c], t, tab'), sc.Actor(c).Put(t, tab'));
    forall k ensures Shelves(w', sc.Write(t, u, content).PutTab(c, t, tab'), k) {
      assert Shelves(s.w, sc, k);
      Shelved(s.w, w', sc, t, u, content, c, sc.Actor(c).Put(t, tab'), k);
    }
  }

  lemma InTab(s: State, sc: Scene, c: nat, t: nat, tab': Tab)
    requires Shows(s, sc) && c < 2 && t < 2
    ensures Shows(AfterLocal(s, c, t, tab'), sc.PutTab(c, t, tab'))
  {
    Cast(s, sc, c);
    PlaysTab(s.clients[c], sc.Actor(c), t, tab');
    InMemory(s, sc, c, WithTab(s.clients[c], t, tab'), sc.Actor(c).Put(t, tab'));
  }

  /** A state of the run that is followed. */
  ghost predicate On(cfg: Config, p: State -> bool, s: State, sc: Scene) {
    Closed(cfg, p) && p(s) && Shows(s, sc)
  }

  ghost predicate Phased(sc: Scene, c: nat, phase: Phase) { c < 2 && sc.Actor(c).cl.phase == phase }

  lemma DoRead(cfg: Config, p: State -> bool, s: State, sc: Scene, c: nat, t: nat) returns (s': State, sc': Scene)
    requires On(cfg, p, s, sc) && Phased(sc, c, Active) && t < 2 && sc.Actor(c).Tab(t).loading == {}
    ensures On(cfg, p, s', sc') && sc' == sc.PutTab(c, t, sc.Actor(c).Tab(t).(wasRead := true))
  {
    Cast(s, sc, c);
    assert Enabled(cfg, s, Read(c, t));
    InTab(s, sc, c, t, sc.Actor(c).Tab(t).(wasRead := true));
    s', sc' := Apply(cfg, s, Read(c, t)), sc.PutTab(c, t, sc.Actor(c).Tab(t).(wasRead := true));
  }

  lemma DoStage(cfg: Config, p: State -> bool, s: State, sc: Scene, c: nat, t: nat, actions: seq<FileAction>)
    returns (s': State, sc': Scene)
    requires On(cfg, p, s, sc) && Phased(sc, c, Active) && t < 2 && sc.Actor(c).Tab(t).loading == {}
    ensures On(cfg, p, s', sc') && sc' == sc.PutTab(c, t, sc.Actor(c).Tab(t).(dirty := true, actions := actions))
  {
    var tab := sc.Actor(c).Tab(t).(dirty := true, actions := actions);
    Cast(s, sc, c);
    assert Enabled(cfg, s, Stage(c, t, actions));
    InTab(s, sc, c, t, tab);
    s', sc' := Apply(cfg, s, Stage(c, t, actions)), sc.PutTab(c, t, tab);
  }

  lemma DoStart(cfg: Config, p: State -> bool, s: State, sc: Scene, c: nat) returns (s': State, sc': Scene)
    requires On(cfg, p, s, sc) && Phased(sc, c, Active) && sc.Actor(c).zero.loading == {} && sc.Actor(c).one.loading == {}
    ensures On(cfg, p, s', sc') && sc' == sc.Put(c, sc.Actor(c).(cl := sc.Actor(c).cl.(phase := Committing)))
  {
    var actor := sc.Actor(c);
    Cast(s, sc, c);
    assert Enabled(cfg, s, StartCommit(c));
    InMemory(s, sc, c, s.clients[c].(phase := Committing), actor.(cl := actor.cl.(phase := Committing)));
    s', sc' := Apply(cfg, s, StartCommit(c)), sc.Put(c, actor.(cl := actor.cl.(phase := Committing)));
  }

  ghost predicate Waiting(sc: Scene, c: nat, t: nat, u: nat) {
    && Phased(sc, c, Committing) && t < 2 && !sc.Actor(c).cl.turning && u in sc.Actor(c).Tab(t).markers
    && sc.Log(t).At(u).Some?
  }

  lemma DoWait(cfg: Config, p: State -> bool, s: State, sc: Scene, c: nat, t: nat, u: nat) returns (s': State, sc': Scene)
    requires On(cfg, p, s, sc) && Waiting(sc, c, t, u) && sc.Log(t).At(u).value.content.Commit?
    ensures On(cfg, p, s', sc')
    ensures sc' == sc.PutTab(c, t, Waited(sc.Actor(c).Tab(t), u, Actions(sc.Log(t).At(u).value.content)))
  {
    var tab := Waited(sc.Actor(c).Tab(t), u, Actions(sc.Log(t).At(u).value.content));
    Cast(s, sc, c);
    Shelf(s, sc, t, u);
    assert Enabled(cfg, s, Wait(c, t, u));
    InTab(s, sc, c, t, tab);
    s', sc' := Apply(cfg, s, Wait(c, t, u)), sc.PutTab(c, t, tab);
  }

  lemma DoTakeOver(cfg: Config, p: State -> bool, s: State, sc: Scene, c: nat, t: nat, u: nat, earliest: int)
    returns (s': State, sc': Scene)
    requires On(cfg, p, s, sc) && Waiting(sc, c, t, u) && sc.Log(t).At(u).value.content.Marker? && 0 < u < 4
    requires earliest > sc.Log(t).At(u).value.content.deadline + cfg.grace
    ensures On(cfg, p, s', sc') && sc' == sc.Write(t, u, RELEASED).PutTab(c, t, Waited(sc.Actor(c).Tab(t), u, []))
  {
    var tab := Waited(sc.Actor(c).Tab(t), u, []);
    var step := TakeOver(c, t, u, earliest, Delivered);
    Cast(s, sc, c);
    Shelf(s, sc, t, u);
    assert Enabled(cfg, s, step);
    InStore(s, Swap(s.w, Key(t, u), RELEASED, s.w.store.objects[Key(t, u)].etag, Delivered).0, sc, t, u, RELEASED, c, tab);
    s', sc' := Apply(cfg, s, step), sc.Write(t, u, RELEASED).PutTab(c, t, tab);
  }

  /** A lost version is given up. */
  lemma DoGiveUp(cfg: Config, p: State -> bool, s: State, sc: Scene, c: nat, t: nat) returns (s': State, sc': Scene)
    requires On(cfg, p, s, sc) && Phased(sc, c, Committing) && t < 2 && sc.Actor(c).cl.rounds < cfg.maxRedos
    requires var tab := sc.Actor(c).Tab(t); tab.lost && !tab.valid && tab.dirty && !tab.committed && !tab.shifting
    ensures On(cfg, p, s', sc')
    ensures var cl := sc.Actor(c).cl.(turning := true, late := sc.Actor(c).cl.late || sc.Actor(c).HasCommitted());
            sc' == sc.Put(c, sc.Actor(c).Put(t, GivenUpTab(sc.Actor(c).Tab(t))).(cl := cl))
  {
    var cl, actor := s.clients[c], sc.Actor(c);
    var actor' := actor.Put(t, GivenUpTab(actor.Tab(t))).(cl := actor.cl.(turning := true, late := actor.cl.late || actor.HasCommitted()));
    Cast(s, sc, c);
    assert Enabled(cfg, s, GiveUp(c, t, 0, Delivered));
    PlaysTab(cl, actor, t, GivenUpTab(actor.Tab(t)));
    PlaysCommitted(cl, actor);
    InMemory(s, sc, c, GivenUp(cl, t), actor');
    s', sc' := Apply(cfg, s, GiveUp(c, t, 0, Delivered)), sc.Put(c, actor');
  }

  lemma MayReserveAgain(s: State, sc: Scene, c: nat, t: nat, h: nat)
    requires Shows(s, sc) && Phased(sc, c, Committing) && t < 2
    requires sc.Actor(c).Tab(t).shifting && sc.Actor(c).Tab(t).pos <= h && sc.Log(t).At(h).Some? && sc.Log(t).At(h + 1).None?
    ensures CanReserveAgain(s, c, t, h) && s.clients[c].tables[t] == sc.Actor(c).Tab(t)
  {
    Cast(s, sc, c);
    Shelf(s, sc, t, h);
    Shelf(s, sc, t, h + 1);
  }

  lemma DoReserveAgain(cfg: Config, p: State -> bool, s: State, sc: Scene, c: nat, t: nat, h: nat, nowMs: int)
    returns (s': State, sc': Scene)
    requires On(cfg, p, s, sc) && Phased(sc, c, Committing) && t < 2 && h < 3
    requires sc.Actor(c).Tab(t).shifting && sc.Actor(c).Tab(t).pos <= h && sc.Log(t).At(h).Some? && sc.Log(t).At(h + 1).None?
    ensures On(cfg, p, s', sc')
    ensures var deadline := nowMs + cfg.lease;
            sc' == sc.Write(t, h + 1, Marker(c, deadline)).PutTab(c, t, Shifted(sc.Actor(c).Tab(t), h, sc.etag + 1, deadline))
  {
    var deadline := nowMs + cfg.lease;
    var tab := Shifted(sc.Actor(c).Tab(t), h, sc.etag + 1, deadline);
    var step := ReserveAgain(c, t, h, nowMs, Delivered);
    MayReserveAgain(s, sc, c, t, h);
    assert Enabled(cfg, s, step);
    InStore(s, PlaceMarker(s.w, Key(t, h + 1), c, deadline, Delivered).0, sc, t, h + 1, Marker(c, deadline), c, tab);
    s', sc' := Apply(cfg, s, step), sc.Write(t, h + 1, Marker(c, deadline)).PutTab(c, t, tab);
  }

  function TurnedActor(actor: Actor): Actor {
    Actor(actor.cl.(turning := false, rounds := actor.cl.rounds + 1), actor.zero.(pass := {}), actor.one.(pass := {}))
  }

  lemma DoNextPass(cfg: Config, p: State -> bool, s: State, sc: Scene, c: nat) returns (s': State, sc': Scene)
    requires On(cfg, p, s, sc) && Phased(sc, c, Committing) && sc.Actor(c).cl.turning && sc.Actor(c).cl.rounds < cfg.maxRedos
    requires var actor := sc.Actor(c); !actor.zero.shifting && !actor.zero.lost && !actor.one.shifting && !actor.one.lost
    ensures On(cfg, p, s', sc') && sc' == sc.Put(c, TurnedActor(sc.Actor(c)))
  {
    Cast(s, sc, c);
    assert Enabled(cfg, s, NextPass(c));
    assert Plays(Turned(s.clients[c]), TurnedActor(sc.Actor(c)));
    InMemory(s, sc, c, Turned(s.clients[c]), TurnedActor(sc.Actor(c)));
    s', sc' := Apply(cfg, s, NextPass(c)), sc.Put(c, TurnedActor(sc.Actor(c)));
  }

  predicate Ready(tab: Tab) { tab.loading == {} && !tab.shifting && tab.markers <= tab.pass }

  function RedoneActor(actor: Actor, plan: map<nat, seq<FileAction>>): Actor {
    var cl := actor.cl;
    Actor(cl.(redone := true, rounds := if cl.redone then cl.rounds + 1 else cl.rounds,
              doubled := cl.doubled || (cl.redone && actor.HasCommitted())),
          RedoneTab(actor.zero, cl.redone, plan, 0), RedoneTab(actor.one, cl.redone, plan, 1))
  }

  lemma PlaysRedone(cl: Client, actor: Actor, plan: map<nat, seq<FileAction>>)
    requires Plays(cl, actor)
    ensures Plays(Redone(cl, plan), RedoneActor(actor, plan))
  {
    PlaysCommitted(cl, actor);
    assert Redone(cl, plan).tables[0] == RedoneTab(cl.tables[0], cl.redone, plan, 0);
    assert Redone(cl, plan).tables[1] == RedoneTab(cl.tables[1], cl.redone, plan, 1);
  }

  lemma DoRedo(cfg: Config, p: State -> bool, s: State, sc: Scene, c: nat, plan: map<nat, seq<FileAction>>)
    returns (s': State, sc': Scene)
    requires On(cfg, p, s, sc) && Phased(sc, c, Committing)
    requires var actor := sc.Actor(c);
             && actor.cl.implicit && !actor.cl.turning && Ready(actor.zero) && Ready(actor.one)
             && (actor.cl.redone ==> actor.cl.rounds < cfg.maxRedos && (Conflict(cfg, actor.zero) || Conflict(cfg, actor.one)))
    ensures On(cfg, p, s', sc') && sc' == sc.Put(c, RedoneActor(sc.Actor(c), plan))
  {
    var cl := s.clients[c];
    Cast(s, sc, c);
    assert cl.redone ==> Conflict(cfg, cl.tables[0]) || Conflict(cfg, cl.tables[1]);
    assert Enabled(cfg, s, Redo(c, plan));
    PlaysRedone(cl, sc.Actor(c), plan);
    InMemory(s, sc, c, Redone(cl, plan), RedoneActor(sc.Actor(c), plan));
    s', sc' := Apply(cfg, s, Redo(c, plan)), sc.Put(c, RedoneActor(sc.Actor(c), plan));
  }

  predicate ValidTab(cfg: Config, tab: Tab, latest: int) {
    Ready(tab) && !Conflict(cfg, tab) && !tab.lost && (tab.dirty && !tab.committed ==> !LeaseExpiring(cfg, tab, latest))
  }

  predicate HoldsTab(sc: Scene, t: nat, tab: Tab) {
    sc.Log(t).At(tab.pos).Some? && sc.Log(t).At(tab.pos).value.etag == tab.etag
  }

  function ValidatedActor(sc: Scene, actor: Actor): Actor {
    if actor.HasCommitted() then actor.(cl := actor.cl.(phase := Writing))
    else actor.(cl := actor.cl.(phase := Writing, ranked := true,
                                held := (if HoldsTab(sc, 0, actor.zero) then {0} else {}) + (if HoldsTab(sc, 1, actor.one) then {1} else {})))
  }

  lemma PlaysValidated(s: State, sc: Scene, c: nat)
    requires Shows(s, sc) && c < 2
    ensures Plays(Validated(s.w, s.clients[c]), ValidatedActor(sc, sc.Actor(c)))
  {
    var cl, actor := s.clients[c], sc.Actor(c);
    Cast(s, sc, c);
    PlaysCommitted(cl, actor);
    Shelf(s, sc, 0, actor.zero.pos);
    Shelf(s, sc, 1, actor.one.pos);
    assert (set t | t in cl.tables && StillReserved(s.w, t, cl.tables[t])) ==
           (if HoldsTab(sc, 0, actor.zero) then {0} else {}) + (if HoldsTab(sc, 1, actor.one) then {1} else {});
  }

  lemma DoValidate(cfg: Config, p: State -> bool, s: State, sc: Scene, c: nat, latest: int) returns (s': State, sc': Scene)
    requires On(cfg, p, s, sc) && Phased(sc, c, Committing)
    requires var actor := sc.Actor(c);
             && !actor.cl.turning && (actor.cl.implicit ==> actor.cl.redone)
             && ValidTab(cfg, actor.zero, latest) && ValidTab(cfg, actor.one, latest)
    ensures On(cfg, p, s', sc') && sc' == sc.Put(c, ValidatedActor(sc, sc.Actor(c)))
  {
    Cast(s, sc, c);
    assert Enabled(cfg, s, Validate(c, latest));
    PlaysValidated(s, sc, c);
    InMemory(s, sc, c, Validated(s.w, s.clients[c]), ValidatedActor(sc, sc.Actor(c)));
    s', sc' := Apply(cfg, s, Validate(c, latest)), sc.Put(c, ValidatedActor(sc, sc.Actor(c)));
  }

  ghost predicate MayWrite(sc: Scene, c: nat, t: nat) {
    && Phased(sc, c, Writing) && t < 2
    && var actor := sc.Actor(c); var tab := actor.Tab(t);
       && tab.dirty && !tab.committed && !actor.zero.uncertain && !actor.one.uncertain
       && 0 < tab.pos < 4 && sc.Log(t).At(tab.pos).Some?
  }

  lemma DoCommit(cfg: Config, p: State -> bool, s: State, sc: Scene, c: nat, t: nat) returns (s': State, sc': Scene)
    requires On(cfg, p, s, sc) && MayWrite(sc, c, t) && HoldsTab(sc, t, sc.Actor(c).Tab(t))
    ensures On(cfg, p, s', sc')
    ensures var tab := sc.Actor(c).Tab(t);
            sc' == sc.Write(t, tab.pos, Commit(Writer(c), tab.actions)).PutTab(c, t, CommittedTab(tab))
  {
    var tab := sc.Actor(c).Tab(t);
    var commit := Commit(Writer(c), tab.actions);
    Cast(s, sc, c);
    Shelf(s, sc, t, tab.pos);
    assert Enabled(cfg, s, MarkerProtocol.Step.Write(c, t, Delivered));
    InStore(s, Swap(s.w, Key(t, tab.pos), commit, tab.etag, Delivered).0, sc, t, tab.pos, commit, c, CommittedTab(tab));
    s' := Apply(cfg, s, MarkerProtocol.Step.Write(c, t, Delivered));
    sc' := sc.Write(t, tab.pos, commit).PutTab(c, t, CommittedTab(tab));
  }

  function LostActor(actor: Actor, t: nat): Actor {
    actor.Put(t, LostTab(actor.Tab(t)))
      .(cl := actor.cl.(phase := Committing, turning := true, ranked := actor.cl.ranked && actor.HasCommitted()))
  }

  lemma DoLose(cfg: Config, p: State -> bool, s: State, sc: Scene, c: nat, t: nat) returns (s': State, sc': Scene)
    requires On(cfg, p, s, sc) && MayWrite(sc, c, t) && !HoldsTab(sc, t, sc.Actor(c).Tab(t))
    ensures On(cfg, p, s', sc') && sc' == sc.Put(c, LostActor(sc.Actor(c), t))
  {
    var cl, actor := s.clients[c], sc.Actor(c);
    Cast(s, sc, c);
    Shelf(s, sc, t, actor.Tab(t).pos);
    assert Enabled(cfg, s, MarkerProtocol.Step.Write(c, t, Delivered));
    PlaysTab(cl, actor, t, LostTab(actor.Tab(t)));
    PlaysCommitted(cl, actor);
    InMemory(s, sc, c, AfterWrite(s, c, t, Delivered).clients[c], LostActor(actor, t));
    s', sc' := Apply(cfg, s, MarkerProtocol.Step.Write(c, t, Delivered)), sc.Put(c, LostActor(actor, t));
  }

  lemma DoFinish(cfg: Config, p: State -> bool, s: State, sc: Scene, c: nat) returns (s': State, sc': Scene)
    requires On(cfg, p, s, sc) && Phased(sc, c, Writing)
    requires var actor := sc.Actor(c); (actor.zero.dirty ==> actor.zero.committed) && (actor.one.dirty ==> actor.one.committed)
    ensures On(cfg, p, s', sc') && sc' == sc.Put(c, sc.Actor(c).(cl := sc.Actor(c).cl.(phase := Done)))
  {
    var actor := sc.Actor(c);
    Cast(s, sc, c);
    assert Enabled(cfg, s, Finish(c));
    InMemory(s, sc, c, s.clients[c].(phase := Done), actor.(cl := actor.cl.(phase := Done)));
    s', sc' := Apply(cfg, s, Finish(c)), sc.Put(c, actor.(cl := actor.cl.(phase := Done)));
  }

  lemma DoRelease(cfg: Config, p: State -> bool, s: State, sc: Scene, c: nat, t: nat) returns (s': State, sc': Scene)
    requires On(cfg, p, s, sc) && Phased(sc, c, Done) && t < 2
    requires var tab := sc.Actor(c).Tab(t); tab.valid && 0 < tab.pos < 4 && HoldsTab(sc, t, tab)
    ensures On(cfg, p, s', sc')
    ensures var tab := sc.Actor(c).Tab(t); sc' == sc.Write(t, tab.pos, RELEASED).PutTab(c, t, tab.(valid := false))
  {
    var tab := sc.Actor(c).Tab(t);
    Cast(s, sc, c);
    Shelf(s, sc, t, tab.pos);
    assert Enabled(cfg, s, ReleaseMarker(c, t, Delivered));
    InStore(s, Swap(s.w, Key(t, tab.pos), RELEASED, tab.etag, Delivered).0, sc, t, tab.pos, RELEASED, c, tab.(valid := false));
    s' := Apply(cfg, s, ReleaseMarker(c, t, Delivered));
    sc' := sc.Write(t, tab.pos, RELEASED).PutTab(c, t, tab.(valid := false));
  }

  // ---- opening the tables ---------------------------------------------------------------------------------

  function Mark(c: nat, deadline: int, etag: nat): Slot { Some(Object(Marker(c, deadline), etag)) }

  /** A table whose version 0 is parsed. */
  function Parsed(pos: nat, etag: nat, deadline: int, markers: set<nat>): Tab {
    Opened(pos, etag, deadline).(loading := {}, base := {0}, markers := markers)
  }

  function Idle(implicit: bool): Client {
    Client(Active, map[], implicit, false, 0, false, false, 0, {}, false, false)
  }

  lemma DoBegin(cfg: Config, p: State -> bool, s: State, c: nat) returns (s': State)
    requires Closed(cfg, p) && p(s) && c !in s.clients
    ensures p(s') && s'.w.store == s.w.store && s'.clients == s.clients[c := Idle(false)]
  {
    assert Enabled(cfg, s, Begin(c));
    s' := Apply(cfg, s, Begin(c));
  }

  lemma DoReserve(cfg: Config, p: State -> bool, s: State, c: nat, t: nat, h: nat, nowMs: int) returns (s': State)
    requires Closed(cfg, p) && p(s) && Has(s, c, Active) && t !in s.clients[c].tables && NextFree(s.w, t, h)
    ensures p(s') && s'.w.store == Stored(s.w.store, Key(t, h + 1), Marker(c, nowMs + cfg.lease))
    ensures s'.clients == s.clients[c := WithTab(s.clients[c], t, Opened(h + 1, s.w.store.nextEtag + 1, nowMs + cfg.lease))]
  {
    assert Enabled(cfg, s, Reserve(c, t, h, nowMs, Delivered));
    s' := Apply(cfg, s, Reserve(c, t, h, nowMs, Delivered));
  }

  lemma DoLoad(cfg: Config, p: State -> bool, s: State, c: nat, t: nat, u: nat) returns (s': State)
    requires Closed(cfg, p) && p(s) && CanLoad(s, c, t, u)
    ensures p(s') && s'.w.store == s.w.store && s'.clients == s.clients[c := Loaded(cfg, s.w, s.clients[c], t, u, false)]
  {
    assert Enabled(cfg, s, Load(c, t, u, false));
    s' := Apply(cfg, s, Load(c, t, u, false));
  }

  lemma LastUpdateWins<K, V>(m: map<K, V>, k: K, v: V, v': V)
    ensures m[k := v][k := v'] == m[k := v']
  {}

  /** Reserves version h + 1 of a table and parses version 0. */
  lemma DoOpen(cfg: Config, p: State -> bool, s: State, c: nat, t: nat, h: nat, nowMs: int) returns (s': State)
    requires Closed(cfg, p) && p(s) && Has(s, c, Active) && t !in s.clients[c].tables && NextFree(s.w, t, h)
    requires s.w.Final(Key(t, 0))
    ensures p(s') && s'.w.store == Stored(s.w.store, Key(t, h + 1), Marker(c, nowMs + cfg.lease))
    ensures s'.clients == s.clients[c := WithTab(s.clients[c], t, Parsed(h + 1, s.w.store.nextEtag + 1, nowMs + cfg.lease, {})
                                                                  .(loading := Below(h + 1) - {0}))]
  {
    var cl := s.clients[c];
    var tab := Opened(h + 1, s.w.store.nextEtag + 1, nowMs + cfg.lease);
    var s1 := DoReserve(cfg, p, s, c, t, h, nowMs);
    s' := DoLoad(cfg, p, s1, c, t, 0);
    assert {} + {0} == {0};
    LastUpdateWins(cl.tables, t, tab, s'.clients[c].tables[t]);
    LastUpdateWins(s.clients, c, WithTab(cl, t, tab), s'.clients[c]);
  }

  /** Opens a table that only has version 0. */
  lemma DoOpenFirst(cfg: Config, p: State -> bool, s: State, c: nat, t: nat, nowMs: int) returns (s': State)
    requires Closed(cfg, p) && p(s) && Has(s, c, Active) && t !in s.clients[c].tables && NextFree(s.w, t, 0)
    requires s.w.Final(Key(t, 0))
    ensures p(s') && s'.w.store == Stored(s.w.store, Key(t, 1), Marker(c, nowMs + cfg.lease))
    ensures s'.clients == s.clients[c := WithTab(s.clients[c], t, Parsed(1, s.w.store.nextEtag + 1, nowMs + cfg.lease, {}))]
  {
    s' := DoOpen(cfg, p, s, c, t, 0, nowMs);
    assert Below(1) - {0} == {};
  }

  /** Opens a table where another transaction has reserved version 1. */
  lemma DoOpenNext(cfg: Config, p: State -> bool, s: State, c: nat, t: nat, nowMs: int) returns (s': State)
    requires Closed(cfg, p) && p(s) && Has(s, c, Active) && t !in s.clients[c].tables && NextFree(s.w, t, 1)
    requires s.w.Final(Key(t, 0)) && !s.w.Final(Key(t, 1))
    ensures p(s') && s'.w.store == Stored(s.w.store, Key(t, 2), Marker(c, nowMs + cfg.lease))
    ensures s'.clients == s.clients[c := WithTab(s.clients[c], t, Parsed(2, s.w.store.nextEtag + 1, nowMs + cfg.lease, {1}))
                                           .(implicit := s.clients[c].implicit || cfg.sublogs)]
  {
    var cl := s.clients[c];
    var tab := Parsed(2, s.w.store.nextEtag + 1, nowMs + cfg.lease, {}).(loading := Below(2) - {0});
    var s1 := DoOpen(cfg, p, s, c, t, 1, nowMs);
    assert Below(2) - {0} == {1} && {1} - {1} == {} && {} + {1} == {1};
    s' := DoLoad(cfg, p, s1, c, t, 1);
    LastUpdateWins(cl.tables, t, tab, s'.clients[c].tables[t]);
    LastUpdateWins(s.clients, c, WithTab(cl, t, tab), s'.clients[c]);
  }

  /** 0 reserves version 1 of table 0 and stalls, 1 opens both tables, and 0 opens table 1. */
  function Crossed(cfg: Config): Scene {
    Scene(Log(Mark(0, 30000, 3), Mark(1, 50000, 4), None), Log(Mark(1, 50000, 5), Mark(0, 55000, 6), None), 6,
          Actor(Idle(cfg.sublogs), Parsed(1, 3, 30000, {}), Parsed(2, 6, 55000, {1})),
          Actor(Idle(cfg.sublogs), Parsed(2, 4, 50000, {1}), Parsed(1, 5, 50000, {})))
  }

  lemma AllOpen(s: State, sc: Scene)
    requires sc.log0.v1.Some? && sc.log0.v2.Some? && sc.log1.v1.Some? && sc.log1.v2.Some? && sc.log0.v3 == sc.log1.v3 == None
    requires s.w.store.nextEtag == sc.etag && s.w.store.objects ==
             map[Key(0, 0) := OLD, Key(1, 0) := OLD, Key(0, 1) := sc.log0.v1.value, Key(0, 2) := sc.log0.v2.value,
                 Key(1, 1) := sc.log1.v1.value, Key(1, 2) := sc.log1.v2.value]
    requires s.clients.Keys == {0, 1} && Plays(s.clients[0], sc.a) && Plays(s.clients[1], sc.b)
    ensures Shows(s, sc)
  {
    forall k ensures Shelves(s.w, sc, k) {}
  }

  lemma OpenTable0(cfg: Config, p: State -> bool) returns (s: State)
    requires Closed(cfg, p) && p(Start()) && cfg.lease == 30000
    ensures p(s) && s.w.store == Store(Start().w.store.objects[Key(0, 1) := Object(Marker(0, 30000), 3)]
                                                              [Key(0, 2) := Object(Marker(1, 50000), 4)], 4)
    ensures s.clients == map[0 := WithTab(Idle(false), 0, Parsed(1, 3, 30000, {})),
                             1 := WithTab(Idle(cfg.sublogs), 0, Parsed(2, 4, 50000, {1}))]
  {
    s := DoBegin(cfg, p, Start(), 0);
    s := DoBegin(cfg, p, s, 1);
    s := DoOpenFirst(cfg, p, s, 0, 0, 0);
    s := DoOpenNext(cfg, p, s, 1, 0, 20000);
  }

  lemma OpenCrossed(cfg: Config, p: State -> bool) returns (s: State)
    requires Closed(cfg, p) && p(Start()) && cfg.lease == 30000
    ensures On(cfg, p, s, Crossed(cfg))
  {
    s := OpenTable0(cfg, p);
    s := DoOpenFirst(cfg, p, s, 1, 1, 20000);
    s := DoOpenNext(cfg, p, s, 0, 1, 25000);
    AllOpen(s, Crossed(cfg));
  }

  /** 0 opens both tables, and later 1 does. */
  function Straight(cfg: Config): Scene {
    Scene(Log(Mark(0, 30000, 3), Mark(1, 50000, 5), None), Log(Mark(0, 30000, 4), Mark(1, 50000, 6), None), 6,
          Actor(Idle(false), Parsed(1, 3, 30000, {}), Parsed(1, 4, 30000, {})),
          Actor(Idle(cfg.sublogs), Parsed(2, 5, 50000, {1}), Parsed(2, 6, 50000, {1})))
  }

  lemma OpenBoth(cfg: Config, p: State -> bool) returns (s: State)
    requires Closed(cfg, p) && p(Start()) && cfg.lease == 30000
    ensures p(s) && s.w.store == Store(Start().w.store.objects[Key(0, 1) := Object(Marker(0, 30000), 3)]
                                                              [Key(1, 1) := Object(Marker(0, 30000), 4)], 4)
    ensures s.clients == map[0 := WithTab(WithTab(Idle(false), 0, Parsed(1, 3, 30000, {})), 1, Parsed(1, 4, 30000, {})),
                             1 := Idle(false)]
  {
    s := DoBegin(cfg, p, Start(), 0);
    s := DoBegin(cfg, p, s, 1);
    s := DoOpenFirst(cfg, p, s, 0, 0, 0);
    s := DoOpenFirst(cfg, p, s, 0, 1, 0);
  }

  lemma OpenThree(cfg: Config, p: State -> bool) returns (s: State)
    requires Closed(cfg, p) && p(Start()) && cfg.lease == 30000
    ensures p(s) && s.w.store == Store(Start().w.store.objects[Key(0, 1) := Object(Marker(0, 30000), 3)]
                                         [Key(1, 1) := Object(Marker(0, 30000), 4)][Key(0, 2) := Object(Marker(1, 50000), 5)], 5)
    ensures s.clients == map[0 := WithTab(WithTab(Idle(false), 0, Parsed(1, 3, 30000, {})), 1, Parsed(1, 4, 30000, {})),
                             1 := WithTab(Idle(cfg.sublogs), 0, Parsed(2, 5, 50000, {1}))]
  {
    s := OpenBoth(cfg, p);
    s := DoOpenNext(cfg, p, s, 1, 0, 20000);
  }

  lemma OpenStraight(cfg: Config, p: State -> bool) returns (s: State)
    requires Closed(cfg, p) && p(Start()) && cfg.lease == 30000
    ensures On(cfg, p, s, Straight(cfg))
  {
    s := OpenThree(cfg, p);
    s := DoOpenNext(cfg, p, s, 1, 1, 20000);
    AllOpen(s, Straight(cfg));
  }

  /** How the sets of these runs come out. */
  lemma Sets()
    ensures RemovedPaths([]) == {} && RemovedPaths(A) == {} && RemovedPaths(B) == {} && RemovedPaths(DROP) == {"f"}
    ensures {} + {1} == {1} && {} + {2} == {2} && {0} + {1} == {0, 1} && {0} + {2} == {0, 2}
    ensures {} + RemovedPaths([]) == {} && {} + RemovedPaths(A) == {} && {} + RemovedPaths(B) == {}
    ensures {0} + {1} == {0, 1} && {} + RemovedPaths(DROP) == {"f"} && {} + (Below(3) - Below(2)) == {2} && {1} + (Below(3) - Below(3)) == {1}
  {}
}
