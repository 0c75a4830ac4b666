/** A run in which a retried delete of the lock takes it away from another transaction, after
    which the global log goes back. */
module GlobalLogCounterexample {
  import opened ObjectStore
  import opened GlobalLog
  import opened GlobalLogTheorems

  const CFG: Config := Config(true)

  /** Two tables, both at version 0. */
  const ZERO: Versions := map[0 := 0, 1 := 0]

  function Start(): State {
    State(Store(map[Log := Object(Entries(ZERO), 1), Version(0, 0) := Object(Foreign, 2), Version(1, 0) := Object(Foreign, 3)], 3),
          map[], ZERO, [], false)
  }

  lemma StartReachable()
    ensures Reachable(CFG, Start())
  {
    var s := Start();
    forall t: Table, v: nat ensures VisibleExists(s, t, v) {}
    assert Reaches(CFG, s, [], s);
  }

  ghost predicate Closed(p: State -> bool) {
    forall s, step :: p(s) && Enabled(CFG, s, step) ==> p(Apply(CFG, s, step))
  }

  lemma ReachableClosed()
    ensures Closed(s => Reachable(CFG, s))
  {
    forall s, step | Reachable(CFG, s) && Enabled(CFG, s, step) ensures Reachable(CFG, Apply(CFG, s, step)) {
      StepReaches(CFG, s, step);
    }
  }

  lemma Do(p: State -> bool, s: State, step: Step) returns (s': State)
    requires Closed(p) && p(s) && Enabled(CFG, s, step)
    ensures p(s') && s' == Apply(CFG, s, step)
  {
    s' := Apply(CFG, s, step);
  }

  function Fresh(tables: set<Table>, phase: Phase): Client {
    Client(phase, ZERO, tables, tables, map[], {}, {}, false, 0, false, false)
  }

  /** 1 writes nothing, 2 writes table 0, 3 writes table 1. */
  lemma AllBegin(p: State -> bool) returns (s: State)
    requires Closed(p) && p(Start())
    ensures p(s) && s.store == Start().store && s.order == [] && s.first == ZERO && !s.stolen
    ensures s.clients == map[1 := Fresh({}, Acquiring), 2 := Fresh({0}, Acquiring), 3 := Fresh({1}, Acquiring)]
  {
    s := Do(p, Start(), Begin(1));
    s := Do(p, s, Begin(2));
    s := Do(p, s, Begin(3));
    s := Do(p, s, Open(2, 0, true));
    s := Do(p, s, Open(3, 1, true));
    s := Do(p, s, StartCommit(1));
    s := Do(p, s, StartCommit(2));
    s := Do(p, s, StartCommit(3));
    assert s.clients[1] == Fresh({}, Acquiring) && s.clients[2] == Fresh({0}, Acquiring) && s.clients[3] == Fresh({1}, Acquiring);
  }

  lemma FreshIsValid(tables: set<Table>)
    requires tables <= {0, 1}
    ensures Valid(CFG, Fresh(tables, Locked), ZERO)
    ensures Merged(Fresh(tables, Locked), ZERO) == map t | t in {0, 1} - tables :: 0
  {}

  lemma FirstLocks(p: State -> bool) returns (s: State)
    requires Closed(p) && p(Start())
    ensures p(s) && s.order == [] && s.first == ZERO && !s.stolen && LockIs(s, 1)
    ensures s.store.objects == Start().store.objects[Lock := s.store.objects[Lock]]
    ensures s.clients == map[1 := Fresh({}, Locked), 2 := Fresh({0}, Acquiring), 3 := Fresh({1}, Acquiring)]
  {
    s := AllBegin(p);
    s := Do(p, s, TryLock(1, Delivered));
    assert s.clients[1] == Fresh({}, Locked);
  }

  lemma FirstCommits(p: State -> bool) returns (s: State)
    requires Closed(p) && p(Start())
    ensures p(s) && s.order == [] && s.first == ZERO && !s.stolen && LockIs(s, 1)
    ensures s.store.objects == Start().store.objects[Lock := s.store.objects[Lock]]
    ensures s.clients.Keys == {1, 2, 3}
    ensures Has(s, 1, Unlocking) && s.clients[2] == Fresh({0}, Acquiring) && s.clients[3] == Fresh({1}, Acquiring)
  {
    s := FirstLocks(p);
    FreshIsValid({});
    s := Do(p, s, Validate(1));
    s := Do(p, s, SkipPublish(1));
  }

  /** 1 deletes the lock but sees an error. */
  lemma FirstDeletes(p: State -> bool) returns (s: State)
    requires Closed(p) && p(Start())
    ensures p(s) && s.order == [] && s.first == ZERO && !s.stolen
    ensures s.store.objects == Start().store.objects
    ensures s.clients.Keys == {1, 2, 3}
    ensures Has(s, 1, Deleting) && s.clients[2] == Fresh({0}, Acquiring) && s.clients[3] == Fresh({1}, Acquiring)
  {
    s := FirstCommits(p);
    s := Do(p, s, ReadOwnLock(1));
    s := Do(p, s, DeleteLock(1, ResponseLost));
  }

  /** It retries after 2 has locked: 3 locks as well. */
  lemma BothLock(p: State -> bool) returns (s: State)
    requires Closed(p) && p(Start())
    ensures p(s) && s.order == [] && s.first == ZERO && s.stolen
    ensures s.clients.Keys == {1, 2, 3}
    ensures s.clients[2] == Fresh({0}, Locked) && s.clients[3] == Fresh({1}, Locked)
    ensures s.store.objects.Keys == {Lock, Log, Version(0, 0), Version(1, 0)} && Glog(s) == ZERO && s.store.objects[Log].content.Entries?
  {
    s := FirstDeletes(p);
    s := Do(p, s, TryLock(2, Delivered));
    s := Do(p, s, DeleteLock(1, Delivered));
    s := Do(p, s, TryLock(3, Delivered));
  }

  /** Two transactions hold the lock at the same time. */
  lemma MutualExclusionFails()
    ensures exists s :: Reachable(CFG, s) && s.stolen && s.clients.Keys == {1, 2, 3}
                        && Holding(s.clients[2]) && Holding(s.clients[3])
  {
    StartReachable();
    ReachableClosed();
    var s := BothLock(s => Reachable(CFG, s));
  }

  function Ready(t: Table): Client
    requires t < 2
  {
    Fresh({t}, Writing).(merged := map[1 - t := 0])
  }

  /** Both validate against the same global log. */
  lemma BothValidate(p: State -> bool) returns (s: State)
    requires Closed(p) && p(Start())
    ensures p(s) && s.order == [] && Glog(s) == ZERO && s.store.objects.Keys == {Lock, Log, Version(0, 0), Version(1, 0)}
    ensures s.clients.Keys == {1, 2, 3} && s.clients[2] == Ready(0) && s.clients[3] == Ready(1)
  {
    FreshIsValid({0});
    FreshIsValid({1});
    s := BothLock(p);
    s := Do(p, s, Validate(2));
    assert s.clients[2] == Ready(0);
    s := Do(p, s, Validate(3));
    assert s.clients[3] == Ready(1);
  }

  lemma BothClaim(p: State -> bool) returns (s: State)
    requires Closed(p) && p(Start())
    ensures p(s) && s.order == [] && WrittenBy(s, 0, 1, 2)
    ensures s.clients.Keys == {1, 2, 3}
    ensures s.clients[2] == Ready(0).(claimed := {0}) && s.clients[3] == Ready(1).(claimed := {1})
  {
    s := BothValidate(p);
    s := Do(p, s, Claim(2, 0, Delivered));
    assert s.clients[2] == Ready(0).(claimed := {0});
    s := Do(p, s, Claim(3, 1, Delivered));
    assert s.clients[3] == Ready(1).(claimed := {1});
  }

  /** The first rewrite makes 2's commit visible ... */
  lemma FirstPublishes(p: State -> bool) returns (s: State)
    requires Closed(p) && p(Start())
    ensures p(s) && Glog(s) == map[0 := 1, 1 := 0] && WrittenBy(s, 0, 1, 2)
    ensures s.clients.Keys == {1, 2, 3} && s.clients[2].phase == Unlocking && s.clients[2].success
    ensures s.clients[3] == Ready(1).(claimed := {1})
  {
    s := BothClaim(p);
    assert Claims(Ready(0).(claimed := {0})) == map[0 := 1];
    s := Do(p, s, Publish(2, Delivered));
  }

  /** ... and the second one hides it again. */
  lemma SecondPublishes(p: State -> bool, s: State) returns (s': State)
    requires Closed(p) && p(s) && 3 in s.clients && s.clients[3] == Ready(1).(claimed := {1})
    ensures p(s') && Enabled(CFG, s, Publish(3, Delivered)) && s' == Apply(CFG, s, Publish(3, Delivered))
    ensures Glog(s') == map[0 := 0, 1 := 1]
  {
    assert Claims(Ready(1).(claimed := {1})) == map[1 := 1];
    s' := Do(p, s, Publish(3, Delivered));
  }

  /** One rewrite of the global log later, 2's successful commit is no longer visible. */
  ghost predicate GoesBack(s: State, s': State) {
    && Enabled(CFG, s, Publish(3, Delivered)) && s' == Apply(CFG, s, Publish(3, Delivered))
    && Glog(s) == map[0 := 1, 1 := 0] && Glog(s') == map[0 := 0, 1 := 1]
    && 2 in s.clients && s.clients[2].success && WrittenBy(s, 0, 1, 2)
  }

  lemma BothPublish(p: State -> bool) returns (s: State, s': State)
    requires Closed(p) && p(Start())
    ensures p(s) && p(s') && GoesBack(s, s')
  {
    s := FirstPublishes(p);
    s' := SecondPublishes(p, s);
  }

  /** A commit that was reported and visible disappears from the global log. */
  lemma EntriesGoBack()
    ensures exists s, s' :: Reachable(CFG, s) && Reachable(CFG, s') && GoesBack(s, s')
  {
    StartReachable();
    ReachableClosed();
    var s, s' := BothPublish(s => Reachable(CFG, s));
  }
}
