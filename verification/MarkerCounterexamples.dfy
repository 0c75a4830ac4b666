/** Runs in which the marker protocol breaks what the conditions of the theorems protect. */
module MarkerCounterexamples {
  import opened Options
  import opened ObjectStore
  import opened DeltaReplay
  import opened MarkerWorld
  import opened MarkerProtocol
  import opened MarkerTheorems
  import opened MarkerScenes

  /** Level 1 under Serializable, and level 0 under Snapshot, with the default lease, grace period and
      number of rounds. */
  const LEVEL1: Config := Config(true, false, 30000, 100, 3)
  const LEVEL0: Config := Config(false, true, 30000, 100, 3)

  // ---- write skew through a table that was only read --------------------------------------------------------

  function Released(etag: nat): Slot { Some(Object(RELEASED, etag)) }

  function CommitOf(c: nat, actions: seq<FileAction>, etag: nat): Slot { Some(Object(Commit(Writer(c), actions), etag)) }

  /** 1 has read table 1, is about to write table 0 and has taken 0's reservation there over. */
  function Skew1(): Scene {
    Crossed(LEVEL1).(
      log0 := Log(Released(7), Mark(1, 50000, 4), None), etag := 7,
      b := Actor(Idle(false).(phase := Committing),
                 Parsed(2, 4, 50000, {1}).(waited := {1}, pass := {1}, recent := {1}, dirty := true, actions := B),
                 Parsed(1, 5, 50000, {}).(wasRead := true)))
  }

  lemma SkewTakeOver(p: State -> bool) returns (s: State)
    requires Closed(LEVEL1, p) && p(Start())
    ensures On(LEVEL1, p, s, Skew1())
  {
    Sets();
    var sc := Crossed(LEVEL1);
    s := OpenCrossed(LEVEL1, p);
    s, sc := DoRead(LEVEL1, p, s, sc, 1, 1);
    s, sc := DoStage(LEVEL1, p, s, sc, 1, 0, B);
    s, sc := DoStart(LEVEL1, p, s, sc, 1);
    s, sc := DoTakeOver(LEVEL1, p, s, sc, 1, 0, 1, 30200);
    assert sc == Skew1();
  }

  /** 1 has committed; its own reservation of table 1 has ended empty. */
  function Skew2(): Scene {
    Skew1().(
      log0 := Log(Released(7), CommitOf(1, B, 8), None), log1 := Log(Released(9), Mark(0, 55000, 6), None), etag := 9,
      b := Actor(Idle(false).(phase := Done, ranked := true, held := {0, 1}),
                 CommittedTab(Skew1().b.zero), Skew1().b.one.(valid := false)))
  }

  lemma SkewFirst(p: State -> bool) returns (s: State)
    requires Closed(LEVEL1, p) && p(Start())
    ensures On(LEVEL1, p, s, Skew2())
  {
    Sets();
    var sc := Skew1();
    s := SkewTakeOver(p);
    s, sc := DoValidate(LEVEL1, p, s, sc, 1, 30300);
    s, sc := DoCommit(LEVEL1, p, s, sc, 1, 0);
    s, sc := DoFinish(LEVEL1, p, s, sc, 1);
    s, sc := DoRelease(LEVEL1, p, s, sc, 1, 1);
    assert sc == Skew2();
  }

  /** 0 has read table 0 and has found version 1 of table 1 empty. */
  function Skew3(): Scene {
    Skew2().(a := Actor(Idle(false).(phase := Committing), Skew2().a.zero.(wasRead := true),
                        Skew2().a.one.(waited := {1}, pass := {1}, recent := {1}, dirty := true, actions := A)))
  }

  lemma SkewWait(p: State -> bool) returns (s: State)
    requires Closed(LEVEL1, p) && p(Start())
    ensures On(LEVEL1, p, s, Skew3())
  {
    Sets();
    var sc := Skew2();
    s := SkewFirst(p);
    s, sc := DoRead(LEVEL1, p, s, sc, 0, 0);
    s, sc := DoStage(LEVEL1, p, s, sc, 0, 1, A);
    s, sc := DoStart(LEVEL1, p, s, sc, 0);
    s, sc := DoWait(LEVEL1, p, s, sc, 0, 1, 1);
    assert sc == Skew3();
  }

  /** 0 knows only version 0 of table 0, where 1 committed; 1 knows only version 0 of table 1, where
      0 committed; both read these tables, nothing was shifted and nothing redone. */
  ghost predicate WriteSkewed(s: State) {
    && Steady(s, 0) && Steady(s, 1)
    && CommittedAt(s, 0, Key(1, 2)) && CommittedAt(s, 1, Key(0, 2))
    && s.w.Holds(Key(1, 2)).actions == A && s.w.Holds(Key(0, 2)).actions == B
    && s.clients[0].tables.Keys == {0, 1} && s.clients[0].tables[0].wasRead && s.clients[0].tables[0].base == {0}
    && s.clients[0].held == {1} && s.clients[1].held == {0, 1}
    && s.clients[1].tables.Keys == {0, 1} && s.clients[1].tables[1].wasRead && s.clients[1].tables[1].base == {0}
  }

  /** 0 commits as well. */
  lemma SkewSecond(p: State -> bool) returns (s: State)
    requires Closed(LEVEL1, p) && p(Start())
    ensures p(s) && WriteSkewed(s)
  {
    Sets();
    var sc := Skew3();
    s := SkewWait(p);
    s, sc := DoValidate(LEVEL1, p, s, sc, 0, 30400);
    s, sc := DoCommit(LEVEL1, p, s, sc, 0, 1);
    Cast(s, sc, 0);
    Cast(s, sc, 1);
    Shelf(s, sc, 0, 2);
    Shelf(s, sc, 1, 2);
  }

  /** Validation does not look at the reservations of tables that are only read. When one was taken
      over, two serializable transactions can both commit although each missed what the other
      wrote: no serial order explains both. This is what asking for a held reservation excludes. */
  lemma WriteSkewHappens()
    ensures exists s :: Reachable(LEVEL1, s) && WriteSkewed(s)
  {
    StartReachable(LEVEL1);
    ReachableClosed(LEVEL1);
    var s := SkewSecond(s => Reachable(LEVEL1, s));
  }

  // ---- a shift after the first commit ---------------------------------------------------------------

  /** 0 has committed to table 0 and stalls; 1 is about to commit as well. */
  function Late1(): Scene {
    Straight(LEVEL1).(
      log0 := Log(CommitOf(0, A, 7), Mark(1, 50000, 5), None), etag := 7,
      a := Actor(Idle(false).(phase := Writing, ranked := true, held := {0, 1}),
                 CommittedTab(Parsed(1, 3, 30000, {}).(dirty := true, actions := A)),
                 Parsed(1, 4, 30000, {}).(dirty := true, actions := A)))
  }

  lemma LateFirst(p: State -> bool) returns (s: State)
    requires Closed(LEVEL1, p) && p(Start())
    ensures On(LEVEL1, p, s, Late1())
  {
    Sets();
    var sc := Straight(LEVEL1);
    s := OpenStraight(LEVEL1, p);
    s, sc := DoStage(LEVEL1, p, s, sc, 0, 0, A);
    s, sc := DoStage(LEVEL1, p, s, sc, 0, 1, A);
    s, sc := DoStart(LEVEL1, p, s, sc, 0);
    s, sc := DoValidate(LEVEL1, p, s, sc, 0, 100);
    s, sc := DoCommit(LEVEL1, p, s, sc, 0, 0);
    assert sc == Late1();
  }

  /** 1 has waited for 0's commit to table 0 and has taken 0's reservation of table 1 over. */
  function Late2(): Scene {
    Late1().(
      log1 := Log(Released(8), Mark(1, 50000, 6), None), etag := 8,
      b := Actor(Idle(false).(phase := Committing),
                 Parsed(2, 5, 50000, {1}).(waited := {1}, pass := {1}, recent := {1}, changed := true, dirty := true, actions := B),
                 Parsed(2, 6, 50000, {1}).(waited := {1}, pass := {1}, recent := {1}, dirty := true, actions := B)))
  }

  lemma LateWait(p: State -> bool) returns (s: State)
    requires Closed(LEVEL1, p) && p(Start())
    ensures On(LEVEL1, p, s, Late2())
  {
    Sets();
    var sc := Late1();
    s := LateFirst(p);
    s, sc := DoStage(LEVEL1, p, s, sc, 1, 0, B);
    s, sc := DoStage(LEVEL1, p, s, sc, 1, 1, B);
    s, sc := DoStart(LEVEL1, p, s, sc, 1);
    s, sc := DoWait(LEVEL1, p, s, sc, 1, 0, 1);
    s, sc := DoTakeOver(LEVEL1, p, s, sc, 1, 1, 1, 30200);
    assert sc == Late2();
  }

  /** 1 has committed to both tables. */
  function Late3(): Scene {
    Late2().(
      log0 := Log(CommitOf(0, A, 7), CommitOf(1, B, 9), None), log1 := Log(Released(8), CommitOf(1, B, 10), None), etag := 10,
      b := Actor(Idle(false).(phase := Writing, ranked := true, held := {0, 1}),
                 CommittedTab(Late2().b.zero), CommittedTab(Late2().b.one)))
  }

  lemma LateSecond(p: State -> bool) returns (s: State)
    requires Closed(LEVEL1, p) && p(Start())
    ensures On(LEVEL1, p, s, Late3())
  {
    Sets();
    var sc := Late2();
    s := LateWait(p);
    s, sc := DoValidate(LEVEL1, p, s, sc, 1, 30300);
    s, sc := DoCommit(LEVEL1, p, s, sc, 1, 0);
    s, sc := DoCommit(LEVEL1, p, s, sc, 1, 1);
    assert sc == Late3();
  }

  /** 0 has found its reservation of table 1 lost and has shifted behind 1's commit. */
  function Late4(): Scene {
    Late3().(
      log1 := Log(Released(8), CommitOf(1, B, 10), Mark(0, 60500, 11)), etag := 11,
      a := Actor(Idle(false).(phase := Committing, turning := true, ranked := true, held := {0, 1}, late := true),
                 Late3().a.zero,
                 Late3().a.one.(pos := 3, etag := 11, deadline := 60500, markers := {2}, abandoned := {1})))
  }

  lemma LateShift(p: State -> bool) returns (s: State)
    requires Closed(LEVEL1, p) && p(Start())
    ensures On(LEVEL1, p, s, Late4())
  {
    Sets();
    var sc := Late3();
    s := LateSecond(p);
    s, sc := DoLose(LEVEL1, p, s, sc, 0, 1);
    s, sc := DoGiveUp(LEVEL1, p, s, sc, 0, 1);
    s, sc := DoReserveAgain(LEVEL1, p, s, sc, 0, 1, 2, 30500);
    assert sc == Late4();
  }

  lemma LateThird(p: State -> bool) returns (s: State)
    requires Closed(LEVEL1, p) && p(Start())
    ensures p(s) && Precedes(s, 0, 1) && Precedes(s, 1, 0)
    ensures Steady(s, 1) && 0 in s.clients && s.clients[0].late && !s.clients[0].doubled
  {
    Sets();
    var sc := Late4();
    s := LateShift(p);
    s, sc := DoNextPass(LEVEL1, p, s, sc, 0);
    s, sc := DoWait(LEVEL1, p, s, sc, 0, 1, 2);
    s, sc := DoValidate(LEVEL1, p, s, sc, 0, 30600);
    s, sc := DoCommit(LEVEL1, p, s, sc, 0, 1);
    LateOrders(s, sc);
  }

  lemma LateOrders(s: State, sc: Scene)
    requires Shows(s, sc) && sc.log0.v1 == CommitOf(0, A, 7) && sc.log0.v2 == CommitOf(1, B, 9)
    requires sc.log1.v2 == CommitOf(1, B, 10) && sc.log1.v3 == CommitOf(0, A, 12)
    requires sc.a.cl.late && !sc.a.cl.doubled && !sc.b.cl.late && !sc.b.cl.doubled
    ensures Precedes(s, 0, 1) && Precedes(s, 1, 0)
    ensures Steady(s, 1) && 0 in s.clients && s.clients[0].late && !s.clients[0].doubled
  {
    Cast(s, sc, 0);
    Cast(s, sc, 1);
    Shelf(s, sc, 0, 1);
    Shelf(s, sc, 0, 2);
    Shelf(s, sc, 1, 2);
    Shelf(s, sc, 1, 3);
    assert CommittedAt(s, 0, Key(0, 1)) && CommittedAt(s, 1, Key(0, 2));
    assert CommittedAt(s, 1, Key(1, 2)) && CommittedAt(s, 0, Key(1, 3));
  }

  /** A transaction that shifts after its first commit can end up before another transaction on one
      table and behind it on a second one. This is what `late` excludes. */
  lemma OppositeOrdersHappen()
    ensures exists s :: Reachable(LEVEL1, s) && Precedes(s, 0, 1) && Precedes(s, 1, 0)
                        && Steady(s, 1) && 0 in s.clients && s.clients[0].late && !s.clients[0].doubled
  {
    StartReachable(LEVEL1);
    ReachableClosed(LEVEL1);
    var s := LateThird(s => Reachable(LEVEL1, s));
  }

  // ---- a redo that discards a commit ------------------------------------------------------------------

  /** 1 has taken 0's reservation of table 0 over and has redone its operations: A is appended to
      table 0, and file f of table 1 is removed. */
  function Double1(): Scene {
    Crossed(LEVEL0).(
      log0 := Log(Released(7), Mark(1, 50000, 4), None), etag := 7,
      b := Actor(Idle(true).(phase := Committing, redone := true),
                 Parsed(2, 4, 50000, {1}).(base := {0, 1}, waited := {1}, pass := {1}, dirty := true, actions := A),
                 Parsed(1, 5, 50000, {}).(dirty := true, actions := DROP)))
  }

  lemma DoubleRedo(p: State -> bool) returns (s: State)
    requires Closed(LEVEL0, p) && p(Start())
    ensures On(LEVEL0, p, s, Double1())
  {
    Sets();
    var sc := Crossed(LEVEL0);
    s := OpenCrossed(LEVEL0, p);
    s, sc := DoStart(LEVEL0, p, s, sc, 1);
    s, sc := DoTakeOver(LEVEL0, p, s, sc, 1, 0, 1, 30200);
    s, sc := DoRedo(LEVEL0, p, s, sc, 1, map[0 := A, 1 := DROP]);
    assert sc == Double1();
  }

  /** 1 has committed table 0 and stalls; 0 has taken its reservation of table 1 over. */
  function Double2(): Scene {
    Double1().(
      log0 := Log(Released(7), CommitOf(1, A, 8), None), log1 := Log(Released(9), Mark(0, 55000, 6), None), etag := 9,
      a := Actor(Idle(true).(phase := Committing), Double1().a.zero, Double1().a.one.(waited := {1}, pass := {1}, recent := {1})),
      b := Actor(Double1().b.cl.(phase := Writing, ranked := true, held := {0, 1}), CommittedTab(Double1().b.zero), Double1().b.one))
  }

  lemma DoubleFirst(p: State -> bool) returns (s: State)
    requires Closed(LEVEL0, p) && p(Start())
    ensures On(LEVEL0, p, s, Double2())
  {
    Sets();
    var sc := Double1();
    s := DoubleRedo(p);
    s, sc := DoValidate(LEVEL0, p, s, sc, 1, 30300);
    s, sc := DoCommit(LEVEL0, p, s, sc, 1, 0);
    s, sc := DoStart(LEVEL0, p, s, sc, 0);
    s, sc := DoTakeOver(LEVEL0, p, s, sc, 0, 1, 1, 50200);
    assert sc == Double2();
  }

  /** 0 has removed file f of table 1. */
  function Double3(): Scene {
    Double2().(
      log1 := Log(Released(9), CommitOf(0, DROP, 10), None), etag := 10,
      a := Actor(Idle(true).(phase := Writing, redone := true, ranked := true, held := {1}),
                 Double2().a.zero, CommittedTab(Double2().a.one.(base := {0, 1}, recent := {}, dirty := true, actions := DROP))))
  }

  lemma DoubleOther(p: State -> bool) returns (s: State)
    requires Closed(LEVEL0, p) && p(Start())
    ensures On(LEVEL0, p, s, Double3())
  {
    Sets();
    var sc := Double2();
    s := DoubleFirst(p);
    s, sc := DoRedo(LEVEL0, p, s, sc, 0, map[1 := DROP]);
    s, sc := DoValidate(LEVEL0, p, s, sc, 0, 50300);
    s, sc := DoCommit(LEVEL0, p, s, sc, 0, 1);
    assert sc == Double3();
  }

  /** 1 has found its reservation of table 1 lost, has moved behind 0's commit and starts over. */
  function Double4(): Scene {
    Double3().(
      log1 := Log(Released(9), CommitOf(0, DROP, 10), Mark(1, 80500, 11)), etag := 11,
      b := Actor(Double3().b.cl.(phase := Committing, rounds := 1, late := true), Double3().b.zero.(pass := {}),
                 Double3().b.one.(pos := 3, etag := 11, deadline := 80500, markers := {2}, abandoned := {1})))
  }

  lemma DoubleShift(p: State -> bool) returns (s: State)
    requires Closed(LEVEL0, p) && p(Start())
    ensures On(LEVEL0, p, s, Double4())
  {
    Sets();
    var sc := Double3();
    s := DoubleOther(p);
    s, sc := DoLose(LEVEL0, p, s, sc, 1, 1);
    s, sc := DoGiveUp(LEVEL0, p, s, sc, 1, 1);
    s, sc := DoReserveAgain(LEVEL0, p, s, sc, 1, 1, 2, 50500);
    s, sc := DoNextPass(LEVEL0, p, s, sc, 1);
    assert sc == Double4();
  }

  /** It has waited for all versions again, among them 0's commit: f is gone, which conflicts. The
      second redo forgets that table 0 is committed and finds nothing to do in table 1. */
  function Double5(): Scene {
    Double4().(
      b := Actor(Double4().b.cl.(rounds := 2, doubled := true),
                 Double4().b.zero.(pass := {1}, committed := false),
                 Double4().b.one.(waited := {2}, pass := {2}, base := {0, 2}, dirty := false, actions := [])))
  }

  lemma DoubleForget(p: State -> bool) returns (s: State)
    requires Closed(LEVEL0, p) && p(Start())
    ensures On(LEVEL0, p, s, Double5())
  {
    Sets();
    var sc := Double4();
    s := DoubleShift(p);
    s, sc := DoWait(LEVEL0, p, s, sc, 1, 0, 1);
    s, sc := DoWait(LEVEL0, p, s, sc, 1, 1, 2);
    s, sc := DoRedo(LEVEL0, p, s, sc, 1, map[0 := A]);
    assert sc == Double5();
  }

  /** Its own commit of table 0 looks like somebody else's: the version counts as lost, and the
      transaction reserves another one. */
  function Double6(): Scene {
    Double5().(
      log0 := Log(Released(7), CommitOf(1, A, 8), Mark(1, 80700, 12)), etag := 12,
      b := Actor(Double5().b.cl.(turning := true, ranked := false, held := {1}),
                 Double5().b.zero.(pos := 3, etag := 12, deadline := 80700, valid := true, abandoned := {2}), Double5().b.one))
  }

  lemma DoubleLost(p: State -> bool) returns (s: State)
    requires Closed(LEVEL0, p) && p(Start())
    ensures On(LEVEL0, p, s, Double6())
  {
    Sets();
    var sc := Double5();
    s := DoubleForget(p);
    s, sc := DoValidate(LEVEL0, p, s, sc, 1, 50600);
    s, sc := DoLose(LEVEL0, p, s, sc, 1, 0);
    s, sc := DoGiveUp(LEVEL0, p, s, sc, 1, 0);
    s, sc := DoReserveAgain(LEVEL0, p, s, sc, 1, 0, 2, 50700);
    assert sc == Double6();
  }

  ghost predicate CommittedTwice(s: State, c: nat, t: nat) {
    exists u: nat, v: nat :: u < v && CommittedAt(s, c, Key(t, u)) && CommittedAt(s, c, Key(t, v))
  }

  lemma DoubleSecond(p: State -> bool) returns (s: State)
    requires Closed(LEVEL0, p) && p(Start())
    ensures p(s) && CommittedTwice(s, 1, 0) && 1 in s.clients && s.clients[1].rounds == 3
  {
    Sets();
    var sc := Double6();
    s := DoubleLost(p);
    s, sc := DoNextPass(LEVEL0, p, s, sc, 1);
    s, sc := DoWait(LEVEL0, p, s, sc, 1, 0, 1);
    s, sc := DoWait(LEVEL0, p, s, sc, 1, 1, 2);
    s, sc := DoValidate(LEVEL0, p, s, sc, 1, 50800);
    s, sc := DoCommit(LEVEL0, p, s, sc, 1, 0);
    Twice(s, sc);
  }

  lemma Twice(s: State, sc: Scene)
    requires Shows(s, sc) && sc.log0.v2 == CommitOf(1, A, 8) && sc.log0.v3 == CommitOf(1, A, 13)
    ensures CommittedTwice(s, 1, 0) && 1 in s.clients && s.clients[1].rounds == sc.b.cl.rounds
  {
    Cast(s, sc, 1);
    Shelf(s, sc, 0, 2);
    Shelf(s, sc, 0, 3);
    assert CommittedAt(s, 1, Key(0, 2)) && CommittedAt(s, 1, Key(0, 3));
  }

  /** A transaction that conflicts after it has committed one of its tables rebuilds its state,
      forgets that commit, and appends its rows to that table a second time. This is what `doubled`
      excludes. The run takes three rounds, as many as the default allows. */
  lemma DoubleCommitHappens()
    ensures exists s :: Reachable(LEVEL0, s) && CommittedTwice(s, 1, 0) && 1 in s.clients && s.clients[1].rounds == 3
  {
    StartReachable(LEVEL0);
    ReachableClosed(LEVEL0);
    var s := DoubleSecond(s => Reachable(LEVEL0, s));
  }
}
