/** What the global log guarantees over every run: mutual exclusion, atomic visibility, and lock
    order as the serial order. */
module GlobalLogTheorems {
  import opened ObjectStore
  import opened GlobalLog

  ghost predicate Reaches(cfg: Config, s0: State, steps: seq<Step>, s: State) {
    Init(s0) && ValidRun(cfg, s0, steps) && s == Run(cfg, s0, steps)
  }

  ghost predicate Reachable(cfg: Config, s: State) {
    exists s0, steps :: Reaches(cfg, s0, steps, s)
  }

  lemma ReachedInv(cfg: Config, s: State)
    requires Reachable(cfg, s)
    ensures Inv(cfg, s)
  {
    var s0, steps :| Reaches(cfg, s0, steps, s);
    RunInv(cfg, s0, steps);
  }

  // ---- the lock --------------------------------------------------------------------------------

  /** At most one transaction is between validation and release. */
  lemma MutualExclusion(cfg: Config, s: State, b: nat, c: nat)
    requires Reachable(cfg, s) && !s.stolen
    requires b in s.clients && Holding(s.clients[b]) && c in s.clients && Holding(s.clients[c])
    ensures b == c
  {
    ReachedInv(cfg, s);
    assert ClientOk(cfg, s, b, s.clients[b]) && ClientOk(cfg, s, c, s.clients[c]);
  }

  /** Exactly one kind of step breaks it: a delete of the lock retried after an earlier delete of
      the same transaction was applied behind an error, when somebody else has locked since. */
  lemma OnlyRetriedDeletesSteal(cfg: Config, s: State, step: Step)
    requires Reachable(cfg, s) && !s.stolen && Enabled(cfg, s, step)
    ensures Apply(cfg, s, step).stolen <==>
              step.DeleteLock? && !step.f.Refused? && s.clients[step.c].gone
              && Lock in s.store.objects && !LockIs(s, step.c)
  {
    ReachedInv(cfg, s);
    if step.DeleteLock? { assert ClientOk(cfg, s, step.c, s.clients[step.c]); }
  }

  // ---- entries only grow -----------------------------------------------------------------------

  lemma StepExtends(cfg: Config, s: State, step: Step)
    requires Enabled(cfg, s, step)
    ensures var s' := Apply(cfg, s, step); s'.first == s.first && s.order <= s'.order && (s.stolen ==> s'.stolen)
  {}

  lemma {:induction false} RunExtends(cfg: Config, s: State, steps: seq<Step>)
    requires ValidRun(cfg, s, steps)
    ensures var s' := Run(cfg, s, steps); s'.first == s.first && s.order <= s'.order && (s.stolen ==> s'.stolen)
    decreases |steps|
  {
    if steps != [] {
      StepExtends(cfg, s, steps[0]);
      RunExtends(cfg, Apply(cfg, s, steps[0]), steps[1..]);
    }
  }

  /** No entry of the global log ever goes back, and no table leaves it. */
  lemma EntriesNeverDecrease(cfg: Config, s: State, after: seq<Step>)
    requires Reachable(cfg, s) && ValidRun(cfg, s, after) && !Run(cfg, s, after).stolen
    ensures Monotone(Glog(s), Glog(Run(cfg, s, after)))
  {
    var s' := Run(cfg, s, after);
    ReachedInv(cfg, s);
    RunInv(cfg, s, after);
    RunExtends(cfg, s, after);
    PublicationsGrow(cfg, s', |s.order|, |s'.order|);
    assert s'.order[..|s.order|] == s.order && s'.order[..|s'.order|] == s'.order;
  }

  /** Every entry points to a version that exists, like all versions below it. */
  lemma EntriesAreComplete(cfg: Config, s: State, t: Table, v: nat)
    requires Reachable(cfg, s) && !s.stolen && t in Glog(s) && v <= Glog(s)[t]
    ensures Version(t, v) in s.store.objects
  {
    ReachedInv(cfg, s);
    assert VisibleExists(s, t, v);
  }

  // ---- atomic visibility -------------------------------------------------------------------------

  /** A snapshot taken at begin contains all versions a published transaction wrote, or none. */
  lemma AtomicVisibility(cfg: Config, s: State, c: nat, i: nat)
    requires Reachable(cfg, s) && !s.stolen && c in s.clients && i < |s.order|
    ensures var snap, writes := s.clients[c].snap, s.order[i].writes;
            || (forall t <- writes :: t in snap && writes[t] <= snap[t])
            || (forall t <- writes :: t in snap && snap[t] < writes[t])
  {
    ReachedInv(cfg, s);
    assert ClientOk(cfg, s, c, s.clients[c]);
    AllOrNone(cfg, s, s.clients[c].seen, i);
  }

  lemma AllOrNone(cfg: Config, s: State, seen: nat, i: nat)
    requires Ordered(cfg, s) && seen <= |s.order| && i < |s.order|
    ensures var snap, writes := LogAfter(s.first, s.order[..seen]), s.order[i].writes;
            forall t <- writes :: t in snap && if i < seen then writes[t] <= snap[t] else snap[t] < writes[t]
  {
    assert PublicationOk(cfg, s, i);
    if i < seen {
      PublicationsGrow(cfg, s, i + 1, seen);
      assert s.order[..i + 1][..i] == s.order[..i];
    } else {
      PublicationsGrow(cfg, s, seen, i);
      SameTables(cfg, s, seen, i);
    }
  }

  ghost predicate Ordered(cfg: Config, s: State) {
    forall i | 0 <= i < |s.order| :: PublicationOk(cfg, s, i)
  }

  lemma {:induction false} SameTables(cfg: Config, s: State, i: nat, j: nat)
    requires Ordered(cfg, s) && i <= j <= |s.order|
    ensures LogAfter(s.first, s.order[..i]).Keys == LogAfter(s.first, s.order[..j]).Keys
    decreases j
  {
    if i < j {
      SameTables(cfg, s, i, j - 1);
      assert s.order[..j][..j - 1] == s.order[..j - 1];
      assert PublicationOk(cfg, s, j - 1);
    }
  }

  // ---- the serial order ----------------------------------------------------------------------------

  /** Validation under the lock accepts exactly the transactions whose snapshot is still current: on
      all tables they opened under Serializable, on all they write under Snapshot. */
  lemma ValidationIsExact(cfg: Config, s: State, c: nat)
    requires Reachable(cfg, s) && !s.stolen && Has(s, c, Locked)
    ensures var cl := s.clients[c];
            && WellOpened(cl)
            && (Valid(cfg, cl, Glog(s)) <==>
                  forall t <- cl.tables :: cfg.serializable || t in cl.writes ==> t in Glog(s) && cl.snap[t] == Glog(s)[t])
  {
    ReachedInv(cfg, s);
    assert ClientOk(cfg, s, c, s.clients[c]);
    SnapshotIsPast(cfg, s, c);
  }

  /** Each publication read what the earlier ones left: under Serializable all it opened, under
      Snapshot at least all it wrote; and it put each written table one version further. So the
      transactions give the same results when they run one after the other in lock order. */
  lemma LockOrderIsSerialOrder(cfg: Config, s: State, i: nat)
    requires Reachable(cfg, s) && !s.stolen && i < |s.order|
    ensures var p := s.order[i];
            var before := LogAfter(s.first, s.order[..i]);
            && p.writes.Keys <= p.tables <= p.snap.Keys && p.tables <= before.Keys
            && (forall t <- p.writes :: p.snap[t] == before[t] && p.writes[t] == before[t] + 1)
            && (cfg.serializable ==> forall t <- p.tables :: p.snap[t] == before[t])
            && LogAfter(s.first, s.order[..i + 1]) == before + p.writes
  {
    ReachedInv(cfg, s);
    SerialStep(cfg, s, i);
  }

  lemma SerialStep(cfg: Config, s: State, i: nat)
    requires Ordered(cfg, s) && i < |s.order|
    ensures var p := s.order[i];
            var before := LogAfter(s.first, s.order[..i]);
            && p.writes.Keys <= p.tables <= p.snap.Keys && p.tables <= before.Keys
            && (forall t <- p.writes :: p.snap[t] == before[t] && p.writes[t] == before[t] + 1)
            && (cfg.serializable ==> forall t <- p.tables :: p.snap[t] == before[t])
            && LogAfter(s.first, s.order[..i + 1]) == before + p.writes
  {
    assert PublicationOk(cfg, s, i);
    assert s.order[..i + 1][..i] == s.order[..i];
  }

  ghost predicate PublishedAt(s: State, t: Table, v: nat, i: nat) {
    i < |s.order| && t in s.order[i].writes && s.order[i].writes[t] == v && WrittenBy(s, t, v, s.order[i].id)
  }

  lemma {:induction false} VisibleUpTo(cfg: Config, s: State, t: Table, v: nat, n: nat)
    requires Ordered(cfg, s) && n <= |s.order| && t in s.first && s.first[t] < v
    ensures t in LogAfter(s.first, s.order[..n])
    ensures v <= LogAfter(s.first, s.order[..n])[t] <==> exists i :: 0 <= i < n && PublishedAt(s, t, v, i)
    decreases n
  {
    if n > 0 {
      VisibleUpTo(cfg, s, t, v, n - 1);
      assert s.order[..n][..n - 1] == s.order[..n - 1];
      assert PublicationOk(cfg, s, n - 1);
      if v <= LogAfter(s.first, s.order[..n])[t] && v > LogAfter(s.first, s.order[..n - 1])[t] {
        assert PublishedAt(s, t, v, n - 1);
      }
    }
  }

  /** What is visible beyond the start is what was published, version by version: a table's log up
      to its entry holds the commits of the publications in lock order and nothing else. */
  lemma VisibleIsPublished(cfg: Config, s: State, t: Table, v: nat)
    requires Reachable(cfg, s) && !s.stolen && t in s.first && s.first[t] < v
    ensures t in Glog(s)
    ensures v <= Glog(s)[t] <==> exists i :: PublishedAt(s, t, v, i)
  {
    ReachedInv(cfg, s);
    VisibleUpTo(cfg, s, t, v, |s.order|);
    assert s.order[..|s.order|] == s.order;
  }

  /** A transaction is published at most once. */
  lemma PublishedAtMostOnce(cfg: Config, s: State, i: nat, j: nat)
    requires Reachable(cfg, s) && !s.stolen && i < j < |s.order|
    ensures s.order[i].id != s.order[j].id
  {
    ReachedInv(cfg, s);
    assert PublicationOk(cfg, s, j);
  }

  // ---- outcomes ----------------------------------------------------------------------------------

  ghost predicate Failed(s: State, c: nat) {
    Has(s, c, Done) && !s.clients[c].success
  }

  lemma {:induction false} StaysFailed(cfg: Config, s: State, steps: seq<Step>, c: nat)
    requires ValidRun(cfg, s, steps) && Failed(s, c)
    ensures Failed(Run(cfg, s, steps), c)
    decreases |steps|
  {
    if steps != [] {
      StaysFailed(cfg, Apply(cfg, s, steps[0]), steps[1..], c);
    }
  }

  lemma {:induction false} RunSnoc(cfg: Config, s: State, steps: seq<Step>, step: Step)
    requires ValidRun(cfg, s, steps) && Enabled(cfg, Run(cfg, s, steps), step)
    ensures ValidRun(cfg, s, steps + [step])
    ensures Run(cfg, s, steps + [step]) == Apply(cfg, Run(cfg, s, steps), step)
    decreases |steps|
  {
    if steps != [] {
      RunSnoc(cfg, Apply(cfg, s, steps[0]), steps[1..], step);
      assert (steps + [step])[1..] == steps[1..] + [step];
    } else {
      assert [step][1..] == [];
    }
  }

  lemma StepReaches(cfg: Config, s: State, step: Step)
    requires Reachable(cfg, s) && Enabled(cfg, s, step)
    ensures Reachable(cfg, Apply(cfg, s, step))
  {
    var s0, steps :| Reaches(cfg, s0, steps, s);
    RunSnoc(cfg, s0, steps, step);
    assert Reaches(cfg, s0, steps + [step], Apply(cfg, s, step));
  }

  lemma {:induction false} RunReaches(cfg: Config, s: State, steps: seq<Step>)
    requires Reachable(cfg, s) && ValidRun(cfg, s, steps)
    ensures Reachable(cfg, Run(cfg, s, steps))
    decreases |steps|
  {
    if steps != [] {
      StepReaches(cfg, s, steps[0]);
      RunReaches(cfg, Apply(cfg, s, steps[0]), steps[1..]);
    }
  }

  /** Whatever a failed transaction left in the logs of its tables never becomes visible. */
  lemma FailedStaysInvisible(cfg: Config, s: State, after: seq<Step>, c: nat, t: Table, v: nat)
    requires Reachable(cfg, s) && Failed(s, c) && ValidRun(cfg, s, after) && !Run(cfg, s, after).stolen
    requires var s' := Run(cfg, s, after); WrittenBy(s', t, v, c) && t in s'.first && s'.first[t] < v
    ensures var s' := Run(cfg, s, after); t in Glog(s') && Glog(s')[t] < v
  {
    StaysFailed(cfg, s, after, c);
    RunReaches(cfg, s, after);
    FailedIsInvisible(cfg, Run(cfg, s, after), c, t, v);
  }

  lemma FailedIsInvisible(cfg: Config, s: State, c: nat, t: Table, v: nat)
    requires Reachable(cfg, s) && !s.stolen && Failed(s, c) && WrittenBy(s, t, v, c) && t in s.first && s.first[t] < v
    ensures t in Glog(s) && Glog(s)[t] < v
  {
    VisibleIsPublished(cfg, s, t, v);
    ReachedInv(cfg, s);
    assert !s.clients[c].published by { assert ClientOk(cfg, s, c, s.clients[c]); }
    forall i: nat ensures !PublishedAt(s, t, v, i) {
      if i < |s.order| { assert PublicationOk(cfg, s, i); }
    }
  }

  /** A transaction that reports success has its commit in the log of every table it wrote; all of
      them are visible, or, when the rewrite of the global log failed, none. */
  lemma SuccessIsAllOrNothing(cfg: Config, s: State, c: nat, t: Table)
    requires Reachable(cfg, s) && !s.stolen && c in s.clients && s.clients[c].success
    requires t in s.clients[c].writes && t in s.first
    ensures var cl := s.clients[c];
            && t in cl.snap && s.first[t] <= cl.snap[t] && WrittenBy(s, t, cl.snap[t] + 1, c)
            && t in Glog(s) && (cl.snap[t] + 1 <= Glog(s)[t] <==> cl.published)
  {
    ReachedInv(cfg, s);
    var cl := s.clients[c];
    assert ClientOk(cfg, s, c, cl);
    assert s.order[..0] == [];
    PublicationsGrow(cfg, s, 0, cl.seen);
    var v := cl.snap[t] + 1;
    assert WrittenBy(s, t, v, c);
    VisibleIsPublished(cfg, s, t, v);
    if v <= Glog(s)[t] {
      var i :| PublishedAt(s, t, v, i);
      assert PublicationOk(cfg, s, i);
    }
    if cl.published {
      var i :| 0 <= i < |s.order| && Publishes(s.order[i], c, cl);
      assert PublishedAt(s, t, v, i);
    }
  }

  // ---- the verdict of write_commit -----------------------------------------------------------------

  /** A commit of c in the log is claimed, or c is not sure of it; whoever holds the lock. */
  ghost predicate Signed(s: State, t: Table, v: nat, c: nat) {
    WrittenBy(s, t, v, c) ==>
      && c in s.clients
      && var cl := s.clients[c]; t in cl.snap && v == cl.snap[t] + 1 && (t in cl.claimed || t in cl.unsure)
  }

  ghost predicate AllSigned(s: State) { forall t: Table, v: nat, c: nat :: Signed(s, t, v, c) }

  /** Log versions are written once. */
  ghost predicate KeepsVersions(s: State, s': State) {
    forall n: Name | n.Version? && n in s.store.objects :: n in s'.store.objects && s'.store.objects[n] == s.store.objects[n]
  }

  lemma ClaimSigned(s: State, c: nat, t: Table, f: Fault)
    requires AllSigned(s) && MayClaim(s, c, t)
    ensures AllSigned(AfterClaim(s, c, t, f)) && KeepsVersions(s, AfterClaim(s, c, t, f))
  {
    var s' := AfterClaim(s, c, t, f);
    forall t2: Table, v: nat, c2: nat ensures Signed(s', t2, v, c2) { assert Signed(s, t2, v, c2); }
  }

  lemma StepSigned(cfg: Config, s: State, step: Step)
    requires AllSigned(s) && Enabled(cfg, s, step)
    ensures AllSigned(Apply(cfg, s, step)) && KeepsVersions(s, Apply(cfg, s, step))
  {
    if step.Claim? {
      ClaimSigned(s, step.c, step.t, step.f);
    } else {
      var s' := Apply(cfg, s, step);
      forall t: Table, v: nat, c: nat ensures Signed(s', t, v, c) { assert Signed(s, t, v, c); }
    }
  }

  lemma {:induction false} RunSigned(cfg: Config, s: State, steps: seq<Step>)
    requires AllSigned(s) && ValidRun(cfg, s, steps)
    ensures AllSigned(Run(cfg, s, steps)) && KeepsVersions(s, Run(cfg, s, steps))
    decreases |steps|
  {
    if steps != [] {
      StepSigned(cfg, s, steps[0]);
      RunSigned(cfg, Apply(cfg, s, steps[0]), steps[1..]);
    }
  }

  lemma ReachedSigned(cfg: Config, s: State)
    requires Reachable(cfg, s)
    ensures AllSigned(s)
  {
    var s0, steps :| Reaches(cfg, s0, steps, s);
    RunSigned(cfg, s0, steps);
  }

  /** What write_commit reports without markers is what the log says for ever: after Ok the version
      holds this commit; after Taken (the transaction lets go of the lock) it is somebody else's,
      although earlier attempts may have failed; and it is Failed as long as this is not known. This
      does not rest on the lock. */
  lemma ClaimVerdict(cfg: Config, s: State, c: nat, t: Table, f: Fault, after: seq<Step>)
    requires Reachable(cfg, s) && MayClaim(s, c, t) && ValidRun(cfg, AfterClaim(s, c, t, f), after)
    ensures var cl1 := AfterClaim(s, c, t, f).clients[c];
            var s2 := Run(cfg, AfterClaim(s, c, t, f), after);
            var v := s.clients[c].snap[t] + 1;
            && (t in cl1.claimed ==> WrittenBy(s2, t, v, c))
            && (cl1.phase.Unlocking? ==> Version(t, v) in s2.store.objects && !WrittenBy(s2, t, v, c))
            && (t in cl1.claimed || cl1.phase.Unlocking? || t in cl1.unsure)
  {
    var s1 := AfterClaim(s, c, t, f);
    ReachedSigned(cfg, s);
    ClaimSigned(s, c, t, f);
    RunSigned(cfg, s1, after);
    assert Signed(s, t, s.clients[c].snap[t] + 1, c);
  }

  /** A transaction commits at most one version of a table. */
  lemma CommitsOnce(cfg: Config, s: State, t: Table, v: nat, w: nat, c: nat)
    requires Reachable(cfg, s) && WrittenBy(s, t, v, c) && WrittenBy(s, t, w, c)
    ensures v == w
  {
    ReachedSigned(cfg, s);
    assert Signed(s, t, v, c) && Signed(s, t, w, c);
  }

  // ---- progress --------------------------------------------------------------------------------------

  /** At most one claim at a time is unanswered. */
  ghost predicate OneUnsure(s: State) {
    forall c, t, t' | c in s.clients && t in s.clients[c].unsure && t' in s.clients[c].unsure :: t == t'
  }

  lemma StepOneUnsure(cfg: Config, s: State, step: Step)
    requires OneUnsure(s) && Enabled(cfg, s, step)
    ensures OneUnsure(Apply(cfg, s, step))
  {}

  lemma {:induction false} RunOneUnsure(cfg: Config, s: State, steps: seq<Step>)
    requires OneUnsure(s) && ValidRun(cfg, s, steps)
    ensures OneUnsure(Run(cfg, s, steps))
    decreases |steps|
  {
    if steps != [] {
      StepOneUnsure(cfg, s, steps[0]);
      RunOneUnsure(cfg, Apply(cfg, s, steps[0]), steps[1..]);
    }
  }

  ghost predicate HasNext(cfg: Config, s: State, c: nat, f: Fault)
    requires c in s.clients
  {
    match s.clients[c].phase
    case Active => Enabled(cfg, s, StartCommit(c))
    case Acquiring => Enabled(cfg, s, TryLock(c, f)) && (Enabled(cfg, s, ReadLock(c)) <==> !Enabled(cfg, s, Timeout(c)))
    case Locked => Enabled(cfg, s, Validate(c))
    case Writing =>
      if s.clients[c].claimed == s.clients[c].writes then Enabled(cfg, s, Publish(c, f)) && Enabled(cfg, s, SkipPublish(c))
      else exists t :: Enabled(cfg, s, Claim(c, t, f))
    case Unlocking => Enabled(cfg, s, ReadOwnLock(c))
    case Deleting => Enabled(cfg, s, DeleteLock(c, f)) && Enabled(cfg, s, StopDelete(c))
    case Done => true
  }

  /** A transaction always has a next step until it is done: it can try to lock, or knows at the end
      whether it has the lock; under the lock it validates, has a version to claim or can rewrite the
      global log; and then it lets go of the lock. */
  lemma NeverStuck(cfg: Config, s: State, c: nat, f: Fault)
    requires Reachable(cfg, s) && !s.stolen && c in s.clients
    ensures HasNext(cfg, s, c, f)
  {
    ReachedInv(cfg, s);
    assert ClientOk(cfg, s, c, s.clients[c]);
    var s0, steps :| Reaches(cfg, s0, steps, s);
    RunOneUnsure(cfg, s0, steps);
    ClientHasNext(cfg, s, c, f);
  }

  lemma ClientHasNext(cfg: Config, s: State, c: nat, f: Fault)
    requires c in s.clients && ClientOk(cfg, s, c, s.clients[c]) && OneUnsure(s)
    ensures HasNext(cfg, s, c, f)
  {
    if Has(s, c, Writing) && s.clients[c].claimed != s.clients[c].writes {
      var t := NextClaim(s, c);
      assert Enabled(cfg, s, Claim(c, t, f));
    }
  }

  lemma NextClaim(s: State, c: nat) returns (t: Table)
    requires Has(s, c, Writing) && OneUnsure(s)
    requires var cl := s.clients[c]; cl.claimed < cl.writes <= cl.snap.Keys && cl.unsure <= cl.writes - cl.claimed
    ensures MayClaim(s, c, t)
  {
    var cl := s.clients[c];
    if cl.unsure == {} {
      t :| t in cl.writes && t !in cl.claimed;
    } else {
      t :| t in cl.unsure;
    }
  }

  /** What the requests of a commit lead to: whoever fails to lock tries again, a transaction whose
      versions are all claimed reports success even if the global log cannot be rewritten, and a
      delete of the lock that gets through ends it. */
  lemma RequestsConclude(cfg: Config, s: State, c: nat, f: Fault)
    ensures Enabled(cfg, s, TryLock(c, f)) ==>
              var s' := Apply(cfg, s, TryLock(c, f));
              if f.Delivered? && Lock !in s.store.objects then Has(s', c, Locked) && LockIs(s', c) else Has(s', c, Acquiring)
    ensures Enabled(cfg, s, Publish(c, f)) ==>
              var s' := Apply(cfg, s, Publish(c, f));
              if f.Delivered? then Has(s', c, Unlocking) && s'.clients[c].success else Has(s', c, Writing)
    ensures Enabled(cfg, s, SkipPublish(c)) ==>
              var s' := Apply(cfg, s, SkipPublish(c)); Has(s', c, Unlocking) && s'.clients[c].success
    ensures Enabled(cfg, s, DeleteLock(c, f)) ==>
              var s' := Apply(cfg, s, DeleteLock(c, f));
              if f.Delivered? then Has(s', c, Done) && Lock !in s'.store.objects else Has(s', c, Deleting)
  {}
}
