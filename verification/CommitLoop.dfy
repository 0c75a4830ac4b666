/** The outer loop of commit without level 2, for waiting that never gives up: how it decides, and
    that it ends. What the store and the other transactions do is an oracle, one answer per pass. */
module CommitLoop {
  import opened Options

  datatype Written = Ok | Lost | Failed

  /** expiring: a lease ends too soon. conflict: validation fails. rebuilt: the state could be
      rebuilt. written: the result of the commit writes; Lost if a marker was taken over. */
  datatype Pass = Pass(expiring: bool, conflict: bool, rebuilt: bool, written: Written)

  /** redone: the pass that redid the operations last. */
  datatype Outcome = Committed(passes: nat, redone: Option<nat>) | Aborted(passes: nat)

  /** The pass numbered i, after `rounds` shifts and repeated redos. */
  function FromPass(env: nat -> Pass, maxRedos: nat, canRedo: bool, i: nat, rounds: nat, redone: Option<nat>): Outcome
    requires rounds <= maxRedos
    decreases maxRedos - rounds
  {
    var pass := env(i);
    if pass.expiring then
      if rounds == maxRedos then Aborted(i + 1) else FromPass(env, maxRedos, canRedo, i + 1, rounds + 1, redone)
    else if pass.conflict && !canRedo then Aborted(i + 1)
    else
      var again := canRedo && redone.Some? && pass.conflict;
      if again && (rounds == maxRedos || !pass.rebuilt) then Aborted(i + 1)
      else
        var rounds' := if again then rounds + 1 else rounds;
        var redone' := if canRedo && (again || redone.None?) then Some(i) else redone;
        match pass.written
        case Ok => Committed(i + 1, redone')
        case Failed => Aborted(i + 1)
        case Lost => if rounds' == maxRedos then Aborted(i + 1) else FromPass(env, maxRedos, canRedo, i + 1, rounds' + 1, redone')
  }

  method Commit(env: nat -> Pass, maxRedos: nat, canRedo: bool) returns (valid: bool, passes: nat, ghost redone: Option<nat>)
    ensures FromPass(env, maxRedos, canRedo, 0, 0, None) == if valid then Committed(passes, redone) else Aborted(passes)
    ensures 1 <= passes <= maxRedos + 1
  {
    valid, passes, redone := false, 0, None;
    var rounds, redoDone := 0, false;
    while !valid
      invariant (redoDone <==> redone.Some?) && 0 <= rounds <= maxRedos && passes <= (if valid then rounds + 1 else rounds)
      invariant valid ==> passes >= 1 && FromPass(env, maxRedos, canRedo, 0, 0, None) == Committed(passes, redone)
      invariant !valid ==>
        FromPass(env, maxRedos, canRedo, 0, 0, None) == FromPass(env, maxRedos, canRedo, passes, rounds, redone)
      decreases maxRedos - rounds, !valid
    {
      var pass := env(passes);
      passes := passes + 1;
      if pass.expiring {
        if rounds >= maxRedos { return false, passes, redone; }
        rounds := rounds + 1;
        continue;
      }
      if canRedo {
        if redoDone && pass.conflict {
          if rounds >= maxRedos { return false, passes, redone; }
          rounds := rounds + 1;
          if !pass.rebuilt { return false, passes, redone; }
          redoDone := false;
        }
        if !redoDone {
          redoDone := true;
          redone := Some(passes - 1);
        }
      } else if pass.conflict {
        return false, passes, redone;
      }
      match pass.written {
        case Failed => return false, passes, redone;
        case Lost =>
          if rounds >= maxRedos { return false, passes, redone; }
          rounds := rounds + 1;
        case Ok => valid := true;
      }
    }
  }

  function PassesOf(o: Outcome): nat {
    match o
    case Committed(n, _) => n
    case Aborted(n) => n
  }

  function Redone(env: nat -> Pass, canRedo: bool, i: nat, redone: Option<nat>): Option<nat> {
    if canRedo && ((redone.Some? && env(i).conflict) || redone.None?) then Some(i) else redone
  }

  /** Every further pass was paid for by a round, so there are at most maxRedos + 1. */
  lemma {:induction false} PassesAreBounded(env: nat -> Pass, maxRedos: nat, canRedo: bool, i: nat, rounds: nat, redone: Option<nat>)
    requires rounds <= maxRedos
    ensures i + 1 <= PassesOf(FromPass(env, maxRedos, canRedo, i, rounds, redone)) <= i + 1 + maxRedos - rounds
    decreases maxRedos - rounds
  {
    var pass := env(i);
    var rounds' := if canRedo && redone.Some? && pass.conflict then rounds + 1 else rounds;
    if pass.expiring {
      if rounds < maxRedos { PassesAreBounded(env, maxRedos, canRedo, i + 1, rounds + 1, redone); }
    } else if pass.written == Lost && rounds' < maxRedos {
      PassesAreBounded(env, maxRedos, canRedo, i + 1, rounds' + 1, Redone(env, canRedo, i, redone));
    }
  }

  /** The bound is reached when every lease expires. */
  lemma {:induction false} BoundIsReached(env: nat -> Pass, maxRedos: nat, canRedo: bool, i: nat, rounds: nat)
    requires rounds <= maxRedos && forall k: nat :: env(k).expiring
    ensures FromPass(env, maxRedos, canRedo, i, rounds, None) == Aborted(i + 1 + maxRedos - rounds)
    decreases maxRedos - rounds
  {
    if rounds < maxRedos { BoundIsReached(env, maxRedos, canRedo, i + 1, rounds + 1); }
  }

  /** Between two passes, the second one not included, no validation failed. */
  ghost predicate NoConflict(env: nat -> Pass, from: nat, to: nat) {
    forall k: nat | from <= k < to && !env(k).expiring :: !env(k).conflict
  }

  /** What is committed rests on a valid state. The pass that commits has leases that last and
      writes all its commits. If operations can be redone, they were, in a pass with leases that
      last, and no validation failed after that; if they cannot, none failed at all. */
  lemma {:induction false} CommitIsValidated(env: nat -> Pass, maxRedos: nat, canRedo: bool, i: nat, rounds: nat, redone: Option<nat>)
    requires rounds <= maxRedos && (redone.Some? ==> canRedo && redone.value < i && !env(redone.value).expiring)
    requires redone.Some? ==> NoConflict(env, redone.value + 1, i)
    ensures var o := FromPass(env, maxRedos, canRedo, i, rounds, redone);
            o.Committed? ==>
              && o.passes > i && !env(o.passes - 1).expiring && env(o.passes - 1).written == Ok
              && (if canRedo then o.redone.Some? && o.redone.value < o.passes && !env(o.redone.value).expiring
                                  && NoConflict(env, o.redone.value + 1, o.passes)
                  else NoConflict(env, i, o.passes))
    decreases maxRedos - rounds
  {
    var pass := env(i);
    var rounds' := if canRedo && redone.Some? && pass.conflict then rounds + 1 else rounds;
    if pass.expiring {
      if rounds < maxRedos { CommitIsValidated(env, maxRedos, canRedo, i + 1, rounds + 1, redone); }
    } else if pass.written == Lost && rounds' < maxRedos && (pass.conflict ==> canRedo) {
      CommitIsValidated(env, maxRedos, canRedo, i + 1, rounds' + 1, Redone(env, canRedo, i, redone));
    }
  }

  // ---- when the loop ends, and how -------------------------------------------------------------------

  /** Some pass before the i-th got past the lease check, and redid its operations if it could. */
  predicate PassedBefore(env: nat -> Pass, i: nat) {
    i > 0 && (!env(i - 1).expiring || PassedBefore(env, i - 1))
  }

  /** The pass finds a conflict although the operations were redone. */
  predicate Again(env: nat -> Pass, canRedo: bool, i: nat) {
    canRedo && env(i).conflict && PassedBefore(env, i)
  }

  /** The rounds that the passes before the i-th have cost: one for a shift, one for a repeated redo,
      one for a marker that was taken over. */
  function Spent(env: nat -> Pass, canRedo: bool, i: nat): nat {
    if i == 0 then 0
    else
      var pass := env(i - 1);
      Spent(env, canRedo, i - 1) +
      if pass.expiring then 1
      else (if Again(env, canRedo, i - 1) then 1 else 0) + (if pass.written == Lost then 1 else 0)
  }

  /** Why a pass aborts. */
  predicate Aborts(env: nat -> Pass, maxRedos: nat, canRedo: bool, i: nat) {
    var pass, spent := env(i), Spent(env, canRedo, i);
    if pass.expiring then spent == maxRedos
    else
      || (pass.conflict && !canRedo)
      || (Again(env, canRedo, i) && (spent == maxRedos || !pass.rebuilt))
      || pass.written == Failed
      || (pass.written == Lost && spent + (if Again(env, canRedo, i) then 1 else 0) == maxRedos)
  }

  /** Why a pass commits. */
  predicate Commits(env: nat -> Pass, maxRedos: nat, canRedo: bool, i: nat) {
    && env(i).written == Ok && !Aborts(env, maxRedos, canRedo, i) && !env(i).expiring
  }

  predicate Ends(env: nat -> Pass, maxRedos: nat, canRedo: bool, i: nat) {
    Aborts(env, maxRedos, canRedo, i) || Commits(env, maxRedos, canRedo, i)
  }

  /** The loop goes on until a pass ends it, and the last pass alone decides how. */
  lemma {:induction false} EndsByItsLastPass(env: nat -> Pass, maxRedos: nat, canRedo: bool, i: nat, rounds: nat, redone: Option<nat>)
    requires rounds == Spent(env, canRedo, i) <= maxRedos && (redone.Some? <==> canRedo && PassedBefore(env, i))
    ensures var o := FromPass(env, maxRedos, canRedo, i, rounds, redone);
            && PassesOf(o) > i && (forall k: nat | i <= k < PassesOf(o) - 1 :: !Ends(env, maxRedos, canRedo, k))
            && (if o.Committed? then Commits(env, maxRedos, canRedo, PassesOf(o) - 1)
                else Aborts(env, maxRedos, canRedo, PassesOf(o) - 1))
    decreases maxRedos - rounds
  {
    var pass := env(i);
    var rounds' := if Again(env, canRedo, i) then rounds + 1 else rounds;
    if pass.expiring {
      if rounds < maxRedos { EndsByItsLastPass(env, maxRedos, canRedo, i + 1, rounds + 1, redone); }
    } else if !Aborts(env, maxRedos, canRedo, i) && pass.written == Lost {
      EndsByItsLastPass(env, maxRedos, canRedo, i + 1, rounds' + 1, Redone(env, canRedo, i, redone));
    }
  }

  /** So the first pass that ends the loop decides: commit returns true exactly if that pass commits. */
  lemma CommitsExactly(env: nat -> Pass, maxRedos: nat, canRedo: bool, last: nat)
    requires Ends(env, maxRedos, canRedo, last) && forall k: nat | k < last :: !Ends(env, maxRedos, canRedo, k)
    ensures var o := FromPass(env, maxRedos, canRedo, 0, 0, None);
            PassesOf(o) == last + 1 && (o.Committed? <==> Commits(env, maxRedos, canRedo, last))
  {
    EndsByItsLastPass(env, maxRedos, canRedo, 0, 0, None);
    var o := FromPass(env, maxRedos, canRedo, 0, 0, None);
    assert PassesOf(o) - 1 < last ==> !Ends(env, maxRedos, canRedo, PassesOf(o) - 1);
  }

  /** A pass with leases that last, no conflict and all commits written is never wasted. */
  lemma CleanPassCommits(env: nat -> Pass, maxRedos: nat, canRedo: bool, i: nat)
    requires !env(i).expiring && !env(i).conflict && env(i).written == Ok
    requires forall k: nat | k < i :: !Ends(env, maxRedos, canRedo, k)
    ensures var o := FromPass(env, maxRedos, canRedo, 0, 0, None); o.Committed? && o.passes == i + 1
  {
    CommitsExactly(env, maxRedos, canRedo, i);
  }
}
