/** Estimating the object store's clock from coarse Date headers, and why leases can rest on the
    estimate (OffsetClock, StoreTime; the takeover and lease checks of the marker protocol). All
    times are milliseconds. */
module StoreClock {

  /** A response with store time `store`, a multiple of the resolution, sent and received at local times. */
  datatype Sample = Sample(store: int, sent: int, received: int, resolution: int)
  {
    function Low(): int { store - received }
    function High(): int { store + resolution - sent }
  }

  datatype StoreTime = StoreTime(now: int, uncertainty: int)
  {
    function Earliest(): int { now - uncertainty }
    function Latest(): int { now + uncertainty }
  }

  datatype Clock = Clock(valid: bool, low: int, high: int, lastSample: int)

  function Max(a: int, b: int): int { if a < b then b else a }
  function Min(a: int, b: int): int { if b < a then b else a }

  /** C++ division by two rounds towards zero. */
  function Half(x: int): int { if x < 0 then -((-x) / 2) else x / 2 }

  const UNSET := Clock(false, 0, 0, 0)

  function Added(c: Clock, s: Sample): Clock {
    if c.valid && s.Low() <= c.high && s.High() >= c.low then
      Clock(true, Max(c.low, s.Low()), Min(c.high, s.High()), s.received)
    else Clock(true, s.Low(), s.High(), s.received)
  }

  function AllAdded(c: Clock, samples: seq<Sample>): Clock {
    if samples == [] then c else Added(AllAdded(c, samples[..|samples| - 1]), samples[|samples| - 1])
  }

  function Now(c: Clock, local: int): StoreTime {
    if !c.valid then StoreTime(local, 0)
    else StoreTime(local + c.low + Half(c.high - c.low), Half(c.high - c.low + 1))
  }

  class OffsetClock {
    var valid: bool
    var low: int
    var high: int
    var lastSample: int

    ghost function View(): Clock
      reads this
    {
      Clock(valid, low, high, lastSample)
    }

    constructor ()
      ensures View() == UNSET
    {
      valid, low, high, lastSample := false, 0, 0, 0;
    }

    method AddSample(s: Sample)
      modifies this
      ensures View() == Added(old(View()), s)
    {
      var sampleLow, sampleHigh := s.store - s.received, s.store + s.resolution - s.sent;
      lastSample := s.received;
      if valid && sampleLow <= high && sampleHigh >= low {
        low := Max(low, sampleLow);
        high := Min(high, sampleHigh);
      } else {
        low, high, valid := sampleLow, sampleHigh, true;
      }
    }
  }

  // ---- honest samples ------------------------------------------------------------------------

  /** The store made the response between sending and receiving, when its clock, `offset` ahead of
      the local one, showed a time that is `store` when cut to the resolution. */
  ghost predicate Honest(s: Sample, offset: int) {
    exists local: int :: AnsweredAt(s, offset, local)
  }

  predicate AnsweredAt(s: Sample, offset: int, local: int) {
    s.sent <= local <= s.received && s.store <= local + offset < s.store + s.resolution
  }

  /** An honest sample never contradicts an estimate that contains the true offset. */
  lemma HonestSampleNarrows(c: Clock, s: Sample, offset: int)
    requires Honest(s, offset) && (c.valid ==> c.low <= offset <= c.high)
    ensures var c' := Added(c, s);
            && c'.valid && c'.low <= offset <= c'.high
            && c'.low == (if c.valid then Max(c.low, s.Low()) else s.Low())
            && c'.high == (if c.valid then Min(c.high, s.High()) else s.High())
  {
    var local :| AnsweredAt(s, offset, local);
  }

  ghost predicate Intersects(c: Clock, samples: seq<Sample>) {
    && (forall i | 0 <= i < |samples| :: samples[i].Low() <= c.low && c.high <= samples[i].High())
    && (exists i :: 0 <= i < |samples| && samples[i].Low() == c.low)
    && (exists i :: 0 <= i < |samples| && samples[i].High() == c.high)
  }

  /** With honest samples the estimate never starts over: it is the intersection of the intervals
      of all samples, and the true offset lies in it. */
  lemma {:induction false} EstimateIsIntersection(samples: seq<Sample>, offset: int)
    requires samples != [] && forall i | 0 <= i < |samples| :: Honest(samples[i], offset)
    ensures var c := AllAdded(UNSET, samples);
            c.valid && c.low <= offset <= c.high && Intersects(c, samples)
  {
    var before, n := samples[..|samples| - 1], |samples| - 1;
    var c := AllAdded(UNSET, samples);
    if before == [] {
      assert AllAdded(UNSET, before) == UNSET;
      HonestSampleNarrows(UNSET, samples[n], offset);
      assert samples[0].Low() == c.low && samples[0].High() == c.high;
    } else {
      EstimateIsIntersection(before, offset);
      var was := AllAdded(UNSET, before);
      HonestSampleNarrows(was, samples[n], offset);
      var i :| 0 <= i < n && before[i].Low() == was.low;
      var j :| 0 <= j < n && before[j].High() == was.high;
      assert samples[i].Low() == c.low || samples[n].Low() == c.low;
      assert samples[j].High() == c.high || samples[n].High() == c.high;
    }
  }

  /** No offset fits both the estimate and the sample. */
  predicate Contradicts(c: Clock, s: Sample) {
    c.valid && (s.High() < c.low || c.high < s.Low())
  }

  predicate ContradictsAt(samples: seq<Sample>, j: nat)
    requires j < |samples|
  {
    j > 0 && Contradicts(AllAdded(UNSET, samples[..j]), samples[j])
  }

  /** Sample k is the last one that contradicted the estimate before it, or the first one. */
  predicate StartsAt(samples: seq<Sample>, k: nat) {
    && k < |samples| && (k == 0 || ContradictsAt(samples, k))
    && forall j | k < j < |samples| :: !ContradictsAt(samples, j)
  }

  lemma StillStartsAt(samples: seq<Sample>, before: seq<Sample>, k: nat)
    requires samples != [] && before == samples[..|samples| - 1]
    requires StartsAt(before, k) && !ContradictsAt(samples, |samples| - 1)
    ensures StartsAt(samples, k)
  {
    forall j | 0 <= j < |before| ensures ContradictsAt(before, j) == ContradictsAt(samples, j) {
      assert before[..j] == samples[..j];
    }
  }

  /** Whatever the samples are: the estimate is the intersection of those from the last
      contradiction on; a contradicting sample's own interval replaces the estimate. */
  lemma {:induction false} EstimateSinceContradiction(samples: seq<Sample>) returns (k: nat)
    requires samples != []
    ensures StartsAt(samples, k)
    ensures var c := AllAdded(UNSET, samples);
            c.valid && Intersects(c, samples[k..]) && c.lastSample == samples[|samples| - 1].received
  {
    var n := |samples| - 1;
    var before, s := samples[..n], samples[n];
    var was := AllAdded(UNSET, before);
    if n == 0 || ContradictsAt(samples, n) {
      k := n;
      StartsAnew(was, s);
      assert samples[n..] == [s];
    } else {
      k := EstimateSinceContradiction(before);
      StillStartsAt(samples, before, k);
      IntersectsOneMore(was, s, Added(was, s), before[k..]);
      assert samples[k..] == before[k..] + [s];
    }
  }

  lemma StartsAnew(c: Clock, s: Sample)
    requires c.valid ==> Contradicts(c, s)
    ensures Added(c, s).valid && Intersects(Added(c, s), [s]) && Added(c, s).lastSample == s.received
  {
    assert [s][0].Low() == Added(c, s).low && [s][0].High() == Added(c, s).high;
  }

  lemma IntersectsOneMore(was: Clock, s: Sample, c: Clock, samples: seq<Sample>)
    requires was.valid && Intersects(was, samples) && !Contradicts(was, s) && c == Added(was, s)
    ensures Intersects(c, samples + [s])
  {
    var n, all := |samples|, samples + [s];
    var i :| 0 <= i < n && samples[i].Low() == was.low;
    var j :| 0 <= j < n && samples[j].High() == was.high;
    assert all[i] == samples[i] && all[j] == samples[j] && all[n] == s;
    assert all[i].Low() == c.low || all[n].Low() == c.low;
    assert all[j].High() == c.high || all[n].High() == c.high;
  }

  /** The midpoint of any estimate is rounded towards its low end by less than a millisecond, and the
      uncertainty is half its width, rounded up; also when a local clock that went back while a
      response was under way has turned the interval around, up to the direction of rounding. */
  lemma MidpointAndWidth(c: Clock, local: int)
    requires c.valid
    ensures var t, width := Now(c, local), c.high - c.low;
            var off := 2 * (t.now - local) - (c.low + c.high);
            && (if width >= 0 then -1 <= off <= 0 else 0 <= off <= 1)
            && (if width >= -1 then 0 <= 2 * t.uncertainty - width <= 1 else 1 <= 2 * t.uncertainty - width <= 2)
  {}

  /** Without samples the estimate is right exactly if the clocks agree. */
  lemma UnsetTrustsLocalClock(offset: int, local: int)
    ensures var t := Now(UNSET, local); t.Earliest() <= local + offset <= t.Latest() <==> offset == 0
  {}

  /** The true store time lies between the earliest and the latest estimate, although the midpoint
      is rounded. */
  lemma TrueTimeIsInside(samples: seq<Sample>, offset: int, local: int)
    requires samples != [] && forall i | 0 <= i < |samples| :: Honest(samples[i], offset)
    ensures var t := Now(AllAdded(UNSET, samples), local);
            t.Earliest() <= local + offset <= t.Latest()
  {
    EstimateIsIntersection(samples, offset);
  }

  /** Rounding widens the interval by at most a millisecond on either side. */
  lemma EstimateIsTight(samples: seq<Sample>, offset: int, local: int)
    requires samples != [] && forall i | 0 <= i < |samples| :: Honest(samples[i], offset)
    ensures var c := AllAdded(UNSET, samples);
            var t := Now(c, local);
            local + c.low - 1 <= t.Earliest() <= local + c.low && local + c.high <= t.Latest() <= local + c.high + 1
  {
    EstimateIsIntersection(samples, offset);
  }

  // ---- leases --------------------------------------------------------------------------------

  datatype Observer = Observer(samples: seq<Sample>, offset: int)
  {
    ghost predicate Trusted() {
      samples != [] && forall i | 0 <= i < |samples| :: Honest(samples[i], offset)
    }

    function Estimate(local: int): StoreTime { Now(AllAdded(UNSET, samples), local) }
  }

  function Margin(lease: nat): nat { if lease / 4 < 500 then lease / 4 else 500 }

  /** wait_for_marker: the marker may be taken over. */
  predicate MayTakeOver(o: Observer, local: int, deadline: int, grace: nat) {
    o.Estimate(local).Earliest() > deadline + grace
  }

  /** !lease_expiring: the commit may be written. */
  predicate MayCommit(o: Observer, local: int, deadline: int, lease: nat) {
    o.Estimate(local).Latest() + Margin(lease) < deadline
  }

  /** Store time decides: nobody takes a marker over before its deadline and the grace period have
      passed, nobody starts to write a commit within the margin of the deadline. */
  lemma LeasesKeepStoreTime(o: Observer, local: int, deadline: int, lease: nat, grace: nat)
    requires o.Trusted()
    ensures MayTakeOver(o, local, deadline, grace) ==> local + o.offset > deadline + grace
    ensures MayCommit(o, local, deadline, lease) ==> local + o.offset + Margin(lease) < deadline
  {
    TrueTimeIsInside(o.samples, o.offset, local);
  }

  /** A marker is leased from the estimate at its reservation. Its holder may commit while the time
      since then and the uncertainty fill no more than three quarters of the lease, or leave more
      than half a second; and what is left then is a quarter of the lease, or half a second. */
  lemma LeaseIsUsable(o: Observer, reserved: int, local: int, lease: nat)
    ensures var used := local - reserved + o.Estimate(local).uncertainty;
            var may := MayCommit(o, local, o.Estimate(reserved).now + lease, lease);
            && (4 * used < 3 * lease || used + 500 < lease ==> may)
            && (may ==> 4 * (lease - used) > lease - 4 || lease - used > 500)
            && (may ==> lease - used > 0)
  {}

  /** So a commit that reaches the store within the margin and the grace period of its lease check
      cannot find its marker taken over, whatever the clocks of the two sides show. */
  lemma CommitBeatsTakeover(holder: Observer, checked: int, other: Observer, taken: int, arrives: int,
                            deadline: int, lease: nat, grace: nat)
    requires holder.Trusted() && other.Trusted()
    requires MayCommit(holder, checked, deadline, lease)
    requires arrives <= checked + holder.offset + Margin(lease) + grace
    requires MayTakeOver(other, taken, deadline, grace)
    ensures arrives < taken + other.offset
  {
    LeasesKeepStoreTime(holder, checked, deadline, lease, grace);
    LeasesKeepStoreTime(other, taken, deadline, lease, grace);
  }
}
