/** plenum/common/strategies.py: `AccumulatingMonitorStrategy`, which
    counts the requests each protocol instance orders and raises an alert
    when a backup instance gets too far ahead of the master (instance 0).
    Timestamps and the timeout are whole clock ticks; the input rate, the
    value of the rate estimator, is a `real` given by the caller. */
module Strategies {
  import opened Wrappers

  /** `self._ordered[i]` on the `defaultdict(lambda: 0)`: an instance that
      has ordered nothing counts 0. */
  function Count(ordered: map<int, int>, i: int): int
  {
    if i in ordered then ordered[i] else 0
  }

  /** `max(self._ordered[i] for i in range(lo, hi))`: the largest count of
      the instances `lo .. hi-1`, reached by one of them. */
  function MaxOrdered(ordered: map<int, int>, lo: int, hi: int): (m: int)
    requires lo < hi
    ensures exists i :: lo <= i < hi && m == Count(ordered, i)
    ensures forall i :: lo <= i < hi ==> Count(ordered, i) <= m
    decreases hi - lo
  {
    if lo + 1 == hi then Count(ordered, lo)
    else
      var rest := MaxOrdered(ordered, lo + 1, hi);
      if Count(ordered, lo) >= rest then Count(ordered, lo) else rest
  }

  /** `_is_degraded()`: with at least two instances, the master is degraded
      when some backup has ordered more than `txnDeltaK * rate` requests
      beyond it; with fewer than two it never is. */
  predicate IsDegraded(instances: int, ordered: map<int, int>, txnDeltaK: int, rate: real)
    ensures IsDegraded(instances, ordered, txnDeltaK, rate) <==>
      2 <= instances &&
      exists i :: 1 <= i < instances &&
        (Count(ordered, i) - Count(ordered, 0)) as real > txnDeltaK as real * rate
  {
    2 <= instances &&
    (MaxOrdered(ordered, 1, instances) - Count(ordered, 0)) as real > txnDeltaK as real * rate
  }

  /** Python's truthiness of the alert timestamp: `None` and `0` are
      both false. */
  predicate AlertSet(alert: Option<int>)
  {
    alert.Some? && alert.value != 0
  }

  /** The alert part of `update_time(now)`: cleared when the master is not
      degraded, started at `now` when degraded and no (truthy) alert is
      running, and otherwise kept. */
  function AlertAfter(alert: Option<int>, degraded: bool, now: int): (r: Option<int>)
    ensures r.None? <==> !degraded
    ensures degraded ==> r == alert || r == Some(now)
    ensures degraded && now != 0 ==> AlertSet(r)
  {
    if !degraded then None
    else if !AlertSet(alert) then Some(now)
    else alert
  }

  /** `is_master_degraded()`, which tests the alert against `None` only. */
  predicate MasterDegraded(alert: Option<int>, now: int, timeout: int)
    ensures alert.None? ==> !MasterDegraded(alert, now, timeout)
    ensures MasterDegraded(alert, now, timeout) && timeout >= 0 ==> alert.value < now
  {
    alert.Some? && now - alert.value > timeout
  }

  /** The alert after a run of `update_time` calls, each given as its
      timestamp and whether the master was degraded at that moment. */
  function AlertRun(alert: Option<int>, steps: seq<(int, bool)>): Option<int>
    decreases |steps|
  {
    if steps == [] then alert
    else AlertRun(AlertAfter(alert, steps[0].1, steps[0].0), steps[1..])
  }

  /** A run in which the master stays degraded and no timestamp is zero. */
  predicate DegradedThroughout(steps: seq<(int, bool)>)
  {
    forall k :: 0 <= k < |steps| ==> steps[k].1 && steps[k].0 != 0
  }

  /** A running non-zero alert survives every later degraded update. */
  lemma {:induction false} AlertPersists(a: int, steps: seq<(int, bool)>)
    requires a != 0
    requires DegradedThroughout(steps)
    ensures AlertRun(Some(a), steps) == Some(a)
    decreases |steps|
  {
    if steps != [] {
      assert DegradedThroughout(steps[1..]) by {
        forall k | 0 <= k < |steps[1..]|
          ensures steps[1..][k].1 && steps[1..][k].0 != 0
        {
          assert steps[1..][k] == steps[k + 1];
        }
      }
      AlertPersists(a, steps[1..]);
    }
  }

  /** Starting with no alert, a degraded run keeps the time of its first
      update as the alert. */
  lemma AlertKeepsFirst(steps: seq<(int, bool)>)
    requires steps != []
    requires DegradedThroughout(steps)
    ensures AlertRun(None, steps) == Some(steps[0].0)
  {
    assert steps[0].1 && steps[0].0 != 0;
    assert DegradedThroughout(steps[1..]) by {
      forall k | 0 <= k < |steps[1..]|
        ensures steps[1..][k].1 && steps[1..][k].0 != 0
      {
        assert steps[1..][k] == steps[k + 1];
      }
    }
    AlertPersists(steps[0].0, steps[1..]);
  }

  /** So, over such a run, the master is reported degraded exactly when
      more than `timeout` has passed since the run began. */
  lemma DegradedAfterTimeout(steps: seq<(int, bool)>, now: int, timeout: int)
    requires steps != []
    requires DegradedThroughout(steps)
    ensures MasterDegraded(AlertRun(None, steps), now, timeout) <==> now - steps[0].0 > timeout
  {
    AlertKeepsFirst(steps);
  }

  /** Any update at which the master is not degraded clears the alert, so
      `is_master_degraded` is false until the next degraded update. */
  lemma {:induction false} RecoveryClearsAlert(alert: Option<int>, steps: seq<(int, bool)>, now: int, timeout: int)
    requires steps != [] && !steps[|steps| - 1].1
    ensures AlertRun(alert, steps) == None
    ensures !MasterDegraded(AlertRun(alert, steps), now, timeout)
    decreases |steps|
  {
    if |steps| > 1 {
      assert steps[1..][|steps[1..]| - 1] == steps[|steps| - 1];
      RecoveryClearsAlert(AlertAfter(alert, steps[0].1, steps[0].0), steps[1..], now, timeout);
    }
  }

  /** An alert raised at time 0 is a running alert for `is_master_degraded`
      but no alert for `update_time`, which restarts it at the next
      degraded update. */
  lemma ZeroAlertAmbiguous(now: int, later: int, timeout: int)
    ensures MasterDegraded(Some(0), now, timeout) <==> now > timeout
    ensures AlertAfter(Some(0), true, later) == Some(later)
    ensures AlertSet(Some(later)) <==> later != 0
  {
  }

  class AccumulatingMonitorStrategy {
    var instances: int
    const txnDeltaK: int
    const timeout: int
    /** The `defaultdict` of ordered counts; read through `Count`. */
    var ordered: map<int, int>
    var timestamp: int
    var alert: Option<int>

    /** `__init__`: no request ordered yet and no alert. The rate
        estimator's half-time parameter belongs to the estimator. */
    constructor(startTime: int, instances: int, txnDeltaK: int, timeout: int)
      ensures this.instances == instances && this.txnDeltaK == txnDeltaK && this.timeout == timeout
      ensures ordered == map[] && timestamp == startTime && alert == None
      ensures forall i :: Count(ordered, i) == 0
    {
      this.instances := instances;
      this.txnDeltaK := txnDeltaK;
      this.timeout := timeout;
      ordered := map[];
      timestamp := startTime;
      alert := None;
    }

    method AddInstance()
      modifies this
      ensures instances == old(instances) + 1
      ensures ordered == old(ordered) && timestamp == old(timestamp) && alert == old(alert)
    {
      instances := instances + 1;
    }

    method RemoveInstance()
      modifies this
      ensures instances == old(instances) - 1
      ensures ordered == old(ordered) && timestamp == old(timestamp) && alert == old(alert)
    {
      instances := instances - 1;
    }

    /** `reset()`: no alert and every count back to 0; the instance count
        and the clock stay. */
    method Reset()
      modifies this
      ensures alert == None && ordered == map[]
      ensures forall i :: Count(ordered, i) == 0
      ensures !MasterDegraded(alert, timestamp, timeout)
      ensures instances == old(instances) && timestamp == old(timestamp)
    {
      alert := None;
      ordered := map[];
    }

    /** `update_time(now)`, given the rate estimator's value after it saw
        `now`. */
    method UpdateTime(now: int, rate: real)
      modifies this
      ensures timestamp == now
      ensures !IsDegraded(instances, ordered, txnDeltaK, rate) ==> alert == None
      ensures IsDegraded(instances, ordered, txnDeltaK, rate) && !AlertSet(old(alert)) ==> alert == Some(now)
      ensures IsDegraded(instances, ordered, txnDeltaK, rate) && AlertSet(old(alert)) ==> alert == old(alert)
      ensures alert == AlertAfter(old(alert), IsDegraded(instances, ordered, txnDeltaK, rate), now)
      ensures instances == old(instances) && ordered == old(ordered)
    {
      timestamp := now;
      if !IsDegraded(instances, ordered, txnDeltaK, rate) {
        alert := None;
      } else if alert.None? || alert.value == 0 {
        alert := Some(timestamp);
      }
    }

    /** `request_ordered(id, inst_id)`: one more ordered request for
        `instId` and for no other instance. */
    method RequestOrdered(instId: int)
      modifies this
      ensures Count(ordered, instId) == Count(old(ordered), instId) + 1
      ensures forall j :: j != instId ==> Count(ordered, j) == Count(old(ordered), j)
      ensures instances == old(instances) && timestamp == old(timestamp) && alert == old(alert)
    {
      ordered := ordered[instId := Count(ordered, instId) + 1];
    }

    /** `is_master_degraded()`: an alert is running (by the `None` test)
        and has lasted longer than the timeout. */
    method IsMasterDegraded() returns (r: bool)
      ensures r <==> alert.Some? && timestamp - alert.value > timeout
      ensures r == MasterDegraded(alert, timestamp, timeout)
    {
      if alert.None? {
        return false;
      }
      return timestamp - alert.value > timeout;
    }
  }
}
