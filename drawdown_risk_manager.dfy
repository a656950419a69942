/**
 * The account-level kill switch (src/risk_manager.py): a high-water mark of
 * equity and a shutdown threshold that is a fixed fraction of it. `Check`
 * raises the mark on a new peak and signals shutdown when capital falls
 * strictly below the threshold. The notifier is a fire-and-forget sink and
 * is not modelled.
 */
module DrawdownRiskManager {

  /** The high-water mark after observing capital `c`. */
  function NextMark(mark: real, c: real): (m: real)
    ensures m >= mark && m >= c
    ensures m == mark || m == c
  {
    if c > mark then c else mark
  }

  /** The high-water mark after a run of checks, starting from `start`. */
  function MarkAfter(start: real, capitals: seq<real>): real
    decreases |capitals|
  {
    if capitals == [] then start
    else NextMark(MarkAfter(start, capitals[..|capitals| - 1]), capitals[|capitals| - 1])
  }

  /** The answer `check` gives for capital `c` against mark `mark`: shutdown only strictly below the threshold. */
  predicate Passes(c: real, mark: real, pct: real)
  {
    !(c < mark * pct)
  }

  /** The answers `check` gives to a run of capital values. */
  function Verdicts(start: real, pct: real, capitals: seq<real>): (v: seq<bool>)
    decreases |capitals|
  {
    if capitals == [] then []
    else
      var n := |capitals| - 1;
      Verdicts(start, pct, capitals[..n]) + [Passes(capitals[n], MarkAfter(start, capitals), pct)]
  }

  /** The mark is never below the start nor below any capital seen. */
  lemma {:induction false} MarkBoundsAll(start: real, capitals: seq<real>)
    ensures MarkAfter(start, capitals) >= start
    ensures forall i :: 0 <= i < |capitals| ==> MarkAfter(start, capitals) >= capitals[i]
  {
    if capitals != [] {
      var n := |capitals| - 1;
      MarkBoundsAll(start, capitals[..n]);
      assert forall i :: 0 <= i < n ==> capitals[..n][i] == capitals[i];
    }
  }

  /** The mark is attained: it is the start or one of the capitals seen. */
  lemma {:induction false} MarkIsAttained(start: real, capitals: seq<real>)
    ensures MarkAfter(start, capitals) == start || MarkAfter(start, capitals) in capitals
  {
    if capitals != [] {
      var n := |capitals| - 1;
      MarkIsAttained(start, capitals[..n]);
      assert capitals == capitals[..n] + [capitals[n]];
    }
  }

  /** Extending the run never lowers the mark. */
  lemma {:induction false} MarkMonotone(start: real, capitals: seq<real>, k: nat)
    requires k <= |capitals|
    ensures MarkAfter(start, capitals[..k]) <= MarkAfter(start, capitals)
    decreases |capitals|
  {
    if k == |capitals| {
      assert capitals[..k] == capitals;
    } else {
      var n := |capitals| - 1;
      assert capitals[..n][..k] == capitals[..k];
      MarkMonotone(start, capitals[..n], k);
      assert MarkAfter(start, capitals) == NextMark(MarkAfter(start, capitals[..n]), capitals[n]);
    }
  }

  lemma {:induction false} VerdictsLength(start: real, pct: real, capitals: seq<real>)
    ensures |Verdicts(start, pct, capitals)| == |capitals|
    decreases |capitals|
  {
    if capitals != [] {
      VerdictsLength(start, pct, capitals[..|capitals| - 1]);
    }
  }

  /**
   * The i-th answer is "ok" exactly when that capital is at least pct times
   * the mark of everything seen up to and including it.
   */
  lemma {:induction false} VerdictIsPasses(start: real, pct: real, capitals: seq<real>, i: nat)
    requires i < |capitals|
    ensures |Verdicts(start, pct, capitals)| == |capitals|
    ensures Verdicts(start, pct, capitals)[i] == Passes(capitals[i], MarkAfter(start, capitals[..i + 1]), pct)
    decreases |capitals|
  {
    VerdictsLength(start, pct, capitals);
    var n := |capitals| - 1;
    var prefix := capitals[..n];
    VerdictsLength(start, pct, prefix);
    var v := Verdicts(start, pct, capitals);
    assert v == Verdicts(start, pct, prefix) + [Passes(capitals[n], MarkAfter(start, capitals), pct)];
    if i < n {
      VerdictIsPasses(start, pct, prefix, i);
      assert prefix[..i + 1] == capitals[..i + 1];
      assert v[i] == Verdicts(start, pct, prefix)[i];
    } else {
      assert capitals[..i + 1] == capitals;
    }
  }

  class RiskManager {
    const startingCapital: real
    const shutdownThresholdPct: real
    var highWaterMark: real
    var shutdownThresholdValue: real

    /** The threshold always tracks the mark. */
    ghost predicate Valid()
      reads this
    {
      shutdownThresholdValue == highWaterMark * shutdownThresholdPct
    }

    /** The source's default fraction is 0.80, a 20% drawdown. */
    constructor (startingCapital: real, emergencyShutdownThreshold: real)
      ensures Valid()
      ensures this.startingCapital == startingCapital && shutdownThresholdPct == emergencyShutdownThreshold
      ensures highWaterMark == startingCapital
      ensures shutdownThresholdValue == startingCapital * emergencyShutdownThreshold
    {
      this.startingCapital := startingCapital;
      highWaterMark := startingCapital;
      shutdownThresholdPct := emergencyShutdownThreshold;
      shutdownThresholdValue := startingCapital * emergencyShutdownThreshold;
    }

    /** True means keep trading; false means shut down. */
    method Check(currentCapital: real) returns (ok: bool)
      requires Valid()
      modifies this`highWaterMark, this`shutdownThresholdValue
      ensures Valid()
      ensures highWaterMark == NextMark(old(highWaterMark), currentCapital)
      ensures highWaterMark >= old(highWaterMark)
      ensures ok <==> currentCapital >= shutdownThresholdValue
      ensures ok <==> currentCapital >= NextMark(old(highWaterMark), currentCapital) * shutdownThresholdPct
    {
      if currentCapital > highWaterMark {
        highWaterMark := currentCapital;
        shutdownThresholdValue := highWaterMark * shutdownThresholdPct;
      }
      if currentCapital < shutdownThresholdValue {
        return false;
      }
      return true;
    }
  }

  /** Runs `Check` over a sequence of capital values: the answers are `Verdicts`. */
  method CheckAll(rm: RiskManager, capitals: seq<real>) returns (answers: seq<bool>)
    requires rm.Valid()
    modifies rm
    ensures rm.Valid()
    ensures rm.highWaterMark == MarkAfter(old(rm.highWaterMark), capitals)
    ensures answers == Verdicts(old(rm.highWaterMark), rm.shutdownThresholdPct, capitals)
  {
    ghost var start := rm.highWaterMark;
    answers := [];
    for i := 0 to |capitals|
      invariant rm.Valid()
      invariant rm.highWaterMark == MarkAfter(start, capitals[..i])
      invariant answers == Verdicts(start, rm.shutdownThresholdPct, capitals[..i])
    {
      assert capitals[..i + 1][..i] == capitals[..i];
      var ok := rm.Check(capitals[i]);
      answers := answers + [ok];
    }
    assert capitals[..|capitals|] == capitals;
  }

  /** The module's self-test: start 100, 80% threshold, then 110, 105, 85. */
  method SelfTest()
  {
    var rm := new RiskManager(100.0, 0.80);
    assert rm.highWaterMark == 100.0 && rm.shutdownThresholdValue == 80.0;
    var ok := rm.Check(110.0);
    assert ok && rm.highWaterMark == 110.0 && rm.shutdownThresholdValue == 88.0;
    ok := rm.Check(105.0);
    assert ok && rm.highWaterMark == 110.0;
    ok := rm.Check(85.0);
    assert !ok;
  }

  /** Start 100 with a 20% drawdown: after a peak of 120 the bar is 96, so 90 shuts down. */
  lemma PeakRaisesTheBar()
    ensures Verdicts(100.0, 0.80, [100.0, 120.0, 90.0]) == [true, true, false]
  {
    var cs := [100.0, 120.0, 90.0];
    assert cs[..2] == [100.0, 120.0] && cs[..2][..1] == [100.0] && [100.0][..0] == [];
    assert MarkAfter(100.0, [100.0]) == 100.0;
    assert MarkAfter(100.0, cs[..2]) == 120.0;
    assert MarkAfter(100.0, cs) == 120.0;
  }
}
