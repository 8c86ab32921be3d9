/**
 * The liveness record: the latest reported instant and the freshness test
 * applied to it.
 */
module Liveness {
  import opened Clock

  /** Alive(at): the stored instant moves to `at` only when it lies strictly before it. */
  function AliveStep(lastAlive: Time, at: Time): (r: Time)
    ensures r >= lastAlive && r >= at
    ensures r == lastAlive || r == at
  {
    if lastAlive < at then at else lastAlive
  }

  /** The subject is alive at `now` when less than `threshold` has passed since `lastAlive`. */
  predicate IsAlive(lastAlive: Time, threshold: Duration, now: Time) {
    now - lastAlive < threshold
  }

  /** The stored instant after the reports `ats`, applied in order from `lastAlive`. */
  function Fold(lastAlive: Time, ats: seq<Time>): Time
    decreases |ats|
  {
    if ats == [] then lastAlive else Fold(AliveStep(lastAlive, ats[0]), ats[1..])
  }

  /** An earlier or equal report leaves the record as it was. */
  lemma StaleReportIgnored(lastAlive: Time, at: Time)
    requires at <= lastAlive
    ensures AliveStep(lastAlive, at) == lastAlive
  {
  }

  /** After any run of reports, the record is the largest of the start value and all reports. */
  lemma {:induction false} FoldIsMax(lastAlive: Time, ats: seq<Time>)
    ensures Fold(lastAlive, ats) >= lastAlive
    ensures forall i :: 0 <= i < |ats| ==> Fold(lastAlive, ats) >= ats[i]
    ensures Fold(lastAlive, ats) == lastAlive || Fold(lastAlive, ats) in ats
    decreases |ats|
  {
    if ats != [] {
      var next := AliveStep(lastAlive, ats[0]);
      FoldIsMax(next, ats[1..]);
      forall i | 0 <= i < |ats|
        ensures Fold(lastAlive, ats) >= ats[i]
      {
        if i > 0 {
          assert ats[i] == ats[1..][i - 1];
        }
      }
      if Fold(next, ats[1..]) in ats[1..] {
        var j :| 0 <= j < |ats[1..]| && ats[1..][j] == Fold(next, ats[1..]);
        assert ats[j + 1] == Fold(lastAlive, ats);
      }
    }
  }

  /** The order in which reports arrive does not matter: the highest one wins. */
  lemma OrderIndependent(lastAlive: Time, ats: seq<Time>, bts: seq<Time>)
    requires multiset(ats) == multiset(bts)
    ensures Fold(lastAlive, ats) == Fold(lastAlive, bts)
  {
    var a, b := Fold(lastAlive, ats), Fold(lastAlive, bts);
    FoldIsMax(lastAlive, ats);
    FoldIsMax(lastAlive, bts);
    assert forall x :: x in ats <==> x in multiset(ats);
    assert forall x :: x in bts <==> x in multiset(bts);
    // A report in one run is a report in the other, so each fold bounds the other.
    if a in ats {
      var i :| 0 <= i < |bts| && bts[i] == a;
      assert a <= b;
    }
    if b in bts {
      var i :| 0 <= i < |ats| && ats[i] == b;
      assert b <= a;
    }
  }

  /**
   * After a report at T, the subject is alive throughout [T, T + threshold);
   * when that report was the newest one, it is alive exactly before T + threshold.
   */
  lemma AliveWindow(lastAlive: Time, at: Time, threshold: Duration, now: Time)
    ensures at <= now < at + threshold ==> IsAlive(AliveStep(lastAlive, at), threshold, now)
    ensures lastAlive <= at ==> (IsAlive(AliveStep(lastAlive, at), threshold, now) <==> now < at + threshold)
  {
  }
}
