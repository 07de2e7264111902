/** The I-V sweep's bookkeeping and its closing decision (lib/MPPTLib/solar.cpp:253-292):
    the samples of one sweep, the collapsed / uncollapsed counts, the maximum-power sample
    and the choice between tracking a backed-off operating point and running collapsed. */
module Sweep {

  /** One sweep observation (`SPoint`): output voltage and current, input voltage, and
      whether the source had collapsed when it was taken. */
  datatype SPoint = SPoint(v: real, i: real, input: real, collapsed: bool)

  /** `SPoint::p()`: the output power. */
  function Power(s: SPoint): real { s.v * s.i }

  function Last(s: seq<SPoint>): SPoint
    requires |s| > 0
  {
    s[|s| - 1]
  }

  /** The number of collapsed samples. */
  function CollapsedCount(s: seq<SPoint>): (n: nat)
    ensures n <= |s|
    ensures n == |s| <==> forall j :: 0 <= j < |s| ==> s[j].collapsed
  {
    if s == [] then 0
    else
      var n := CollapsedCount(s[..|s| - 1]);
      assert forall j :: 0 <= j < |s| - 1 ==> s[..|s| - 1][j] == s[j];
      n + (if Last(s).collapsed then 1 else 0)
  }

  /** The counting loop (lines 255-259). */
  method CountPoints(s: seq<SPoint>) returns (collapsedPoints: int, nonCollapsedPoints: int)
    ensures collapsedPoints == CollapsedCount(s)
    ensures nonCollapsedPoints == |s| - collapsedPoints
  {
    collapsedPoints, nonCollapsedPoints := 0, 0;
    var i := 0;
    while i < |s|
      invariant 0 <= i <= |s|
      invariant collapsedPoints == CollapsedCount(s[..i])
      invariant nonCollapsedPoints == i - collapsedPoints
    {
      assert s[..i + 1][..i] == s[..i];
      if s[i].collapsed {
        collapsedPoints := collapsedPoints + 1;
      } else {
        nonCollapsedPoints := nonCollapsedPoints + 1;
      }
      i := i + 1;
    }
    assert s[..i] == s;
  }

  /** `k` is what the maximum search of lines 268-275 returns: sample 0 or an uncollapsed
      sample, at least as powerful as every uncollapsed sample, and strictly more powerful
      than every earlier candidate (sample 0 and the uncollapsed ones), so the earliest
      of equally powerful samples wins. */
  ghost predicate IsPeak(s: seq<SPoint>, k: int)
  {
    && 0 <= k < |s|
    && (k == 0 || !s[k].collapsed)
    && (forall j :: 0 <= j < |s| && !s[j].collapsed ==> Power(s[j]) <= Power(s[k]))
    && (forall j :: 0 <= j < k && (j == 0 || !s[j].collapsed) ==> Power(s[j]) < Power(s[k]))
  }

  /** The maximum search as a left-to-right scan with a strict `>`, starting from index 0. */
  function MaxIndex(s: seq<SPoint>): (k: nat)
    requires |s| > 0
    ensures IsPeak(s, k)
  {
    if |s| == 1 then 0
    else
      var m := MaxIndex(s[..|s| - 1]);
      assert forall j :: 0 <= j < |s| - 1 ==> s[..|s| - 1][j] == s[j];
      if !Last(s).collapsed && Power(Last(s)) > Power(s[m]) then |s| - 1 else m
  }

  /** The maximum loop (lines 268-275). */
  method FindMaxIndex(s: seq<SPoint>) returns (maxIndex: int)
    requires |s| > 0
    ensures maxIndex == MaxIndex(s)
  {
    maxIndex := 0;
    var i := 0;
    while i < |s|
      invariant 0 <= i <= |s|
      invariant i == 0 ==> maxIndex == 0
      invariant i > 0 ==> maxIndex == MaxIndex(s[..i])
    {
      if i > 0 {
        assert s[..i + 1][..i] == s[..i];
      }
      if !s[i].collapsed && Power(s[i]) > Power(s[maxIndex]) {
        maxIndex := i;
      }
      i := i + 1;
    }
    assert s[..i] == s;
  }

  /** The peak is unique: `IsPeak` determines the result of the search. */
  lemma PeakIsUnique(s: seq<SPoint>, k1: int, k2: int)
    requires IsPeak(s, k1) && IsPeak(s, k2)
    ensures k1 == k2
  {
  }

  /** The restore-current factor `0.98 - 0.04 * min(collapses, 8)`: more recent collapses,
      more conservative restoration. */
  function RestoreFactor(collapses: nat): (f: real)
    ensures 0.66 <= f <= 0.98
  {
    0.98 - 0.04 * (if collapses < 8 then collapses else 8) as real
  }

  /** The current a tracked sweep restores at: the chosen sample's output current, scaled. */
  function RestoreCurrent(s: SPoint, collapses: nat): real
  {
    s.i * RestoreFactor(collapses)
  }

  lemma RestoreFactorNonIncreasing(a: nat, b: nat)
    requires a <= b
    ensures RestoreFactor(b) <= RestoreFactor(a)
  {
  }

  /** What the sweep step does with its samples once the newest one is recorded. */
  datatype Conclusion =
    | Pending                                      // the sweep goes on
    | NoHeadroom                                   // collapsed from the start: abort
    | RunCollapsed(setpoint: real)                 // the collapse point beats every sample: collapse mode
    | Track(index: nat, setpoint: real, restoreCurrent: real)  // back off from the peak and track it

  /** Lines 262-289: the sweep concludes when the newest sample is collapsed and at least two
      samples are; with no uncollapsed sample it aborts; otherwise the peak is compared with
      the newest (collapse) sample, and on a tie or a win the peak is backed off by two samples. */
  function Conclude(pts: seq<SPoint>, collapses: nat): (r: Conclusion)
    requires |pts| > 0
    ensures r != Pending <==> Last(pts).collapsed && CollapsedCount(pts) >= 2
    ensures r == NoHeadroom <==> r != Pending && forall j :: 0 <= j < |pts| ==> pts[j].collapsed
  {
    var last := Last(pts);
    if !(last.collapsed && CollapsedCount(pts) >= 2) then Pending
    else if CollapsedCount(pts) == |pts| then NoHeadroom
    else
      var m := MaxIndex(pts);
      if Power(pts[m]) < Power(last) then RunCollapsed(last.input)
      else
        var idx := if m - 2 > 0 then m - 2 else 0;
        Track(idx, pts[idx].input, RestoreCurrent(pts[idx], collapses))
  }

  /** Lines 255-289 as the code runs them: count the collapsed samples and, when the sweep
      concludes with headroom, search for the peak. */
  method DecideSweep(pts: seq<SPoint>, collapses: nat) returns (k: Conclusion)
    requires |pts| > 0
    ensures k == Conclude(pts, collapses)
  {
    var collapsedPoints, nonCollapsedPoints := CountPoints(pts);
    var collapsePoint := pts[|pts| - 1];
    if !(collapsePoint.collapsed && collapsedPoints >= 2) {
      return Pending;
    }
    if nonCollapsedPoints == 0 {
      return NoHeadroom;
    }
    var maxIndex := FindMaxIndex(pts);
    if Power(pts[maxIndex]) < Power(collapsePoint) {
      k := RunCollapsed(collapsePoint.input);
    } else {
      maxIndex := if maxIndex - 2 > 0 then maxIndex - 2 else 0;
      k := Track(maxIndex, pts[maxIndex].input, RestoreCurrent(pts[maxIndex], collapses));
    }
  }

  /** Running collapsed: the set-point is the collapse point's input voltage, and no
      uncollapsed sample (nor sample 0) reaches the collapse point's power. */
  lemma RunCollapsedMeansCollapsePointWins(pts: seq<SPoint>, collapses: nat)
    requires |pts| > 0 && Conclude(pts, collapses).RunCollapsed?
    ensures Conclude(pts, collapses).setpoint == Last(pts).input
    ensures Power(pts[0]) < Power(Last(pts))
    ensures forall j :: 0 <= j < |pts| && !pts[j].collapsed ==> Power(pts[j]) < Power(Last(pts))
    ensures exists j :: 0 <= j < |pts| && !pts[j].collapsed
  {
    var m := MaxIndex(pts);
    if m > 0 {
      assert Power(pts[0]) < Power(pts[m]);
    }
  }

  /** Conversely, when the sweep concludes with some uncollapsed sample and neither sample 0
      nor any uncollapsed sample reaches the collapse point's power, the decision is
      collapse mode, never tracking. */
  lemma CollapsePointWinsMeansRunCollapsed(pts: seq<SPoint>, collapses: nat)
    requires |pts| > 0 && Last(pts).collapsed && CollapsedCount(pts) >= 2
    requires exists j :: 0 <= j < |pts| && !pts[j].collapsed
    requires Power(pts[0]) < Power(Last(pts))
    requires forall j :: 0 <= j < |pts| && !pts[j].collapsed ==> Power(pts[j]) < Power(Last(pts))
    ensures Conclude(pts, collapses) == RunCollapsed(Last(pts).input)
  {
    var m := MaxIndex(pts);
    assert Power(pts[m]) < Power(Last(pts));
  }

  /** Tracking: the chosen sample is the peak backed off by two (clamped at 0); its input
      voltage is the new set-point; the peak is at least as powerful as the collapse point. */
  lemma TrackBacksOffFromPeak(pts: seq<SPoint>, collapses: nat)
    requires |pts| > 0 && Conclude(pts, collapses).Track?
    ensures var r := Conclude(pts, collapses);
      && r.index == (if MaxIndex(pts) >= 2 then MaxIndex(pts) - 2 else 0)
      && r.index < |pts|
      && r.setpoint == pts[r.index].input
      && r.restoreCurrent == RestoreCurrent(pts[r.index], collapses)
    ensures Power(Last(pts)) <= Power(pts[MaxIndex(pts)])
    ensures exists j :: 0 <= j < |pts| && !pts[j].collapsed
  {
    var m := MaxIndex(pts);
    var r := Conclude(pts, collapses);
    assert CollapsedCount(pts) != |pts|;
    assert !(Power(pts[m]) < Power(Last(pts)));
    var j :| 0 <= j < |pts| && !pts[j].collapsed;
  }

  /** A sample (sample 0 or an uncollapsed one) at least as powerful as the collapse point
      makes a concluded sweep track rather than run collapsed. */
  lemma MatchingSampleMeansTrack(pts: seq<SPoint>, collapses: nat, j: int)
    requires |pts| > 0 && Last(pts).collapsed && CollapsedCount(pts) >= 2
    requires 0 <= j < |pts| && !pts[j].collapsed && Power(Last(pts)) <= Power(pts[j])
    ensures Conclude(pts, collapses).Track?
  {
    var m := MaxIndex(pts);
    assert Power(pts[j]) <= Power(pts[m]);
  }

  /** Samples (0.9 A, 9 W), (0.7 A, 8 W), (0.5 A, 6 W, collapsed), (0.3 A, 5 W, collapsed): the
      sweep concludes on the fourth sample, the peak is sample 0 (9 W beats 8 W, so the search
      does not pick sample 1), backing off by two clamps at sample 0, and 9 W >= 5 W tracks. */
  lemma WorkedExample()
    ensures var s := [SPoint(10.0, 0.9, 20.0, false), SPoint(80.0 / 7.0, 0.7, 19.0, false),
                      SPoint(12.0, 0.5, 15.0, true), SPoint(50.0 / 3.0, 0.3, 14.0, true)];
      && Conclude(s[..3], 0) == Pending
      && MaxIndex(s) == 0
      && Conclude(s, 0) == Track(0, 20.0, RestoreCurrent(s[0], 0))
  {
    var s := [SPoint(10.0, 0.9, 20.0, false), SPoint(80.0 / 7.0, 0.7, 19.0, false),
              SPoint(12.0, 0.5, 15.0, true), SPoint(50.0 / 3.0, 0.3, 14.0, true)];
    assert CollapsedCount(s[..3]) == 1 by {
      assert s[..3][..2] == s[..2];
      assert s[..2][..1] == s[..1];
      assert s[..1][..0] == [];
    }
    assert CollapsedCount(s) == 2 by {
      assert s[..3] == s[..|s| - 1];
    }
    PeakIsUnique(s, MaxIndex(s), 0);
  }

  /** The search starts at index 0 whether or not sample 0 collapsed, so a collapsed but
      powerful first sample can be the peak and become the tracked point. */
  lemma CollapsedFirstSampleCanWin()
    ensures var s := [SPoint(20.0, 1.0, 30.0, true), SPoint(10.0, 1.0, 28.0, false),
                      SPoint(9.0, 1.0, 15.0, true)];
      && MaxIndex(s) == 0 && s[0].collapsed
      && Conclude(s, 0) == Track(0, 30.0, RestoreCurrent(s[0], 0))
  {
    var s := [SPoint(20.0, 1.0, 30.0, true), SPoint(10.0, 1.0, 28.0, false),
              SPoint(9.0, 1.0, 15.0, true)];
    assert CollapsedCount(s) == 2 by {
      assert s[..2][..1] == s[..1];
      assert s[..1][..0] == [];
      assert s[..2] == s[..|s| - 1];
    }
    PeakIsUnique(s, MaxIndex(s), 0);
  }

  /** As written, the sweep leaves its buffer in place when it ends by losing the output
      (line 249), by aborting without headroom (lines 263-266), at the current cap
      (lines 296-301) or in constant-voltage mode (lines 302-304); the next sweep appends to
      it. Here a 20 W sample left over from such an exit makes the next sweep track
      30 V, its stale input voltage, where the sweep's own samples give 28 V. */
  lemma StaleSamplesSteerNextSweep()
    ensures var stale := [SPoint(20.0, 1.0, 30.0, false)];
            var own := [SPoint(10.0, 1.0, 28.0, false), SPoint(9.0, 1.0, 15.0, true),
                         SPoint(8.0, 1.0, 14.0, true)];
      && Conclude(stale + own, 0) == Track(0, 30.0, RestoreCurrent(stale[0], 0))
      && Conclude(own, 0) == Track(0, 28.0, RestoreCurrent(own[0], 0))
  {
    var stale := [SPoint(20.0, 1.0, 30.0, false)];
    var own := [SPoint(10.0, 1.0, 28.0, false), SPoint(9.0, 1.0, 15.0, true),
                  SPoint(8.0, 1.0, 14.0, true)];
    var all := stale + own;
    assert CollapsedCount(own) == 2 by {
      assert own[..2][..1] == own[..1];
      assert own[..1][..0] == [];
      assert own[..2] == own[..|own| - 1];
    }
    assert CollapsedCount(all) == 2 by {
      assert all[..1][..0] == [];
      assert CollapsedCount(all[..1]) == 0;
      assert all[..2][..1] == all[..1];
      assert CollapsedCount(all[..2]) == 0;
      assert all[..3][..2] == all[..2];
      assert CollapsedCount(all[..3]) == 1;
      assert all[..3] == all[..|all| - 1];
    }
    PeakIsUnique(all, MaxIndex(all), 0);
    PeakIsUnique(own, MaxIndex(own), 0);
  }
}
