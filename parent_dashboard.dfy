/**
 * The parent's dashboard (client/src/pages/dashboard/ParentDashboard.jsx):
 * the vaccination total and completion rate drawn from the statistics, the
 * rate's colour, when the distribution chart appears, and the short lists
 * of recent appointments and notifications.
 */
module ParentDashboard {
  import opened Common

  /** The statistics the page reads; `None` when the request failed (`.catch(() => null)`). */
  datatype Stats = Stats(completed: nat, scheduled: nat, delayed: nat)

  function CompletedOf(stats: Option<Stats>): nat
  {
    if stats.Some? then stats.value.completed else 0
  }

  /** `totalVaccinations`: the three counts added, missing ones as 0. */
  function Total(stats: Option<Stats>): (t: nat)
    ensures CompletedOf(stats) <= t
    ensures stats.None? ==> t == 0
    ensures stats.Some? ==> t == stats.value.completed + stats.value.scheduled + stats.value.delayed
  {
    if stats.Some? then stats.value.completed + stats.value.scheduled + stats.value.delayed else 0
  }

  /**
   * `completionRate`: 0 without vaccinations, otherwise the percentage of
   * completed ones rounded half up, as `Math.round` does.
   */
  function Rate(stats: Option<Stats>): (r: nat)
    ensures Total(stats) == 0 ==> r == 0
    ensures Total(stats) > 0 ==> 2 * Total(stats) * r <= 200 * CompletedOf(stats) + Total(stats) < 2 * Total(stats) * (r + 1)
  {
    if Total(stats) == 0 then 0 else RoundedPercent(CompletedOf(stats), Total(stats))
  }

  /** `Math.round(c / t * 100)` in exact arithmetic: the `r` with `r - 1/2 <= 100c/t < r + 1/2`. */
  function RoundedPercent(c: nat, t: nat): (r: nat)
    requires t > 0
    ensures 2 * t * r <= 200 * c + t < 2 * t * (r + 1)
  {
    (200 * c + t) / (2 * t)
  }

  /** The rate is a percentage: 100 when everything is completed, 0 when nothing is. */
  lemma RateBounds(stats: Option<Stats>)
    ensures Rate(stats) <= 100
    ensures Total(stats) > 0 && CompletedOf(stats) == Total(stats) ==> Rate(stats) == 100
    ensures CompletedOf(stats) == 0 ==> Rate(stats) == 0
  {
    if Total(stats) > 0 {
      PercentBounds(CompletedOf(stats), Total(stats));
    }
  }

  lemma PercentBounds(c: nat, t: nat)
    requires 0 < t && c <= t
    ensures RoundedPercent(c, t) <= 100
    ensures c == t ==> RoundedPercent(c, t) == 100
    ensures c == 0 ==> RoundedPercent(c, t) == 0
  {
    var d, x, r := 2 * t, 200 * c + t, RoundedPercent(c, t);
    assert d * r <= x < d * (r + 1);
    assert x < d * 101;
    if r > 100 {
      MulMonotone(d, 101, r);
    }
    if c == t {
      assert d * 100 <= x;
      if r < 100 {
        MulMonotone(d, r + 1, 100);
      }
    }
    if c == 0 {
      assert x < d;
      if r > 0 {
        MulMonotone(d, 1, r);
      }
    }
  }

  lemma MulMonotone(d: nat, a: nat, b: nat)
    requires a <= b
    ensures d * a <= d * b
  {
  }

  datatype Colour = SuccessColour | WarningColour | PrimaryColour

  function RateColour(rate: int): (c: Colour)
    ensures c == SuccessColour <==> rate >= 75
    ensures c == WarningColour <==> 50 <= rate < 75
    ensures c == PrimaryColour <==> rate < 50
  {
    if rate >= 75 then SuccessColour else if rate >= 50 then WarningColour else PrimaryColour
  }

  /** The distribution chart is drawn only when there is something to distribute. */
  predicate ShowsChart(stats: Option<Stats>)
  {
    Total(stats) > 0
  }

  /** A drawn chart has a well-defined rate: the page never divides by zero. */
  lemma ChartOnlyWithVaccinations(stats: Option<Stats>)
    ensures ShowsChart(stats) <==> stats.Some? && (stats.value.completed > 0 || stats.value.scheduled > 0 || stats.value.delayed > 0)
  {
  }

  /** The recent appointments: at most five of those not cancelled, in the order received. */
  function RecentAppointments<A(==,!new)>(appointments: seq<A>, status: A -> string): (r: seq<A>)
    ensures |r| <= 5
    ensures forall a :: a in r ==> a in appointments && status(a) != "cancelled"
    ensures r <= Filter(appointments, (a: A) => status(a) != "cancelled")
    ensures var kept := Count(appointments, (a: A) => status(a) != "cancelled"); |r| == if kept < 5 then kept else 5
  {
    var kept := Filter(appointments, (a: A) => status(a) != "cancelled");
    var r := Take(kept, 5);
    assert forall a :: a in r ==> a in kept by {
      forall a | a in r ensures a in kept {
        var i :| 0 <= i < |r| && r[i] == a;
        assert kept[i] == a;
      }
    }
    r
  }

  /** The notifications shown: the first five of the list, none when the answer has no list. */
  function RecentNotifications<N>(notifications: Option<seq<N>>): (r: seq<N>)
    ensures |r| <= 5
    ensures notifications.None? ==> r == []
    ensures notifications.Some? ==> r <= notifications.value && (|notifications.value| >= 5 ==> |r| == 5)
  {
    if notifications.Some? then Take(notifications.value, 5) else []
  }
}
