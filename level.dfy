/**
  The dashboard's water-level arithmetic (app.py): the latest distance reading
  becomes a water height, a fill percentage, a space-remaining figure and one
  of three alerts; every reading of the ascending history becomes a point of
  the fill-percentage chart.

  All quantities are centimetres or percent, as exact reals.
*/
module Level {
  import opened Wrappers

  /** Bucket height and the gap between the sensor and the bucket's rim. */
  datatype Geometry = Geometry(height: real, offset: real)

  predicate ValidGeometry(g: Geometry) {
    g.height > 0.0 && g.offset >= 0.0
  }

  /** The dashboard's configuration (app.py:6-7). */
  const DashboardGeometry := Geometry(30.0, 5.0)

  /** The sensor script's configuration (main.py:7-8), which the dashboard is meant to match. */
  const SensorGeometry := Geometry(10.0, 5.0)

  /** Water height: total depth below the sensor minus the measured distance. Not clamped. */
  function WaterHeight(g: Geometry, distance: real): (w: real)
    ensures w + distance == g.height + g.offset
  {
    (g.height + g.offset) - distance
  }

  /** Fill percentage of a water height. Not clamped. */
  function FillOf(g: Geometry, water: real): (p: real)
    requires ValidGeometry(g)
    ensures p * g.height == water * 100.0
  {
    (water / g.height) * 100.0
  }

  /** Fill percentage of a reading: 100 at the rim, falling by 100/height per centimetre below it. */
  function FillPct(g: Geometry, distance: real): (p: real)
    requires ValidGeometry(g)
    ensures p == 100.0 - (distance - g.offset) * (100.0 / g.height)
  {
    FillOf(g, WaterHeight(g, distance))
  }

  /** Space left between the water surface and the rim. */
  function SpaceRemaining(g: Geometry, distance: real): (s: real)
    ensures WaterHeight(g, distance) + s == g.height
    ensures s == distance - g.offset
  {
    g.height - WaterHeight(g, distance)
  }

  datatype Alert = Overflow | High | Normal

  /** The three-way warning chain on the fill percentage. */
  function Classify(fill: real): (a: Alert)
    ensures a == Overflow <==> fill >= 100.0
    ensures a == High <==> 90.0 <= fill < 100.0
    ensures a == Normal <==> fill < 90.0
  {
    if fill >= 100.0 then Overflow
    else if fill >= 90.0 then High
    else Normal
  }

  /** How alarming an alert is: Normal < High < Overflow. */
  function Severity(a: Alert): nat {
    match a
    case Normal => 0
    case High => 1
    case Overflow => 2
  }

  /** Everything the dashboard shows about the latest reading. */
  datatype Status = Status(waterHeight: real, fillPct: real, alert: Alert, spaceRemaining: real)

  function StatusOf(g: Geometry, distance: real): (s: Status)
    requires ValidGeometry(g)
    ensures s.alert == Classify(s.fillPct)
    ensures s.waterHeight + s.spaceRemaining == g.height
    ensures s.alert == Overflow <==> distance <= g.offset
  {
    var fill := FillPct(g, distance);
    OverflowIffAtRim(g, distance);
    Status(WaterHeight(g, distance), fill, Classify(fill), SpaceRemaining(g, distance))
  }

  /**
    The status panel for the readings table in ascending timestamp order:
    nothing when the table is empty, otherwise the status of its last row.
  */
  function LatestStatus(g: Geometry, distances: seq<real>): (r: Option<Status>)
    requires ValidGeometry(g)
    ensures r.None? <==> distances == []
    ensures r.Some? ==> r.value.alert == Classify(r.value.fillPct)
    ensures r.Some? ==> r.value.waterHeight + r.value.spaceRemaining == g.height
    ensures r.Some? ==> (r.value.alert == Overflow <==> distances[|distances| - 1] <= g.offset)
  {
    if distances == [] then None
    else
      Some(StatusOf(g, distances[|distances| - 1]))
  }

  /** The `water_height` column: the water-height formula applied to every row. */
  function WaterColumn(g: Geometry, distances: seq<real>): (ws: seq<real>)
    ensures |ws| == |distances|
    ensures forall i :: 0 <= i < |distances| ==> ws[i] == WaterHeight(g, distances[i])
  {
    if distances == [] then []
    else WaterColumn(g, distances[..|distances| - 1]) + [WaterHeight(g, distances[|distances| - 1])]
  }

  /** The `fill_pct` column, computed from the `water_height` column. */
  function FillColumn(g: Geometry, water: seq<real>): (ps: seq<real>)
    requires ValidGeometry(g)
    ensures |ps| == |water|
    ensures forall i :: 0 <= i < |water| ==> ps[i] == FillOf(g, water[i])
  {
    if water == [] then []
    else FillColumn(g, water[..|water| - 1]) + [FillOf(g, water[|water| - 1])]
  }

  /** The fill-percentage history series charted by the dashboard. */
  function History(g: Geometry, distances: seq<real>): (h: seq<real>)
    requires ValidGeometry(g)
    ensures |h| == |distances|
    ensures forall i :: 0 <= i < |distances| ==> h[i] == FillPct(g, distances[i])
  {
    FillColumn(g, WaterColumn(g, distances))
  }

  // ---------------------------------------------------------------- lemmas

  /** Reference points of the formula, and the absence of clamping past the bucket's bottom. */
  lemma FillUnclamped(g: Geometry, d: real)
    requires ValidGeometry(g)
    ensures FillPct(g, g.offset) == 100.0
    ensures FillPct(g, g.height + g.offset) == 0.0
    ensures d > g.height + g.offset ==> WaterHeight(g, d) < 0.0 && FillPct(g, d) < 0.0
  {
  }

  /** Overflow is reported exactly when the water reaches the rim or above. */
  lemma OverflowIffAtRim(g: Geometry, d: real)
    requires ValidGeometry(g)
    ensures Classify(FillPct(g, d)) == Overflow <==> d <= g.offset
  {
  }

  /** The high-level warning covers exactly the top tenth of the bucket, rim excluded. */
  lemma HighIffTopTenth(g: Geometry, d: real)
    requires ValidGeometry(g)
    ensures Classify(FillPct(g, d)) == High <==> g.offset < d <= g.offset + 0.1 * g.height
  {
  }

  /** The status is normal exactly below the top tenth of the bucket. */
  lemma NormalIffBelowTopTenth(g: Geometry, d: real)
    requires ValidGeometry(g)
    ensures Classify(FillPct(g, d)) == Normal <==> d > g.offset + 0.1 * g.height
  {
    OverflowIffAtRim(g, d);
    HighIffTopTenth(g, d);
  }

  /** The sensor's timeout sentinel 0.0 reads as an overflow on the dashboard. */
  lemma SentinelReadsAsOverflow(g: Geometry)
    requires ValidGeometry(g)
    ensures Classify(FillPct(g, 0.0)) == Overflow
  {
    OverflowIffAtRim(g, 0.0);
  }

  /** A larger distance means a strictly lower fill percentage. */
  lemma FillStrictlyDecreasing(g: Geometry, d1: real, d2: real)
    requires ValidGeometry(g)
    requires d1 < d2
    ensures FillPct(g, d2) < FillPct(g, d1)
  {
  }

  /** Alerts never get more severe as the measured distance grows. */
  lemma SeverityMonotone(g: Geometry, d1: real, d2: real)
    requires ValidGeometry(g)
    requires d1 <= d2
    ensures Severity(Classify(FillPct(g, d2))) <= Severity(Classify(FillPct(g, d1)))
  {
    if d1 < d2 {
      FillStrictlyDecreasing(g, d1, d2);
    }
  }

  /** The last point of the charted history is the headline fill percentage. */
  lemma HistoryMatchesHeadline(g: Geometry, distances: seq<real>)
    requires ValidGeometry(g)
    ensures distances != [] ==>
      History(g, distances)[|distances| - 1] == LatestStatus(g, distances).value.fillPct
  {
  }

  /** The status panel depends only on the newest row of the table. */
  lemma StatusUsesLastRowOnly(g: Geometry, older: seq<real>, d: real)
    requires ValidGeometry(g)
    ensures LatestStatus(g, older + [d]) == Some(StatusOf(g, d))
  {
    assert (older + [d])[|older + [d]| - 1] == d;
  }

  /**
    The two scripts disagree on the geometry: a reading the sensor script's
    bucket counts as empty shows two thirds full on the dashboard.
  */
  lemma GeometriesDisagree()
    ensures FillPct(SensorGeometry, 15.0) == 0.0
    ensures FillPct(DashboardGeometry, 15.0) == 200.0 / 3.0
  {
  }
}
