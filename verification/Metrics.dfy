/** The bounded history of host metrics and its buckets (portal/metrics.py), with real numbers for
    floating point. */
module Metrics {
  import opened Bytes
  import opened Ordering

  const RETENTION_SECONDS := 72 * 60 * 60
  const ALLOWED_RANGES: set<int> := {1, 6, 24, 72}
  const ALLOWED_STEPS: set<int> := {1, 5, 15, 60}
  const MAX_POINTS := 1500

  const COLUMNS: set<string> :=
    {"cpu_percent", "memory_used", "memory_total", "memory_percent", "disk_used", "disk_total", "disk_percent",
     "load1", "rx_bytes_per_second", "tx_bytes_per_second"}

  /** The columns of a sample that are not NULL. */
  type Values = map<string, real>

  datatype Row = Row(ts: int, values: Values)

  datatype Point = Point(timestamp: int, means: map<string, Option<real>>)

  datatype StepChoice = Auto | Minutes(n: int) | NotAStep

  datatype History =
    | History(available: bool, rangeHours: int, stepMinutes: int, generatedAt: int, points: seq<Point>)
    | BadQuery

  // ---- queries ---------------------------------------------------------------------------

  function AutoStep(rangeHours: int): int {
    if rangeHours == 1 || rangeHours == 6 then 1 else 5
  }

  /** The step in minutes of an accepted query. */
  function ValidateQuery(rangeHours: int, step: StepChoice): (r: Option<int>)
    ensures r.Some? ==>
              && rangeHours in ALLOWED_RANGES && r.value in ALLOWED_STEPS
              && rangeHours * 60 % r.value == 0 && rangeHours * 60 / r.value < MAX_POINTS
    ensures step == Auto && rangeHours in ALLOWED_RANGES ==> r == Some(if rangeHours <= 6 then 1 else 5)
    ensures r.Some? <==>
              && rangeHours in {1, 6, 24, 72}
              && (step.Auto? || (step.Minutes? && step.n in {1, 5, 15, 60} && !(rangeHours == 72 && step.n == 1)))
    ensures step.Minutes? && rangeHours in ALLOWED_RANGES ==>
              (r == Some(step.n) <==> step.n in ALLOWED_STEPS && !(rangeHours == 72 && step.n == 1))
  {
    if rangeHours !in ALLOWED_RANGES then None
    else
      var minutes := match step
        case Auto => AutoStep(rangeHours)
        case Minutes(n) => if n in ALLOWED_STEPS then n else 0
        case NotAStep => 0;
      // The bound is on the quotient, without rounding.
      if minutes == 0 || rangeHours * 60 > MAX_POINTS * minutes then None else Some(minutes)
  }

  // ---- rows and buckets ------------------------------------------------------------------

  type Samples = map<int, Values>

  /** The beginning of the window that ends at `now`. */
  function WindowStart(rangeHours: int, now: int): int {
    now - rangeHours * 60 * 60
  }

  function Window(samples: Samples, start: int, end: int): set<int> {
    set ts | ts in samples && start <= ts <= end
  }

  function RowsAt(samples: Samples, order: seq<int>): (r: seq<Row>)
    requires forall i :: 0 <= i < |order| ==> order[i] in samples
    ensures |r| == |order| && forall i :: 0 <= i < |r| ==> r[i] == Row(order[i], samples[order[i]])
  {
    if order == [] then [] else [Row(order[0], samples[order[0]])] + RowsAt(samples, order[1..])
  }

  /** The rows a query reads: those of the window, oldest first. */
  ghost function RowsIn(samples: Samples, start: int, end: int): seq<Row> {
    var order := Ascending(Window(samples, start, end));
    assert forall i :: 0 <= i < |order| ==> order[i] in order;
    RowsAt(samples, order)
  }

  function Members(rows: seq<Row>, width: int, bucket: int): (r: seq<Row>)
    requires width > 0
    ensures forall row :: row in r <==> row in rows && BucketOf(row.ts, width) == bucket
    ensures |r| <= |rows|
  {
    if rows == [] then []
    else
      var last := rows[|rows| - 1];
      Members(rows[..|rows| - 1], width, bucket) + (if BucketOf(last.ts, width) == bucket then [last] else [])
  }

  /** The sum of any quantity over rows. */
  function Sum(rows: seq<Row>, quantity: Row -> real): real {
    if rows == [] then 0.0 else Sum(rows[..|rows| - 1], quantity) + quantity(rows[|rows| - 1])
  }

  function Value(column: string): Row -> real {
    (row: Row) => if column in row.values then row.values[column] else 0.0
  }

  function Total(rows: seq<Row>, column: string): real {
    Sum(rows, Value(column))
  }

  function Present(rows: seq<Row>, column: string): (n: nat)
    ensures n <= |rows|
  {
    if rows == [] then 0
    else Present(rows[..|rows| - 1], column) + (if column in rows[|rows| - 1].values then 1 else 0)
  }

  function Mean(rows: seq<Row>, column: string): (r: Option<real>)
    ensures r.Some? <==> Present(rows, column) > 0
    ensures r.Some? ==> r.value * Present(rows, column) as real == Total(rows, column)
  {
    if Present(rows, column) == 0 then None else Some(Total(rows, column) / Present(rows, column) as real)
  }

  /** `round(x, 3)`: to the nearest thousandth, halves to the even one. */
  function Rounded(x: real): (r: real)
    ensures x - 0.0005 <= r <= x + 0.0005
    ensures r * 1000.0 == (r * 1000.0).Floor as real
    ensures x - r == 0.0005 || r - x == 0.0005 ==> (r * 1000.0).Floor % 2 == 0
  {
    var k := (x * 1000.0).Floor;
    var rest := x * 1000.0 - k as real;
    (if rest < 0.5 || (rest == 0.5 && k % 2 == 0) then k else k + 1) as real / 1000.0
  }

  function Shown(mean: Option<real>): Option<real> {
    if mean.Some? then Some(Rounded(mean.value)) else None
  }

  function MeansOf(items: seq<Row>): map<string, Option<real>> {
    map column | column in COLUMNS :: Shown(Mean(items, column))
  }

  function PointOf(rows: seq<Row>, width: int, bucket: int): Point
    requires width > 0
  {
    Point(bucket, MeansOf(Members(rows, width, bucket)))
  }

  predicate Has(points: seq<Point>, bucket: int) {
    exists i :: 0 <= i < |points| && points[i].timestamp == bucket
  }

  /** The points are one for each bucket that has rows, in ascending order. */
  ghost predicate Spans(rows: seq<Row>, width: int, points: seq<Point>)
    requires width > 0
  {
    && (forall i :: 0 <= i < |points| ==> Members(rows, width, points[i].timestamp) != [])
    && (forall i, j :: 0 <= i < j < |points| ==> points[i].timestamp < points[j].timestamp)
    && (forall row :: row in rows ==> Has(points, BucketOf(row.ts, width)))
  }

  /** And each shows the means of its bucket. */
  ghost predicate Series(rows: seq<Row>, width: int, points: seq<Point>)
    requires width > 0
  {
    && Spans(rows, width, points)
    && forall i :: 0 <= i < |points| ==> points[i] == PointOf(rows, width, points[i].timestamp)
  }

  lemma PointsAreSeries(rows: seq<Row>, width: int, keys: seq<int>, points: seq<Point>)
    requires width > 0 && |points| == |keys|
    requires forall i, j :: 0 <= i < j < |keys| ==> keys[i] < keys[j]
    requires forall b :: b in keys <==> Members(rows, width, b) != []
    requires forall i :: 0 <= i < |keys| ==> points[i] == PointOf(rows, width, keys[i])
    ensures Series(rows, width, points)
  {
    forall i | 0 <= i < |points|
      ensures points[i].timestamp == keys[i] && Members(rows, width, keys[i]) != []
    {
      assert keys[i] in keys;
    }
    forall row | row in rows
      ensures Has(points, BucketOf(row.ts, width))
    {
      assert row in Members(rows, width, BucketOf(row.ts, width));
      assert BucketOf(row.ts, width) in keys;
      var i :| 0 <= i < |keys| && keys[i] == BucketOf(row.ts, width);
      assert points[i].timestamp == keys[i];
    }
  }

  /** The answer is the series of the window, whole, and says whether there is any. */
  ghost predicate Answers(samples: Samples, rangeHours: int, minutes: int, now: int, r: History)
    requires r.History? && minutes > 0
  {
    && r.rangeHours == rangeHours && r.stepMinutes == minutes && r.generatedAt == now
    && Series(RowsIn(samples, WindowStart(rangeHours, now), now), minutes * 60, r.points)
    && |r.points| <= rangeHours * 60 / minutes + 1
    && (r.available <==> Window(samples, WindowStart(rangeHours, now), now) != {})
  }

  lemma SampleIsIn(samples: Samples, start: int, end: int, width: int, points: seq<Point>, ts: int)
    requires width > 0 && Spans(RowsIn(samples, start, end), width, points)
    requires ts in samples && start <= ts <= end
    ensures Has(points, BucketOf(ts, width))
  {
    RowOf(samples, start, end, ts);
  }

  lemma PointHasSample(samples: Samples, start: int, end: int, width: int, points: seq<Point>, i: nat) returns (ts: int)
    requires width > 0 && Spans(RowsIn(samples, start, end), width, points) && i < |points|
    ensures ts in samples && start <= ts <= end && BucketOf(ts, width) == points[i].timestamp
  {
    var row := Witness(RowsIn(samples, start, end), width, points, i);
    RowInWindow(samples, start, end, row);
    ts := row.ts;
  }

  /** So every sample of the last `rangeHours` hours is in the point of its step; */
  lemma EverySampleShown(samples: Samples, rangeHours: int, minutes: int, now: int, r: History, ts: int)
    requires r.History? && minutes > 0 && Answers(samples, rangeHours, minutes, now, r)
    requires ts in samples && now - rangeHours * 60 * 60 <= ts <= now
    ensures r.available && Has(r.points, BucketOf(ts, minutes * 60))
  {
    assert ts in Window(samples, WindowStart(rangeHours, now), now);
    SampleIsIn(samples, WindowStart(rangeHours, now), now, minutes * 60, r.points, ts);
  }

  /** every point has such a sample, */
  lemma NothingElseShown(samples: Samples, rangeHours: int, minutes: int, now: int, r: History, i: nat)
    returns (ts: int)
    requires r.History? && minutes > 0 && Answers(samples, rangeHours, minutes, now, r) && i < |r.points|
    ensures ts in samples && now - rangeHours * 60 * 60 <= ts <= now
    ensures BucketOf(ts, minutes * 60) == r.points[i].timestamp
  {
    ts := PointHasSample(samples, WindowStart(rangeHours, now), now, minutes * 60, r.points, i);
  }

  /** and the answer is available only if there is one. */
  lemma AvailableHasSample(samples: Samples, rangeHours: int, minutes: int, now: int, r: History) returns (ts: int)
    requires r.History? && minutes > 0 && Answers(samples, rangeHours, minutes, now, r) && r.available
    ensures ts in samples && now - rangeHours * 60 * 60 <= ts <= now
  {
    ts :| ts in Window(samples, WindowStart(rangeHours, now), now);
  }

  lemma RowOf(samples: Samples, start: int, end: int, ts: int)
    requires ts in Window(samples, start, end)
    ensures Row(ts, samples[ts]) in RowsIn(samples, start, end)
  {
    var order := Ascending(Window(samples, start, end));
    assert ts in order;
    var k :| 0 <= k < |order| && order[k] == ts;
    assert RowsIn(samples, start, end)[k] == Row(ts, samples[ts]);
  }

  lemma RowInWindow(samples: Samples, start: int, end: int, row: Row)
    requires row in RowsIn(samples, start, end)
    ensures row.ts in samples && start <= row.ts <= end && row.values == samples[row.ts]
  {
    var order := Ascending(Window(samples, start, end));
    var rows := RowsIn(samples, start, end);
    var k :| 0 <= k < |rows| && rows[k] == row;
    assert order[k] in order;
  }

  lemma WholeAnswer(samples: Samples, rangeHours: int, minutes: int, now: int, rows: seq<Row>, points: seq<Point>,
                    r: History)
    requires minutes > 0 && |points| <= rangeHours * 60 / minutes + 1
    requires rows == RowsIn(samples, WindowStart(rangeHours, now), now) && Series(rows, minutes * 60, points)
    requires points != [] <==> Window(samples, WindowStart(rangeHours, now), now) != {}
    requires r == History(points != [], rangeHours, minutes, now, points)
    ensures Answers(samples, rangeHours, minutes, now, r)
  {
  }

  lemma CutIsWhole(points: seq<Point>, rangeHours: int, minutes: int)
    requires minutes > 0 && |points| <= rangeHours * 60 / minutes + 1 && rangeHours * 60 / minutes < MAX_POINTS
    ensures Take(points, MAX_POINTS) == points
  {
  }

  lemma RowsInBounds(samples: Samples, start: int, end: int)
    ensures forall row :: row in RowsIn(samples, start, end) ==> start <= row.ts <= end
  {
    var order := Ascending(Window(samples, start, end));
    var rows := RowsIn(samples, start, end);
    forall row | row in rows
      ensures start <= row.ts <= end
    {
      var i :| 0 <= i < |rows| && rows[i] == row;
      assert order[i] in order;
    }
  }

  lemma PointsIfRows(rows: seq<Row>, width: int, points: seq<Point>)
    requires width > 0 && Spans(rows, width, points)
    ensures points != [] <==> rows != []
  {
    if rows != [] {
      assert rows[0] in rows && Has(points, BucketOf(rows[0].ts, width));
    }
    if points != [] {
      assert Members(rows, width, points[0].timestamp) != [];
    }
  }

  lemma RowsIfWindow(samples: Samples, start: int, end: int)
    ensures RowsIn(samples, start, end) != [] <==> Window(samples, start, end) != {}
  {
    var order := Ascending(Window(samples, start, end));
    assert |order| == |Window(samples, start, end)|;
    assert |RowsIn(samples, start, end)| == |order|;
  }

  // ---- the store -------------------------------------------------------------------------

  class MetricsStore {
    var samples: Samples

    constructor ()
      ensures samples == map[]
    {
      samples := map[];
    }

    /** Insert or replace, then forget what is older than the retention. */
    method Record(timestamp: int, values: Values, now: Option<int>)
      modifies this
      ensures var cutoff := (if now.Some? then now.value else timestamp) - RETENTION_SECONDS;
              && (forall ts :: ts in samples <==> (ts == timestamp || ts in old(samples)) && ts >= cutoff)
              && (forall ts :: ts in samples ==> samples[ts] == if ts == timestamp then values else old(samples)[ts])
    {
      var cutoff := (if now.Some? then now.value else timestamp) - RETENTION_SECONDS;
      samples := samples[timestamp := values];
      samples := map ts | ts in samples && !(ts < cutoff) :: samples[ts];
    }

    method GroupRows(rows: seq<Row>, width: int) returns (buckets: map<int, seq<Row>>)
      requires width > 0
      ensures forall b :: b in buckets <==> Members(rows, width, b) != []
      ensures forall b :: b in buckets ==> buckets[b] == Members(rows, width, b)
    {
      buckets := map[];
      for i := 0 to |rows|
        invariant forall b :: b in buckets <==> Members(rows[..i], width, b) != []
        invariant forall b :: b in buckets ==> buckets[b] == Members(rows[..i], width, b)
      {
        var row := rows[i];
        var bucket := BucketOf(row.ts, width);
        assert rows[..i + 1][..i] == rows[..i];
        if bucket !in buckets {
          buckets := buckets[bucket := []];
        }
        buckets := buckets[bucket := buckets[bucket] + [row]];
      }
      assert rows[..|rows|] == rows;
    }

    method Averages(buckets: map<int, seq<Row>>, keys: seq<int>) returns (points: seq<Point>)
      requires forall i :: 0 <= i < |keys| ==> keys[i] in buckets
      ensures |points| == |keys|
      ensures forall i :: 0 <= i < |keys| ==> points[i] == Point(keys[i], MeansOf(buckets[keys[i]]))
    {
      points := [];
      for i := 0 to |keys|
        invariant |points| == i
        invariant forall j :: 0 <= j < i ==> points[j] == Point(keys[j], MeansOf(buckets[keys[j]]))
      {
        points := points + [Point(keys[i], MeansOf(buckets[keys[i]]))];
      }
    }

    method Points(rows: seq<Row>, width: int) returns (points: seq<Point>)
      requires width > 0
      ensures Series(rows, width, points)
    {
      var buckets := GroupRows(rows, width);
      var keys := Sorted(buckets.Keys);
      assert forall i :: 0 <= i < |keys| ==> keys[i] in keys;
      points := Averages(buckets, keys);
      forall i | 0 <= i < |keys|
        ensures points[i] == PointOf(rows, width, keys[i])
      {
        assert buckets[keys[i]] == Members(rows, width, keys[i]);
      }
      PointsAreSeries(rows, width, keys, points);
    }

    /** The rows the database returns for the window, oldest first. */
    method Rows(start: int, end: int) returns (rows: seq<Row>)
      ensures rows == RowsIn(samples, start, end)
      ensures forall row :: row in rows ==> start <= row.ts <= end
    {
      var order := Sorted(Window(samples, start, end));
      assert forall i :: 0 <= i < |order| ==> order[i] in order;
      rows := RowsAt(samples, order);
      RowsInBounds(samples, start, end);
    }

    /** The series of the window, all of it: the final cut at `MAX_POINTS` never drops a point. */
    method Query(rangeHours: int, step: StepChoice, now: int) returns (r: History)
      ensures r.BadQuery? <==> ValidateQuery(rangeHours, step).None?
      ensures r.History? ==> Answers(samples, rangeHours, ValidateQuery(rangeHours, step).value, now, r)
    {
      var accepted := ValidateQuery(rangeHours, step);
      if accepted.None? {
        return BadQuery;
      }
      var minutes := accepted.value;
      var points := Collect(rangeHours, minutes, now);
      CutIsWhole(points, rangeHours, minutes);
      r := History(points != [], rangeHours, minutes, now, Take(points, MAX_POINTS));
    }

    /** All points of the window. */
    method Collect(rangeHours: int, minutes: int, now: int) returns (points: seq<Point>)
      requires rangeHours in ALLOWED_RANGES && minutes in ALLOWED_STEPS
      ensures Answers(samples, rangeHours, minutes, now, History(points != [], rangeHours, minutes, now, points))
    {
      var rows;
      rows, points := WindowPoints(WindowStart(rangeHours, now), now, minutes * 60);
      FewPoints(rows, rangeHours, minutes, now, points);
      WholeAnswer(samples, rangeHours, minutes, now, rows, points,
                  History(points != [], rangeHours, minutes, now, points));
    }

    method WindowPoints(start: int, end: int, width: int) returns (rows: seq<Row>, points: seq<Point>)
      requires width > 0
      ensures rows == RowsIn(samples, start, end) && Series(rows, width, points)
      ensures forall row :: row in rows ==> start <= row.ts <= end
      ensures points != [] <==> Window(samples, start, end) != {}
    {
      rows := Rows(start, end);
      points := Points(rows, width);
      PointsIfRows(rows, width, points);
      RowsIfWindow(samples, start, end);
    }
  }

  // ---- what a series says ----------------------------------------------------------------

  /** Every row of the window falls in exactly one point, whose timestamp is a multiple of the step
      no more than a step before the row. */
  lemma ExactlyOnePoint(rows: seq<Row>, width: int, points: seq<Point>, row: Row)
    requires width > 0 && Spans(rows, width, points) && row in rows
    ensures Has(points, BucketOf(row.ts, width))
    ensures forall i, j | 0 <= i < |points| && 0 <= j < |points| ::
              row in Members(rows, width, points[i].timestamp) && row in Members(rows, width, points[j].timestamp)
              ==> i == j
    ensures BucketOf(row.ts, width) <= row.ts < BucketOf(row.ts, width) + width && BucketOf(row.ts, width) % width == 0
  {
    BucketBounds(row.ts, width);
    BucketIsMultiple(row.ts, width);
  }

  // ---- how many points -------------------------------------------------------------------

  /** A row that falls into point `i`. */
  ghost function Witness(rows: seq<Row>, width: int, points: seq<Point>, i: int): (row: Row)
    requires width > 0 && Spans(rows, width, points) && 0 <= i < |points|
    ensures row in rows && BucketOf(row.ts, width) == points[i].timestamp
  {
    Members(rows, width, points[i].timestamp)[0]
  }

  lemma {:induction false} QuotientsSpread(rows: seq<Row>, width: int, points: seq<Point>, n: nat)
    requires width > 0 && Spans(rows, width, points) && n < |points|
    ensures Witness(rows, width, points, 0).ts / width + n <= Witness(rows, width, points, n).ts / width
  {
    if n > 0 {
      QuotientsSpread(rows, width, points, n - 1);
      WitnessesGrow(rows, width, points, n);
    }
  }

  lemma WitnessesGrow(rows: seq<Row>, width: int, points: seq<Point>, n: nat)
    requires width > 0 && Spans(rows, width, points) && 0 < n < |points|
    ensures Witness(rows, width, points, n - 1).ts / width + 1 <= Witness(rows, width, points, n).ts / width
  {
    var a, b := Witness(rows, width, points, n - 1).ts, Witness(rows, width, points, n).ts;
    assert BucketOf(a, width) == points[n - 1].timestamp < points[n].timestamp == BucketOf(b, width);
    QuotientsGrow(a, b, width);
  }

  lemma SeriesIsShort(rows: seq<Row>, width: int, points: seq<Point>, start: int, n: nat)
    requires width > 0 && Spans(rows, width, points)
    requires forall row :: row in rows ==> start <= row.ts <= start + n * width
    ensures |points| <= n + 1
  {
    if points != [] {
      var last := |points| - 1;
      QuotientsSpread(rows, width, points, last);
      var first, final := Witness(rows, width, points, 0), Witness(rows, width, points, last);
      QuotientsFollow(start, first.ts, width);
      QuotientsFollow(final.ts, start + n * width, width);
      QuotientShift(start, n, width);
    }
  }

  lemma WholeSteps(rangeHours: int, minutes: int)
    requires rangeHours in ALLOWED_RANGES && minutes in ALLOWED_STEPS
    ensures rangeHours * 60 / minutes * (minutes * 60) == rangeHours * 3600
    ensures rangeHours * 60 / minutes >= 0
  {
  }

  /** A series over so many rows has no more points than its range has steps, and one. */
  lemma FewPoints(rows: seq<Row>, rangeHours: int, minutes: int, now: int, points: seq<Point>)
    requires rangeHours in ALLOWED_RANGES && minutes in ALLOWED_STEPS
    requires forall row :: row in rows ==> WindowStart(rangeHours, now) <= row.ts <= now
    requires Spans(rows, minutes * 60, points)
    ensures |points| <= rangeHours * 60 / minutes + 1
  {
    WholeSteps(rangeHours, minutes);
    SeriesIsShort(rows, minutes * 60, points, WindowStart(rangeHours, now), rangeHours * 60 / minutes);
  }

  // ---- nothing lost, nothing counted twice -----------------------------------------------

  /** The sum of a quantity over the rows behind the points. */
  function SumOverPoints(rows: seq<Row>, width: int, points: seq<Point>, quantity: Row -> real): real
    requires width > 0
  {
    if points == [] then 0.0
    else Sum(Members(rows, width, points[0].timestamp), quantity) + SumOverPoints(rows, width, points[1..], quantity)
  }

  lemma SumSnoc(rows: seq<Row>, row: Row, quantity: Row -> real)
    ensures Sum(rows + [row], quantity) == Sum(rows, quantity) + quantity(row)
  {
    assert (rows + [row])[..|rows|] == rows;
  }

  lemma MembersSnoc(rows: seq<Row>, row: Row, width: int, bucket: int)
    requires width > 0
    ensures Members(rows + [row], width, bucket)
            == Members(rows, width, bucket) + (if BucketOf(row.ts, width) == bucket then [row] else [])
  {
    assert (rows + [row])[..|rows|] == rows;
  }

  predicate DistinctPoints(points: seq<Point>) {
    forall i, j :: 0 <= i < j < |points| ==> points[i].timestamp != points[j].timestamp
  }

  lemma HasTail(points: seq<Point>, bucket: int)
    requires points != []
    ensures Has(points, bucket) <==> points[0].timestamp == bucket || Has(points[1..], bucket)
    ensures DistinctPoints(points) ==> DistinctPoints(points[1..]) && !Has(points[1..], points[0].timestamp)
  {
    var rest := points[1..];
    assert forall i :: 0 <= i < |rest| ==> rest[i] == points[i + 1];
    if i :| 0 < i < |points| && points[i].timestamp == bucket {
      assert rest[i - 1].timestamp == bucket;
    }
  }

  lemma {:induction false} RowAddsOnce(rows: seq<Row>, row: Row, width: int, points: seq<Point>, quantity: Row -> real)
    requires width > 0 && DistinctPoints(points)
    ensures SumOverPoints(rows + [row], width, points, quantity)
            == SumOverPoints(rows, width, points, quantity)
               + (if Has(points, BucketOf(row.ts, width)) then quantity(row) else 0.0)
  {
    if points != [] {
      var bucket := points[0].timestamp;
      HasTail(points, BucketOf(row.ts, width));
      RowAddsOnce(rows, row, width, points[1..], quantity);
      MembersSnoc(rows, row, width, bucket);
      SumSnoc(Members(rows, width, bucket), row, quantity);
      assert Members(rows, width, bucket) + [] == Members(rows, width, bucket);
    }
  }

  lemma {:induction false} NothingFromNoRows(width: int, points: seq<Point>, quantity: Row -> real)
    requires width > 0
    ensures SumOverPoints([], width, points, quantity) == 0.0
  {
    if points != [] {
      NothingFromNoRows(width, points[1..], quantity);
    }
  }

  lemma {:induction false} SumsAgree(rows: seq<Row>, width: int, points: seq<Point>, quantity: Row -> real)
    requires width > 0 && DistinctPoints(points)
    requires forall row :: row in rows ==> Has(points, BucketOf(row.ts, width))
    ensures SumOverPoints(rows, width, points, quantity) == Sum(rows, quantity)
    decreases |rows|
  {
    if rows == [] {
      NothingFromNoRows(width, points, quantity);
    } else {
      var front, row := rows[..|rows| - 1], rows[|rows| - 1];
      assert rows == front + [row];
      assert forall r :: r in front ==> r in rows;
      SumsAgree(front, width, points, quantity);
      RowAddsOnce(front, row, width, points, quantity);
    }
  }

  /** Whatever is summed over the rows of the window is the sum over the points: the number of
      samples, the number of values of a column, their sum. */
  lemma Conserved(rows: seq<Row>, width: int, points: seq<Point>, quantity: Row -> real)
    requires width > 0 && Spans(rows, width, points)
    ensures SumOverPoints(rows, width, points, quantity) == Sum(rows, quantity)
  {
    SumsAgree(rows, width, points, quantity);
  }

  /** The means shown, each weighted with the number of values behind it. */
  function WeightedMeans(rows: seq<Row>, width: int, points: seq<Point>, column: string): real
    requires width > 0
  {
    if points == [] then 0.0
    else Weighted(points[0], Members(rows, width, points[0].timestamp), column)
         + WeightedMeans(rows, width, points[1..], column)
  }

  function Weighted(point: Point, items: seq<Row>, column: string): real {
    if column in point.means && point.means[column].Some?
    then point.means[column].value * Present(items, column) as real
    else 0.0
  }

  /** Counts the rows that have a value of the column. */
  function Counted(column: string): Row -> real {
    (row: Row) => if column in row.values then 1.0 else 0.0
  }

  lemma {:induction false} PresentIsSum(rows: seq<Row>, column: string)
    ensures Sum(rows, Counted(column)) == Present(rows, column) as real
    decreases |rows|
  {
    if rows != [] {
      PresentIsSum(rows[..|rows| - 1], column);
    }
  }

  lemma {:induction false} AbsentSumsToNothing(rows: seq<Row>, column: string)
    requires Present(rows, column) == 0
    ensures Total(rows, column) == 0.0
    decreases |rows|
  {
    if rows != [] {
      AbsentSumsToNothing(rows[..|rows| - 1], column);
    }
  }

  /** The values differ by at most half a thousandth each. */
  predicate Near(a: real, b: real, values: real) {
    b - 0.0005 * values <= a <= b + 0.0005 * values
  }

  lemma NoNegativeProduct(a: real, b: real)
    requires a >= 0.0 && b >= 0.0
    ensures a * b >= 0.0
  {
  }

  lemma ScaledNear(shown: real, exact: real, n: real)
    requires Near(shown, exact, 1.0) && n >= 0.0
    ensures Near(shown * n, exact * n, n)
  {
    NoNegativeProduct(shown - exact + 0.0005, n);
    NoNegativeProduct(exact + 0.0005 - shown, n);
  }

  lemma RoundedNear(mean: real, n: real, total: real, weighted: real)
    requires n >= 0.0 && mean * n == total && weighted == Rounded(mean) * n
    ensures Near(weighted, total, n)
  {
    ScaledNear(Rounded(mean), mean, n);
  }

  lemma MeanTimesCount(items: seq<Row>, column: string) returns (mean: real, n: real)
    requires Present(items, column) > 0
    ensures Mean(items, column) == Some(mean) && n == Present(items, column) as real
    ensures mean * n == Total(items, column)
  {
    mean, n := Mean(items, column).value, Present(items, column) as real;
  }

  lemma WeightedProduct(point: Point, items: seq<Row>, column: string, mean: real, n: real)
    requires column in point.means && point.means[column] == Some(Rounded(mean))
    requires n == Present(items, column) as real
    ensures Weighted(point, items, column) == Rounded(mean) * n
  {
  }

  lemma WeightedIsTotal(point: Point, items: seq<Row>, column: string)
    requires column in point.means && point.means[column] == Shown(Mean(items, column))
    ensures Near(Weighted(point, items, column), Total(items, column), Present(items, column) as real)
  {
    if Present(items, column) == 0 {
      AbsentSumsToNothing(items, column);
    } else {
      var mean, n := MeanTimesCount(items, column);
      WeightedProduct(point, items, column, mean, n);
      RoundedNear(mean, n, Total(items, column), Weighted(point, items, column));
    }
  }

  lemma {:induction false} WeightedMeansAreTotals(rows: seq<Row>, width: int, points: seq<Point>, column: string)
    requires width > 0 && column in COLUMNS
    requires forall i :: 0 <= i < |points| ==> points[i] == PointOf(rows, width, points[i].timestamp)
    ensures Near(WeightedMeans(rows, width, points, column), SumOverPoints(rows, width, points, Value(column)),
                 SumOverPoints(rows, width, points, Counted(column)))
  {
    if points != [] {
      assert points[0] == PointOf(rows, width, points[0].timestamp);
      WeightedMeansAreTotals(rows, width, points[1..], column);
      var items := Members(rows, width, points[0].timestamp);
      WeightedIsTotal(points[0], items, column);
      PresentIsSum(items, column);
    }
  }

  /** The means of a column, so weighted, add up to the values of the window, up to the rounding of
      the means: no value is lost or counted twice. */
  lemma MeansConserveSums(rows: seq<Row>, width: int, points: seq<Point>, column: string)
    requires width > 0 && column in COLUMNS && Series(rows, width, points)
    ensures Near(WeightedMeans(rows, width, points, column), Total(rows, column), Present(rows, column) as real)
  {
    WeightedMeansAreTotals(rows, width, points, column);
    Conserved(rows, width, points, Value(column));
    Conserved(rows, width, points, Counted(column));
    PresentIsSum(rows, column);
  }
}
