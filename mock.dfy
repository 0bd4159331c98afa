/** The browser-side mock provider the front end falls back on when no
    backend is configured: a static metric tree grouped by device and axis,
    and generators of collection results, time series and events that mirror
    the backend's, with their random draws supplied by the caller. */
module Mock {
  import opened Strings
  import opened Seqs
  import opened Api

  datatype Axis = Axis(id: string, name: string, metrics: seq<MetricMeta>)

  datatype TreeDevice = TreeDevice(id: string, name: string, axes: seq<Axis>)

  datatype Device = Device(id: string, name: string)

  /** The mock's static tree; metric ids here are local to their axis. */
  const MockTree: seq<TreeDevice> := [
    TreeDevice("POAM1", "POAM1", [
      Axis("Z", "Z", [
        MetricMeta("MA", "MA", "A", Http, "Z", "Z"),
        MetricMeta("MSD", "MSD", "μm", Mqtt, "Z", "Z"),
        MetricMeta("VEL", "Velocity", "mm/s", Opcua, "Z", "Z")]),
      Axis("Rx", "Rx", [
        MetricMeta("MA_3A", "MA_3A", "A", Opcua, "Rx", "Rx"),
        MetricMeta("POS", "Position", "deg", Mqtt, "Rx", "Rx")]),
      Axis("Ry", "Ry", [
        MetricMeta("TRQ", "Torque", "Nm", Http, "Ry", "Ry")])]),
    TreeDevice("POAM2", "POAM2", [
      Axis("X", "X", [
        MetricMeta("CUR", "Current", "A", Http, "X", "X"),
        MetricMeta("ERR", "Error", "μm", Mqtt, "X", "X")]),
      Axis("Y", "Y", [
        MetricMeta("CUR", "Current", "A", Http, "Y", "Y")])]),
    TreeDevice("LENS_TESTER", "LENS_TESTER", [
      Axis("Main", "Main", [
        MetricMeta("TEMP", "Temperature", "°C", Opcua, "Main", "Main"),
        MetricMeta("HUM", "Humidity", "%", Mqtt, "Main", "Main")])])
  ]

  // ---------------------------------------------------------------------------
  // Devices and metrics

  /** getDevices: the id and name of every device, in tree order. */
  function GetDevices(tree: seq<TreeDevice>): (r: seq<Device>)
    ensures |r| == |tree|
  {
    seq(|tree|, i requires 0 <= i < |tree| => Device(tree[i].id, tree[i].name))
  }

  /** Position of the first device with the given id, as Array.prototype.find
      picks it. */
  function FindDevice(tree: seq<TreeDevice>, deviceId: string): (r: Option<nat>)
    ensures r.None? <==> forall k :: 0 <= k < |tree| ==> tree[k].id != deviceId
    ensures r.Some? ==> r.value < |tree| && tree[r.value].id == deviceId
    ensures r.Some? ==> forall k :: 0 <= k < r.value ==> tree[k].id != deviceId
  {
    if |tree| == 0 then None
    else if tree[0].id == deviceId then Some(0)
    else
      match FindDevice(tree[1..], deviceId)
      case None =>
        assert forall k :: 1 <= k < |tree| ==> tree[k] == tree[1..][k - 1];
        None
      case Some(k) =>
        assert forall j :: 1 <= j <= k + 1 ==> tree[j] == tree[1..][j - 1];
        Some(k + 1)
  }

  /** The devices of the mock tree carry distinct ids, so the lookup of each
      listed id finds that very device. */
  lemma MockTreeIdsResolve()
    ensures |GetDevices(MockTree)| == 3
    ensures forall i :: 0 <= i < |MockTree| ==> FindDevice(MockTree, MockTree[i].id) == Some(i)
  {
    var ids := [MockTree[0].id, MockTree[1].id, MockTree[2].id];
    assert ids == ["POAM1", "POAM2", "LENS_TESTER"];
    assert "POAM1" != "POAM2" by { assert "POAM1"[4] != "POAM2"[4]; }
    assert "POAM1" != "LENS_TESTER" by { assert |"POAM1"| != |"LENS_TESTER"|; }
    assert "POAM2" != "LENS_TESTER" by { assert |"POAM2"| != |"LENS_TESTER"|; }
  }

  /** getDevices lists one entry per device, in tree order, and every id it
      lists is found again by getMetrics's lookup, at that device or at an
      earlier one with the same id. */
  lemma ListedDevicesResolve(tree: seq<TreeDevice>, i: nat)
    requires i < |tree|
    ensures var r := GetDevices(tree);
      && r[i].id == tree[i].id && r[i].name == tree[i].name
      && FindDevice(tree, r[i].id).Some?
      && FindDevice(tree, r[i].id).value <= i
  {
  }

  /** The metrics of the axes, axis after axis (Array.prototype.flatMap). */
  function Flatten(axes: seq<Axis>): (r: seq<MetricMeta>)
    ensures |r| >= (if |axes| == 0 then 0 else |axes[|axes| - 1].metrics|)
  {
    if |axes| == 0 then [] else Flatten(axes[..|axes| - 1]) + axes[|axes| - 1].metrics
  }

  /** A metric is in the flattened list exactly when some axis lists it. */
  lemma {:induction false} FlattenMembers(axes: seq<Axis>, m: MetricMeta)
    ensures m in Flatten(axes) <==> exists k :: 0 <= k < |axes| && m in axes[k].metrics
  {
    if |axes| > 0 {
      var n := |axes| - 1;
      FlattenMembers(axes[..n], m);
      assert forall k :: 0 <= k < n ==> axes[..n][k] == axes[k];
      if m in Flatten(axes[..n]) {
        var k :| 0 <= k < n && m in axes[..n][k].metrics;
        assert m in axes[k].metrics;
      }
    }
  }

  /** Flattening distributes over concatenation of axis lists: the metrics of
      earlier axes come first. */
  lemma {:induction false} FlattenAppend(a: seq<Axis>, b: seq<Axis>)
    ensures Flatten(a + b) == Flatten(a) + Flatten(b)
  {
    if |b| > 0 {
      var n := |b| - 1;
      assert (a + b)[..|a + b| - 1] == a + b[..n];
      FlattenAppend(a, b[..n]);
    } else {
      assert a + b == a;
    }
  }

  /** getMetrics: the flattened metrics of the first device with the id, or
      nothing when no device has it. */
  function GetMetrics(tree: seq<TreeDevice>, deviceId: string): (r: seq<MetricMeta>)
  {
    match FindDevice(tree, deviceId)
    case None => []
    case Some(k) => Flatten(tree[k].axes)
  }

  /** getMetrics lists no metric for a device id the tree does not hold. */
  lemma GetMetricsUnknown(tree: seq<TreeDevice>, deviceId: string)
    requires forall k :: 0 <= k < |tree| ==> tree[k].id != deviceId
    ensures GetMetrics(tree, deviceId) == []
  {
  }

  /** For the first device k with the id, getMetrics lists exactly the
      metrics of its axes, axis after axis. */
  lemma GetMetricsMembers(tree: seq<TreeDevice>, deviceId: string, k: nat, m: MetricMeta)
    requires k < |tree| && tree[k].id == deviceId
    requires forall j :: 0 <= j < k ==> tree[j].id != deviceId
    ensures GetMetrics(tree, deviceId) == Flatten(tree[k].axes)
    ensures m in GetMetrics(tree, deviceId) <==> exists a :: 0 <= a < |tree[k].axes| && m in tree[k].axes[a].metrics
  {
    var found := FindDevice(tree, deviceId);
    assert found.Some? && found.value == k;
    FlattenMembers(tree[k].axes, m);
  }

  // ---------------------------------------------------------------------------
  // Collection

  /** collect: one attempt per target, in order, counted by quality. */
  function Collect(targets: seq<string>, draws: seq<CollectDraw>, now: int): (r: CollectResult)
    requires |draws| >= |targets|
    requires forall i :: 0 <= i < |targets| ==> CollectDrawIsUnit(draws[i])
    ensures |r.details| == |targets|
    ensures forall i :: 0 <= i < |targets| ==> r.details[i].id == targets[i]
    ensures forall i :: 0 <= i < |targets| ==> r.details[i] == Attempt(targets[i], draws[i])
    ensures r.successCount + r.failedCount == |targets|
    ensures r.successCount == CountGood(r.details)
    ensures forall i :: 0 <= i < |targets| ==>
      (r.details[i].quality == Good <==> r.details[i].value.Some?)
    ensures forall i :: 0 <= i < |targets| && r.details[i].quality != Good ==>
      r.details[i].reason == Some(TimeoutReason) && r.details[i].durationMs == 5000
    ensures r.timestamp == now
  {
    var details := seq(|targets|, i requires 0 <= i < |targets| => Attempt(targets[i], draws[i]));
    CountsPartition(details);
    CollectResult(CountGood(details), CountNotGood(details), details, now)
  }

  // ---------------------------------------------------------------------------
  // Time series

  /** The sampling step of getData: a three-hundredth of end - start, but at
      least a second. Unlike the backend, the span is not raised to 1. */
  function MockStep(start: int, end: int): (step: int)
    ensures step >= 1000
  {
    Max(1000, (end - start) / 300)
  }

  /** How many samples getData draws per id: i runs from 0 up to
      floor((end - start) / step), so none when end < start. */
  function MockCount(start: int, end: int): nat {
    Max(0, (end - start) / MockStep(start, end) + 1)
  }

  /** getData's series: none when end < start; otherwise floor(span/step) + 1
      samples, the i-th at start + i*step, strictly increasing, the last no
      later than end, and never more than 301 of them. */
  lemma {:induction false} MockSeriesShape(id: string, idx: nat, start: int, end: int,
                                           value: (string, nat, nat) -> real)
    ensures var step, count := MockStep(start, end), MockCount(start, end);
      var s := Series(id, idx, start, step, count, value);
      && (end < start ==> s == [])
      && (start <= end ==> |s| == (end - start) / step + 1 <= 301)
      && (forall i :: 0 <= i < |s| ==> s[i].t == start + i * step)
      && (forall i :: 0 <= i < |s| ==> start <= s[i].t <= end)
      && (forall i, j :: 0 <= i < j < |s| ==> s[i].t < s[j].t)
  {
    var span, step, count := end - start, MockStep(start, end), MockCount(start, end);
    var s := Series(id, idx, start, step, count, value);
    assert span == step * (span / step) + span % step;
    if span < 0 {
      assert span / step < 0;
    } else {
      StepBound(span);
      assert 0 <= (span / step) * step <= span;
    }
    forall i, j | 0 <= i < j < |s| ensures s[i].t < s[j].t {
      SeriesTimes(id, idx, start, step, count, value, i, j);
    }
    forall i | 0 <= i < |s| ensures start <= s[i].t <= end {
      MulMonotonic(i, count - 1, step);
    }
  }

  /** getData: per requested id a series from start; a repeated id keeps the
      series of its last occurrence. */
  method GetData(ids: seq<string>, start: int, end: int, value: (string, nat, nat) -> real)
    returns (out: map<string, seq<Sample>>)
    ensures forall id :: id in out <==> id in ids
    ensures forall id :: id in out ==>
      out[id] == Series(id, LastIndex(ids, id), start, MockStep(start, end), MockCount(start, end), value)
  {
    var span := end - start;
    var step := Max(1000, span / 300);
    var points := span / step;
    out := BuildSeries(ids, start, step, points, value);
  }

  // ---------------------------------------------------------------------------
  // Events

  /** toMetricId: the full id of a metric, device.axis.metric. */
  function ToMetricId(deviceId: string, axisId: string, metricId: string): string {
    deviceId + "." + axisId + "." + metricId
  }

  /** Splitting a metric id on '.' gives back its three components, provided
      none of them contains a '.'. */
  lemma ToMetricIdSplit(deviceId: string, axisId: string, metricId: string)
    requires '.' !in deviceId && '.' !in axisId && '.' !in metricId
    ensures Split(ToMetricId(deviceId, axisId, metricId), '.') == [deviceId, axisId, metricId]
  {
    var parts := [deviceId, axisId, metricId];
    assert Join(parts[2..], '.') == metricId;
    assert Join(parts[1..], '.') == axisId + "." + metricId;
    assert Join(parts, '.') == ToMetricId(deviceId, axisId, metricId);
    SplitJoin(parts, '.');
  }

  /** The refs of one axis: device.axis, then device.axis.metric for each of
      its metrics. */
  function AxisPool(deviceId: string, a: Axis): (r: seq<string>)
    ensures |r| == |a.metrics| + 1
  {
    [deviceId + "." + a.id] + seq(|a.metrics|, i requires 0 <= i < |a.metrics| => ToMetricId(deviceId, a.id, a.metrics[i].id))
  }

  /** The refs of a device's axes, axis after axis. */
  function AxesPool(deviceId: string, axes: seq<Axis>): seq<string> {
    if |axes| == 0 then [] else AxesPool(deviceId, axes[..|axes| - 1]) + AxisPool(deviceId, axes[|axes| - 1])
  }

  /** The pool getEvents draws refs from: each device, followed by the refs
      of its axes. */
  function MockPool(tree: seq<TreeDevice>): (pool: seq<string>)
    ensures |pool| >= |tree|
  {
    if |tree| == 0 then []
    else MockPool(tree[..|tree| - 1]) + ([tree[|tree| - 1].id] + AxesPool(tree[|tree| - 1].id, tree[|tree| - 1].axes))
  }

  /** r names the axis a of the device, or one of its metrics. */
  predicate IsAxisRef(deviceId: string, a: Axis, r: string) {
    || r == deviceId + "." + a.id
    || exists m :: 0 <= m < |a.metrics| && r == ToMetricId(deviceId, a.id, a.metrics[m].id)
  }

  /** A ref of a device's axes is an axis ref or a metric id of one of them. */
  lemma {:induction false} AxesPoolMembers(deviceId: string, axes: seq<Axis>, r: string)
    ensures r in AxesPool(deviceId, axes) <==> exists k :: 0 <= k < |axes| && IsAxisRef(deviceId, axes[k], r)
  {
    if |axes| > 0 {
      var n := |axes| - 1;
      AxesPoolMembers(deviceId, axes[..n], r);
      assert forall k :: 0 <= k < n ==> axes[..n][k] == axes[k];
      var a := axes[n];
      assert r in AxisPool(deviceId, a) <==> IsAxisRef(deviceId, a, r) by {
        var p := AxisPool(deviceId, a);
        if r in p && r != deviceId + "." + a.id {
          var i :| 0 <= i < |p| && p[i] == r;
          assert r == ToMetricId(deviceId, a.id, a.metrics[i - 1].id);
        }
        if exists m :: 0 <= m < |a.metrics| && r == ToMetricId(deviceId, a.id, a.metrics[m].id) {
          var m :| 0 <= m < |a.metrics| && r == ToMetricId(deviceId, a.id, a.metrics[m].id);
          assert p[m + 1] == r;
        }
      }
    }
  }

  /** r is the device itself or a ref of one of its axes. */
  predicate IsDeviceRef(d: TreeDevice, r: string) {
    r == d.id || exists k :: 0 <= k < |d.axes| && IsAxisRef(d.id, d.axes[k], r)
  }

  /** The pool holds exactly the device ids, the device.axis refs and the
      device.axis.metric ids of the tree. */
  lemma {:induction false} MockPoolMembers(tree: seq<TreeDevice>, r: string)
    ensures r in MockPool(tree) <==> exists d :: 0 <= d < |tree| && IsDeviceRef(tree[d], r)
  {
    if |tree| > 0 {
      var n := |tree| - 1;
      MockPoolMembers(tree[..n], r);
      AxesPoolMembers(tree[n].id, tree[n].axes, r);
      assert forall d :: 0 <= d < n ==> tree[..n][d] == tree[d];
    }
  }

  /** The refs of one axis, pushed one by one. */
  method PushAxis(deviceId: string, a: Axis) returns (refs: seq<string>)
    ensures refs == AxisPool(deviceId, a)
  {
    refs := [deviceId + "." + a.id];
    var i := 0;
    while i < |a.metrics|
      invariant 0 <= i <= |a.metrics|
      invariant refs == [deviceId + "." + a.id]
        + seq(i, k requires 0 <= k < i => ToMetricId(deviceId, a.id, a.metrics[k].id))
    {
      refs := refs + [ToMetricId(deviceId, a.id, a.metrics[i].id)];
      i := i + 1;
    }
  }

  /** The pool, built as getEvents builds it with nested forEach loops. */
  method BuildPool(tree: seq<TreeDevice>) returns (pool: seq<string>)
    ensures pool == MockPool(tree)
  {
    pool := [];
    var i := 0;
    while i < |tree|
      invariant 0 <= i <= |tree|
      invariant pool == MockPool(tree[..i])
    {
      var d := tree[i];
      assert tree[..i + 1][..i] == tree[..i];
      var devicePool := [d.id];
      var j := 0;
      while j < |d.axes|
        invariant 0 <= j <= |d.axes|
        invariant devicePool == [d.id] + AxesPool(d.id, d.axes[..j])
      {
        assert d.axes[..j + 1][..j] == d.axes[..j];
        var refs := PushAxis(d.id, d.axes[j]);
        devicePool := devicePool + refs;
        j := j + 1;
      }
      assert d.axes[..j] == d.axes;
      pool := pool + devicePool;
      i := i + 1;
    }
    assert tree[..i] == tree;
  }

  /** The candidates of one call of getEvents: as many as EventCount says,
      the i-th with id i + 1. */
  function MockCandidates(pool: seq<string>, start: int, end: int, draws: seq<EventDraw>): (r: seq<Event>)
    requires GenDrawsFit(draws, start, end, |pool|)
    ensures |r| == EventCount(start, end)
  {
    Candidates(start, end, draws[..EventCount(start, end)], pool, 1, 1)
  }

  /** What getEvents returns: the candidates inside the window whose ref
      passes the filter, sorted by time. */
  function MockEvents(pool: seq<string>, refIds: seq<string>, start: int, end: int, draws: seq<EventDraw>): seq<Event>
    requires GenDrawsFit(draws, start, end, |pool|)
  {
    FilterSort(MockCandidates(pool, start, end, draws), refIds, start, end)
  }

  /** getEvents draws clamp(floor(max(1, end - start) / 60000), 12, 50)
      candidates with ids 1, 2, ..., and returns exactly those inside
      [start, end] whose ref passes the filter, each once, sorted by time. */
  lemma MockEventsProperties(pool: seq<string>, refIds: seq<string>, start: int, end: int, draws: seq<EventDraw>)
    requires GenDrawsFit(draws, start, end, |pool|)
    ensures var c := MockCandidates(pool, start, end, draws);
      && |c| == EventCount(start, end)
      && forall i :: 0 <= i < |c| ==> c[i].id == i + 1
    ensures var r := MockEvents(pool, refIds, start, end, draws);
      && SortedBy(r, TimeOf)
      && multiset(r) <= multiset(MockCandidates(pool, start, end, draws))
      && (forall e :: e in r <==> (e in MockCandidates(pool, start, end, draws)
                                   && InWindow(e, start, end) && RefMatch(refIds, e.refId)))
      && (forall e :: e in r ==> 1 <= e.id <= EventCount(start, end) && e.refId in pool && e.description == None)
  {
    var c := MockCandidates(pool, start, end, draws);
    var r := MockEvents(pool, refIds, start, end, draws);
    var fit := draws[..EventCount(start, end)];
    assert forall i :: 0 <= i < |c| ==> c[i].id == i + 1 by {
      forall i | 0 <= i < |c| ensures c[i].id == i + 1 {
        CandidatesShape(start, end, fit, pool, 1, 1, i);
      }
    }
    FilterSortKeeps(c, refIds, start, end);
    forall e | e in r
      ensures 1 <= e.id <= EventCount(start, end) && e.refId in pool && e.description == None
    {
      assert 1 <= e.id <= |fit| && e.refId in pool && e.description == None by {
        FilteredCandidateMember(start, end, fit, pool, 1, 1, refIds, e);
      }
    }
  }

  /** getEvents: builds the pool, draws the candidates, then filters and
      sorts them. */
  method GetEvents(tree: seq<TreeDevice>, refIds: seq<string>, start: int, end: int, draws: seq<EventDraw>)
    returns (r: seq<Event>)
    requires GenDrawsFit(draws, start, end, |MockPool(tree)|)
    ensures r == MockEvents(MockPool(tree), refIds, start, end, draws)
  {
    var pool := BuildPool(tree);
    var span := Max(1, end - start);
    var count := Max(12, Min(50, span / 60000));
    assert span == Span(start, end) && count == EventCount(start, end);
    var events := DrawCandidates(start, end, draws[..count], pool, 1, 1);
    events := Matching(events, refIds, start, end);
    r := SortBy(events, TimeOf);
  }
}
