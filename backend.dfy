/** The Flask backend's generators and pure helpers: the static metric tree,
    the pool of ref targets, synthetic events, the collection simulation, the
    time-series generator, the ref-id query parser and the report's ref-id
    derivation. Clocks and random draws are parameters. */
module Backend {
  import opened Strings
  import opened Seqs
  import opened Api

  /** A device of the backend tree: its metrics are listed flat, each metric id
      being "axis.metric". */
  datatype TreeDevice = TreeDevice(id: string, name: string, metrics: seq<MetricMeta>)

  const TREE: seq<TreeDevice> := [
    TreeDevice("POAM1", "POAM1", [
      MetricMeta("Z.MA", "MA", "A", Http, "Z", "Z"),
      MetricMeta("Z.MSD", "MSD", "μm", Mqtt, "Z", "Z"),
      MetricMeta("Z.VEL", "Velocity", "mm/s", Opcua, "Z", "Z"),
      MetricMeta("Rx.MA_3A", "MA_3A", "A", Opcua, "Rx", "Rx"),
      MetricMeta("Rx.POS", "Position", "deg", Mqtt, "Rx", "Rx"),
      MetricMeta("Ry.TRQ", "Torque", "Nm", Http, "Ry", "Ry")]),
    TreeDevice("POAM2", "POAM2", [
      MetricMeta("X.CUR", "Current", "A", Http, "X", "X"),
      MetricMeta("X.ERR", "Error", "μm", Mqtt, "X", "X"),
      MetricMeta("Y.CUR", "Current", "A", Http, "Y", "Y")]),
    TreeDevice("LENS_TESTER", "LENS_TESTER", [
      MetricMeta("Main.TEMP", "Temperature", "°C", Opcua, "Main", "Main"),
      MetricMeta("Main.HUM", "Humidity", "%", Mqtt, "Main", "Main")])
  ]

  // ---------------------------------------------------------------------------
  // The pool of ref targets

  /** "device.metricKey" for every metric whose stripped id is not blank. */
  function MetricRefs(deviceId: string, ms: seq<MetricMeta>): seq<string> {
    if |ms| == 0 then []
    else
      var key := Strip(ms[|ms| - 1].id);
      MetricRefs(deviceId, ms[..|ms| - 1]) + (if key != "" then [deviceId + "." + key] else [])
  }

  /** The non-empty axis ids of the metrics, in order, repeats included. */
  function AxisIds(ms: seq<MetricMeta>): seq<string> {
    if |ms| == 0 then []
    else AxisIds(ms[..|ms| - 1]) + (if ms[|ms| - 1].axisId != "" then [ms[|ms| - 1].axisId] else [])
  }

  /** "device.axis" for each axis id, in the given order. */
  function AxisRefs(deviceId: string, axes: seq<string>): seq<string> {
    if |axes| == 0 then []
    else AxisRefs(deviceId, axes[..|axes| - 1]) + [deviceId + "." + axes[|axes| - 1]]
  }

  /** What one device contributes to the pool: its id, its metrics, then its
      distinct axes in ascending order. */
  function DevicePool(d: TreeDevice): seq<string> {
    [d.id] + MetricRefs(d.id, d.metrics) + AxisRefs(d.id, SortedSet(AxisIds(d.metrics)))
  }

  /** The pool of ref targets, device after device. */
  function Pool(tree: seq<TreeDevice>): (pool: seq<string>)
    ensures |pool| >= |tree|
  {
    if |tree| == 0 then [] else Pool(tree[..|tree| - 1]) + DevicePool(tree[|tree| - 1])
  }

  /** Every ref in the pool lies under the device it was built from: the
      device id followed by nothing or by a dot. */
  lemma {:induction false} PoolRefsUnderDevices(tree: seq<TreeDevice>, p: string)
    requires p in Pool(tree)
    ensures exists i :: (0 <= i < |tree| && StartsWith(p, tree[i].id)
                         && (|p| == |tree[i].id| || p[|tree[i].id|] == '.'))
  {
    var n := |tree|;
    var d := tree[n - 1];
    if p in Pool(tree[..n - 1]) {
      PoolRefsUnderDevices(tree[..n - 1], p);
      var i :| 0 <= i < n - 1 && StartsWith(p, tree[..n - 1][i].id)
        && (|p| == |tree[..n - 1][i].id| || p[|tree[..n - 1][i].id|] == '.');
      assert tree[..n - 1][i] == tree[i];
    } else {
      assert p in DevicePool(d);
      if p != d.id {
        if p in MetricRefs(d.id, d.metrics) {
          MetricRefsUnderDevice(d.id, d.metrics, p);
        } else {
          AxisRefsUnderDevice(d.id, SortedSet(AxisIds(d.metrics)), p);
        }
      }
      assert StartsWith(p, tree[n - 1].id);
    }
  }

  lemma {:induction false} MetricRefsUnderDevice(deviceId: string, ms: seq<MetricMeta>, p: string)
    requires p in MetricRefs(deviceId, ms)
    ensures StartsWith(p, deviceId) && |p| > |deviceId| && p[|deviceId|] == '.'
  {
    var key := Strip(ms[|ms| - 1].id);
    if p !in MetricRefs(deviceId, ms[..|ms| - 1]) {
      assert p == deviceId + "." + key;
    } else {
      MetricRefsUnderDevice(deviceId, ms[..|ms| - 1], p);
    }
  }

  lemma {:induction false} AxisRefsUnderDevice(deviceId: string, axes: seq<string>, p: string)
    requires p in AxisRefs(deviceId, axes)
    ensures StartsWith(p, deviceId) && |p| > |deviceId| && p[|deviceId|] == '.'
  {
    if p !in AxisRefs(deviceId, axes[..|axes| - 1]) {
      assert p == deviceId + "." + axes[|axes| - 1];
    } else {
      AxisRefsUnderDevice(deviceId, axes[..|axes| - 1], p);
    }
  }

  /** The axis ids of the metrics as a set. */
  function AxisSet(ms: seq<MetricMeta>): set<string> {
    if |ms| == 0 then {}
    else AxisSet(ms[..|ms| - 1]) + (if ms[|ms| - 1].axisId != "" then {ms[|ms| - 1].axisId} else {})
  }

  lemma {:induction false} AxisSetHoldsAxisIds(ms: seq<MetricMeta>)
    ensures forall a :: a in AxisSet(ms) <==> a in AxisIds(ms)
  {
    if |ms| > 0 { AxisSetHoldsAxisIds(ms[..|ms| - 1]); }
  }

  /** The metric refs of one device, collecting its axis ids in a set on the
      way. */
  method MetricRefsAndAxes(d: TreeDevice) returns (refs: seq<string>, axisIds: set<string>)
    ensures refs == MetricRefs(d.id, d.metrics)
    ensures forall a :: a in axisIds <==> a in AxisIds(d.metrics)
  {
    refs := [];
    axisIds := {};
    var j := 0;
    assert d.metrics[..j] == [];
    while j < |d.metrics|
      invariant 0 <= j <= |d.metrics|
      invariant refs == MetricRefs(d.id, d.metrics[..j])
      invariant axisIds == AxisSet(d.metrics[..j])
    {
      var m := d.metrics[j];
      var key := Strip(m.id);
      assert MetricRefs(d.id, d.metrics[..j + 1]) == refs + (if key != "" then [d.id + "." + key] else [])
          && AxisSet(d.metrics[..j + 1]) == axisIds + (if m.axisId != "" then {m.axisId} else {}) by {
        assert d.metrics[..j + 1][..j] == d.metrics[..j];
      }
      if m.axisId != "" {
        axisIds := axisIds + {m.axisId};
      }
      if key != "" {
        refs := refs + [d.id + "." + key];
      }
      j := j + 1;
    }
    assert d.metrics[..j] == d.metrics;
    AxisSetHoldsAxisIds(d.metrics);
  }

  /** "device.axis" for each axis, in order. */
  method AxisRefsOf(deviceId: string, axes: seq<string>) returns (refs: seq<string>)
    ensures refs == AxisRefs(deviceId, axes)
  {
    refs := [];
    var k := 0;
    while k < |axes|
      invariant 0 <= k <= |axes|
      invariant refs == AxisRefs(deviceId, axes[..k])
    {
      assert axes[..k + 1][..k] == axes[..k];
      refs := refs + [deviceId + "." + axes[k]];
      k := k + 1;
    }
    assert axes[..k] == axes;
  }

  /** _event_pool: per device its id, then a "device.metric" ref for each
      metric while the axis ids are collected in a set, then a "device.axis"
      ref for each axis in sorted order. */
  method EventPool(tree: seq<TreeDevice>) returns (pool: seq<string>)
    ensures pool == Pool(tree)
  {
    pool := [];
    var i := 0;
    while i < |tree|
      invariant 0 <= i <= |tree|
      invariant pool == Pool(tree[..i])
    {
      var d := tree[i];
      var metricRefs, axisIds := MetricRefsAndAxes(d);
      var axes := SortedOf(axisIds);
      StrictlySortedUnique(axes, SortedSet(AxisIds(d.metrics)));
      var axisRefs := AxisRefsOf(d.id, axes);
      assert tree[..i + 1][..i] == tree[..i];
      pool := pool + ([d.id] + metricRefs + axisRefs);
      i := i + 1;
    }
    assert tree[..i] == tree;
  }

  // ---------------------------------------------------------------------------
  // Synthetic events

  /** The candidates of one call of _gen_events: as many as EventCount
      says, the i-th with id -(i+1). */
  function GenCandidates(pool: seq<string>, start: int, end: int, draws: seq<EventDraw>): (r: seq<Event>)
    requires GenDrawsFit(draws, start, end, |pool|)
    ensures |r| == EventCount(start, end)
  {
    Candidates(start, end, draws[..EventCount(start, end)], pool, -1, -1)
  }

  /** What _gen_events returns: the candidates inside the window whose ref
      passes the filter, sorted by time. */
  function GenSpec(pool: seq<string>, refIds: seq<string>, start: int, end: int, draws: seq<EventDraw>): seq<Event>
    requires GenDrawsFit(draws, start, end, |pool|)
  {
    FilterSort(GenCandidates(pool, start, end, draws), refIds, start, end)
  }

  /** _gen_events draws clamp(span // 60000, 12, 50) candidates, the i-th
      with id -(i+1), and returns exactly those inside [start, end] that pass
      the ref filter, sorted by time; each has a negative id, a ref from the
      pool and no description. */
  lemma GeneratedEvents(pool: seq<string>, refIds: seq<string>, start: int, end: int, draws: seq<EventDraw>)
    requires GenDrawsFit(draws, start, end, |pool|)
    ensures var c := GenCandidates(pool, start, end, draws);
      && |c| == EventCount(start, end)
      && forall i :: 0 <= i < |c| ==> c[i].id == -(i + 1)
    ensures var r := GenSpec(pool, refIds, start, end, draws);
      && SortedBy(r, TimeOf)
      && multiset(r) <= multiset(GenCandidates(pool, start, end, draws))
      && (forall e :: e in r <==> (e in GenCandidates(pool, start, end, draws)
                                   && InWindow(e, start, end) && RefMatch(refIds, e.refId)))
      && (forall e :: e in r ==> e.id < 0 && e.refId in pool && e.description == None)
  {
    var c := GenCandidates(pool, start, end, draws);
    var r := GenSpec(pool, refIds, start, end, draws);
    var fit := draws[..EventCount(start, end)];
    assert forall i :: 0 <= i < |c| ==> c[i].id == -(i + 1) by {
      forall i | 0 <= i < |c| ensures c[i].id == -(i + 1) {
        CandidatesShape(start, end, fit, pool, -1, -1, i);
      }
    }
    FilterSortKeeps(c, refIds, start, end);
    forall e | e in r
      ensures e.id < 0 && e.refId in pool && e.description == None
    {
      assert e.id < 0 && e.refId in pool && e.description == None by {
        FilteredCandidateMember(start, end, fit, pool, -1, -1, refIds, e);
      }
    }
  }

  /** _gen_events: draws clamp(span // 60000, 12, 50) candidates over the
      pool of the tree, then filters and sorts them. */
  method GenEvents(tree: seq<TreeDevice>, refIds: seq<string>, start: int, end: int, draws: seq<EventDraw>)
    returns (r: seq<Event>)
    requires GenDrawsFit(draws, start, end, |Pool(tree)|)
    ensures r == GenSpec(Pool(tree), refIds, start, end, draws)
  {
    var span := Max(1, end - start);
    var count := Max(12, Min(50, span / 60000));
    assert span == Span(start, end) && count == EventCount(start, end);
    var pool := EventPool(tree);
    var out := DrawCandidates(start, end, draws[..count], pool, -1, -1);
    out := Matching(out, refIds, start, end);
    r := SortBy(out, TimeOf);
  }

  // ---------------------------------------------------------------------------
  // The events query and its merge with the stored events

  /** The ids of the stored events. */
  function IdsOf(es: seq<Event>): set<int> {
    set e | e in es :: e.id
  }

  /** The events whose id is not in ids, in order. */
  function WithoutIds(es: seq<Event>, ids: set<int>): (r: seq<Event>)
    ensures forall e :: e in r <==> e in es && e.id !in ids
  {
    if |es| == 0 then []
    else (if es[0].id in ids then [] else [es[0]]) + WithoutIds(es[1..], ids)
  }

  /** The answer to an events query over the stored events: the stored events
      in the window that pass the filter, and the generated ones whose id no
      stored event carries, sorted together by time. */
  function MergedSpec(stored: seq<Event>, pool: seq<string>, refIds: seq<string>, start: int, end: int,
                      draws: seq<EventDraw>): seq<Event>
    requires GenDrawsFit(draws, start, end, |pool|)
  {
    SortBy(Matching(stored, refIds, start, end)
           + WithoutIds(GenSpec(pool, refIds, start, end, draws), IdsOf(stored)), TimeOf)
  }

  /** The merged answer is sorted by time; it holds only events in the window
      that pass the filter; it holds every such stored event; a generated event
      is in it iff no stored event carries its id. */
  lemma MergedEvents(stored: seq<Event>, pool: seq<string>, refIds: seq<string>, start: int, end: int,
                     draws: seq<EventDraw>)
    requires GenDrawsFit(draws, start, end, |pool|)
    ensures var r := MergedSpec(stored, pool, refIds, start, end, draws);
      && SortedBy(r, TimeOf)
      && (forall e :: e in r ==> InWindow(e, start, end) && RefMatch(refIds, e.refId))
      && (forall e :: e in stored && InWindow(e, start, end) && RefMatch(refIds, e.refId) ==> e in r)
      && (forall e :: e in r && e !in stored ==>
            e.id !in IdsOf(stored) && e in GenSpec(pool, refIds, start, end, draws))
      && (forall e :: e in GenSpec(pool, refIds, start, end, draws) && e.id !in IdsOf(stored) ==> e in r)
  {
    var local := Matching(stored, refIds, start, end);
    var gen := GenSpec(pool, refIds, start, end, draws);
    var kept := WithoutIds(gen, IdsOf(stored));
    var r := MergedSpec(stored, pool, refIds, start, end, draws);
    GeneratedEvents(pool, refIds, start, end, draws);
    SortBySorted(local + kept, TimeOf);
    assert multiset(r) == multiset(local + kept);
    forall e | e in r ensures e in local || e in kept {
      assert e in multiset(r);
      assert e in local + kept;
    }
    forall e | e in local ensures e in r {
      assert e in multiset(local + kept);
    }
    forall e | e in kept ensures e in r {
      assert e in multiset(local + kept);
    }
  }

  /** At equal times the stored events come before the generated ones, each
      group in its own order. */
  lemma MergedTies(stored: seq<Event>, pool: seq<string>, refIds: seq<string>, start: int, end: int,
                   draws: seq<EventDraw>, k: int)
    requires GenDrawsFit(draws, start, end, |pool|)
    ensures WithKey(MergedSpec(stored, pool, refIds, start, end, draws), TimeOf, k)
         == WithKey(Matching(stored, refIds, start, end), TimeOf, k)
          + WithKey(WithoutIds(GenSpec(pool, refIds, start, end, draws), IdsOf(stored)), TimeOf, k)
  {
    var local := Matching(stored, refIds, start, end);
    var kept := WithoutIds(GenSpec(pool, refIds, start, end, draws), IdsOf(stored));
    SortByStable(local + kept, TimeOf, k);
    WithKeyAppend(local, kept, TimeOf, k);
  }

  // ---------------------------------------------------------------------------
  // Collection

  /** collect: one attempt per target, in target order, then the successes are
      counted and the failures are the rest. */
  method Collect(targets: seq<string>, draws: seq<CollectDraw>, now: int) returns (res: CollectResult)
    requires |draws| >= |targets|
    requires forall i :: 0 <= i < |targets| ==> CollectDrawIsUnit(draws[i])
    ensures |res.details| == |targets|
    ensures forall i :: 0 <= i < |targets| ==> res.details[i] == Attempt(targets[i], draws[i])
    ensures res.successCount == CountGood(res.details)
    ensures res.failedCount == CountNotGood(res.details)
    ensures res.successCount + res.failedCount == |targets|
    ensures res.timestamp == now
  {
    var details: seq<CollectDetail> := [];
    for i := 0 to |targets|
      invariant |details| == i
      invariant forall k :: 0 <= k < i ==> details[k] == Attempt(targets[k], draws[k])
    {
      details := details + [Attempt(targets[i], draws[i])];
    }
    var success := 0;
    for i := 0 to |details|
      invariant success == CountGood(details[..i])
    {
      assert details[..i + 1][..i] == details[..i];
      if details[i].quality == Good {
        success := success + 1;
      }
    }
    assert details[..|details|] == details;
    CountsPartition(details);
    res := CollectResult(success, |details| - success, details, now);
  }

  // ---------------------------------------------------------------------------
  // Time series

  /** A start or end of 0 (also what a missing one reads as) falls back to the
      last ten minutes before now. */
  function DataStart(start: int, now: int): int { if start != 0 then start else now - 10 * 60000 }
  function DataEnd(end: int, now: int): int { if end != 0 then end else now }

  /** The sampling step: a three-hundredth of the span, but at least a second. */
  function DataStep(start: int, end: int): (step: int)
    ensures step >= 1000
    ensures Span(start, end) / 300 >= 1000 ==> step == Span(start, end) / 300
  {
    Max(1000, Span(start, end) / 300)
  }

  /** The step fits span // step times into the span. */
  lemma DataPointsFit(start: int, end: int)
    ensures 0 <= (Span(start, end) / DataStep(start, end)) * DataStep(start, end) <= Span(start, end)
  {
    var span, step := Span(start, end), DataStep(start, end);
    assert span == step * (span / step) + span % step;
  }

  /** The samples of a data series: span // step + 1 of them, sample i at
      start + i*step, rising strictly and never past start + span, and at
      most 301 of them. */
  lemma DataSeriesShape(id: string, idx: nat, start: int, end: int, value: (string, nat, nat) -> real)
    ensures var step := DataStep(start, end);
      var s := Series(id, idx, start, step, Span(start, end) / step + 1, value);
      && |s| == Span(start, end) / step + 1 <= 301
      && (forall i :: 0 <= i < |s| ==> s[i].t == start + i * step)
      && (forall i :: 0 <= i < |s| ==> start <= s[i].t <= start + Span(start, end))
      && (forall i, j :: 0 <= i < j < |s| ==> s[i].t < s[j].t)
  {
    var step := DataStep(start, end);
    var count := Span(start, end) / step + 1;
    var s := Series(id, idx, start, step, count, value);
    DataPointsFit(start, end);
    StepBound(Span(start, end));
    forall i, j | 0 <= i < j < |s| ensures s[i].t < s[j].t {
      SeriesTimes(id, idx, start, step, count, value, i, j);
    }
    forall i | 0 <= i < |s| ensures start <= s[i].t <= start + Span(start, end) {
      MulMonotonic(i, count - 1, step);
    }
  }

  /** data: per requested id a series of samples from start to end; a repeated
      id keeps the series of its last occurrence. */
  method Data(ids: seq<string>, startArg: int, endArg: int, now: int, value: (string, nat, nat) -> real)
    returns (out: map<string, seq<Sample>>)
    ensures forall id :: id in out <==> id in ids
    ensures var start, end := DataStart(startArg, now), DataEnd(endArg, now);
      forall id :: id in out ==>
        out[id] == Series(id, LastIndex(ids, id), start, DataStep(start, end),
                          Span(start, end) / DataStep(start, end) + 1, value)
  {
    var start := DataStart(startArg, now);
    var end := DataEnd(endArg, now);
    var span := Max(1, end - start);
    var step := Max(1000, span / 300);
    var points := span / step;
    out := BuildSeries(ids, start, step, points, value);
  }

  // ---------------------------------------------------------------------------
  // The refIds / refId query parameters

  /** The non-empty comma-separated pieces of the raw values, in order. */
  function Pieces(raws: seq<string>): seq<string> {
    if |raws| == 0 then [] else NonEmpty(Split(raws[0], ',')) + Pieces(raws[1..])
  }

  function NonEmpty(xs: seq<string>): (r: seq<string>)
    ensures forall x :: x in r <==> x in xs && x != ""
  {
    if |xs| == 0 then [] else (if xs[0] != "" then [xs[0]] else []) + NonEmpty(xs[1..])
  }

  /** Each piece stripped, blank ones dropped. */
  function StrippedNonBlank(xs: seq<string>): (r: seq<string>)
    ensures forall y :: y in r <==> y != "" && exists x :: x in xs && Strip(x) == y
  {
    if |xs| == 0 then []
    else
      assert forall x :: x in xs <==> x == xs[0] || x in xs[1..];
      (if Strip(xs[0]) != "" then [Strip(xs[0])] else []) + StrippedNonBlank(xs[1..])
  }

  /** The candidate prefixes before de-duplication: refIds values first. */
  function RawRefIds(refIdsArgs: seq<string>, refIdArgs: seq<string>): seq<string> {
    StrippedNonBlank(Pieces(refIdsArgs) + Pieces(refIdArgs))
  }

  /** _parse_ref_ids: every value of refIds and then of refId is split on
      commas; the pieces are stripped, blank ones dropped, and repeats removed
      keeping the first. */
  function ParseRefIds(refIdsArgs: seq<string>, refIdArgs: seq<string>): (r: seq<string>)
    ensures NoDuplicates(r)
    ensures forall i :: 0 <= i < |r| ==> r[i] != "" && Strip(r[i]) == r[i]
    ensures forall y :: y in r <==> y in RawRefIds(refIdsArgs, refIdArgs)
  {
    var raw := RawRefIds(refIdsArgs, refIdArgs);
    var r := Dedup(raw);
    forall i | 0 <= i < |r| ensures r[i] != "" && Strip(r[i]) == r[i] {
      assert r[i] in raw;
      var x :| x in Pieces(refIdsArgs) + Pieces(refIdArgs) && Strip(x) == r[i];
      StripIdempotent(x);
    }
    r
  }

  lemma {:induction false} PiecesMembers(raws: seq<string>, x: string)
    ensures x in Pieces(raws) <==> x != "" && exists raw :: raw in raws && x in Split(raw, ',')
  {
    if |raws| > 0 {
      PiecesMembers(raws[1..], x);
      assert forall raw :: raw in raws <==> raw == raws[0] || raw in raws[1..];
      if x != "" && exists raw :: raw in raws && x in Split(raw, ',') {
        var raw :| raw in raws && x in Split(raw, ',');
        if raw != raws[0] {
          assert raw in raws[1..];
        }
      }
    }
  }

  /** A value is a parsed ref id iff it is the non-blank strip of a
      comma-separated piece of some refIds or refId value. */
  lemma ParsedRefIdMembers(refIdsArgs: seq<string>, refIdArgs: seq<string>, y: string)
    ensures y in ParseRefIds(refIdsArgs, refIdArgs) <==>
      y != "" && exists raw, x :: raw in refIdsArgs + refIdArgs && x in Split(raw, ',') && Strip(x) == y
  {
    var xs := Pieces(refIdsArgs) + Pieces(refIdArgs);
    if y in ParseRefIds(refIdsArgs, refIdArgs) {
      var x :| x in xs && Strip(x) == y;
      if x in Pieces(refIdsArgs) { PiecesMembers(refIdsArgs, x); } else { PiecesMembers(refIdArgs, x); }
      var raw :| raw in refIdsArgs + refIdArgs && x in Split(raw, ',');
    }
    if y != "" && exists raw, x :: raw in refIdsArgs + refIdArgs && x in Split(raw, ',') && Strip(x) == y {
      var raw, x :| raw in refIdsArgs + refIdArgs && x in Split(raw, ',') && Strip(x) == y;
      assert x != "";
      if raw in refIdsArgs { PiecesMembers(refIdsArgs, x); } else { PiecesMembers(refIdArgs, x); }
      assert x in xs;
    }
  }

  /** Parsed ref ids keep the order of first occurrence, so every prefix given
      through refIds precedes every prefix given only through refId. */
  lemma ParsedRefIdsOrder(refIdsArgs: seq<string>, refIdArgs: seq<string>, i: nat, j: nat)
    requires var r := ParseRefIds(refIdsArgs, refIdArgs);
      && i < |r| && j < |r|
      && r[i] in StrippedNonBlank(Pieces(refIdsArgs))
      && r[j] !in StrippedNonBlank(Pieces(refIdsArgs))
    ensures i < j
  {
    var a := Pieces(refIdsArgs);
    var b := Pieces(refIdArgs);
    StrippedNonBlankAppend(a, b);
    DedupAppendOrder(StrippedNonBlank(a), StrippedNonBlank(b), i, j);
  }

  lemma {:induction false} StrippedNonBlankAppend(a: seq<string>, b: seq<string>)
    ensures StrippedNonBlank(a + b) == StrippedNonBlank(a) + StrippedNonBlank(b)
  {
    if |a| > 0 {
      assert (a + b)[1..] == a[1..] + b;
      StrippedNonBlankAppend(a[1..], b);
    } else {
      assert a + b == b;
    }
  }

  // ---------------------------------------------------------------------------
  // The report's ref prefixes and window

  /** The first two dot-separated components of a chart metric, when it has
      at least two. */
  function RefPrefix(m: string): Option<string> {
    var parts := Split(m, '.');
    if |parts| >= 2 then Some(Join(parts[..2], '.')) else None
  }

  lemma {:induction false} SplitSingle(s: string, sep: char)
    ensures |Split(s, sep)| == 1 <==> sep !in s
    decreases |s|
  {
    if |s| > 0 { SplitSingle(s[1..], sep); }
  }

  /** A metric has a ref prefix iff it holds a dot; the prefix is the metric up
      to its second dot (or its end), and it holds exactly one dot. */
  lemma RefPrefixShape(m: string)
    ensures RefPrefix(m).Some? <==> '.' in m
    ensures RefPrefix(m).Some? ==>
      var p := RefPrefix(m).value;
      StartsWith(m, p) && (|p| == |m| || m[|p|] == '.') && |Split(p, '.')| == 2
  {
    var parts := Split(m, '.');
    SplitSingle(m, '.');
    if |parts| >= 2 {
      var two := parts[..2];
      assert two[1..] == [parts[1]];
      assert Join(two[1..], '.') == parts[1];
      var p := Join(two, '.');
      assert p == parts[0] + ['.'] + parts[1];
      JoinSplit(m, '.');
      if |parts| == 2 {
        assert two == parts;
      } else {
        assert parts[1..][1..] == parts[2..];
        var tail := Join(parts[2..], '.');
        assert Join(parts[1..], '.') == parts[1] + ['.'] + tail;
        assert m == p + ['.'] + tail;
        assert m[..|p|] == p;
      }
      SplitJoin(two, '.');
    }
  }

  /** The prefixes of a chart's metrics, in order. */
  function MetricPrefixes(ms: seq<string>): seq<string> {
    if |ms| == 0 then []
    else
      var p := RefPrefix(ms[|ms| - 1]);
      MetricPrefixes(ms[..|ms| - 1]) + (if p.Some? then [p.value] else [])
  }

  /** The prefixes of all charts' metrics, in order, repeats included. */
  function ChartPrefixes(charts: seq<seq<string>>): seq<string> {
    if |charts| == 0 then []
    else ChartPrefixes(charts[..|charts| - 1]) + MetricPrefixes(charts[|charts| - 1])
  }

  /** The number of metrics over all charts. */
  function TotalMetrics(charts: seq<seq<string>>): nat {
    if |charts| == 0 then 0 else TotalMetrics(charts[..|charts| - 1]) + |charts[|charts| - 1]|
  }

  /** The ref prefixes a report filters its events by. */
  function ReportRefIds(deviceId: string, charts: seq<seq<string>>): seq<string> {
    if deviceId != "" then [deviceId] else SortedSet(ChartPrefixes(charts))
  }

  lemma {:induction false} MetricPrefixMembers(ms: seq<string>, y: string)
    ensures y in MetricPrefixes(ms) <==> exists m :: m in ms && RefPrefix(m) == Some(y)
  {
    if |ms| > 0 {
      MetricPrefixMembers(ms[..|ms| - 1], y);
      assert ms == ms[..|ms| - 1] + [ms[|ms| - 1]];
    }
  }

  lemma {:induction false} ChartPrefixMembers(charts: seq<seq<string>>, y: string)
    ensures y in ChartPrefixes(charts) <==>
      exists c, m :: c in charts && m in c && RefPrefix(m) == Some(y)
  {
    if |charts| > 0 {
      var init, last := charts[..|charts| - 1], charts[|charts| - 1];
      ChartPrefixMembers(init, y);
      MetricPrefixMembers(last, y);
      assert charts == init + [last];
      if exists c, m :: c in charts && m in c && RefPrefix(m) == Some(y) {
        var c, m :| c in charts && m in c && RefPrefix(m) == Some(y);
        if c != last { assert c in init; }
      }
    }
  }

  /** With a device id the report filters by exactly that id; otherwise by the
      sorted, distinct first-two-component prefixes of the chart metrics that
      have at least two components. */
  lemma ReportRefIdsChoice(deviceId: string, charts: seq<seq<string>>)
    ensures deviceId != "" ==> ReportRefIds(deviceId, charts) == [deviceId]
    ensures deviceId == "" ==>
      && StrictlySorted(ReportRefIds(deviceId, charts))
      && forall y :: y in ReportRefIds(deviceId, charts) <==>
           exists c, m :: c in charts && m in c && RefPrefix(m) == Some(y)
  {
    if deviceId == "" {
      forall y ensures y in ReportRefIds(deviceId, charts) <==>
        exists c, m :: c in charts && m in c && RefPrefix(m) == Some(y)
      {
        ChartPrefixMembers(charts, y);
      }
    }
  }

  /** The report's loops: without a device id, count the metrics of every
      chart and collect the distinct prefixes, then sort them. */
  method ReportPrefixes(deviceId: string, charts: seq<seq<string>>) returns (refIds: seq<string>, metricTotal: nat)
    ensures refIds == ReportRefIds(deviceId, charts)
    ensures metricTotal == if deviceId != "" then 0 else TotalMetrics(charts)
  {
    metricTotal := 0;
    if deviceId != "" {
      refIds := [deviceId];
      return;
    }
    var seen: set<string> := {};
    var i := 0;
    while i < |charts|
      invariant 0 <= i <= |charts|
      invariant metricTotal == TotalMetrics(charts[..i])
      invariant forall y :: y in seen <==> y in ChartPrefixes(charts[..i])
    {
      assert charts[..i + 1][..i] == charts[..i];
      var metrics := charts[i];
      metricTotal := metricTotal + |metrics|;
      var j := 0;
      while j < |metrics|
        invariant 0 <= j <= |metrics|
        invariant forall y :: y in seen <==> y in ChartPrefixes(charts[..i]) + MetricPrefixes(metrics[..j])
      {
        assert metrics[..j + 1][..j] == metrics[..j];
        var parts := Split(metrics[j], '.');
        if |parts| >= 2 {
          seen := seen + {Join(parts[..2], '.')};
        }
        j := j + 1;
      }
      assert metrics[..j] == metrics;
      i := i + 1;
    }
    assert charts[..i] == charts;
    refIds := SortedOf(seen);
    StrictlySortedUnique(refIds, SortedSet(ChartPrefixes(charts)));
  }

  /** The report's window: a zero (or missing) start is ten minutes before now
      and a zero end is now; a non-zero bound is kept as given, even when
      start >= end. */
  function ReportWindow(start: int, end: int, now: int): (w: (int, int))
    ensures w.0 == if start != 0 then start else now - 10 * 60000
    ensures w.1 == if end != 0 then end else now
  {
    if start == 0 || end == 0 || start >= end then
      (if start != 0 then start else now - 10 * 60000, if end != 0 then end else now)
    else
      (start, end)
  }
}
