/** The data contract shared by the Flask backend and the browser-side mock
    provider: metric metadata, collection details, time-series samples and
    events, the ref-id prefix filter, and the generators both sides run with
    their random draws supplied by the caller. */
module Api {
  import opened Strings
  import opened Seqs

  datatype Option<T> = None | Some(value: T)

  /** A key of a JSON request body: missing, explicitly null, or given. */
  datatype Field<T> = Absent | Null | Given(value: T)

  datatype SourceType = Http | Mqtt | Opcua

  datatype MetricMeta = MetricMeta(
    id: string, name: string, unit: string, sourceType: SourceType, axisId: string, axisName: string)

  function Max(a: int, b: int): int { if a < b then b else a }
  function Min(a: int, b: int): int { if a < b then a else b }

  // ---------------------------------------------------------------------------
  // Collection

  datatype Quality = Good | Timeout | Bad | ParseError | SourceError

  datatype CollectDetail = CollectDetail(
    id: string, quality: Quality, reason: Option<string>, value: Option<real>, durationMs: int)

  datatype CollectResult = CollectResult(
    successCount: nat, failedCount: nat, details: seq<CollectDetail>, timestamp: int)

  predicate IsUnit(r: real) { 0.0 <= r < 1.0 }

  /** The three uniform draws one collection attempt consumes: success, value,
      duration. */
  datatype CollectDraw = CollectDraw(ok: real, value: real, duration: real)

  predicate CollectDrawIsUnit(d: CollectDraw) {
    IsUnit(d.ok) && IsUnit(d.value) && IsUnit(d.duration)
  }

  const TimeoutReason: string := "mock_timeout"

  /** One simulated collection of target: it succeeds when the first draw
      exceeds 0.15; a success reads a value in [50, 100] within 80 to 259 ms,
      a failure is a 5000 ms timeout with no value. */
  function Attempt(target: string, d: CollectDraw): (c: CollectDetail)
    requires CollectDrawIsUnit(d)
    ensures c.id == target
    ensures c.quality == Good <==> d.ok > 0.15
    ensures c.quality == Good <==> c.reason == None
    ensures c.quality == Good <==> c.value.Some?
    ensures c.quality != Good ==>
      c.quality == Timeout && c.reason == Some(TimeoutReason) && c.durationMs == 5000
    ensures c.quality == Good ==>
      80 <= c.durationMs <= 259 && 50.0 <= c.value.value <= 100.0
  {
    var ok := d.ok > 0.15;
    CollectDetail(
      target,
      if ok then Good else Timeout,
      if ok then None else Some(TimeoutReason),
      if ok then Some(50.0 + d.value * 50.0) else None,
      if ok then (80.0 + d.duration * 180.0).Floor else 5000)
  }

  /** How many details are good. */
  function CountGood(ds: seq<CollectDetail>): nat {
    if |ds| == 0 then 0
    else CountGood(ds[..|ds| - 1]) + (if ds[|ds| - 1].quality == Good then 1 else 0)
  }

  /** How many details are not good. */
  function CountNotGood(ds: seq<CollectDetail>): nat {
    if |ds| == 0 then 0
    else CountNotGood(ds[..|ds| - 1]) + (if ds[|ds| - 1].quality != Good then 1 else 0)
  }

  /** Every detail is either good or not: the two counts add up to the number
      of details. */
  lemma {:induction false} CountsPartition(ds: seq<CollectDetail>)
    ensures CountGood(ds) + CountNotGood(ds) == |ds|
  {
    if |ds| > 0 { CountsPartition(ds[..|ds| - 1]); }
  }

  // ---------------------------------------------------------------------------
  // Time series

  datatype Sample = Sample(t: int, v: real)

  /** The series for the id at position idx: sample i sits at start + i*step;
      its value comes from the opaque generator `value`. */
  function Series(id: string, idx: nat, start: int, step: int, count: nat,
                  value: (string, nat, nat) -> real): seq<Sample>
  {
    seq(count, i requires 0 <= i < count => Sample(start + i * step, value(id, idx, i)))
  }

  /** With a positive step the timestamps of a series rise strictly from start
      and the last lies count - 1 steps after it. */
  lemma SeriesTimes(id: string, idx: nat, start: int, step: int, count: nat,
                    value: (string, nat, nat) -> real, i: nat, j: nat)
    requires step > 0 && i < j < count
    ensures var s := Series(id, idx, start, step, count, value);
      start <= s[i].t < s[j].t <= start + (count - 1) * step
  {
    var s := Series(id, idx, start, step, count, value);
    assert s[i].t == start + i * step && s[j].t == start + j * step;
    MulMonotonic(i, j, step);
    MulMonotonic(j, count - 1, step);
  }

  lemma MulMonotonic(a: nat, b: nat, step: int)
    requires a <= b && step > 0
    ensures 0 <= a * step <= b * step
    ensures a < b ==> a * step < b * step
  {
    assert b * step == a * step + (b - a) * step;
  }

  /** A step of max(1000, span // 300) fits at most 300 times into a span
      that is not negative, so a series has at most 301 samples. */
  lemma StepBound(span: int)
    requires span >= 0
    ensures 0 <= span / Max(1000, span / 300) <= 300
  {
    var q := span / 300;
    if q < 1000 {
      DivBelow(span, 1000, 300);
    } else {
      assert 300 * q <= span < 300 * q + 300;
      DivBelow(span, q, 301);
    }
  }

  /** A quotient stays below a when the dividend stays below a times the
      divisor. */
  lemma DivBelow(x: int, q: int, a: int)
    requires x >= 0 && q > 0 && x < a * q
    ensures 0 <= x / q < a
  {
    assert x == q * (x / q) + x % q;
  }

  /** Position of the last occurrence of id in ids. */
  function LastIndex(ids: seq<string>, id: string): (k: nat)
    requires id in ids
    ensures k < |ids| && ids[k] == id && id !in ids[k + 1..]
  {
    if ids[|ids| - 1] == id then |ids| - 1
    else
      assert id in ids[..|ids| - 1] by {
        var j :| 0 <= j < |ids| && ids[j] == id;
        assert ids[..|ids| - 1][j] == id;
      }
      var k := LastIndex(ids[..|ids| - 1], id);
      assert ids[k + 1..] == ids[..|ids| - 1][k + 1..] + [ids[|ids| - 1]];
      k
  }

  /** The inner loop of both series generators: samples i = 0, 1, ...,
      points for one id. */
  method SamplesOf(id: string, idx: nat, start: int, step: int, points: int,
                   value: (string, nat, nat) -> real)
    returns (arr: seq<Sample>)
    ensures arr == Series(id, idx, start, step, Max(0, points + 1), value)
  {
    arr := [];
    var i := 0;
    while i <= points
      invariant 0 <= i <= Max(0, points + 1)
      invariant arr == Series(id, idx, start, step, i, value)
    {
      arr := arr + [Sample(start + i * step, value(id, idx, i))];
      i := i + 1;
    }
  }

  /** The output map of both series generators: for each id (at position idx)
      the samples i = 0, 1, ..., points are stored under the id, so an id that
      occurs twice keeps the series of its last occurrence. */
  method BuildSeries(ids: seq<string>, start: int, step: int, points: int,
                     value: (string, nat, nat) -> real)
    returns (out: map<string, seq<Sample>>)
    ensures forall id :: id in out <==> id in ids
    ensures forall id :: id in out ==>
      out[id] == Series(id, LastIndex(ids, id), start, step, Max(0, points + 1), value)
  {
    var count := Max(0, points + 1);
    out := map[];
    var idx := 0;
    while idx < |ids|
      invariant 0 <= idx <= |ids|
      invariant forall id :: id in out <==> id in ids[..idx]
      invariant forall id :: id in out ==>
        out[id] == Series(id, LastIndex(ids[..idx], id), start, step, count, value)
    {
      var id := ids[idx];
      var arr := SamplesOf(id, idx, start, step, points, value);
      forall other | other in ids[..idx] && other != id
        ensures LastIndex(ids[..idx + 1], other) == LastIndex(ids[..idx], other)
      {
        LastIndexSnoc(ids, idx, other);
      }
      LastIndexOfNewest(ids, idx);
      assert forall other :: other in ids[..idx + 1] <==> other in ids[..idx] || other == id by {
        assert ids[..idx + 1] == ids[..idx] + [id];
      }
      out := out[id := arr];
      idx := idx + 1;
    }
    assert ids[..idx] == ids;
  }

  /** Appending ids[idx] leaves the last position of every other id as it was. */
  lemma LastIndexSnoc(ids: seq<string>, idx: nat, other: string)
    requires idx < |ids| && other in ids[..idx] && other != ids[idx]
    ensures LastIndex(ids[..idx + 1], other) == LastIndex(ids[..idx], other)
  {
    var k := LastIndex(ids[..idx], other);
    assert ids[..idx + 1][k + 1..] == ids[..idx][k + 1..] + [ids[idx]];
    LastIndexIsUnique(ids[..idx + 1], other, k);
  }

  /** The id just appended has its last occurrence at the end. */
  lemma LastIndexOfNewest(ids: seq<string>, idx: nat)
    requires idx < |ids|
    ensures LastIndex(ids[..idx + 1], ids[idx]) == idx
  {
    assert ids[..idx + 1][idx] == ids[idx];
  }

  lemma LastIndexIsUnique(ids: seq<string>, id: string, k: nat)
    requires k < |ids| && ids[k] == id && id !in ids[k + 1..]
    ensures LastIndex(ids, id) == k
  {
  }

  // ---------------------------------------------------------------------------
  // Events

  datatype Event = Event(
    id: int, title: string, description: Option<string>, refId: string, eventTime: int, category: string)

  /** Events are sorted by their time in milliseconds. */
  function TimeOf(e: Event): int { e.eventTime }

  predicate InWindow(e: Event, start: int, end: int) {
    start <= e.eventTime <= end
  }

  /** Some prefix in the list starts refId. */
  function HasPrefixOf(prefixes: seq<string>, refId: string): (b: bool)
    ensures b <==> exists i :: 0 <= i < |prefixes| && StartsWith(refId, prefixes[i])
  {
    |prefixes| > 0 && (StartsWith(refId, prefixes[0]) || HasPrefixOf(prefixes[1..], refId))
  }

  /** The ref-id filter: an empty prefix list admits every ref; otherwise a
      ref is admitted iff one of the prefixes starts it. */
  function RefMatch(refIds: seq<string>, refId: string): (b: bool)
    ensures |refIds| == 0 ==> b
    ensures |refIds| > 0 ==> (b <==> exists i :: 0 <= i < |refIds| && StartsWith(refId, refIds[i]))
  {
    |refIds| == 0 || HasPrefixOf(refIds, refId)
  }

  /** The events of es inside the inclusive window whose ref passes the
      prefix filter, in the order of es. */
  function Matching(es: seq<Event>, refIds: seq<string>, start: int, end: int): (r: seq<Event>)
    ensures forall e :: e in r <==> e in es && InWindow(e, start, end) && RefMatch(refIds, e.refId)
    ensures multiset(r) <= multiset(es)
  {
    if |es| == 0 then []
    else
      assert es == [es[0]] + es[1..];
      var rest := Matching(es[1..], refIds, start, end);
      if InWindow(es[0], start, end) && RefMatch(refIds, es[0].refId) then [es[0]] + rest else rest
  }

  /** The filter keeps every matching event exactly as often as es holds it,
      and drops every other. */
  lemma {:induction false} MatchingCounts(es: seq<Event>, refIds: seq<string>, start: int, end: int)
    ensures var r := Matching(es, refIds, start, end);
      forall e :: multiset(r)[e] == if InWindow(e, start, end) && RefMatch(refIds, e.refId) then multiset(es)[e] else 0
  {
    if |es| > 0 {
      MatchingCounts(es[1..], refIds, start, end);
      assert es == [es[0]] + es[1..];
    }
  }

  /** Filtering a concatenation filters each part in turn, so the filter
      keeps the order of es. */
  lemma {:induction false} MatchingAppend(a: seq<Event>, b: seq<Event>, refIds: seq<string>, start: int, end: int)
    ensures Matching(a + b, refIds, start, end) == Matching(a, refIds, start, end) + Matching(b, refIds, start, end)
  {
    if |a| > 0 {
      var ab := a + b;
      assert ab[0] == a[0] && ab[1..] == a[1..] + b;
      var head := if InWindow(a[0], start, end) && RefMatch(refIds, a[0].refId) then [a[0]] else [];
      assert Matching(ab, refIds, start, end) == head + Matching(a[1..] + b, refIds, start, end);
      assert Matching(a, refIds, start, end) == head + Matching(a[1..], refIds, start, end);
      MatchingAppend(a[1..], b, refIds, start, end);
    } else {
      assert a + b == b;
    }
  }

  const Categories: seq<string> := ["maintenance", "fault", "calibration", "other"]

  /** The titles a generated event may carry, one list per category. */
  const Titles: seq<seq<string>> := [
    ["例行维护", "更换部件", "润滑", "保养"],
    ["异常报警", "传感器异常", "通信超时", "温度过高", "电流过高", "回零失败", "振动异常"],
    ["校准传感器", "轴校准", "定位标定", "周期校准"],
    ["巡检", "手动记录", "环境变更", "测试事件"]
  ]

  /** The titles a generated event of category Categories[c] may carry. */
  function TitlesOf(c: nat): seq<string>
    requires c < |Categories|
  {
    Titles[c]
  }

  /** The random choices for one generated event: a time offset into the
      window, a category, a title of that category and a ref from the pool. */
  datatype EventDraw = EventDraw(offset: nat, category: nat, title: nat, ref: nat)

  /** The draw is one the generator can produce: every index is in range. */
  predicate DrawFits(d: EventDraw, span: int, poolSize: nat) {
    && d.offset < span
    && d.category < |Categories|
    && d.title < |TitlesOf(d.category)|
    && d.ref < poolSize
  }

  /** The width both generators give a window: at least one millisecond. */
  function Span(start: int, end: int): (span: int)
    ensures end - start >= 1 ==> span == end - start
    ensures end - start < 1 ==> span == 1
  {
    Max(1, end - start)
  }

  /** How many events a generator draws: one per minute of the window, but
      never fewer than 12 nor more than 50. */
  function EventCount(start: int, end: int): (n: nat)
    ensures 12 <= n <= 50
    ensures 12 <= Span(start, end) / 60000 <= 50 ==> n == Span(start, end) / 60000
    ensures Span(start, end) / 60000 < 12 ==> n == 12
    ensures Span(start, end) / 60000 > 50 ==> n == 50
  {
    Max(12, Min(50, Span(start, end) / 60000))
  }

  /** The event a fitting draw produces. */
  function Generated(id: int, start: int, d: EventDraw, pool: seq<string>): (e: Event)
    requires d.category < |Categories| && d.title < |TitlesOf(d.category)| && d.ref < |pool|
    ensures e.id == id && e.description == None
    ensures e.eventTime == start + d.offset
    ensures e.refId in pool
  {
    Event(id, TitlesOf(d.category)[d.title], None, pool[d.ref], start + d.offset, Categories[d.category])
  }

  /** A generated event carries one of the four categories and a title listed
      for that category. */
  lemma GeneratedCategory(id: int, start: int, d: EventDraw, pool: seq<string>)
    requires d.category < |Categories| && d.title < |TitlesOf(d.category)| && d.ref < |pool|
    ensures var e := Generated(id, start, d, pool);
      e.category in Categories && e.title in TitlesOf(d.category)
  {
  }

  /** Every draw is one a generator can make for a window of the given span
      and a pool of the given size. */
  predicate AllFit(draws: seq<EventDraw>, span: int, poolSize: nat) {
    forall i :: 0 <= i < |draws| ==> DrawFits(draws[i], span, poolSize)
  }

  /** The id a generator gives its i-th candidate. */
  function IdAt(firstId: int, idStep: int, i: nat): int {
    firstId + i * idStep
  }

  /** The events a generator draws, before filtering: the i-th is generated
      from the i-th draw and carries id firstId + i * idStep (-(i+1) in the
      backend, i+1 in the mock). */
  function Candidates(start: int, end: int, draws: seq<EventDraw>, pool: seq<string>, firstId: int, idStep: int)
    : (r: seq<Event>)
    requires AllFit(draws, Span(start, end), |pool|)
    ensures |r| == |draws|
  {
    CandidatesUpTo(start, end, draws, pool, firstId, idStep, |draws|)
  }

  /** The first n candidates, as the drawing loop has them after n rounds. */
  function CandidatesUpTo(start: int, end: int, draws: seq<EventDraw>, pool: seq<string>, firstId: int, idStep: int,
                          n: nat): (r: seq<Event>)
    requires AllFit(draws, Span(start, end), |pool|) && n <= |draws|
    ensures |r| == n
  {
    if n == 0 then []
    else
      assert DrawFits(draws[n - 1], Span(start, end), |pool|);
      CandidatesUpTo(start, end, draws, pool, firstId, idStep, n - 1)
        + [Generated(IdAt(firstId, idStep, n - 1), start, draws[n - 1], pool)]
  }

  /** The i-th of the first n candidates is generated from the i-th draw. */
  lemma {:induction false} CandidatesAt(start: int, end: int, draws: seq<EventDraw>, pool: seq<string>,
                                        firstId: int, idStep: int, n: nat)
    requires AllFit(draws, Span(start, end), |pool|) && n <= |draws|
    ensures var c := CandidatesUpTo(start, end, draws, pool, firstId, idStep, n);
      forall i :: 0 <= i < n ==> c[i] == Generated(IdAt(firstId, idStep, i), start, draws[i], pool)
  {
    if n > 0 {
      var c := CandidatesUpTo(start, end, draws, pool, firstId, idStep, n);
      var prev := CandidatesUpTo(start, end, draws, pool, firstId, idStep, n - 1);
      assert DrawFits(draws[n - 1], Span(start, end), |pool|);
      assert c == prev + [Generated(IdAt(firstId, idStep, n - 1), start, draws[n - 1], pool)];
      CandidatesAt(start, end, draws, pool, firstId, idStep, n - 1);
      forall i | 0 <= i < n
        ensures c[i] == Generated(IdAt(firstId, idStep, i), start, draws[i], pool)
      {
        if i < n - 1 {
          assert c[i] == prev[i];
        }
      }
    }
  }

  /** The i-th candidate carries id IdAt(firstId, idStep, i), lies in
      [start, start + span), takes its ref from the pool and has no
      description. */
  lemma CandidatesShape(start: int, end: int, draws: seq<EventDraw>, pool: seq<string>,
                        firstId: int, idStep: int, i: nat)
    requires AllFit(draws, Span(start, end), |pool|) && i < |draws|
    ensures var c := Candidates(start, end, draws, pool, firstId, idStep);
      && c[i].id == IdAt(firstId, idStep, i)
      && start <= c[i].eventTime < start + Span(start, end)
      && c[i].refId in pool && c[i].description == None
  {
    CandidatesAt(start, end, draws, pool, firstId, idStep, |draws|);
    assert DrawFits(draws[i], Span(start, end), |pool|);
  }

  /** Every candidate comes from some draw i: its id is IdAt(firstId, idStep, i),
      its ref id is in the pool and it has no description. */
  lemma CandidateMember(start: int, end: int, draws: seq<EventDraw>, pool: seq<string>, firstId: int, idStep: int,
                        e: Event)
    requires AllFit(draws, Span(start, end), |pool|)
    requires e in Candidates(start, end, draws, pool, firstId, idStep)
    ensures e.refId in pool && e.description == None
    ensures exists i :: 0 <= i < |draws| && e.id == IdAt(firstId, idStep, i)
  {
    var c := Candidates(start, end, draws, pool, firstId, idStep);
    var i :| 0 <= i < |c| && c[i] == e;
    CandidatesShape(start, end, draws, pool, firstId, idStep, i);
  }

  /** What survives the filter and the sort is one of the candidates. */
  lemma FilteredCandidateMember(start: int, end: int, draws: seq<EventDraw>, pool: seq<string>, firstId: int,
                                idStep: int, refIds: seq<string>, e: Event)
    requires AllFit(draws, Span(start, end), |pool|)
    requires e in FilterSort(Candidates(start, end, draws, pool, firstId, idStep), refIds, start, end)
    ensures e.refId in pool && e.description == None
    ensures exists i :: 0 <= i < |draws| && e.id == IdAt(firstId, idStep, i)
  {
    assert e in Candidates(start, end, draws, pool, firstId, idStep) by {
      FilterSortKeeps(Candidates(start, end, draws, pool, firstId, idStep), refIds, start, end);
    }
    CandidateMember(start, end, draws, pool, firstId, idStep, e);
  }

  /** The drawing loop both generators run: one event per draw. */
  method DrawCandidates(start: int, end: int, draws: seq<EventDraw>, pool: seq<string>, firstId: int, idStep: int)
    returns (out: seq<Event>)
    requires AllFit(draws, Span(start, end), |pool|)
    ensures out == Candidates(start, end, draws, pool, firstId, idStep)
  {
    out := [];
    var i := 0;
    while i < |draws|
      invariant 0 <= i <= |draws|
      invariant out == CandidatesUpTo(start, end, draws, pool, firstId, idStep, i)
    {
      out := out + [Generated(IdAt(firstId, idStep, i), start, draws[i], pool)];
      i := i + 1;
    }
  }

  /** The draws suffice for one call of a generator on [start, end] with a
      pool of the given size. */
  predicate GenDrawsFit(draws: seq<EventDraw>, start: int, end: int, poolSize: nat) {
    |draws| >= EventCount(start, end) && AllFit(draws[..EventCount(start, end)], Span(start, end), poolSize)
  }

  /** The events of es inside the window that pass the ref filter, sorted by
      time. */
  function FilterSort(es: seq<Event>, refIds: seq<string>, start: int, end: int): seq<Event> {
    SortBy(Matching(es, refIds, start, end), TimeOf)
  }

  /** Filtering then sorting keeps exactly the events of es inside [start, end]
      that pass the ref filter, each at most as often as in es, in ascending
      time order. */
  lemma FilterSortKeeps(es: seq<Event>, refIds: seq<string>, start: int, end: int)
    ensures var r := FilterSort(es, refIds, start, end);
      && SortedBy(r, TimeOf)
      && multiset(r) <= multiset(es)
      && (forall e :: e in r <==> (e in es && InWindow(e, start, end) && RefMatch(refIds, e.refId)))
  {
    var m := Matching(es, refIds, start, end);
    var r := FilterSort(es, refIds, start, end);
    SortBySorted(m, TimeOf);
    assert multiset(r) == multiset(m);
    forall e ensures e in r <==> e in m {
      assert e in r <==> e in multiset(r);
      assert e in m <==> e in multiset(m);
    }
  }
}
