/**
 * The correlation engine: for a UI event it looks up the sensor rows within ±500 ms of
 * the event's timestamp and, when there are any, stores one correlation row summarising
 * them. The wall clock is the parameter `now`.
 */
module Correlation {
  import opened Wrappers
  import opened Entities
  import opened SensorSummary
  import Rows
  import SensorEvents
  import UiEvents
  import CorrelationResults

  /** Half-width of the window around a UI event, in milliseconds. */
  const CorrelationWindowMs: int := 500

  /** How far back the batch pass looks for UI events: the last minute. */
  const RecentSpanMs: int := 60 * 1000

  /** The window the engine uses is the one a correlation row records by default. */
  lemma WindowMatchesEntityDefault(t: int, u: int, n: nat, s: Summary, now: int)
    ensures CorrelationResult(timestamp := t, uiEventId := u, sensorEventCount := n,
                              sensorDataSummary := s, createdAt := now).correlationWindowMs == CorrelationWindowMs
  {
  }

  /** The sensor rows the engine reads for a UI event at time `t`: those with a timestamp in
      the closed interval [t - 500, t + 500], in timestamp order. */
  function Matched(sensorRows: seq<SensorEvent>, t: int): seq<SensorEvent> {
    Rows.Between(sensorRows, SensorEvents.Time, t - CorrelationWindowMs, t + CorrelationWindowMs)
  }

  /** The engine's range query on the sensor table returns exactly the matched rows. */
  lemma RangeQueryIsMatched(dao: SensorEvents.SensorEventDao, t: int)
    ensures dao.GetEventsByTimeRange(t - CorrelationWindowMs, t + CorrelationWindowMs) == Matched(dao.table.rows, t)
  {
  }

  /** The correlation row the engine writes for `uiEvent`, before the table assigns its key,
      or None when no sensor row lies in the window. */
  function CorrelationFor(uiEvent: UiEvent, sensorRows: seq<SensorEvent>, now: int): Option<CorrelationResult> {
    RowFor(uiEvent, Matched(sensorRows, uiEvent.timestamp), now)
  }

  /** The row written for a UI event given the sensor rows matched to it. */
  function RowFor(uiEvent: UiEvent, matched: seq<SensorEvent>, now: int): Option<CorrelationResult> {
    if matched == [] then
      None
    else
      Some(CorrelationResult(
        timestamp := uiEvent.timestamp,
        uiEventId := uiEvent.id,
        sensorEventCount := |matched|,
        correlationWindowMs := CorrelationWindowMs,
        sensorDataSummary := Summarize(matched),
        createdAt := now))
  }

  /** The row written for a UI event with matched sensor rows: keyed 0 until stored, stamped
      with the event's time and key, counting and summarising exactly the matched rows. */
  lemma CorrelationRow(uiEvent: UiEvent, sensorRows: seq<SensorEvent>, now: int)
    ensures var matched := Matched(sensorRows, uiEvent.timestamp);
      var r := CorrelationFor(uiEvent, sensorRows, now);
      && (r.None? <==> matched == [])
      && (r.Some? ==>
        && r.value.id == 0
        && r.value.timestamp == uiEvent.timestamp
        && r.value.uiEventId == uiEvent.id
        && r.value.sensorEventCount == |matched| > 0
        && r.value.correlationWindowMs == CorrelationWindowMs
        && r.value.sensorDataSummary == Summarize(matched)
        && r.value.createdAt == now)
  {
  }

  /** The row CorrelateUiEvent writes from its range query is the engine's step on the table. */
  lemma QueryStepIsCorrelationFor(dao: SensorEvents.SensorEventDao, uiEvent: UiEvent, now: int)
    ensures RowFor(uiEvent, dao.GetEventsByTimeRange(
      uiEvent.timestamp - CorrelationWindowMs, uiEvent.timestamp + CorrelationWindowMs), now)
      == CorrelationFor(uiEvent, dao.table.rows, now)
  {
    RangeQueryIsMatched(dao, uiEvent.timestamp);
  }

  /** No sensor row is matched exactly when none lies within ±500 ms of `t`; both ends of
      the window count as inside. */
  lemma MatchedEmptyIff(sensorRows: seq<SensorEvent>, t: int)
    ensures Matched(sensorRows, t) == [] <==> forall x :: x in sensorRows ==>
      x.timestamp < t - CorrelationWindowMs || t + CorrelationWindowMs < x.timestamp
  {
    var matched := Matched(sensorRows, t);
    Rows.BetweenProperties(sensorRows, SensorEvents.Time, t - CorrelationWindowMs, t + CorrelationWindowMs);
    if matched != [] {
      assert matched[0] in matched;
    }
  }

  /** No correlation is stored exactly when no sensor row lies within ±500 ms of the UI event. */
  lemma NoCorrelationIffNoNearbySensorRow(uiEvent: UiEvent, sensorRows: seq<SensorEvent>, now: int)
    ensures CorrelationFor(uiEvent, sensorRows, now).None? <==> forall x :: x in sensorRows ==>
      x.timestamp < uiEvent.timestamp - CorrelationWindowMs || uiEvent.timestamp + CorrelationWindowMs < x.timestamp
  {
    MatchedEmptyIff(sensorRows, uiEvent.timestamp);
  }

  /** The correlation rows a pass over `uiEvents` writes, in order, before keys are assigned. */
  function Pending(uiEvents: seq<UiEvent>, sensorRows: seq<SensorEvent>, now: int): (p: seq<CorrelationResult>)
    ensures |p| <= |uiEvents|
  {
    if |uiEvents| == 0 then []
    else Appended(Pending(uiEvents[..|uiEvents| - 1], sensorRows, now), CorrelationFor(uiEvents[|uiEvents| - 1], sensorRows, now))
  }

  /** `results` followed by `row` when there is one. */
  function Appended(results: seq<CorrelationResult>, row: Option<CorrelationResult>): seq<CorrelationResult> {
    match row
    case None => results
    case Some(r) => results + [r]
  }

  /** One more UI event adds its row, if it has one, at the end of the pass. */
  lemma PendingSnoc(uiEvents: seq<UiEvent>, sensorRows: seq<SensorEvent>, now: int, i: int)
    requires 0 <= i < |uiEvents|
    ensures Pending(uiEvents[..i + 1], sensorRows, now) ==
      Appended(Pending(uiEvents[..i], sensorRows, now), CorrelationFor(uiEvents[i], sensorRows, now))
  {
    assert uiEvents[..i + 1][..i] == uiEvents[..i];
  }

  /** Every row of a pass is the row of one of its UI events... */
  lemma {:induction false} PendingOrigin(uiEvents: seq<UiEvent>, sensorRows: seq<SensorEvent>, now: int, r: CorrelationResult)
    requires r in Pending(uiEvents, sensorRows, now)
    ensures exists i :: 0 <= i < |uiEvents| && CorrelationFor(uiEvents[i], sensorRows, now) == Some(r)
  {
    var init := uiEvents[..|uiEvents| - 1];
    if r in Pending(init, sensorRows, now) {
      PendingOrigin(init, sensorRows, now, r);
      var i :| 0 <= i < |init| && CorrelationFor(init[i], sensorRows, now) == Some(r);
      assert uiEvents[i] == init[i];
    }
  }

  /** ...and every UI event that has a row has it in the pass. */
  lemma {:induction false} PendingComplete(uiEvents: seq<UiEvent>, sensorRows: seq<SensorEvent>, now: int, i: int,
                                           r: CorrelationResult)
    requires 0 <= i < |uiEvents| && CorrelationFor(uiEvents[i], sensorRows, now) == Some(r)
    ensures r in Pending(uiEvents, sensorRows, now)
  {
    var init := uiEvents[..|uiEvents| - 1];
    var before := Pending(init, sensorRows, now);
    assert Pending(uiEvents, sensorRows, now) == Appended(before, CorrelationFor(uiEvents[|uiEvents| - 1], sensorRows, now));
    if i < |init| {
      assert init[i] == uiEvents[i];
      PendingComplete(init, sensorRows, now, i, r);
      assert r in Appended(before, CorrelationFor(uiEvents[|uiEvents| - 1], sensorRows, now));
    }
  }

  /** A pass writes exactly one row per UI event that has sensor rows nearby: as many rows
      as there are such events, no event twice and none skipped. */
  lemma {:induction false} PendingCount(uiEvents: seq<UiEvent>, sensorRows: seq<SensorEvent>, now: int,
                                        nearby: UiEvent -> bool)
    requires forall e :: nearby(e) <==> Matched(sensorRows, e.timestamp) != []
    ensures |Pending(uiEvents, sensorRows, now)| == |Rows.Filter(uiEvents, nearby)|
  {
    if |uiEvents| > 0 {
      var init, last := uiEvents[..|uiEvents| - 1], uiEvents[|uiEvents| - 1];
      var row := CorrelationFor(last, sensorRows, now);
      assert row.Some? <==> nearby(last);
      assert |Pending(uiEvents, sensorRows, now)| == |Pending(init, sensorRows, now)| + if row.Some? then 1 else 0;
      PendingCount(init, sensorRows, now, nearby);
      Rows.FilterInit(uiEvents, nearby);
    }
  }

  /** The rows as the table stores them after inserting `results` one by one, each taking the
      next key from `first` on. */
  function Numbered(results: seq<CorrelationResult>, first: int): (r: seq<CorrelationResult>)
    ensures |r| == |results|
  {
    if |results| == 0 then []
    else Numbered(results[..|results| - 1], first) + [results[|results| - 1].(id := first + |results| - 1)]
  }

  /** The `k`-th stored row is the `k`-th written one under key `first + k`. */
  lemma {:induction false} NumberedAt(results: seq<CorrelationResult>, first: int, k: nat)
    requires k < |results|
    ensures Numbered(results, first)[k] == results[k].(id := first + k)
  {
    if k < |results| - 1 {
      NumberedAt(results[..|results| - 1], first, k);
    }
  }

  lemma NumberedSnoc(results: seq<CorrelationResult>, r: CorrelationResult, first: int)
    ensures Numbered(results + [r], first) == Numbered(results, first) + [r.(id := first + |results|)]
  {
    assert (results + [r])[..|results|] == results;
  }

  /** The correlation table after CorrelateUiEvent: unchanged, or with the row appended
      under the next key. */
  function Stored(t: Rows.Table<CorrelationResult>, row: Option<CorrelationResult>): Rows.Table<CorrelationResult> {
    match row
    case None => t
    case Some(r) => Rows.Table(t.rows + [r.(id := t.lastId + 1)], t.lastId + 1)
  }

  /** The correlation table after a pass that writes `results`, one after another. */
  function StoredAll(t: Rows.Table<CorrelationResult>, results: seq<CorrelationResult>): Rows.Table<CorrelationResult> {
    Rows.Table(t.rows + Numbered(results, t.lastId + 1), t.lastId + |results|)
  }

  /** The `n`-th row a pass writes is stored after the rows already there, under the `n`-th
      key after the last one used. */
  lemma StoredAllAt(t: Rows.Table<CorrelationResult>, results: seq<CorrelationResult>, n: nat)
    requires n < |results|
    ensures |StoredAll(t, results).rows| == |t.rows| + |results|
    ensures StoredAll(t, results).rows[|t.rows| + n] == results[n].(id := t.lastId + 1 + n)
  {
    NumberedAt(results, t.lastId + 1, n);
  }

  /** Storing one more row after a pass is the pass that writes it last. */
  lemma StoredStep(t: Rows.Table<CorrelationResult>, results: seq<CorrelationResult>, row: Option<CorrelationResult>)
    ensures Stored(StoredAll(t, results), row) == StoredAll(t, Appended(results, row))
  {
    match row
    case None =>
    case Some(r) =>
      NumberedSnoc(results, r, t.lastId + 1);
  }

  /** Correlating one more UI event after a pass over the ones before it is the pass that
      includes it. */
  lemma PassStep(t: Rows.Table<CorrelationResult>, uiEvents: seq<UiEvent>, sensorRows: seq<SensorEvent>, now: int, i: int)
    requires 0 <= i < |uiEvents|
    ensures Stored(StoredAll(t, Pending(uiEvents[..i], sensorRows, now)), CorrelationFor(uiEvents[i], sensorRows, now))
      == StoredAll(t, Pending(uiEvents[..i + 1], sensorRows, now))
  {
    PendingSnoc(uiEvents, sensorRows, now, i);
    StoredStep(t, Pending(uiEvents[..i], sensorRows, now), CorrelationFor(uiEvents[i], sensorRows, now));
  }

  /** When the UI rows come in timestamp order, so do the correlation rows written for them. */
  lemma {:induction false} PendingInTimeOrder(uiEvents: seq<UiEvent>, sensorRows: seq<SensorEvent>, now: int)
    requires Rows.Ascending(uiEvents, UiEvents.Time)
    ensures Rows.Ascending(Pending(uiEvents, sensorRows, now), CorrelationResults.Time)
  {
    if |uiEvents| > 0 {
      var init, last := uiEvents[..|uiEvents| - 1], uiEvents[|uiEvents| - 1];
      assert Rows.Ascending(init, UiEvents.Time);
      PendingInTimeOrder(init, sensorRows, now);
      var p := Pending(init, sensorRows, now);
      match CorrelationFor(last, sensorRows, now)
      case None =>
      case Some(r) =>
        var q := p + [r];
        forall i, j | 0 <= i < j < |q| ensures q[i].timestamp <= q[j].timestamp {
          if j < |p| {
            assert q[i] == p[i] && q[j] == p[j];
          } else {
            assert q[i] == p[i] && p[i] in p;
            PendingOrigin(init, sensorRows, now, p[i]);
            var k :| 0 <= k < |init| && CorrelationFor(init[k], sensorRows, now) == Some(p[i]);
            assert uiEvents[k] == init[k];
          }
        }
    }
  }

  /** Nothing marks a UI event as processed: when a pass writes `results` and a second pass
      writes them again, each row is stored twice, under two different keys and otherwise
      identical. With PendingComplete, this holds for the row of every correlated UI event
      of two passes over the same rows. */
  lemma RerunStoresDuplicates(t: Rows.Table<CorrelationResult>, results: seq<CorrelationResult>, r: CorrelationResult)
      returns (j: nat, k: nat)
    requires r in results
    ensures var s := StoredAll(StoredAll(t, results), results).rows;
      && |t.rows| <= j < |t.rows| + |results| <= k < |s|
      && s[j] == r.(id := t.lastId + 1 + (j - |t.rows|))
      && s[k] == r.(id := t.lastId + 1 + (k - |t.rows|))
  {
    var n :| 0 <= n < |results| && results[n] == r;
    j, k := |t.rows| + n, |t.rows| + |results| + n;
    NumberedAt(results, t.lastId + 1, n);
    NumberedAt(results, t.lastId + 1 + |results|, n);
    var once := StoredAll(t, results);
    assert once.rows[j] == r.(id := t.lastId + 1 + n);
    assert StoredAll(once, results).rows[k] == r.(id := t.lastId + 1 + |results| + n);
  }

  /** A UI event of a pass that has sensor rows nearby is stored by that pass: at position
      `j` of the table, under the key the pass gives that position, stamped with the pass's
      time and carrying the event's key. */
  lemma PassStoresEvent(t: Rows.Table<CorrelationResult>, uiEvents: seq<UiEvent>, sensorRows: seq<SensorEvent>,
                        now: int, u: UiEvent) returns (j: nat)
    requires u in uiEvents && Matched(sensorRows, u.timestamp) != []
    ensures var s := StoredAll(t, Pending(uiEvents, sensorRows, now)).rows;
      && |t.rows| <= j < |s|
      && s[j].id == t.lastId + 1 + (j - |t.rows|)
      && s[j].uiEventId == u.id && s[j].timestamp == u.timestamp && s[j].createdAt == now
  {
    var i :| 0 <= i < |uiEvents| && uiEvents[i] == u;
    var r := CorrelationFor(u, sensorRows, now).value;
    assert r.id == 0 && r.uiEventId == u.id && r.timestamp == u.timestamp && r.createdAt == now;
    var pending := Pending(uiEvents, sensorRows, now);
    PendingComplete(uiEvents, sensorRows, now, i, r);
    var n :| 0 <= n < |pending| && pending[n] == r;
    StoredAllAt(t, pending, n);
    j := |t.rows| + n;
  }

  /** Two batch passes whose last-minute windows both hold a UI row with sensor rows nearby
      correlate that row twice: the table ends with two rows under different keys for the
      same UI event, the first stamped with the first pass's time and the second with the
      second's. */
  lemma OverlappingPassesStoreDuplicates(t: Rows.Table<CorrelationResult>, uiRows: seq<UiEvent>,
                                         sensorRows: seq<SensorEvent>, now1: int, now2: int, u: UiEvent)
      returns (j: nat, k: nat)
    requires now1 <= now2
    requires u in uiRows && now2 - RecentSpanMs <= u.timestamp <= now1
    requires Matched(sensorRows, u.timestamp) != []
    ensures var first := StoredAll(t, Pending(Rows.Between(uiRows, UiEvents.Time, now1 - RecentSpanMs, now1), sensorRows, now1));
      var s := StoredAll(first, Pending(Rows.Between(uiRows, UiEvents.Time, now2 - RecentSpanMs, now2), sensorRows, now2)).rows;
      && j < k < |s|
      && s[j].uiEventId == u.id == s[k].uiEventId
      && s[j].id < s[k].id
      && s[j].createdAt == now1 && s[k].createdAt == now2
  {
    var ui1 := Rows.Between(uiRows, UiEvents.Time, now1 - RecentSpanMs, now1);
    var ui2 := Rows.Between(uiRows, UiEvents.Time, now2 - RecentSpanMs, now2);
    Rows.BetweenProperties(uiRows, UiEvents.Time, now1 - RecentSpanMs, now1);
    Rows.BetweenProperties(uiRows, UiEvents.Time, now2 - RecentSpanMs, now2);
    var first := StoredAll(t, Pending(ui1, sensorRows, now1));
    j := PassStoresEvent(t, ui1, sensorRows, now1, u);
    k := PassStoresEvent(first, ui2, sensorRows, now2, u);
    var s := StoredAll(first, Pending(ui2, sensorRows, now2)).rows;
    assert s[j] == first.rows[j];
  }

  /** The dashboard figures: the row count of each table. */
  datatype CorrelationStats = CorrelationStats(totalSensorEvents: nat, totalUiEvents: nat, totalCorrelations: nat)

  class CorrelationEngine {
    const sensorEventDao: SensorEvents.SensorEventDao
    const uiEventDao: UiEvents.UiEventDao
    const correlationResultDao: CorrelationResults.CorrelationResultDao

    ghost predicate Valid()
      reads sensorEventDao, uiEventDao, correlationResultDao
    {
      sensorEventDao.Valid() && uiEventDao.Valid() && correlationResultDao.Valid()
    }

    constructor (sensorEventDao: SensorEvents.SensorEventDao, uiEventDao: UiEvents.UiEventDao,
                 correlationResultDao: CorrelationResults.CorrelationResultDao)
      ensures this.sensorEventDao == sensorEventDao && this.uiEventDao == uiEventDao
      ensures this.correlationResultDao == correlationResultDao
    {
      this.sensorEventDao := sensorEventDao;
      this.uiEventDao := uiEventDao;
      this.correlationResultDao := correlationResultDao;
    }

    /** Stores one correlation row for `uiEvent` when sensor rows lie within ±500 ms of it,
        and nothing otherwise. */
    method CorrelateUiEvent(uiEvent: UiEvent, now: int)
      requires Valid()
      modifies correlationResultDao
      ensures Valid()
      ensures correlationResultDao.table == Stored(old(correlationResultDao.table), CorrelationFor(uiEvent, sensorEventDao.table.rows, now))
    {
      QueryStepIsCorrelationFor(sensorEventDao, uiEvent, now);
      var startTime := uiEvent.timestamp - CorrelationWindowMs;
      var endTime := uiEvent.timestamp + CorrelationWindowMs;
      var sensorEvents := sensorEventDao.GetEventsByTimeRange(startTime, endTime);
      if |sensorEvents| > 0 {
        var summary := ComputeSensorDataSummary(sensorEvents);
        var correlationResult := CorrelationResult(
          timestamp := uiEvent.timestamp,
          uiEventId := uiEvent.id,
          sensorEventCount := |sensorEvents|,
          correlationWindowMs := CorrelationWindowMs,
          sensorDataSummary := summary,
          createdAt := now);
        var _ := correlationResultDao.Insert(correlationResult);
      }
    }

    /** Correlates every UI row of the last minute, oldest first. `limit` is accepted and
        ignored, as in the source. */
    method CorrelateRecentEvents(now: int, limit: int := 100)
      requires Valid()
      modifies correlationResultDao
      ensures Valid()
      ensures correlationResultDao.table == StoredAll(old(correlationResultDao.table),
        Pending(uiEventDao.GetEventsByTimeRange(now - RecentSpanMs, now), sensorEventDao.table.rows, now))
    {
      var endTime := now;
      var startTime := endTime - RecentSpanMs;
      var uiEvents := uiEventDao.GetEventsByTimeRange(startTime, endTime);
      ghost var table0 := correlationResultDao.table;
      ghost var sensorRows := sensorEventDao.table.rows;
      for i := 0 to |uiEvents|
        invariant Valid()
        invariant sensorEventDao.table.rows == sensorRows
        invariant correlationResultDao.table == StoredAll(table0, Pending(uiEvents[..i], sensorRows, now))
      {
        PassStep(table0, uiEvents, sensorRows, now, i);
        CorrelateUiEvent(uiEvents[i], now);
      }
      assert uiEvents[..|uiEvents|] == uiEvents;
    }

    /** The summary of the matched rows: counts per sensor type, then statistics over every
        decoded value. */
    method ComputeSensorDataSummary(sensorEvents: seq<SensorEvent>) returns (summary: Summary)
      ensures summary == Summarize(sensorEvents)
    {
      var sensorTypeCount: map<string, nat> := map[];
      var allValues: seq<real> := [];
      for i := 0 to |sensorEvents|
        invariant sensorTypeCount == TypeCounts(sensorEvents[..i])
        invariant allValues == DecodedValues(sensorEvents[..i])
      {
        var event := sensorEvents[i];
        assert sensorEvents[..i + 1][..i] == sensorEvents[..i];
        sensorTypeCount := sensorTypeCount[event.sensorType := CountOf(sensorTypeCount, event.sensorType) + 1];
        match Decode(event.values)
        case Some(values) =>
          allValues := allValues + values;
        case None =>
      }
      assert sensorEvents[..|sensorEvents|] == sensorEvents;
      summary := Summary(
        sensorTypeCount := sensorTypeCount,
        totalSamples := |allValues|,
        mean := Mean(allValues),
        variance := Variance(allValues),
        meanSquare := MeanSquare(allValues),
        minValue := MinOrZero(allValues),
        maxValue := MaxOrZero(allValues));
    }

    /** The row count of each of the three tables. */
    function GetCorrelationStats(): (s: CorrelationStats)
      requires Valid()
      reads sensorEventDao, uiEventDao, correlationResultDao
      ensures s.totalSensorEvents == |Rows.ById(sensorEventDao.table.rows, SensorEvents.Id)|
      ensures s.totalUiEvents == |Rows.ById(uiEventDao.table.rows, UiEvents.Id)|
      ensures s.totalCorrelations == |Rows.ById(correlationResultDao.table.rows, CorrelationResults.Id)|
    {
      CorrelationStats(sensorEventDao.GetCount(), uiEventDao.GetCount(), correlationResultDao.GetCount())
    }
  }
}
