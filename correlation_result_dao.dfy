/** The `correlation_results` table and its data-access object. */
module CorrelationResults {
  import opened Entities
  import Rows

  /** The primary key, the `timestamp` column, and `copy(id = k)`. */
  function Id(e: CorrelationResult): int { e.id }
  function Time(e: CorrelationResult): int { e.timestamp }
  function WithId(e: CorrelationResult, k: int): CorrelationResult { e.(id := k) }

  class CorrelationResultDao {
    var table: Rows.Table<CorrelationResult>

    ghost predicate Valid()
      reads this
    {
      Rows.TableInvariant(table, Id)
    }

    constructor ()
      ensures Valid() && table == Rows.Table([], 0)
    {
      table := Rows.Table([], 0);
    }

    /** `insert` with REPLACE: returns the key the row is stored under. */
    method Insert(result: CorrelationResult) returns (id: int)
      requires Valid()
      modifies this
      ensures Valid()
      ensures Rows.Placed(table, id) == Rows.Insert(old(table), Id, WithId, result)
      ensures id != 0
      ensures result.id == 0 ==> id == old(table.lastId) + 1 && table.rows == old(table.rows) + [result.(id := id)]
      ensures result.id != 0 ==> id == result.id
      ensures table.lastId == if id > old(table.lastId) then id else old(table.lastId)
    {
      var placed := Rows.Insert(table, Id, WithId, result);
      table, id := placed.table, placed.id;
    }

    /** `insertAll` with REPLACE: the rows inserted one after another. */
    method InsertAll(results: seq<CorrelationResult>)
      requires Valid()
      modifies this
      ensures Valid()
      ensures table == Rows.InsertAll(old(table), Id, WithId, results)
    {
      var i := 0;
      while i < |results|
        invariant 0 <= i <= |results|
        invariant Valid()
        invariant Rows.InsertAll(table, Id, WithId, results[i..]) == Rows.InsertAll(old(table), Id, WithId, results)
      {
        assert results[i..][1..] == results[i + 1..];
        var _ := Insert(results[i]);
        i := i + 1;
      }
    }

    /** `ORDER BY timestamp DESC LIMIT :limit`. */
    function GetRecentResults(limit: int := 50): (r: seq<CorrelationResult>)
      reads this
      ensures |r| == if 0 <= limit < |table.rows| then limit else |table.rows|
      ensures Rows.Descending(r, Time)
      ensures multiset(r) <= multiset(table.rows)
      ensures forall x, y :: x in multiset(table.rows) - multiset(r) && y in r ==> Time(x) <= Time(y)
    {
      Rows.Newest(table.rows, Time, limit)
    }

    /** `WHERE timestamp BETWEEN :startTime AND :endTime ORDER BY timestamp`. */
    function GetResultsByTimeRange(startTime: int, endTime: int): seq<CorrelationResult>
      reads this
    {
      Rows.Between(table.rows, Time, startTime, endTime)
    }

    /** The rows the range query returns: those with a timestamp in the closed interval
        [startTime, endTime], each as often as it is stored, in timestamp order. */
    lemma GetResultsByTimeRangeRows(startTime: int, endTime: int)
      ensures var r := GetResultsByTimeRange(startTime, endTime);
        && Rows.Ascending(r, Time)
        && (forall x :: x in r <==> x in table.rows && startTime <= x.timestamp <= endTime)
        && (forall x :: multiset(r)[x] == if startTime <= x.timestamp <= endTime then multiset(table.rows)[x] else 0)
        && (startTime > endTime ==> r == [])
    {
      Rows.BetweenProperties(table.rows, Time, startTime, endTime);
    }

    /** `WHERE uiEventId = :uiEventId`: every stored result for that UI event (nothing makes
        the column unique, so there may be several), in storage order. */
    function GetResultsByUiEvent(uiEventId: int): (r: seq<CorrelationResult>)
      reads this
      ensures forall x :: x in r <==> x in table.rows && x.uiEventId == uiEventId
      ensures forall x :: multiset(r)[x] == if x.uiEventId == uiEventId then multiset(table.rows)[x] else 0
    {
      Rows.Filter(table.rows, (e: CorrelationResult) => e.uiEventId == uiEventId)
    }

    /** `SELECT COUNT(*)`: the number of stored rows, one per primary key. */
    function GetCount(): (c: nat)
      requires Valid()
      reads this
      ensures c == |Rows.ById(table.rows, Id)|
      ensures c == 0 <==> table.rows == []
    {
      |table.rows|
    }

    /** `DELETE FROM correlation_results`; the key sequence is not reset. */
    method DeleteAll()
      requires Valid()
      modifies this
      ensures Valid()
      ensures table.rows == [] && table.lastId == old(table.lastId)
      ensures GetCount() == 0
    {
      table := Rows.Table([], table.lastId);
    }

    /** `DELETE ... WHERE timestamp < :timestamp`: exactly the older rows go. */
    method DeleteOlderThan(timestamp: int)
      requires Valid()
      modifies this
      ensures Valid()
      ensures table.lastId == old(table.lastId)
      ensures table.rows == Rows.Filter(old(table.rows), (e: CorrelationResult) => e.timestamp >= timestamp)
      ensures forall x :: x in table.rows <==> x in old(table.rows) && x.timestamp >= timestamp
    {
      Rows.DeletePreservesInvariant(table, Id, (e: CorrelationResult) => e.timestamp >= timestamp);
      table := Rows.Table(Rows.Filter(table.rows, (e: CorrelationResult) => e.timestamp >= timestamp), table.lastId);
    }
  }
}
