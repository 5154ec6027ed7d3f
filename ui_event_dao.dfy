/** The `ui_events` table and its data-access object. */
module UiEvents {
  import opened Entities
  import Rows

  /** The primary key, the `timestamp` column, and `copy(id = k)`. */
  function Id(e: UiEvent): int { e.id }
  function Time(e: UiEvent): int { e.timestamp }
  /** The `packageName = :packageName` filter. */
  function OfPackage(packageName: string): UiEvent -> bool { (e: UiEvent) => e.packageName == packageName }
  function WithId(e: UiEvent, k: int): UiEvent { e.(id := k) }

  class UiEventDao {
    var table: Rows.Table<UiEvent>

    ghost predicate Valid()
      reads this
    {
      Rows.TableInvariant(table, Id)
    }

    constructor ()
      ensures Valid() && table == Rows.Table([], 0)
    {
      table := Rows.Table([], 0);
    }

    /** `insert` with REPLACE: returns the key the row is stored under. */
    method Insert(event: UiEvent) returns (id: int)
      requires Valid()
      modifies this
      ensures Valid()
      ensures Rows.Placed(table, id) == Rows.Insert(old(table), Id, WithId, event)
      ensures id != 0
      ensures event.id == 0 ==> id == old(table.lastId) + 1 && table.rows == old(table.rows) + [event.(id := id)]
      ensures event.id != 0 ==> id == event.id
      ensures table.lastId == if id > old(table.lastId) then id else old(table.lastId)
    {
      var placed := Rows.Insert(table, Id, WithId, event);
      table, id := placed.table, placed.id;
    }

    /** `insertAll` with REPLACE: the rows inserted one after another. */
    method InsertAll(events: seq<UiEvent>)
      requires Valid()
      modifies this
      ensures Valid()
      ensures table == Rows.InsertAll(old(table), Id, WithId, events)
    {
      var i := 0;
      while i < |events|
        invariant 0 <= i <= |events|
        invariant Valid()
        invariant Rows.InsertAll(table, Id, WithId, events[i..]) == Rows.InsertAll(old(table), Id, WithId, events)
      {
        assert events[i..][1..] == events[i + 1..];
        var _ := Insert(events[i]);
        i := i + 1;
      }
    }

    /** `ORDER BY timestamp DESC LIMIT :limit`. */
    function GetRecentEvents(limit: int := 100): (r: seq<UiEvent>)
      reads this
      ensures |r| == if 0 <= limit < |table.rows| then limit else |table.rows|
      ensures Rows.Descending(r, Time)
      ensures multiset(r) <= multiset(table.rows)
      ensures forall x, y :: x in multiset(table.rows) - multiset(r) && y in r ==> Time(x) <= Time(y)
    {
      Rows.Newest(table.rows, Time, limit)
    }

    /** `WHERE timestamp BETWEEN :startTime AND :endTime ORDER BY timestamp`. */
    function GetEventsByTimeRange(startTime: int, endTime: int): seq<UiEvent>
      reads this
    {
      Rows.Between(table.rows, Time, startTime, endTime)
    }

    /** The rows the range query returns: those with a timestamp in the closed interval
        [startTime, endTime], each as often as it is stored, in timestamp order. */
    lemma GetEventsByTimeRangeRows(startTime: int, endTime: int)
      ensures var r := GetEventsByTimeRange(startTime, endTime);
        && Rows.Ascending(r, Time)
        && (forall x :: x in r <==> x in table.rows && startTime <= x.timestamp <= endTime)
        && (forall x :: multiset(r)[x] == if startTime <= x.timestamp <= endTime then multiset(table.rows)[x] else 0)
        && (startTime > endTime ==> r == [])
    {
      Rows.BetweenProperties(table.rows, Time, startTime, endTime);
    }

    /** `WHERE packageName = :packageName ORDER BY timestamp DESC LIMIT :limit`. */
    function GetEventsByPackage(packageName: string, limit: int := 100): (r: seq<UiEvent>)
      reads this
      ensures var matching := Rows.Filter(table.rows, OfPackage(packageName));
        |r| == if 0 <= limit < |matching| then limit else |matching|
      ensures multiset(r) <= multiset(table.rows)
      ensures forall x :: x in r ==> x in table.rows && x.packageName == packageName
      ensures Rows.Descending(r, Time)
      ensures forall x, y ::
        x in multiset(table.rows) - multiset(r) && x.packageName == packageName && y in r ==> Time(x) <= Time(y)
      ensures limit != 0 ==> (r == [] <==> forall x :: x in table.rows ==> x.packageName != packageName)
    {
      Rows.NewestWhere(table.rows, OfPackage(packageName), Time, limit)
    }

    /** `SELECT COUNT(*)`: the number of stored rows, one per primary key. */
    function GetCount(): (c: nat)
      requires Valid()
      reads this
      ensures c == |Rows.ById(table.rows, Id)|
      ensures c == 0 <==> table.rows == []
    {
      |table.rows|
    }

    /** `DELETE FROM ui_events`; the key sequence is not reset. */
    method DeleteAll()
      requires Valid()
      modifies this
      ensures Valid()
      ensures table.rows == [] && table.lastId == old(table.lastId)
      ensures GetCount() == 0
    {
      table := Rows.Table([], table.lastId);
    }

    /** `DELETE ... WHERE timestamp < :timestamp`: exactly the older rows go. */
    method DeleteOlderThan(timestamp: int)
      requires Valid()
      modifies this
      ensures Valid()
      ensures table.lastId == old(table.lastId)
      ensures table.rows == Rows.Filter(old(table.rows), (e: UiEvent) => e.timestamp >= timestamp)
      ensures forall x :: x in table.rows <==> x in old(table.rows) && x.timestamp >= timestamp
    {
      Rows.DeletePreservesInvariant(table, Id, (e: UiEvent) => e.timestamp >= timestamp);
      table := Rows.Table(Rows.Filter(table.rows, (e: UiEvent) => e.timestamp >= timestamp), table.lastId);
    }
  }
}
