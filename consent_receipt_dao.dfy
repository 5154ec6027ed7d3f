/** The `consent_receipts` table and its data-access object. */
module ConsentReceipts {
  import opened Wrappers
  import opened Entities
  import Rows

  /** The primary key, the `timestamp` column, and `copy(id = k)`. */
  function Id(e: ConsentReceipt): int { e.id }
  function Time(e: ConsentReceipt): int { e.timestamp }
  function WithId(e: ConsentReceipt, k: int): ConsentReceipt { e.(id := k) }

  class ConsentReceiptDao {
    var table: Rows.Table<ConsentReceipt>

    ghost predicate Valid()
      reads this
    {
      Rows.TableInvariant(table, Id)
    }

    constructor ()
      ensures Valid() && table == Rows.Table([], 0)
    {
      table := Rows.Table([], 0);
    }

    /** `insert` with REPLACE: returns the key the receipt is stored under. */
    method Insert(receipt: ConsentReceipt) returns (id: int)
      requires Valid()
      modifies this
      ensures Valid()
      ensures Rows.Placed(table, id) == Rows.Insert(old(table), Id, WithId, receipt)
      ensures id != 0
      ensures receipt.id == 0 ==> id == old(table.lastId) + 1 && table.rows == old(table.rows) + [receipt.(id := id)]
      ensures receipt.id != 0 ==> id == receipt.id
      ensures table.lastId == if id > old(table.lastId) then id else old(table.lastId)
    {
      var placed := Rows.Insert(table, Id, WithId, receipt);
      table, id := placed.table, placed.id;
    }

    /** `ORDER BY timestamp DESC`: every receipt, newest first. */
    function GetAllReceipts(): (r: seq<ConsentReceipt>)
      reads this
      ensures multiset(r) == multiset(table.rows)
      ensures forall i, j :: 0 <= i < j < |r| ==> r[i].timestamp >= r[j].timestamp
    {
      var r := Rows.Newest(table.rows, Time, -1);
      assert multiset(r) <= multiset(table.rows) && |multiset(r)| == |multiset(table.rows)|;
      MultisetSubsetOfSameSize(multiset(r), multiset(table.rows));
      r
    }

    /** `WHERE permissionName = :permissionName ORDER BY timestamp DESC LIMIT 1`: null when no
        receipt names the permission, otherwise one of its receipts with the latest timestamp. */
    function GetLatestReceipt(permissionName: string): (r: Option<ConsentReceipt>)
      reads this
      ensures r.None? <==> forall x :: x in table.rows ==> x.permissionName != permissionName
      ensures r.Some? ==> r.value in table.rows && r.value.permissionName == permissionName
      ensures r.Some? ==> forall x :: x in table.rows && x.permissionName == permissionName ==> Time(x) <= Time(r.value)
    {
      Rows.LatestWhere(table.rows, (e: ConsentReceipt) => e.permissionName == permissionName, Time)
    }

    /** `DELETE FROM consent_receipts`. */
    method DeleteAll()
      requires Valid()
      modifies this
      ensures Valid()
      ensures table.rows == [] && table.lastId == old(table.lastId)
      ensures GetAllReceipts() == []
    {
      table := Rows.Table([], table.lastId);
    }
  }

  /** A sub-multiset with as many elements as the whole is the whole. */
  lemma MultisetSubsetOfSameSize<T>(a: multiset<T>, b: multiset<T>)
    requires a <= b && |a| == |b|
    ensures a == b
  {
    assert |b - a| == |b| - |a|;
    assert b == a + (b - a);
  }
}
