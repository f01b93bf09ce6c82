/**
 * The `shopping_items` table behind the data-access interface: a keyed store
 * of rows with an auto-generated primary key, its writes and its queries.
 */
module ShoppingListDao {
  import opened ShoppingItems
  import opened Seqs
  import opened Sorting
  import opened Text

  /** The primary keys present in the table. */
  function Ids(rows: seq<ShoppingItem>): set<int> {
    set r | r in rows :: r.id
  }

  predicate UniqueIds(rows: seq<ShoppingItem>) {
    forall i, j :: 0 <= i < j < |rows| ==> rows[i].id != rows[j].id
  }

  /**
   * The table's invariant: keys are unique, never 0 (0 means "unassigned"),
   * and all lie below `nextId`, the next key the auto-increment hands out.
   */
  ghost predicate WellFormed(rows: seq<ShoppingItem>, nextId: int) {
    && UniqueIds(rows)
    && nextId >= 1
    && forall r :: r in rows ==> r.id != 0 && r.id < nextId
  }

  /** The row stored under key `k`, if any. */
  function Lookup(rows: seq<ShoppingItem>, k: int): (r: Option<ShoppingItem>)
    ensures r.Some? ==> r.value in rows && r.value.id == k
    ensures r.None? <==> k !in Ids(rows)
  {
    if rows == [] then None
    else if rows[0].id == k then Some(rows[0])
    else
      assert Ids(rows) == {rows[0].id} + Ids(rows[1..]) by {
        assert rows == [rows[0]] + rows[1..];
      }
      Lookup(rows[1..], k)
  }

  /**
   * The key an insert writes under: Room binds the key as `nullif(id, 0)`,
   * so 0 draws the next auto-increment value and any other id is kept.
   */
  function AssignedId(nextId: int, item: ShoppingItem): int {
    if item.id == 0 then nextId else item.id
  }

  /** Every row whose key is `row.id` becomes `row`; the rest stay. */
  function ReplaceRow(rows: seq<ShoppingItem>, row: ShoppingItem): (r: seq<ShoppingItem>)
    ensures |r| == |rows|
    ensures forall i :: 0 <= i < |r| ==> r[i] == (if rows[i].id == row.id then row else rows[i])
  {
    if rows == [] then []
    else [if rows[0].id == row.id then row else rows[0]] + ReplaceRow(rows[1..], row)
  }

  /** `INSERT OR REPLACE`: a row under an existing key replaces it, otherwise it is added. */
  function InsertedRows(rows: seq<ShoppingItem>, nextId: int, item: ShoppingItem): (r: seq<ShoppingItem>)
    ensures Ids(r) == Ids(rows) + {AssignedId(nextId, item)}
    ensures item.(id := AssignedId(nextId, item)) in r
  {
    var row := item.(id := AssignedId(nextId, item));
    if row.id in Ids(rows) then
      ReplaceSameIds(rows, row);
      LookupReplaced(rows, row, row.id);
      ReplaceRow(rows, row)
    else
      IdsAppend(rows, row);
      rows + [row]
  }

  /** The auto-increment counter only grows: past a fresh key, or past an explicit one. */
  function NextIdAfterInsert(nextId: int, item: ShoppingItem): (n: int)
    ensures n >= nextId && n > AssignedId(nextId, item)
  {
    if item.id == 0 then nextId + 1
    else if item.id + 1 > nextId then item.id + 1
    else nextId
  }

  function IdIsNot(k: int): ShoppingItem -> bool {
    (r: ShoppingItem) => r.id != k
  }

  /** `DELETE ... WHERE id = k`. */
  function RemoveId(rows: seq<ShoppingItem>, k: int): (r: seq<ShoppingItem>)
    ensures |r| <= |rows| && k !in Ids(r)
    ensures forall x :: x in r ==> x in rows
  {
    Filter(rows, IdIsNot(k))
  }

  function IsBought(r: ShoppingItem): bool { r.isBought }
  function IsPending(r: ShoppingItem): bool { !r.isBought }

  /** `DELETE ... WHERE isBought = 1` keeps the rows not bought. */
  function PendingRows(rows: seq<ShoppingItem>): (r: seq<ShoppingItem>)
    ensures |r| <= |rows|
    ensures forall x :: x in r ==> x in rows && !x.isBought
  {
    Filter(rows, IsPending)
  }

  /** `WHERE priority = 'HIGH'`: the stored enum name is compared as text. */
  function IsHigh(r: ShoppingItem): bool { r.priority.Name() == "HIGH" }

  /** The `CASE` of the priority query: not bought & HIGH, not bought & NORMAL, bought & HIGH, bought & NORMAL. */
  function Tier(r: ShoppingItem): (t: int)
    ensures 1 <= t <= 4
    ensures t <= 2 <==> !r.isBought
    ensures t % 2 == 1 <==> r.priority == HIGH
  {
    if !r.isBought && r.priority.Name() == "HIGH" then 1
    else if !r.isBought && r.priority.Name() == "NORMAL" then 2
    else if r.isBought && r.priority.Name() == "HIGH" then 3
    else 4
  }

  function Price(r: ShoppingItem): int { r.estimatedPrice }
  function NameOf(r: ShoppingItem): string { r.name }

  /** An independent reading of the tiers: unbought before bought, and within each, HIGH before NORMAL. */
  lemma TierOrder(a: ShoppingItem, b: ShoppingItem)
    ensures Tier(a) < Tier(b) <==>
      (!a.isBought && b.isBought) ||
      (a.isBought == b.isBought && a.priority == HIGH && b.priority == NORMAL)
    ensures Tier(a) == Tier(b) <==> a.isBought == b.isBought && a.priority == b.priority
  {
  }

  lemma IsHighMeansHigh(r: ShoppingItem)
    ensures IsHigh(r) <==> r.priority == HIGH
  {
  }

  /** The HIGH count is bounded by the row count and reaches 0 or the row count exactly at the extremes. */
  lemma ImportantCount(rows: seq<ShoppingItem>)
    ensures |Filter(rows, IsHigh)| <= |rows|
    ensures |Filter(rows, IsHigh)| == 0 <==> forall r :: r in rows ==> r.priority == NORMAL
    ensures |Filter(rows, IsHigh)| == |rows| <==> forall r :: r in rows ==> r.priority == HIGH
  {
  }

  // ----- what each write does to the keyed view -----

  /** Insert: the written key now holds the item (with that key); every other key is as before. */
  lemma {:induction false} LookupInserted(rows: seq<ShoppingItem>, nextId: int, item: ShoppingItem, k: int)
    requires WellFormed(rows, nextId)
    ensures var id := AssignedId(nextId, item);
      Lookup(InsertedRows(rows, nextId, item), k) ==
        if k == id then Some(item.(id := id)) else Lookup(rows, k)
  {
    var row := item.(id := AssignedId(nextId, item));
    if row.id in Ids(rows) {
      LookupReplaced(rows, row, k);
    } else {
      LookupAppended(rows, row, k);
    }
  }

  /** An insert with id 0 draws a key that no row had. */
  lemma FreshIdIsNew(rows: seq<ShoppingItem>, nextId: int, item: ShoppingItem)
    requires WellFormed(rows, nextId) && item.id == 0
    ensures AssignedId(nextId, item) !in Ids(rows)
    ensures InsertedRows(rows, nextId, item) == rows + [item.(id := nextId)]
  {
  }

  lemma {:induction false} LookupAppended(rows: seq<ShoppingItem>, row: ShoppingItem, k: int)
    requires row.id !in Ids(rows)
    ensures Lookup(rows + [row], k) == if k == row.id then Some(row) else Lookup(rows, k)
  {
    if rows != [] {
      assert (rows + [row])[1..] == rows[1..] + [row];
      assert Ids(rows) == {rows[0].id} + Ids(rows[1..]) by {
        assert rows == [rows[0]] + rows[1..];
      }
      LookupAppended(rows[1..], row, k);
    }
  }

  /** Looking up in a list with a given first row. */
  lemma LookupCons(x: ShoppingItem, rest: seq<ShoppingItem>, k: int)
    ensures Lookup([x] + rest, k) == if x.id == k then Some(x) else Lookup(rest, k)
  {
    assert ([x] + rest)[0] == x && ([x] + rest)[1..] == rest;
  }

  lemma IdsCons(x: ShoppingItem, rest: seq<ShoppingItem>)
    ensures Ids([x] + rest) == {x.id} + Ids(rest)
  {
    assert forall r :: r in [x] + rest <==> r == x || r in rest;
  }

  lemma IdsAppend(rows: seq<ShoppingItem>, row: ShoppingItem)
    ensures Ids(rows + [row]) == Ids(rows) + {row.id}
  {
    assert forall r :: r in rows + [row] <==> r in rows || r == row;
  }

  /** An update leaves the set of keys as it was. */
  lemma {:induction false} ReplaceSameIds(rows: seq<ShoppingItem>, row: ShoppingItem)
    ensures Ids(ReplaceRow(rows, row)) == Ids(rows)
  {
    if rows != [] {
      var x, rest := rows[0], rows[1..];
      var head := if x.id == row.id then row else x;
      assert rows == [x] + rest;
      assert ReplaceRow(rows, row) == [head] + ReplaceRow(rest, row);
      ReplaceSameIds(rest, row);
      IdsCons(x, rest);
      IdsCons(head, ReplaceRow(rest, row));
    }
  }

  /** Update: the item's key holds the item if that key was present; nothing else changes. */
  lemma {:induction false} LookupReplaced(rows: seq<ShoppingItem>, row: ShoppingItem, k: int)
    ensures Lookup(ReplaceRow(rows, row), k) ==
      if k == row.id && row.id in Ids(rows) then Some(row) else Lookup(rows, k)
  {
    if rows != [] {
      var x, rest := rows[0], rows[1..];
      var head := if x.id == row.id then row else x;
      var tail := ReplaceRow(rest, row);
      assert rows == [x] + rest;
      assert ReplaceRow(rows, row) == [head] + tail;
      LookupReplaced(rest, row, k);
      LookupCons(head, tail, k);
      LookupCons(x, rest, k);
      IdsCons(x, rest);
      if x.id == row.id {
        assert row.id in Ids(rows);
      } else if k != x.id {
        assert row.id in Ids(rows) <==> row.id in Ids(rest);
      }
    }
  }

  /** Updating a key that is not in the table changes nothing. */
  lemma {:induction false} ReplaceAbsentIsNoOp(rows: seq<ShoppingItem>, row: ShoppingItem)
    requires row.id !in Ids(rows)
    ensures ReplaceRow(rows, row) == rows
  {
    if rows != [] {
      assert rows == [rows[0]] + rows[1..];
      ReplaceAbsentIsNoOp(rows[1..], row);
    }
  }

  lemma {:induction false} ReplaceKeepsIds(rows: seq<ShoppingItem>, row: ShoppingItem)
    ensures forall i :: 0 <= i < |rows| ==> ReplaceRow(rows, row)[i].id == rows[i].id
    ensures forall r :: r in ReplaceRow(rows, row) ==> r == row || r in rows
  {
    if rows != [] {
      ReplaceKeepsIds(rows[1..], row);
      assert ReplaceRow(rows, row)[1..] == ReplaceRow(rows[1..], row);
    }
  }

  /** Delete: the key is gone, every other key is as before. */
  lemma {:induction false} LookupRemoved(rows: seq<ShoppingItem>, k: int, j: int)
    ensures Lookup(RemoveId(rows, k), j) == if j == k then None else Lookup(rows, j)
  {
    if rows != [] {
      var x, rest := rows[0], rows[1..];
      assert rows == [x] + rest;
      LookupRemoved(rest, k, j);
      FilterCons(x, rest, IdIsNot(k));
      assert IdIsNot(k)(x) == (x.id != k);
      LookupCons(x, rest, j);
      if x.id != k {
        assert RemoveId(rows, k) == [x] + RemoveId(rest, k);
        LookupCons(x, RemoveId(rest, k), j);
      } else {
        assert RemoveId(rows, k) == RemoveId(rest, k);
      }
    }
  }

  /** Deleting an absent key changes nothing, so deleting twice is deleting once. */
  lemma RemoveIdempotent(rows: seq<ShoppingItem>, k: int)
    ensures k !in Ids(rows) ==> RemoveId(rows, k) == rows
    ensures RemoveId(RemoveId(rows, k), k) == RemoveId(rows, k)
  {
    if k !in Ids(rows) {
      FilterKeepsAll(rows, IdIsNot(k));
    }
    FilterKeepsAll(RemoveId(rows, k), IdIsNot(k));
  }

  /** Delete bought: a key keeps its row exactly when that row was not bought. */
  lemma {:induction false} LookupPending(rows: seq<ShoppingItem>, k: int)
    requires UniqueIds(rows)
    ensures Lookup(PendingRows(rows), k) ==
      if Lookup(rows, k).Some? && !Lookup(rows, k).value.isBought then Lookup(rows, k) else None
  {
    if rows != [] {
      var x, rest := rows[0], rows[1..];
      assert rows == [x] + rest;
      assert UniqueIds(rest) by {
        forall a, b | 0 <= a < b < |rest| ensures rest[a].id != rest[b].id {
          assert rest[a] == rows[a + 1] && rest[b] == rows[b + 1];
        }
      }
      LookupPending(rest, k);
      FilterCons(x, rest, IsPending);
      LookupCons(x, rest, k);
      if x.isBought {
        assert PendingRows(rows) == PendingRows(rest);
        if x.id == k {
          assert k !in Ids(rest) by {
            forall a | 0 <= a < |rest| ensures rest[a].id != k {
              assert rest[a] == rows[a + 1];
            }
          }
        }
      } else {
        assert PendingRows(rows) == [x] + PendingRows(rest);
        LookupCons(x, PendingRows(rest), k);
      }
    }
  }

  /** After deleting the bought rows the count is the old count minus the bought count. */
  lemma PendingCount(rows: seq<ShoppingItem>)
    ensures |PendingRows(rows)| == |rows| - |Filter(rows, IsBought)|
    ensures forall r :: r in PendingRows(rows) ==> !r.isBought
  {
  }

  // ----- the table invariant is kept by every write -----

  lemma InsertKeepsWellFormed(rows: seq<ShoppingItem>, nextId: int, item: ShoppingItem)
    requires WellFormed(rows, nextId)
    ensures WellFormed(InsertedRows(rows, nextId, item), NextIdAfterInsert(nextId, item))
    ensures |InsertedRows(rows, nextId, item)| ==
      if AssignedId(nextId, item) in Ids(rows) then |rows| else |rows| + 1
  {
    var row := item.(id := AssignedId(nextId, item));
    if row.id in Ids(rows) {
      ReplaceKeepsIds(rows, row);
    } else {
      var r := rows + [row];
      forall i, j | 0 <= i < j < |r| ensures r[i].id != r[j].id {
        if j == |rows| {
          assert rows[i] in rows;
        }
      }
    }
  }

  lemma ReplaceKeepsWellFormed(rows: seq<ShoppingItem>, nextId: int, row: ShoppingItem)
    requires WellFormed(rows, nextId)
    ensures WellFormed(ReplaceRow(rows, row), nextId)
  {
    ReplaceKeepsIds(rows, row);
    if row.id !in Ids(rows) {
      ReplaceAbsentIsNoOp(rows, row);
    } else {
      var r :| r in rows && r.id == row.id;
    }
  }

  lemma {:induction false} FilterKeepsUniqueIds(rows: seq<ShoppingItem>, p: ShoppingItem -> bool)
    requires UniqueIds(rows)
    ensures UniqueIds(Filter(rows, p))
  {
    if rows != [] {
      FilterKeepsUniqueIds(rows[1..], p);
      if p(rows[0]) {
        var f := Filter(rows, p);
        assert f == [rows[0]] + Filter(rows[1..], p);
        forall j | 0 < j < |f| ensures f[0].id != f[j].id {
          assert f[j] in Filter(rows[1..], p);
          var m :| 0 <= m < |rows[1..]| && rows[1..][m] == f[j];
          assert rows[m + 1] == f[j];
        }
      }
    }
  }

  lemma FilterKeepsWellFormed(rows: seq<ShoppingItem>, nextId: int, p: ShoppingItem -> bool)
    requires WellFormed(rows, nextId)
    ensures WellFormed(Filter(rows, p), nextId)
  {
    FilterKeepsUniqueIds(rows, p);
  }

  // ----- the table -----

  class ShoppingItemTable {
    /** The rows, in storage order. */
    var rows: seq<ShoppingItem>
    /** One past the largest key ever handed out or written. */
    var nextId: int

    ghost predicate Valid()
      reads this
    {
      WellFormed(rows, nextId)
    }

    constructor ()
      ensures Valid() && rows == [] && nextId == 1
    {
      rows := [];
      nextId := 1;
    }

    /** `@Insert(onConflict = REPLACE)`. */
    method InsertItem(item: ShoppingItem)
      requires Valid()
      modifies this
      ensures Valid()
      ensures rows == InsertedRows(old(rows), old(nextId), item)
      ensures nextId == NextIdAfterInsert(old(nextId), item)
    {
      InsertKeepsWellFormed(rows, nextId, item);
      var id := if item.id == 0 then nextId else item.id;
      var row := item.(id := id);
      if row.id in Ids(rows) {
        rows := ReplaceRow(rows, row);
      } else {
        rows := rows + [row];
      }
      if item.id == 0 {
        nextId := nextId + 1;
      } else if item.id + 1 > nextId {
        nextId := item.id + 1;
      }
    }

    /** `@Update`: `UPDATE ... WHERE id = item.id`; no matching row means no change. */
    method UpdateItem(item: ShoppingItem)
      requires Valid()
      modifies this
      ensures Valid()
      ensures rows == ReplaceRow(old(rows), item) && nextId == old(nextId)
    {
      ReplaceKeepsWellFormed(rows, nextId, item);
      rows := ReplaceRow(rows, item);
    }

    /** `@Delete`: `DELETE ... WHERE id = item.id`. */
    method DeleteItem(item: ShoppingItem)
      requires Valid()
      modifies this
      ensures Valid()
      ensures rows == RemoveId(old(rows), item.id) && nextId == old(nextId)
    {
      FilterKeepsWellFormed(rows, nextId, IdIsNot(item.id));
      rows := RemoveId(rows, item.id);
    }

    /** `DELETE FROM shopping_items`; the auto-increment counter is kept. */
    method DeleteAllItems()
      requires Valid()
      modifies this
      ensures Valid()
      ensures rows == [] && nextId == old(nextId)
    {
      rows := [];
    }

    /** `DELETE FROM shopping_items WHERE isBought = 1`. */
    method DeleteBoughtItems()
      requires Valid()
      modifies this
      ensures Valid()
      ensures rows == PendingRows(old(rows)) && nextId == old(nextId)
    {
      FilterKeepsWellFormed(rows, nextId, IsPending);
      rows := PendingRows(rows);
    }

    /** `SELECT * ... ORDER BY name ASC`. */
    function GetAllItems(): (r: seq<ShoppingItem>)
      reads this
      ensures multiset(r) == multiset(rows)
      ensures SortedBy(r, NameOf, StrLe)
    {
      StrLeIsTotalOrder();
      SortBySorted(rows, NameOf, StrLe);
      SortBy(rows, NameOf, StrLe)
    }

    /** `SELECT * ... ORDER BY estimated_price ASC`. */
    function GetItemsSortedByPrice(): (r: seq<ShoppingItem>)
      reads this
      ensures multiset(r) == multiset(rows)
      ensures forall i, j :: 0 <= i < j < |r| ==> r[i].estimatedPrice <= r[j].estimatedPrice
    {
      IntOrders();
      SortBySorted(rows, Price, IntLe);
      SortBy(rows, Price, IntLe)
    }

    /** `SELECT * ... ORDER BY CASE ... END`: the four tiers in order. */
    function GetItemsSortedByPriority(): (r: seq<ShoppingItem>)
      reads this
      ensures multiset(r) == multiset(rows)
      ensures forall i, j :: 0 <= i < j < |r| ==> Tier(r[i]) <= Tier(r[j])
    {
      IntOrders();
      SortBySorted(rows, Tier, IntLe);
      SortBy(rows, Tier, IntLe)
    }

    /** `SELECT COUNT(*)`. */
    function GetAllItemsNum(): (n: nat)
      reads this
      ensures n == |GetItemsSortedByPriority()|
    {
      |rows|
    }

    /** `SELECT COUNT(*) ... WHERE priority = 'HIGH'`. */
    function GetImportantItemsNum(): (n: nat)
      reads this
      ensures n <= GetAllItemsNum()
      ensures n == 0 <==> forall r :: r in rows ==> r.priority == NORMAL
      ensures n == GetAllItemsNum() <==> forall r :: r in rows ==> r.priority == HIGH
    {
      ImportantCount(rows);
      |Filter(rows, IsHigh)|
    }
  }
}
