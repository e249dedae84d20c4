/** enforceCapacity: make room for new products by deleting the least recently queried ones. */
module Capacity {

  type TrackId = string

  /** The product table: each row's last_queried. */
  type Table = map<TrackId, int>

  const YEAR := 365 * 24 * 3_600_000_000_000

  /** SELECT ... WHERE last_queried >= cutoff ORDER BY last_queried DESC: each such row once,
      rows with equal times in any order. */
  ghost predicate IsListing(table: Table, cutoff: int, rows: seq<TrackId>) {
    && Elements(rows) == Since(table, cutoff)
    && Distinct(rows)
    && Descending(table, rows)
  }

  ghost predicate Descending(table: Table, rows: seq<TrackId>) {
    forall i, j :: 0 <= i < j < |rows| && rows[i] in table && rows[j] in table ==> table[rows[i]] >= table[rows[j]]
  }

  function Since(table: Table, cutoff: int): set<TrackId> {
    set t | t in table && table[t] >= cutoff
  }

  ghost predicate Distinct(rows: seq<TrackId>) {
    forall i, j :: 0 <= i < j < |rows| ==> rows[i] != rows[j]
  }

  function Elements(rows: seq<TrackId>): set<TrackId> {
    set t | t in rows
  }

  lemma {:induction false} DistinctCount(rows: seq<TrackId>)
    requires Distinct(rows)
    ensures |Elements(rows)| == |rows|
  {
    if rows != [] {
      var front, last := rows[..|rows| - 1], rows[|rows| - 1];
      DistinctCount(front);
      assert Elements(rows) == Elements(front) + {last};
      assert last !in front;
    }
  }

  lemma DistinctPart(rows: seq<TrackId>, k: nat)
    requires k <= |rows| && Distinct(rows)
    ensures |Elements(rows[k..])| == |rows| - k
  {
    DistinctCount(rows[k..]);
  }

  lemma {:induction false} RemoveCount(table: Table, gone: set<TrackId>)
    requires gone <= table.Keys
    ensures |table - gone| == |table| - |gone|
  {
    assert (table - gone).Keys == table.Keys - gone;
    assert |(table - gone).Keys| == |table - gone| && |table.Keys| == |table|;
  }

  lemma DeletionShrinks(table: Table, gone: set<TrackId>)
    ensures |table - gone| <= |table| && (gone == {} ==> table - gone == table)
  {
    RemoveCount(table, table.Keys * gone);
    assert table - gone == table - (table.Keys * gone);
  }

  datatype Result = Done | NothingToEvict

  class ProductStore {
    var table: Table
    /** coupang_price_history: the prices of each product. */
    var history: map<TrackId, seq<int>>

    constructor (table: Table, history: map<TrackId, seq<int>>)
      ensures this.table == table && this.history == history
    {
      this.table, this.history := table, history;
    }

    /** DELETE ... WHERE product_id IN (...) on both tables, and how many products it took. */
    method DeleteProducts(ids: seq<TrackId>) returns (count: nat)
      modifies this
      ensures table == old(table) - Elements(ids) && history == old(history) - Elements(ids)
      ensures count == |old(table)| - |table|
    {
      var gone := Elements(ids);
      DeletionShrinks(table, gone);
      if |ids| == 0 {
        assert gone == {} && history - gone == history;
        return 0;
      }
      var before := |table|;
      history := history - gone;
      table := table - gone;
      count := before - |table|;
    }

    /** `rows` is what ListWatchedProducts returns for the last 365 days. */
    method EnforceCapacity(maxProducts: int, reserve: nat, now: int, rows: seq<TrackId>) returns (r: Result)
      requires IsListing(table, now - YEAR, rows)
      modifies this
      ensures r == (if |old(table)| + reserve > maxProducts && rows == [] then NothingToEvict else Done)
      ensures table == AfterEviction(old(table), rows, |old(table)| + reserve - maxProducts)
      ensures LeastRecentlyQueriedGone(old(table), table, now - YEAR)
      ensures history == old(history) - (old(table).Keys - table.Keys)
    {
      var count := |table|;
      if count + reserve <= maxProducts {
        NothingEvicted(table, rows, count + reserve - maxProducts, now - YEAR);
        return Done;
      }
      var evictIDs := LastListed(rows, count + reserve - maxProducts);
      if |evictIDs| == 0 {
        NothingEvicted(table, rows, count + reserve - maxProducts, now - YEAR);
        return NothingToEvict;
      }
      SameElements(evictIDs, rows);
      EvictsOldest(table, now - YEAR, rows, |evictIDs|);
      ListedAreStored(table, now - YEAR, rows, |evictIDs|);
      var _ := DeleteProducts(evictIDs);
      r := Done;
    }

    /** Picks from the end of the listing. */
    method LastListed(rows: seq<TrackId>, excess: int) returns (evictIDs: seq<TrackId>)
      requires excess > 0
      ensures |evictIDs| == Evicted(excess, |rows|)
      ensures forall m :: 0 <= m < |evictIDs| ==> evictIDs[m] == rows[|rows| - 1 - m]
    {
      evictIDs := [];
      var i := |rows| - 1;
      while i >= 0 && |evictIDs| < excess
        invariant -1 <= i < |rows|
        invariant |evictIDs| == |rows| - 1 - i <= excess
        invariant forall m :: 0 <= m < |evictIDs| ==> evictIDs[m] == rows[|rows| - 1 - m]
      {
        evictIDs := evictIDs + [rows[i]];
        i := i - 1;
      }
    }
  }

  lemma ListedAreStored(table: Table, cutoff: int, rows: seq<TrackId>, n: nat)
    requires IsListing(table, cutoff, rows) && n <= |rows|
    ensures Elements(Tail(rows, n)) == table.Keys - (table - Elements(Tail(rows, n))).Keys
  {
    TailElements(rows, n);
  }

  lemma NothingEvicted(table: Table, rows: seq<TrackId>, excess: int, cutoff: int)
    requires excess <= 0 || rows == []
    ensures AfterEviction(table, rows, excess) == table && LeastRecentlyQueriedGone(table, table, cutoff)
  {
    assert Tail(rows, 0) == [];
  }

  /** The last n rows. */
  function Tail(rows: seq<TrackId>, n: nat): seq<TrackId>
    requires n <= |rows|
  {
    rows[|rows| - n..]
  }

  /** What was deleted was queried within the listing's window, and no survivor within that
      window was queried earlier. */
  ghost predicate LeastRecentlyQueriedGone(before: Table, after: Table, cutoff: int) {
    && (forall t :: t in after ==> t in before && after[t] == before[t])
    && (forall u :: u in before && u !in after ==> before[u] >= cutoff)
    && (forall t, u :: t in after && u in before && u !in after && after[t] >= cutoff ==> after[t] >= before[u])
  }

  lemma SameElements(reversed: seq<TrackId>, rows: seq<TrackId>)
    requires |reversed| <= |rows|
    requires forall m :: 0 <= m < |reversed| ==> reversed[m] == rows[|rows| - 1 - m]
    ensures Elements(reversed) == Elements(Tail(rows, |reversed|))
  {
    var tail := Tail(rows, |reversed|);
    forall t | t in tail ensures t in reversed {
      var j :| 0 <= j < |tail| && tail[j] == t;
      assert reversed[|tail| - 1 - j] == t;
    }
    forall m | 0 <= m < |reversed| ensures reversed[m] in tail {
      assert reversed[m] == tail[|tail| - 1 - m];
    }
  }

  /** How many rows go. */
  function Evicted(excess: int, listed: nat): (n: nat)
    ensures n <= listed
  {
    if excess <= 0 then 0 else if excess < listed then excess else listed
  }

  lemma EvictsOldest(table: Table, cutoff: int, rows: seq<TrackId>, n: nat)
    requires IsListing(table, cutoff, rows) && n <= |rows|
    ensures LeastRecentlyQueriedGone(table, table - Elements(Tail(rows, n)), cutoff)
  {
    var tail := Tail(rows, n);
    TailElements(rows, n);
    forall u | u in tail ensures u in Since(table, cutoff) {
      assert u in Elements(rows);
    }
    forall t, u | t in table && t !in tail && u in tail && table[t] >= cutoff
      ensures table[t] >= table[u]
    {
      OlderThanSurvivor(table, cutoff, rows, n, t, u);
    }
  }

  lemma OlderThanSurvivor(table: Table, cutoff: int, rows: seq<TrackId>, n: nat, t: TrackId, u: TrackId)
    requires IsListing(table, cutoff, rows) && n <= |rows|
    requires t in table && table[t] >= cutoff && t !in Tail(rows, n) && u in Tail(rows, n)
    ensures u in table && table[t] >= table[u]
  {
    var tail := Tail(rows, n);
    assert t in Elements(rows) && tail == Tail(rows, n);
    var i :| 0 <= i < |rows| && rows[i] == t;
    var j :| 0 <= j < |tail| && tail[j] == u;
    forall m | |rows| - n <= m < |rows| ensures rows[m] in tail {
      assert rows[m] == tail[m - (|rows| - n)];
    }
    assert rows[|rows| - n + j] == u && u in Elements(rows);
  }

  /** The table after EnforceCapacity. */
  function AfterEviction(table: Table, rows: seq<TrackId>, excess: int): Table {
    table - Elements(Tail(rows, Evicted(excess, |rows|)))
  }

  lemma EvictedCount(table: Table, rows: seq<TrackId>, excess: int)
    requires Distinct(rows) && Elements(rows) <= table.Keys
    ensures |AfterEviction(table, rows, excess)| == |table| - Evicted(excess, |rows|)
  {
    var n := Evicted(excess, |rows|);
    DistinctPart(rows, |rows| - n);
    TailElements(rows, n);
    RemoveCount(table, Elements(Tail(rows, n)));
  }

  lemma {:induction false} TailElements(rows: seq<TrackId>, n: nat)
    requires n <= |rows|
    ensures Elements(Tail(rows, n)) <= Elements(rows)
  {
    forall t | t in Tail(rows, n) ensures t in rows {
      var j :| 0 <= j < n && Tail(rows, n)[j] == t;
      assert rows[|rows| - n + j] == t;
    }
  }

  lemma ListedCount(table: Table, cutoff: int, rows: seq<TrackId>)
    requires IsListing(table, cutoff, rows)
    ensures Distinct(rows) && Elements(rows) <= table.Keys && |rows| == |Since(table, cutoff)|
  {
    DistinctCount(rows);
  }

  lemma EvictedEnough(table: Table, rows: seq<TrackId>, excess: int)
    requires Distinct(rows) && Elements(rows) <= table.Keys
    ensures |AfterEviction(table, rows, excess)| <= |table| - excess <==> excess <= |rows|
    ensures 0 < excess <= |rows| ==> |AfterEviction(table, rows, excess)| == |table| - excess
  {
    EvictedCount(table, rows, excess);
  }

  /** Main result: the table is back under its capacity exactly when enough products were
      queried within the year, and then exactly the excess is gone. */
  lemma CapacityRestoredIffEnoughListed(table: Table, maxProducts: int, reserve: nat, cutoff: int, rows: seq<TrackId>, excess: int)
    requires IsListing(table, cutoff, rows)
    requires excess == |table| + reserve - maxProducts
    ensures |AfterEviction(table, rows, excess)| + reserve <= maxProducts <==> excess <= |Since(table, cutoff)|
    ensures 0 < excess <= |Since(table, cutoff)| ==> |AfterEviction(table, rows, excess)| + reserve == maxProducts
  {
    ListedCount(table, cutoff, rows);
    EvictedEnough(table, rows, excess);
  }

  lemma AllSince(table: Table, cutoff: int)
    requires forall t :: t in table ==> table[t] >= cutoff
    ensures |Since(table, cutoff)| == |table|
  {
    assert Since(table, cutoff) == table.Keys;
  }

  /** In particular it is whenever every product was queried within the year and the reserve
      itself fits. */
  lemma CapacityRestored(table: Table, maxProducts: int, reserve: nat, cutoff: int, rows: seq<TrackId>, excess: int)
    requires IsListing(table, cutoff, rows)
    requires forall t :: t in table ==> table[t] >= cutoff
    requires reserve <= maxProducts && excess == |table| + reserve - maxProducts
    ensures |AfterEviction(table, rows, excess)| + reserve <= maxProducts
  {
    assert excess <= |Since(table, cutoff)| by { AllSince(table, cutoff); }
    CapacityRestoredIffEnoughListed(table, maxProducts, reserve, cutoff, rows, excess);
  }
}
