/** The incremental cost ledger of API keys, proved equal to folding every row again. */
module Ledger {
  import opened Wrappers
  import opened UsageTotals

  const BATCH := 10_000

  datatype Row = Row(id: int, name: string, at: int, model: string, serviceTier: string, usage: Usage)

  /** A price snapshot: `estimate` is None for a row without a price. */
  datatype Prices = Prices(fetchedAt: int, estimate: Row -> Option<int>)

  datatype Totals = Totals(month: Usage, monthCost: Cost, lifetimeCost: Cost, lastUsed: int)

  const NO_TOTALS := Totals(NO_USAGE, NO_COST, NO_COST, 0)

  function TotalsOf(keys: map<string, Totals>, name: string): Totals {
    if name in keys then keys[name] else NO_TOTALS
  }

  /** Rows are never deleted and ids only grow. */
  predicate Increasing(rows: seq<Row>) {
    && (forall i {:trigger rows[i]} :: 0 <= i < |rows| ==> rows[i].id > 0)
    && (forall i, j {:trigger rows[i], rows[j]} :: 0 <= i < j < |rows| ==> rows[i].id < rows[j].id)
  }

  // ---------- from scratch

  function Charged(key: Totals, row: Row, monthStart: int, prices: Prices): Totals {
    var lifetime := key.(lifetimeCost := key.lifetimeCost.Add(prices.estimate(row)));
    var monthly :=
      if row.at >= monthStart then
        lifetime.(month := key.month.Plus(row.usage), monthCost := key.monthCost.Add(prices.estimate(row)))
      else lifetime;
    monthly.(lastUsed := if row.at > key.lastUsed then row.at else key.lastUsed)
  }

  function AddRow(keys: map<string, Totals>, row: Row, monthStart: int, prices: Prices): map<string, Totals> {
    if row.name == "" then keys
    else keys[row.name := Charged(TotalsOf(keys, row.name), row, monthStart, prices)]
  }

  function Fold(rows: seq<Row>, monthStart: int, prices: Prices): map<string, Totals> {
    if rows == [] then map[]
    else AddRow(Fold(rows[..|rows| - 1], monthStart, prices), rows[|rows| - 1], monthStart, prices)
  }

  /** The rows that count for one key. */
  function OfKey(rows: seq<Row>, name: string): seq<Row> {
    if rows == [] then []
    else OfKey(rows[..|rows| - 1], name) + if rows[|rows| - 1].name == name then [rows[|rows| - 1]] else []
  }

  lemma FoldAppend(rows: seq<Row>, row: Row, monthStart: int, prices: Prices)
    ensures Fold(rows + [row], monthStart, prices) == AddRow(Fold(rows, monthStart, prices), row, monthStart, prices)
  {
    assert (rows + [row])[..|rows|] == rows;
  }

  /** A key is listed once it has a row, and its totals come from its own rows alone. */
  lemma {:induction false} KeysAreSeparate(rows: seq<Row>, name: string, monthStart: int, prices: Prices)
    requires name != ""
    ensures name in Fold(rows, monthStart, prices) <==> OfKey(rows, name) != []
    ensures TotalsOf(Fold(rows, monthStart, prices), name) ==
            TotalsOf(Fold(OfKey(rows, name), monthStart, prices), name)
  {
    if rows != [] {
      var front, last := rows[..|rows| - 1], rows[|rows| - 1];
      KeysAreSeparate(front, name, monthStart, prices);
      if last.name == name {
        FoldAppend(OfKey(front, name), last, monthStart, prices);
      } else {
        assert OfKey(front, name) + [] == OfKey(front, name);
      }
    }
  }

  /** A key was last used at the latest of its rows. */
  lemma {:induction false} LastUsedIsLatest(rows: seq<Row>, name: string, monthStart: int, prices: Prices)
    requires name != ""
    ensures var last := TotalsOf(Fold(rows, monthStart, prices), name).lastUsed;
            && (last == 0 || exists i :: 0 <= i < |rows| && rows[i].name == name && rows[i].at == last)
            && forall i :: 0 <= i < |rows| && rows[i].name == name ==> rows[i].at <= last
  {
    if rows != [] {
      LastUsedIsLatest(rows[..|rows| - 1], name, monthStart, prices);
    }
  }

  // ---------- the table

  /** The rows after an id, at most `limit` of them, in the order of their ids. */
  method UsageRowsAfter(rows: seq<Row>, id: int, limit: nat) returns (batch: seq<Row>)
    requires Increasing(rows)
    ensures exists k: nat :: IsBatch(rows, id, limit, k, batch)
  {
    batch := [];
    var k: nat := 0;
    while k < |rows| && rows[k].id <= id
      invariant k <= |rows| && forall i {:trigger rows[i]} :: 0 <= i < k ==> rows[i].id <= id
    {
      k := k + 1;
    }
    var j: nat := k;
    while j < |rows| && |batch| < limit
      invariant k <= j <= |rows| && |batch| <= limit && batch == rows[k..j]
    {
      batch := batch + [rows[j]];
      j := j + 1;
    }
    assert IsBatch(rows, id, limit, k, batch);
  }

  ghost predicate IsBatch(rows: seq<Row>, id: int, limit: nat, k: nat, batch: seq<Row>) {
    && k + |batch| <= |rows| && batch == rows[k..k + |batch|]
    && (forall i {:trigger rows[i]} :: 0 <= i < |rows| ==> (rows[i].id <= id <==> i < k))
    && |batch| <= limit && (|batch| < limit ==> k + |batch| == |rows|)
  }

  /** What the database answers to one query: the table as it is then, or an error. */
  datatype Answer = Failed | Table(rows: seq<Row>)

  function LastId(rows: seq<Row>): int {
    if rows == [] then 0 else rows[|rows| - 1].id
  }

  lemma BatchFollows(rows: seq<Row>, seen: seq<Row>, limit: nat, k: nat, batch: seq<Row>)
    requires Increasing(rows) && seen <= rows && IsBatch(rows, LastId(seen), limit, k, batch)
    ensures k == |seen| && seen + batch <= rows && (|batch| < limit ==> seen + batch == rows)
  {
    assert seen != [] ==> rows[|seen| - 1].id == LastId(seen);
    assert |seen| < |rows| ==> rows[|seen|].id > LastId(seen);
  }

  class ApiKeyLedger {
    var monthStart: int
    var pricedAt: int
    var lastID: int
    var keys: Option<map<string, Totals>>
    ghost var seen: seq<Row> // the rows folded so far
    ghost var prices: Prices // the prices they were folded at

    ghost predicate Valid()
      reads this
    {
      && pricedAt == prices.fetchedAt
      && (keys.Some? ==> keys.value == Fold(seen, monthStart, prices) && lastID == LastId(seen))
    }

    constructor ()
      ensures Valid() && keys.None?
    {
      monthStart, pricedAt, lastID, keys, seen := 0, 0, 0, None, [];
      prices := Prices(0, (_: Row) => None);
    }

    /** A new month or new prices start over. */
    method Prepare(monthStart: int, prices: Prices)
      requires Valid() && (prices.fetchedAt == pricedAt && keys.Some? ==> prices == this.prices)
      modifies this
      ensures Valid() && keys.Some? && this.monthStart == monthStart && this.prices == prices
      ensures seen == [] || seen == old(seen)
    {
      if keys.None? || this.monthStart != monthStart || pricedAt != prices.fetchedAt {
        this.monthStart := monthStart;
        pricedAt := prices.fetchedAt;
        lastID := 0;
        keys := Some(map[]);
        seen := [];
        this.prices := prices;
      }
    }

    method AddRows(batch: seq<Row>, current: Prices)
      requires Valid() && keys.Some? && current == prices
      modifies this`lastID, this`keys, this`seen
      ensures Valid() && keys.Some? && seen == old(seen) + batch
    {
      for i := 0 to |batch|
        invariant Valid() && keys.Some? && seen == old(seen) + batch[..i]
      {
        assert old(seen) + batch[..i + 1] == old(seen) + batch[..i] + [batch[i]];
        FoldAppend(seen, batch[i], monthStart, prices);
        lastID := batch[i].id;
        keys := Some(AddRow(keys.value, batch[i], monthStart, current));
        seen := seen + [batch[i]];
      }
      assert batch[..|batch|] == batch;
    }

    /** `answers` are the database's answers to the batch queries in turn; the table may grow between
        them, and an answer that never comes is an error. A successful result is the fold over the
        whole table as last seen; after an error the rows already folded stay folded. */
    method ComputeTotals(answers: seq<Answer>, monthStart: int, prices: Prices)
      returns (result: Option<map<string, Totals>>, ghost used: nat)
      requires Valid() && (prices.fetchedAt == pricedAt && keys.Some? ==> prices == this.prices)
      requires forall i {:trigger answers[i]} :: 0 <= i < |answers| && answers[i].Table? ==>
        Increasing(answers[i].rows) && seen <= answers[i].rows
      requires forall i, j {:trigger answers[i], answers[j]} ::
               0 <= i < j < |answers| && answers[i].Table? && answers[j].Table? ==> answers[i].rows <= answers[j].rows
      modifies this
      ensures Valid() && this.prices == prices && this.monthStart == monthStart
      ensures used <= |answers| && forall i {:trigger answers[i]} :: used <= i < |answers| && answers[i].Table? ==>
        seen <= answers[i].rows
      ensures result.Some? ==>
        used > 0 && answers[used - 1].Table? && result.value == Fold(answers[used - 1].rows, monthStart, prices)
      ensures result.None? ==> used == |answers| || answers[used].Failed?
    {
      Prepare(monthStart, prices);
      used := 0;
      var k := 0;
      while k < |answers|
        invariant k <= |answers| && used == k
        invariant Valid() && keys.Some? && this.prices == prices && this.monthStart == monthStart
        invariant forall i {:trigger answers[i]} :: k <= i < |answers| && answers[i].Table? ==> seen <= answers[i].rows
      {
        if answers[k].Failed? {
          return None, k;
        }
        var rows := answers[k].rows;
        var batch := UsageRowsAfter(rows, lastID, BATCH);
        ghost var first: nat :| IsBatch(rows, lastID, BATCH, first, batch);
        BatchFollows(rows, seen, BATCH, first, batch);
        AddRows(batch, prices);
        k := k + 1;
        used := k;
        if |batch| < BATCH {
          return keys, k;
        }
      }
      result := None;
    }
  }
}
