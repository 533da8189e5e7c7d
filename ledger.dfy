/**
 * The inventory ledger: items, transactions, the stock status of a
 * balance, the current balance of an item and the day's statistics.
 */
module Ledger {
  import opened Order
  import opened Sequences

  datatype Option<T> = None | Some(value: T)

  datatype Item = Item(id: string, name: string, description: Option<string>)

  /**
   * One stock movement. `balance` is the balance stored on the record when
   * it was made; `unit` is the requesting unit, present for stock out.
   */
  datatype Transaction = Transaction(
    id: string,
    date: string,
    item: Item,
    deposit: int,
    withdrawal: int,
    balance: int,
    unit: Option<string>,
    createdAt: string,
    updatedAt: string)

  // ---------------------------------------------------------------------
  // Stock status

  datatype Status = Unavailable | LowStock | InStock

  /** The largest balance still shown as low stock. */
  const LowStockLimit: int := 10

  function Classify(balance: int): (s: Status)
    ensures s == Unavailable <==> balance <= 0
    ensures s == LowStock <==> 1 <= balance <= LowStockLimit
    ensures s == InStock <==> balance > LowStockLimit
  {
    if balance <= 0 then Unavailable
    else if balance >= 1 && balance <= LowStockLimit then LowStock
    else InStock
  }

  /** The statuses from worst to best. */
  function Rank(s: Status): nat
  {
    match s
    case Unavailable => 0
    case LowStock => 1
    case InStock => 2
  }

  /** A larger balance never gets a worse status. */
  lemma ClassifyMonotone(a: int, b: int)
    requires a <= b
    ensures Rank(Classify(a)) <= Rank(Classify(b))
  {
  }

  // ---------------------------------------------------------------------
  // Current balance

  /** The filter `t => t.itemId._id === itemId`. */
  function OfItem(itemId: string): Transaction -> bool
  {
    (t: Transaction) => t.item.id == itemId
  }

  function ForItem(ts: seq<Transaction>, itemId: string): seq<Transaction>
  {
    Filter(ts, OfItem(itemId))
  }

  /**
   * Puts `t` into a list already sorted latest date first, before every
   * record whose date is not later than its own.
   */
  function InsertByDate(t: Transaction, sorted: seq<Transaction>): seq<Transaction>
  {
    if sorted == [] || LexLe(sorted[0].date, t.date) then [t] + sorted
    else [sorted[0]] + InsertByDate(t, sorted[1..])
  }

  /**
   * The stable sort by date, latest first, that the balance lookup runs:
   * records with equal dates keep their relative order. It only reorders
   * the records, and every record's date is at least those after it.
   */
  function SortByDateDesc(ts: seq<Transaction>): (r: seq<Transaction>)
    ensures multiset(r) == multiset(ts)
    ensures LatestFirst(r)
  {
    if ts == [] then []
    else
      var rest := SortByDateDesc(ts[1..]);
      InsertByDateAdds(ts[0], rest);
      InsertByDateKeepsOrder(ts[0], rest);
      assert ts == [ts[0]] + ts[1..];
      InsertByDate(ts[0], rest)
  }

  lemma {:induction false} InsertByDateAdds(t: Transaction, sorted: seq<Transaction>)
    ensures multiset(InsertByDate(t, sorted)) == multiset(sorted) + multiset{t}
  {
    if sorted != [] && !LexLe(sorted[0].date, t.date) {
      InsertByDateAdds(t, sorted[1..]);
      assert sorted == [sorted[0]] + sorted[1..];
    }
  }

  ghost predicate LatestFirst(s: seq<Transaction>)
  {
    forall i, j :: 0 <= i < j < |s| ==> LexLe(s[j].date, s[i].date)
  }

  lemma {:induction false} InsertByDateKeepsOrder(t: Transaction, sorted: seq<Transaction>)
    requires LatestFirst(sorted)
    ensures LatestFirst(InsertByDate(t, sorted))
  {
    var r := InsertByDate(t, sorted);
    if sorted == [] || LexLe(sorted[0].date, t.date) {
      forall i, j | 0 <= i < j < |r|
        ensures LexLe(r[j].date, r[i].date)
      {
        if i == 0 && j > 1 {
          LexLeTransitive(r[j].date, sorted[0].date, t.date);
        }
      }
    } else {
      InsertByDateKeepsOrder(t, sorted[1..]);
      LexLeTotal(sorted[0].date, t.date);
      var rest := InsertByDate(t, sorted[1..]);
      InsertByDateAdds(t, sorted[1..]);
      forall j | 0 <= j < |rest|
        ensures LexLe(rest[j].date, sorted[0].date)
      {
        assert rest[j] in multiset(rest);
        if rest[j] != t {
          assert rest[j] in sorted[1..];
        }
      }
    }
  }

  /**
   * An item's current balance: the stored balance of the first record once
   * its records are sorted latest date first, or 0 when it has none.
   */
  function CurrentBalance(ts: seq<Transaction>, itemId: string): (b: int)
    ensures (forall j :: 0 <= j < |ts| ==> ts[j].item.id != itemId) ==> b == 0
    ensures b != 0 ==> exists k :: 0 <= k < |ts| && ts[k].item.id == itemId && ts[k].balance == b
  {
    var sorted := SortByDateDesc(ForItem(ts, itemId));
    if |sorted| > 0 then
      assert sorted[0] in multiset(ForItem(ts, itemId));
      sorted[0].balance
    else 0
  }

  /**
   * Record `k` is the item's latest-dated record, and the first in list
   * order among the records of that date.
   */
  ghost predicate IsLatest(ts: seq<Transaction>, itemId: string, k: int)
  {
    && 0 <= k < |ts|
    && ts[k].item.id == itemId
    && (forall j :: 0 <= j < |ts| && ts[j].item.id == itemId ==> LexLe(ts[j].date, ts[k].date))
    && (forall j :: 0 <= j < k && ts[j].item.id == itemId ==> !LexLe(ts[k].date, ts[j].date))
  }

  /** A reference definition of the latest record: one scan of the list. */
  function LatestFor(ts: seq<Transaction>, itemId: string): (k: Option<nat>)
    ensures k.Some? ==> k.value < |ts| && ts[k.value].item.id == itemId
  {
    if ts == [] then None
    else
      var rest := LatestFor(ts[1..], itemId);
      if ts[0].item.id != itemId then
        (if rest.None? then None else Some(rest.value + 1))
      else if rest.None? || LexLe(ts[rest.value + 1].date, ts[0].date) then Some(0)
      else Some(rest.value + 1)
  }

  lemma {:induction false} LatestForIsLatest(ts: seq<Transaction>, itemId: string)
    ensures LatestFor(ts, itemId).None? <==> forall j :: 0 <= j < |ts| ==> ts[j].item.id != itemId
    ensures LatestFor(ts, itemId).Some? ==> IsLatest(ts, itemId, LatestFor(ts, itemId).value)
  {
    if ts != [] {
      var tail := ts[1..];
      LatestForIsLatest(tail, itemId);
      var rest := LatestFor(tail, itemId);
      var k := LatestFor(ts, itemId);
      assert forall j :: 1 <= j < |ts| ==> ts[j] == tail[j - 1];
      if k.Some? {
        var m := k.value;
        LexLeReflexive(ts[m].date);
        if m == 0 {
          forall j | 0 <= j < |ts| && ts[j].item.id == itemId
            ensures LexLe(ts[j].date, ts[0].date)
          {
            if j > 0 {
              LexLeTransitive(ts[j].date, ts[rest.value + 1].date, ts[0].date);
            }
          }
        } else if ts[0].item.id == itemId {
          LexLeTotal(ts[m].date, ts[0].date);
        }
      }
    }
  }

  lemma {:induction false} SortedHeadIsLatest(ts: seq<Transaction>, itemId: string)
    ensures SortByDateDesc(ForItem(ts, itemId)) == [] <==> LatestFor(ts, itemId).None?
    ensures LatestFor(ts, itemId).Some? ==>
      SortByDateDesc(ForItem(ts, itemId))[0] == ts[LatestFor(ts, itemId).value]
  {
    if ts != [] {
      var tail := ts[1..];
      SortedHeadIsLatest(tail, itemId);
      if ts[0].item.id == itemId {
        var f := ForItem(tail, itemId);
        assert ForItem(ts, itemId) == [ts[0]] + f;
        assert ([ts[0]] + f)[1..] == f;
      }
    }
  }

  /**
   * The current balance is the stored balance of the item's latest record
   * (the first in list order among equal dates).
   */
  lemma CurrentBalanceIsLatest(ts: seq<Transaction>, itemId: string)
    ensures forall k :: IsLatest(ts, itemId, k) ==> CurrentBalance(ts, itemId) == ts[k].balance
  {
    LatestForIsLatest(ts, itemId);
    SortedHeadIsLatest(ts, itemId);
  }

  /**
   * A record put at the front, dated no earlier than the item's other
   * records, becomes the source of the item's current balance.
   */
  lemma CurrentBalanceAfterPrepend(t: Transaction, ts: seq<Transaction>)
    requires forall j :: 0 <= j < |ts| && ts[j].item.id == t.item.id ==> LexLe(ts[j].date, t.date)
    ensures CurrentBalance([t] + ts, t.item.id) == t.balance
  {
    var s := [t] + ts;
    LexLeReflexive(t.date);
    assert forall j :: 1 <= j < |s| ==> s[j] == ts[j - 1];
    assert IsLatest(s, t.item.id, 0);
    CurrentBalanceIsLatest(s, t.item.id);
  }

  /** A record of another item leaves an item's current balance alone. */
  lemma CurrentBalanceOtherItem(t: Transaction, ts: seq<Transaction>, itemId: string)
    requires t.item.id != itemId
    ensures CurrentBalance([t] + ts, itemId) == CurrentBalance(ts, itemId)
  {
    assert ([t] + ts)[1..] == ts;
  }

  // ---------------------------------------------------------------------
  // Sums and the day's statistics

  function SumDeposits(ts: seq<Transaction>): int
  {
    if ts == [] then 0 else ts[0].deposit + SumDeposits(ts[1..])
  }

  function SumWithdrawals(ts: seq<Transaction>): int
  {
    if ts == [] then 0 else ts[0].withdrawal + SumWithdrawals(ts[1..])
  }

  lemma {:induction false} SumsConcat(a: seq<Transaction>, b: seq<Transaction>)
    ensures SumDeposits(a + b) == SumDeposits(a) + SumDeposits(b)
    ensures SumWithdrawals(a + b) == SumWithdrawals(a) + SumWithdrawals(b)
  {
    if a == [] {
      assert a + b == b;
    } else {
      assert (a + b)[1..] == a[1..] + b;
      SumsConcat(a[1..], b);
    }
  }

  datatype DayStats = DayStats(transactionsToday: int, stockInToday: int, stockOutToday: int)

  /** The filter `t => t.date === day`. */
  function DatedOn(day: string): Transaction -> bool
  {
    (t: Transaction) => t.date == day
  }

  function OnDay(ts: seq<Transaction>, day: string): seq<Transaction>
  {
    Filter(ts, DatedOn(day))
  }

  /**
   * The dashboard's figures for `today`: the number of records dated today,
   * and the sums of their stock in and stock out.
   */
  function DailyStats(ts: seq<Transaction>, today: string): (r: DayStats)
    ensures r.transactionsToday == multiset(Dates(ts))[today]
  {
    OnDayCounts(ts, today);
    var d := OnDay(ts, today);
    DayStats(|d|, SumDeposits(d), SumWithdrawals(d))
  }

  function Dates(ts: seq<Transaction>): (r: seq<string>)
    ensures |r| == |ts| && forall i :: 0 <= i < |ts| ==> r[i] == ts[i].date
  {
    seq(|ts|, i requires 0 <= i < |ts| => ts[i].date)
  }

  /**
   * Today's records are as many as the dates equal to `today`; all of them
   * are dated today, and every record dated today is among them.
   */
  lemma {:induction false} OnDayCounts(ts: seq<Transaction>, today: string)
    ensures |OnDay(ts, today)| == multiset(Dates(ts))[today]
    ensures forall i :: 0 <= i < |OnDay(ts, today)| ==> OnDay(ts, today)[i].date == today
    ensures forall i :: 0 <= i < |ts| && ts[i].date == today ==> ts[i] in OnDay(ts, today)
  {
    if ts != [] {
      OnDayCounts(ts[1..], today);
      assert Dates(ts) == [ts[0].date] + Dates(ts[1..]);
    }
  }

  /** The figures of two stretches of the list add up. */
  lemma DailyStatsConcat(a: seq<Transaction>, b: seq<Transaction>, today: string)
    ensures var x, y, z := DailyStats(a, today), DailyStats(b, today), DailyStats(a + b, today);
      z == DayStats(x.transactionsToday + y.transactionsToday,
                    x.stockInToday + y.stockInToday,
                    x.stockOutToday + y.stockOutToday)
  {
    FilterConcat(a, b, DatedOn(today));
    SumsConcat(OnDay(a, today), OnDay(b, today));
  }

  /** A record put at the front counts in the day's figures iff it is dated that day. */
  lemma DailyStatsAfterPrepend(t: Transaction, ts: seq<Transaction>, today: string)
    ensures var before, after := DailyStats(ts, today), DailyStats([t] + ts, today);
      after == if t.date == today
               then DayStats(before.transactionsToday + 1,
                             before.stockInToday + t.deposit,
                             before.stockOutToday + t.withdrawal)
               else before
  {
    DailyStatsConcat([t], ts, today);
  }
}
