/**
 * The inventory screen's state: the item catalog and the transaction list,
 * newest first, which only the new-transaction form changes.
 */
module Store {
  import opened Order
  import opened Ledger
  import opened Reports

  /** The requesting units the stock-out field offers. */
  const Units: seq<string> := ["ADMIN", "ICT", "FINANCE", "OPERATIONS", "PUBLIC RELATION", "CLEANERS", "DRIVERS"]

  datatype SubmitError = NoItemSelected | NoQuantity | NoRequestingUnit

  datatype SubmitOutcome = Added(record: Transaction) | Refused(error: SubmitError)

  /**
   * The new-transaction form's checks, in the order the form runs them;
   * `None` when the form may be submitted.
   */
  function CheckForm(itemId: string, stockIn: int, stockOut: int, requestingUnit: string): (r: Option<SubmitError>)
    ensures r.None? <==> itemId != "" && (stockIn > 0 || stockOut > 0) && (stockOut > 0 ==> requestingUnit != "")
    ensures r == Some(NoItemSelected) <==> itemId == ""
    ensures r == Some(NoQuantity) <==> itemId != "" && stockIn <= 0 && stockOut <= 0
    ensures r == Some(NoRequestingUnit) <==> itemId != "" && stockOut > 0 && requestingUnit == ""
  {
    if itemId == "" then Some(NoItemSelected)
    else if stockIn <= 0 && stockOut <= 0 then Some(NoQuantity)
    else if stockOut > 0 && requestingUnit == "" then Some(NoRequestingUnit)
    else None
  }

  /**
   * One positive side is enough: whatever the other quantity, negative
   * included, a form with an item passes the checks when it takes stock out
   * for a named unit, or brings stock in and takes none out.
   */
  lemma OneSidePasses(itemId: string, stockIn: int, stockOut: int, requestingUnit: string)
    ensures itemId != "" && stockOut > 0 && requestingUnit != "" ==>
      CheckForm(itemId, stockIn, stockOut, requestingUnit) == None
    ensures itemId != "" && stockIn > 0 && stockOut <= 0 ==>
      CheckForm(itemId, stockIn, stockOut, requestingUnit) == None
  {
  }

  /** `items.find(item => item._id === id)`: the first item with the id. */
  function FindItem(items: seq<Item>, id: string): (r: Option<Item>)
    ensures r.Some? ==> r.value in items && r.value.id == id
    ensures r.Some? ==> exists k :: 0 <= k < |items| && items[k] == r.value && forall j :: 0 <= j < k ==> items[j].id != id
    ensures r.None? <==> forall i :: 0 <= i < |items| ==> items[i].id != id
  {
    if items == [] then None
    else if items[0].id == id then Some(items[0])
    else
      var r := FindItem(items[1..], id);
      assert forall j :: 1 <= j < |items| ==> items[j] == items[1..][j - 1];
      if r.Some? then
        var k :| 0 <= k < |items[1..]| && items[1..][k] == r.value && forall j :: 0 <= j < k ==> items[1..][j].id != id;
        assert items[k + 1] == r.value;
        r
      else r
  }

  /**
   * What every record of the list satisfies: its item is in the catalog,
   * and it names a requesting unit, one of the seven, exactly when it takes
   * stock out.
   */
  predicate WellFormed(t: Transaction, catalog: seq<Item>)
  {
    && t.item in catalog
    && (t.unit.Some? <==> t.withdrawal > 0)
    && (t.unit.Some? ==> t.unit.value in Units)
  }

  /** No item after item `i` and before item `upto` carries the name of item `i`. */
  predicate LastNamed(items: seq<Item>, i: int, upto: int)
    requires 0 <= i < |items| && upto <= |items|
  {
    forall l :: i < l < upto ==> items[l].name != items[i].name
  }

  datatype StockLine = StockLine(totalQuantity: int, status: Status)

  /** An item's line of the inventory summary. */
  function LineOf(ts: seq<Transaction>, item: Item): (line: StockLine)
    ensures line.status == Classify(line.totalQuantity)
    ensures (forall j :: 0 <= j < |ts| ==> ts[j].item.id != item.id) ==> line == StockLine(0, Unavailable)
    ensures forall k :: IsLatest(ts, item.id, k) ==> line == StockLine(ts[k].balance, Classify(ts[k].balance))
  {
    CurrentBalanceIsLatest(ts, item.id);
    var currentBalance := CurrentBalance(ts, item.id);
    StockLine(currentBalance, Classify(currentBalance))
  }

  /** A well-formed record put in front of well-formed records keeps them all well formed. */
  lemma PrependWellFormed(t: Transaction, before: seq<Transaction>, catalog: seq<Item>)
    requires WellFormed(t, catalog)
    requires forall i :: 0 <= i < |before| ==> WellFormed(before[i], catalog)
    ensures forall i :: 0 <= i < |[t] + before| ==> WellFormed(([t] + before)[i], catalog)
  {
    assert forall i :: 1 <= i < |[t] + before| ==> ([t] + before)[i] == before[i - 1];
  }

  class InventoryStore {
    const items: seq<Item>
    var transactions: seq<Transaction>

    ghost predicate Valid()
      reads this
    {
      forall i :: 0 <= i < |transactions| ==> WellFormed(transactions[i], items)
    }

    constructor (catalog: seq<Item>, initial: seq<Transaction>)
      requires forall i :: 0 <= i < |initial| ==> WellFormed(initial[i], catalog)
      ensures Valid()
      ensures items == catalog && transactions == initial
    {
      items := catalog;
      transactions := initial;
    }

    /**
     * Submits the new-transaction form. A refused form leaves the list as it
     * was; an accepted one puts exactly one new record at the front.
     */
    method Submit(itemId: string, stockIn: int, stockOut: int, requestingUnit: string,
                  today: string, stamp: string, created: string, updated: string)
      returns (outcome: SubmitOutcome)
      requires Valid()
      requires itemId == "" || FindItem(items, itemId).Some?
      requires requestingUnit == "" || requestingUnit in Units
      modifies this
      ensures Valid()
      ensures outcome.Refused? <==> CheckForm(itemId, stockIn, stockOut, requestingUnit).Some?
      ensures outcome.Refused? ==>
        && outcome.error == CheckForm(itemId, stockIn, stockOut, requestingUnit).value
        && transactions == old(transactions)
      ensures outcome.Added? ==>
        var t := outcome.record;
        && transactions == [t] + old(transactions)
        && t.item == FindItem(items, itemId).value
        && t.id == stamp && t.date == today && t.createdAt == created && t.updatedAt == updated
        && t.deposit == stockIn && t.withdrawal == stockOut
        && t.balance == CurrentBalance(old(transactions), itemId) + stockIn - stockOut
        && t.unit == (if stockOut > 0 then Some(requestingUnit) else None)
    {
      if itemId == "" {
        return Refused(NoItemSelected);
      }
      if stockIn <= 0 && stockOut <= 0 {
        return Refused(NoQuantity);
      }
      if stockOut > 0 && requestingUnit == "" {
        return Refused(NoRequestingUnit);
      }
      var before := transactions;
      var selected := FindItem(items, itemId).value;
      var currentBalance := CurrentBalance(before, itemId);
      var newBalance := currentBalance + stockIn - stockOut;
      var record := Transaction(stamp, today, selected, stockIn, stockOut, newBalance,
                                if stockOut > 0 then Some(requestingUnit) else None, created, updated);
      PrependWellFormed(record, before, items);
      transactions := [record] + before;
      outcome := Added(record);
    }

    /**
     * The inventory summary: for each catalog item, keyed by its name, its
     * current balance and the status of that balance. When two items share
     * a name, the later one in the catalog is the one shown.
     */
    method InventorySummary() returns (summary: map<string, StockLine>)
      ensures forall n :: n in summary <==> exists i :: 0 <= i < |items| && items[i].name == n
      ensures forall i :: 0 <= i < |items| && LastNamed(items, i, |items|) ==>
        summary[items[i].name] == LineOf(transactions, items[i])
      ensures forall n :: n in summary ==> summary[n].status == Classify(summary[n].totalQuantity)
    {
      var catalog, ts := items, transactions;
      summary := map[];
      for i := 0 to |catalog|
        invariant forall n :: n in summary <==> exists j :: 0 <= j < i && catalog[j].name == n
        invariant forall j :: 0 <= j < i && LastNamed(catalog, j, i) ==> summary[catalog[j].name] == LineOf(ts, catalog[j])
        invariant forall n :: n in summary ==> summary[n].status == Classify(summary[n].totalQuantity)
      {
        var item := catalog[i];
        var currentBalance := CurrentBalance(ts, item.id);
        ghost var prior := summary;
        summary := summary[item.name := StockLine(currentBalance, Classify(currentBalance))];
        forall n
          ensures n in summary <==> exists j :: 0 <= j < i + 1 && catalog[j].name == n
        {
          assert n in summary <==> n in prior || n == catalog[i].name;
        }
        forall j | 0 <= j < i + 1 && LastNamed(catalog, j, i + 1)
          ensures summary[catalog[j].name] == LineOf(ts, catalog[j])
        {
          if j < i {
            assert LastNamed(catalog, j, i);
            assert catalog[i].name != catalog[j].name;
          }
        }
      }
    }

    /**
     * The report over the records of the selected item (or all items) dated
     * within the range: totals, their difference, the record count, the
     * per-item-name breakdown and the first ten covered records.
     */
    method GenerateReport(selectedItem: string, startDate: string, endDate: string) returns (report: Report)
      ensures var fs := ReportFilter(transactions, selectedItem, startDate, endDate);
        && report.summary.totalDeposits == SumDeposits(fs)
        && report.summary.totalWithdrawals == SumWithdrawals(fs)
        && report.summary.finalBalance == report.summary.totalDeposits - report.summary.totalWithdrawals
        && report.summary.transactionCount == |fs|
        && report.itemSummary == Breakdown(fs)
        && (forall n :: n in report.itemSummary <==> exists i :: 0 <= i < |fs| && fs[i].item.name == n)
        && (forall n :: n in Names(fs) ==> n in report.itemSummary)
        && SumOver(report.itemSummary, Names(fs)) ==
             ItemTotals(report.summary.totalDeposits, report.summary.totalWithdrawals, report.summary.transactionCount)
        && |report.transactions| == (if |fs| < ListingLimit then |fs| else ListingLimit)
        && report.transactions == fs[..|report.transactions|]
    {
      var ts := transactions;
      var filtered := ReportFilter(ts, selectedItem, startDate, endDate);
      var totalDeposits := SumDeposits(filtered);
      var totalWithdrawals := SumWithdrawals(filtered);
      var finalBalance := totalDeposits - totalWithdrawals;
      var itemSummary := TallyByName(filtered);
      var listing := if |filtered| < ListingLimit then filtered else filtered[..ListingLimit];
      report := Report(listing, Summary(totalDeposits, totalWithdrawals, finalBalance, |filtered|), itemSummary);
      BreakdownFacts(filtered);
    }
  }

  /**
   * The report's per-item-name breakdown, built the way the report builds
   * it: a zero entry for a name seen first, then the record added to it.
   */
  method TallyByName(filtered: seq<Transaction>) returns (itemSummary: map<string, ItemTotals>)
    ensures itemSummary == Breakdown(filtered)
  {
    itemSummary := map[];
    for i := 0 to |filtered|
      invariant itemSummary == Breakdown(filtered[..i])
    {
      var t := filtered[i];
      assert filtered[..i + 1] == filtered[..i] + [t];
      ghost var expected := Count(itemSummary, t);
      CountInSteps(itemSummary, t);
      ghost var zeroed := if t.item.name in itemSummary then itemSummary else itemSummary[t.item.name := ItemTotals(0, 0, 0)];
      var itemName := t.item.name;
      if itemName !in itemSummary {
        itemSummary := itemSummary[itemName := ItemTotals(0, 0, 0)];
      }
      assert itemSummary == zeroed;
      itemSummary := itemSummary[itemName := ItemTotals(itemSummary[itemName].deposits + t.deposit,
                                                        itemSummary[itemName].withdrawals + t.withdrawal,
                                                        itemSummary[itemName].transactions + 1)];
      assert itemSummary == expected;
    }
    assert filtered[..|filtered|] == filtered;
  }
}
