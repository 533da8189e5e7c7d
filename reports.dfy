/**
 * The filters of the records view, the report and the item search, and the
 * report's figures: totals and the per-item-name breakdown.
 */
module Reports {
  import opened Order
  import opened Sequences
  import opened Text
  import opened Ledger

  // ---------------------------------------------------------------------
  // Filters

  /** The item selector's value that stands for every item. */
  const AllItems: string := "all"

  /** How many filtered records the report lists. */
  const ListingLimit: nat := 10

  predicate MatchesItem(t: Transaction, selectedItem: string)
  {
    selectedItem == AllItems || t.item.id == selectedItem
  }

  /** The inclusive date range; an empty bound is no bound. */
  predicate InDateRange(date: string, startDate: string, endDate: string)
  {
    (startDate == "" || LexLe(startDate, date)) && (endDate == "" || LexLe(date, endDate))
  }

  /** Case-insensitive substring search on a name. */
  predicate NameMatches(name: string, search: string)
  {
    Includes(Lower(name), Lower(search))
  }

  function ReportMatch(selectedItem: string, startDate: string, endDate: string): Transaction -> bool
  {
    (t: Transaction) => MatchesItem(t, selectedItem) && InDateRange(t.date, startDate, endDate)
  }

  function RecordsMatch(search: string, selectedItem: string, startDate: string, endDate: string): Transaction -> bool
  {
    (t: Transaction) =>
      NameMatches(t.item.name, search) && MatchesItem(t, selectedItem) && InDateRange(t.date, startDate, endDate)
  }

  function ItemMatch(search: string): Item -> bool
  {
    (item: Item) => NameMatches(item.name, search)
  }

  /**
   * The records the report covers: each is a record of the list whose item
   * is the selected one and whose date lies in the range.
   */
  function ReportFilter(ts: seq<Transaction>, selectedItem: string, startDate: string, endDate: string): (r: seq<Transaction>)
    ensures |r| <= |ts|
    ensures forall k :: 0 <= k < |r| ==>
      r[k] in ts && MatchesItem(r[k], selectedItem) && InDateRange(r[k].date, startDate, endDate)
  {
    Filter(ts, ReportMatch(selectedItem, startDate, endDate))
  }

  /**
   * The records the records view lists: each is a record of the list whose
   * item name contains the search term, ignoring case, and which meets the
   * report's item and date conditions.
   */
  function RecordsFilter(ts: seq<Transaction>, search: string, selectedItem: string, startDate: string, endDate: string): (r: seq<Transaction>)
    ensures |r| <= |ts|
    ensures forall k :: 0 <= k < |r| ==>
      && r[k] in ts
      && NameMatches(r[k].item.name, search)
      && MatchesItem(r[k], selectedItem)
      && InDateRange(r[k].date, startDate, endDate)
  {
    Filter(ts, RecordsMatch(search, selectedItem, startDate, endDate))
  }

  /**
   * The items the new-transaction form offers for a search term: catalog
   * items whose name contains the term, ignoring case.
   */
  function ItemSearch(items: seq<Item>, search: string): (r: seq<Item>)
    ensures |r| <= |items|
    ensures forall k :: 0 <= k < |r| ==> r[k] in items && NameMatches(r[k].name, search)
  {
    Filter(items, ItemMatch(search))
  }

  /**
   * The report covers a record iff its item matches the selection and its
   * date lies in the range, and keeps the covered records in list order.
   */
  lemma ReportFilterSelects(ts: seq<Transaction>, selectedItem: string, startDate: string, endDate: string)
    ensures var p := ReportMatch(selectedItem, startDate, endDate);
      IsSelection(ReportFilter(ts, selectedItem, startDate, endDate), ts, Positions(ts, p), p)
    ensures forall i :: 0 <= i < |ts| ==>
      (i in Positions(ts, ReportMatch(selectedItem, startDate, endDate)) <==>
       MatchesItem(ts[i], selectedItem) && InDateRange(ts[i].date, startDate, endDate))
  {
    FilterPositions(ts, ReportMatch(selectedItem, startDate, endDate));
  }

  /**
   * The records view shows a record iff its item name contains the search
   * term, ignoring case, and the report's conditions hold; order is kept.
   */
  lemma RecordsFilterSelects(ts: seq<Transaction>, search: string, selectedItem: string, startDate: string, endDate: string)
    ensures var p := RecordsMatch(search, selectedItem, startDate, endDate);
      IsSelection(RecordsFilter(ts, search, selectedItem, startDate, endDate), ts, Positions(ts, p), p)
    ensures forall i :: 0 <= i < |ts| ==>
      (i in Positions(ts, RecordsMatch(search, selectedItem, startDate, endDate)) <==>
       && (exists k :: OccursAt(Lower(ts[i].item.name), Lower(search), k))
       && MatchesItem(ts[i], selectedItem)
       && InDateRange(ts[i].date, startDate, endDate))
  {
    var p := RecordsMatch(search, selectedItem, startDate, endDate);
    FilterPositions(ts, p);
  }

  /** The item search keeps, in catalog order, the items whose name contains the term. */
  lemma ItemSearchSelects(items: seq<Item>, search: string)
    ensures IsSelection(ItemSearch(items, search), items, Positions(items, ItemMatch(search)), ItemMatch(search))
    ensures forall i :: 0 <= i < |items| ==>
      (i in Positions(items, ItemMatch(search)) <==> exists k :: OccursAt(Lower(items[i].name), Lower(search), k))
  {
    FilterPositions(items, ItemMatch(search));
  }

  /** With an empty search term the records view shows what the report covers. */
  lemma EmptySearchIsReportFilter(ts: seq<Transaction>, selectedItem: string, startDate: string, endDate: string)
    ensures RecordsFilter(ts, "", selectedItem, startDate, endDate) == ReportFilter(ts, selectedItem, startDate, endDate)
  {
    forall i | 0 <= i < |ts|
      ensures RecordsMatch("", selectedItem, startDate, endDate)(ts[i]) == ReportMatch(selectedItem, startDate, endDate)(ts[i])
    {
      EmptyIsIncluded(Lower(ts[i].item.name));
    }
    FilterCongruent(ts, RecordsMatch("", selectedItem, startDate, endDate), ReportMatch(selectedItem, startDate, endDate));
  }

  /** With every item selected and no date bounds the report covers the whole list. */
  lemma UnboundedReportCoversAll(ts: seq<Transaction>)
    ensures ReportFilter(ts, AllItems, "", "") == ts
  {
    FilterKeepsAll(ts, ReportMatch(AllItems, "", ""));
  }

  // ---------------------------------------------------------------------
  // Report figures

  datatype Summary = Summary(totalDeposits: int, totalWithdrawals: int, finalBalance: int, transactionCount: int)

  datatype ItemTotals = ItemTotals(deposits: int, withdrawals: int, transactions: int)

  datatype Report = Report(transactions: seq<Transaction>, summary: Summary, itemSummary: map<string, ItemTotals>)

  function Plus(a: ItemTotals, b: ItemTotals): ItemTotals
  {
    ItemTotals(a.deposits + b.deposits, a.withdrawals + b.withdrawals, a.transactions + b.transactions)
  }

  /** Deposits, withdrawals and number of the records in `ts`. */
  function TotalsOf(ts: seq<Transaction>): ItemTotals
  {
    ItemTotals(SumDeposits(ts), SumWithdrawals(ts), |ts|)
  }

  lemma TotalsOfOne(t: Transaction)
    ensures TotalsOf([t]) == ItemTotals(t.deposit, t.withdrawal, 1)
  {
    assert [t][1..] == [];
    assert SumDeposits([t]) == t.deposit + SumDeposits([]);
    assert SumWithdrawals([t]) == t.withdrawal + SumWithdrawals([]);
  }

  /** One more record counted under its item's name. */
  function Count(m: map<string, ItemTotals>, t: Transaction): map<string, ItemTotals>
  {
    var before := if t.item.name in m then m[t.item.name] else ItemTotals(0, 0, 0);
    m[t.item.name := Plus(before, TotalsOf([t]))]
  }

  /**
   * `Count` done the way the report does it: a zero entry for a name not seen
   * yet, then the record's quantities added to the name's entry.
   */
  lemma CountInSteps(m: map<string, ItemTotals>, t: Transaction)
    ensures var z := if t.item.name in m then m else m[t.item.name := ItemTotals(0, 0, 0)];
      Count(m, t) == z[t.item.name := ItemTotals(z[t.item.name].deposits + t.deposit,
                                                 z[t.item.name].withdrawals + t.withdrawal,
                                                 z[t.item.name].transactions + 1)]
  {
    TotalsOfOne(t);
  }

  /**
   * The per-item-name breakdown, records taken in list order; every record's
   * item name is a key (`BreakdownKeys` gives the converse).
   */
  function Breakdown(fs: seq<Transaction>): (m: map<string, ItemTotals>)
    ensures forall i :: 0 <= i < |fs| ==> fs[i].item.name in m
  {
    if fs == [] then map[]
    else
      var init, last := fs[..|fs| - 1], fs[|fs| - 1];
      assert forall i :: 0 <= i < |init| ==> init[i] == fs[i];
      Count(Breakdown(init), last)
  }

  /** The records whose item name is `name`. */
  function NameIs(name: string): Transaction -> bool
  {
    (t: Transaction) => t.item.name == name
  }

  /** Totals that add up field by field are the sum of the two. */
  lemma PlusFieldwise(x: ItemTotals, y: ItemTotals, z: ItemTotals)
    requires z.deposits == x.deposits + y.deposits
    requires z.withdrawals == x.withdrawals + y.withdrawals
    requires z.transactions == x.transactions + y.transactions
    ensures z == Plus(x, y)
  {
  }

  lemma TotalsConcat(a: seq<Transaction>, b: seq<Transaction>)
    ensures TotalsOf(a + b) == Plus(TotalsOf(a), TotalsOf(b))
  {
    SumsConcat(a, b);
    PlusFieldwise(TotalsOf(a), TotalsOf(b), TotalsOf(a + b));
  }

  /** The breakdown has a key for exactly the names of the records. */
  lemma {:induction false} BreakdownKeys(fs: seq<Transaction>, name: string)
    ensures name in Breakdown(fs) <==> exists i :: 0 <= i < |fs| && fs[i].item.name == name
  {
    if fs != [] {
      var init := fs[..|fs| - 1];
      BreakdownKeys(init, name);
      if exists i :: 0 <= i < |init| && init[i].item.name == name {
        var i :| 0 <= i < |init| && init[i].item.name == name;
        assert fs[i] == init[i];
      }
    }
  }

  /**
   * Each key of the breakdown holds the deposits, withdrawals and count of
   * exactly the records with that item name; a name without a key has no
   * records.
   */
  lemma {:induction false} BreakdownPerName(fs: seq<Transaction>, name: string)
    ensures name in Breakdown(fs) ==> Breakdown(fs)[name] == TotalsOf(Filter(fs, NameIs(name)))
    ensures name !in Breakdown(fs) ==> Filter(fs, NameIs(name)) == []
  {
    if fs != [] {
      var init, last := fs[..|fs| - 1], fs[|fs| - 1];
      BreakdownPerName(init, name);
      assert fs == init + [last];
      var named := Filter(init, NameIs(name));
      FilterConcat(init, [last], NameIs(name));
      FilterSingleton(last, NameIs(name));
      if last.item.name == name {
        assert Filter(fs, NameIs(name)) == named + [last];
        TotalsConcat(named, [last]);
        var b := Breakdown(init);
        var before := if name in b then b[name] else ItemTotals(0, 0, 0);
        assert before == TotalsOf(named);
        assert Breakdown(fs)[name] == Plus(before, TotalsOf([last]));
      } else {
        assert Filter(fs, NameIs(name)) == named + [];
        assert named + [] == named;
      }
    }
  }

  /** The distinct item names of `fs`, in the order they first appear. */
  function Names(fs: seq<Transaction>): seq<string>
  {
    if fs == [] then []
    else
      var init, name := Names(fs[..|fs| - 1]), fs[|fs| - 1].item.name;
      if name in init then init else init + [name]
  }

  ghost predicate Distinct(ks: seq<string>)
  {
    forall i, j :: 0 <= i < j < |ks| ==> ks[i] != ks[j]
  }

  lemma {:induction false} NamesAreKeys(fs: seq<Transaction>)
    ensures Distinct(Names(fs))
    ensures forall k :: k in Names(fs) <==> k in Breakdown(fs)
  {
    if fs != [] {
      NamesAreKeys(fs[..|fs| - 1]);
    }
  }

  /** The sum of the entries of `m` under the keys `ks`. */
  function SumOver(m: map<string, ItemTotals>, ks: seq<string>): ItemTotals
    requires forall k :: k in ks ==> k in m
  {
    if ks == [] then ItemTotals(0, 0, 0)
    else Plus(SumOver(m, ks[..|ks| - 1]), m[ks[|ks| - 1]])
  }

  lemma {:induction false} SumOverAgree(m: map<string, ItemTotals>, n: map<string, ItemTotals>, ks: seq<string>)
    requires forall k :: k in ks ==> k in m && k in n && m[k] == n[k]
    ensures SumOver(m, ks) == SumOver(n, ks)
  {
    if ks != [] {
      SumOverAgree(m, n, ks[..|ks| - 1]);
    }
  }

  /** Adding `d` to one key adds `d` to the sum over distinct keys holding it. */
  lemma {:induction false} SumOverAdd(m: map<string, ItemTotals>, ks: seq<string>, key: string, d: ItemTotals)
    requires forall k :: k in ks ==> k in m
    requires Distinct(ks) && key in ks
    ensures SumOver(m[key := Plus(m[key], d)], ks) == Plus(SumOver(m, ks), d)
  {
    var m' := m[key := Plus(m[key], d)];
    var init := ks[..|ks| - 1];
    if ks[|ks| - 1] == key {
      assert key !in init;
      SumOverAgree(m, m', init);
    } else {
      assert key in init;
      SumOverAdd(m, init, key, d);
    }
  }

  /**
   * Summed over all item names, the breakdown gives the report's total
   * deposits, total withdrawals and record count.
   */
  lemma {:induction false} BreakdownAddsUp(fs: seq<Transaction>)
    ensures forall k :: k in Names(fs) ==> k in Breakdown(fs)
    ensures SumOver(Breakdown(fs), Names(fs)) == TotalsOf(fs)
  {
    NamesAreKeys(fs);
    if fs != [] {
      var init, last := fs[..|fs| - 1], fs[|fs| - 1];
      var m, ks := Breakdown(init), Names(init);
      BreakdownAddsUp(init);
      NamesAreKeys(init);
      assert fs == init + [last];
      TotalsConcat(init, [last]);
      var name := last.item.name;
      if name in ks {
        SumOverAdd(m, ks, name, TotalsOf([last]));
      } else {
        var m' := Count(m, last);
        SumOverAgree(m, m', ks);
        assert (ks + [name])[..|ks|] == ks;
      }
    }
  }

  /**
   * What the report states about its breakdown: a key for exactly the names
   * of the records, and the entries summed over the names give the totals.
   */
  lemma BreakdownFacts(fs: seq<Transaction>)
    ensures forall n :: n in Breakdown(fs) <==> exists i :: 0 <= i < |fs| && fs[i].item.name == n
    ensures forall n :: n in Names(fs) ==> n in Breakdown(fs)
    ensures SumOver(Breakdown(fs), Names(fs)) == ItemTotals(SumDeposits(fs), SumWithdrawals(fs), |fs|)
  {
    forall n
      ensures n in Breakdown(fs) <==> exists i :: 0 <= i < |fs| && fs[i].item.name == n
    {
      BreakdownKeys(fs, n);
    }
    BreakdownAddsUp(fs);
  }
}
