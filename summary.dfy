/** The per-category summary (`extractRequiredData`, second half): the
    extracted records are grouped by their category text, in the order the
    categories first appear, and each group's amounts are added up. */
module Summary {
  import opened Cells
  import opened Units
  import opened Extract

  /** `{ usage_type, total, display_total }`. */
  datatype CategorySummary = CategorySummary(category: string, total: real, displayTotal: string)

  /** The property name a record is grouped under: `String(row.usage_type)`. */
  function Key(lib: Library, r: UsageRecord): string {
    Display(lib, r.category)
  }

  /** The keys of the grouping object in insertion order, i.e. in order of first appearance. */
  function FirstSeen(lib: Library, rows: seq<UsageRecord>): seq<string> {
    if |rows| == 0 then []
    else
      var keys := FirstSeen(lib, rows[..|rows| - 1]);
      var k := Key(lib, rows[|rows| - 1]);
      if k in keys then keys else keys + [k]
  }

  /** The sum of the amounts of the records grouped under `k`. */
  function CategoryTotal(lib: Library, rows: seq<UsageRecord>, k: string): real {
    if |rows| == 0 then 0.0
    else
      CategoryTotal(lib, rows[..|rows| - 1], k)
        + (if Key(lib, rows[|rows| - 1]) == k then rows[|rows| - 1].rawAmount else 0.0)
  }

  function SumAmounts(rows: seq<UsageRecord>): real {
    if |rows| == 0 then 0.0 else SumAmounts(rows[..|rows| - 1]) + rows[|rows| - 1].rawAmount
  }

  /** One summary entry: the total is converted with the category name as the service type. */
  function Summarize(lib: Library, k: string, total: real): CategorySummary {
    CategorySummary(k, total, ConvertUnits(lib, Number(total), Text(k)).display)
  }

  /** What `Object.keys(groupedByType).map(...)` yields. */
  function ExpectedSummaries(lib: Library, rows: seq<UsageRecord>): seq<CategorySummary> {
    var keys := FirstSeen(lib, rows);
    seq(|keys|, j requires 0 <= j < |keys| => Summarize(lib, keys[j], CategoryTotal(lib, rows, keys[j])))
  }

  predicate Distinct(keys: seq<string>) {
    forall i, j :: 0 <= i < j < |keys| ==> keys[i] != keys[j]
  }

  /** The grouping `reduce` followed by the `map` over the object's keys. */
  method GroupByCategory(lib: Library, rows: seq<UsageRecord>) returns (summaries: seq<CategorySummary>)
    ensures summaries == ExpectedSummaries(lib, rows)
  {
    var totals: map<string, real> := map[];
    var keys: seq<string> := [];
    var i := 0;
    while i < |rows|
      invariant 0 <= i <= |rows|
      invariant keys == FirstSeen(lib, rows[..i])
      invariant forall k :: k in totals <==> k in keys
      invariant forall k :: k in totals ==> totals[k] == CategoryTotal(lib, rows[..i], k)
    {
      assert rows[..i + 1][..i] == rows[..i];
      var k := Key(lib, rows[i]);
      if k !in totals {
        FirstSeenCovers(lib, rows[..i], k);
        TotalAbsent(lib, rows[..i], k);
        totals := totals[k := 0.0];
        keys := keys + [k];
      }
      totals := totals[k := totals[k] + rows[i].rawAmount];
      i := i + 1;
    }
    assert rows[..i] == rows;
    summaries := seq(|keys|, j requires 0 <= j < |keys| => Summarize(lib, keys[j], totals[keys[j]]));
  }

  /** Both halves of `extractRequiredData`: the kept records and their per-category summary. */
  method ExtractRequiredData(lib: Library, grid: seq<seq<Cell>>, variant: Variant)
    returns (rows: seq<UsageRecord>, summaries: seq<CategorySummary>)
    ensures rows == ExtractRows(lib, grid, variant)
    ensures summaries == ExpectedSummaries(lib, rows)
    ensures |grid| <= 1 ==> rows == [] && summaries == []
  {
    rows := ExtractRows(lib, grid, variant);
    summaries := GroupByCategory(lib, rows);
  }

  /** A category is listed exactly when some record carries it. */
  lemma {:induction false} FirstSeenCovers(lib: Library, rows: seq<UsageRecord>, k: string)
    ensures k in FirstSeen(lib, rows) <==> exists i :: 0 <= i < |rows| && Key(lib, rows[i]) == k
    decreases |rows|
  {
    if |rows| > 0 {
      var init := rows[..|rows| - 1];
      FirstSeenCovers(lib, init, k);
      if exists i :: 0 <= i < |init| && Key(lib, init[i]) == k {
        var i :| 0 <= i < |init| && Key(lib, init[i]) == k;
        assert rows[i] == init[i];
      }
      if exists i :: 0 <= i < |rows| && Key(lib, rows[i]) == k {
        var i :| 0 <= i < |rows| && Key(lib, rows[i]) == k;
        if i < |init| {
          assert init[i] == rows[i];
        }
      }
    }
  }

  /** No category is listed twice. */
  lemma {:induction false} FirstSeenDistinct(lib: Library, rows: seq<UsageRecord>)
    ensures Distinct(FirstSeen(lib, rows))
    decreases |rows|
  {
    if |rows| > 0 {
      FirstSeenDistinct(lib, rows[..|rows| - 1]);
    }
  }

  /** The categories of a prefix of the records come first, in the same
      order: a category is listed before every category that first appears later. */
  lemma {:induction false} FirstSeenPrefix(lib: Library, rows: seq<UsageRecord>, n: nat)
    requires n <= |rows|
    ensures var early := FirstSeen(lib, rows[..n]);
      |early| <= |FirstSeen(lib, rows)| && FirstSeen(lib, rows)[..|early|] == early
    decreases |rows| - n
  {
    if n < |rows| {
      FirstSeenPrefix(lib, rows, n + 1);
      assert rows[..n + 1][..n] == rows[..n];
    } else {
      assert rows[..n] == rows;
    }
  }

  /** A category no record carries totals 0. */
  lemma {:induction false} TotalAbsent(lib: Library, rows: seq<UsageRecord>, k: string)
    requires forall i :: 0 <= i < |rows| ==> Key(lib, rows[i]) != k
    ensures CategoryTotal(lib, rows, k) == 0.0
    decreases |rows|
  {
    if |rows| > 0 {
      var init := rows[..|rows| - 1];
      assert forall i :: 0 <= i < |init| ==> init[i] == rows[i];
      TotalAbsent(lib, init, k);
    }
  }

  /** Every listed category totals more than 0 when every record's amount is positive. */
  lemma {:induction false} TotalPositive(lib: Library, rows: seq<UsageRecord>, k: string)
    requires forall i :: 0 <= i < |rows| ==> rows[i].rawAmount > 0.0
    requires k in FirstSeen(lib, rows)
    ensures CategoryTotal(lib, rows, k) > 0.0
    decreases |rows|
  {
    var init := rows[..|rows| - 1];
    assert forall i :: 0 <= i < |init| ==> init[i] == rows[i];
    if k in FirstSeen(lib, init) {
      TotalPositive(lib, init, k);
    } else {
      NonNegative(lib, init, k);
    }
  }

  lemma {:induction false} NonNegative(lib: Library, rows: seq<UsageRecord>, k: string)
    requires forall i :: 0 <= i < |rows| ==> rows[i].rawAmount > 0.0
    ensures CategoryTotal(lib, rows, k) >= 0.0
    decreases |rows|
  {
    if |rows| > 0 {
      var init := rows[..|rows| - 1];
      assert forall i :: 0 <= i < |init| ==> init[i] == rows[i];
      NonNegative(lib, init, k);
    }
  }

  /** The sum of the totals of `keys`. */
  function SumTotals(lib: Library, rows: seq<UsageRecord>, keys: seq<string>): real {
    if |keys| == 0 then 0.0
    else SumTotals(lib, rows, keys[..|keys| - 1]) + CategoryTotal(lib, rows, keys[|keys| - 1])
  }

  /** Adding one record to the rows adds its amount to the sum over any list
      of distinct keys that contains its category, and nothing otherwise. */
  lemma {:induction false} SumTotalsStep(lib: Library, rows: seq<UsageRecord>, r: UsageRecord, keys: seq<string>)
    requires Distinct(keys)
    ensures SumTotals(lib, rows + [r], keys)
      == SumTotals(lib, rows, keys) + (if Key(lib, r) in keys then r.rawAmount else 0.0)
    decreases |keys|
  {
    var all := rows + [r];
    assert all[..|all| - 1] == rows;
    if |keys| > 0 {
      SumTotalsStep(lib, rows, r, keys[..|keys| - 1]);
      assert keys == keys[..|keys| - 1] + [keys[|keys| - 1]];
    }
  }

  /** The category totals partition the grand total: nothing is lost or counted twice. */
  lemma {:induction false} TotalsPartition(lib: Library, rows: seq<UsageRecord>)
    ensures SumTotals(lib, rows, FirstSeen(lib, rows)) == SumAmounts(rows)
    decreases |rows|
  {
    if |rows| > 0 {
      var init := rows[..|rows| - 1];
      var r := rows[|rows| - 1];
      var keys := FirstSeen(lib, init);
      assert rows == init + [r];
      TotalsPartition(lib, init);
      FirstSeenDistinct(lib, init);
      SumTotalsStep(lib, init, r, keys);
      if Key(lib, r) !in keys {
        var k := Key(lib, r);
        FirstSeenCovers(lib, init, k);
        TotalAbsent(lib, init, k);
        assert (keys + [k])[..|keys|] == keys;
      }
    }
  }

  /** The summary lists each category once, with a total that is positive
      and that is the sum of that category's amounts; the totals add up to
      the sum of all extracted amounts. */
  lemma SummaryFacts(lib: Library, grid: seq<seq<Cell>>, variant: Variant)
    ensures var rows := ExtractRows(lib, grid, variant);
      var s := ExpectedSummaries(lib, rows);
      && (forall i, j :: 0 <= i < j < |s| ==> s[i].category != s[j].category)
      && (forall i :: 0 <= i < |s| ==> s[i].total > 0.0)
      && (forall i :: 0 <= i < |s| ==> s[i].total == CategoryTotal(lib, rows, s[i].category))
      && SumTotals(lib, rows, FirstSeen(lib, rows)) == SumAmounts(rows)
  {
    var rows := ExtractRows(lib, grid, variant);
    FirstSeenDistinct(lib, rows);
    TotalsPartition(lib, rows);
    var keys := FirstSeen(lib, rows);
    forall i | 0 <= i < |keys| ensures CategoryTotal(lib, rows, keys[i]) > 0.0 {
      TotalPositive(lib, rows, keys[i]);
    }
  }
}
