/**
 * The chart data of the dashboard page: the columns chosen from the first
 * record's keys, the three column totals, the clamped remainder, the
 * three-slice pie, the summary cards and one area-chart point per record.
 */
module Dashboard {
  import opened Wrappers
  import opened JsText
  import opened Records
  import opened Charts
  import FileUpload

  /** `h.toLowerCase().includes(s)` for one of `subs`. */
  predicate Mentions(h: string, subs: seq<string>) {
    exists s :: s in subs && Contains(ToLower(h), s)
  }

  /** The index of the first header that mentions one of `subs`, or the number of headers when none does. */
  function FirstMention(headers: seq<string>, subs: seq<string>): (i: nat)
    ensures i <= |headers|
    ensures i < |headers| ==> Mentions(headers[i], subs)
    ensures forall j :: 0 <= j < i ==> !Mentions(headers[j], subs)
  {
    if headers == [] then 0
    else if Mentions(headers[0], subs) then 0
    else 1 + FirstMention(headers[1..], subs)
  }

  /** `headers.find(h => ...)` */
  function FindHeader(headers: seq<string>, subs: seq<string>): Option<string> {
    var i := FirstMention(headers, subs);
    if i < |headers| then Some(headers[i]) else None
  }

  /** The keys the figures are read from. */
  datatype Columns = Columns(sales: string, profit: string, expenses: string, product: string)

  /**
   * Each column is the first header mentioning its word, else a fixed
   * name; the product column falls back to the first header, and with no
   * headers at all `headers[0]` is `undefined`, read as the key "undefined".
   */
  function ResolveColumns(headers: seq<string>): Columns {
    Columns(
      FindHeader(headers, ["sales"]).GetOr("Sales"),
      FindHeader(headers, ["profit"]).GetOr("Profit"),
      FindHeader(headers, ["te", "expense"]).GetOr("TE"),
      FindHeader(headers, ["product", "name"]).GetOr(if headers == [] then "undefined" else headers[0]))
  }

  /** A resolved column is a header mentioning its word and no earlier header does; only without one is the fallback taken. */
  lemma ResolvedColumn(headers: seq<string>, subs: seq<string>, fallback: string)
    ensures var c := FindHeader(headers, subs).GetOr(fallback);
            || (exists i :: 0 <= i < |headers| && c == headers[i] && Mentions(headers[i], subs) &&
                  forall j :: 0 <= j < i ==> !Mentions(headers[j], subs))
            || (c == fallback && forall j :: 0 <= j < |headers| ==> !Mentions(headers[j], subs))
  {
    var i := FirstMention(headers, subs);
    if i < |headers| {
      assert FindHeader(headers, subs).GetOr(fallback) == headers[i];
    }
  }

  /** `find` returns the first header that mentions one of the words. */
  lemma FoundAt(headers: seq<string>, subs: seq<string>, i: nat)
    requires i < |headers| && Mentions(headers[i], subs)
    requires forall j :: 0 <= j < i ==> !Mentions(headers[j], subs)
    ensures FindHeader(headers, subs) == Some(headers[i])
  {
  }

  /** Header matching ignores case: a header and its lower-cased form resolve alike. */
  lemma MentionsIgnoresCase(h: string, subs: seq<string>)
    ensures Mentions(ToLower(h), subs) <==> Mentions(h, subs)
  {
    ToLowerIdempotent(h);
  }

  /**
   * With the upload's required columns as headers, in their declared
   * order, the dashboard reads Sales, Profit, TE and Product Name.
   */
  lemma RequiredHeadersResolve()
    ensures ResolveColumns(FileUpload.RequiredColumns) == Columns("Sales", "Profit", "TE", "Product Name")
  {
    var h := FileUpload.RequiredColumns;
    RequiredSalesColumn(h);
    RequiredProfitColumn(h, ["profit"]);
    RequiredExpensesColumn(h, ["te", "expense"]);
    RequiredProductColumn(h);
  }

  lemma RequiredSalesColumn(h: seq<string>)
    requires h == FileUpload.RequiredColumns
    ensures FindHeader(h, ["sales"]) == Some("Sales")
  {
    LacksLetters(h[0], "product name", ["sales"], "l");
    MentionedBy(h[1], "sales", ["sales"], 0);
  }

  lemma RequiredProfitColumn(h: seq<string>, subs: seq<string>)
    requires h == FileUpload.RequiredColumns && subs == ["profit"]
    ensures FindHeader(h, subs) == Some("Profit")
  {
    ProfitSkipped(h, subs);
    MentionedBy(h[2], "profit", subs, 0);
    FoundAt(h, subs, 2);
  }

  lemma ProfitSkipped(h: seq<string>, subs: seq<string>)
    requires h == FileUpload.RequiredColumns && subs == ["profit"]
    ensures forall j :: 0 <= j < 2 ==> !Mentions(h[j], subs)
  {
    ProductNameLacksProfit(h[0], subs);
    SalesLacksProfit(h[1], subs);
  }

  lemma ProductNameLacksProfit(header: string, subs: seq<string>)
    requires header == "Product Name" && subs == ["profit"]
    ensures !Mentions(header, subs)
  {
    LacksLetters(header, "product name", subs, "f");
  }

  lemma SalesLacksProfit(header: string, subs: seq<string>)
    requires header == "Sales" && subs == ["profit"]
    ensures !Mentions(header, subs)
  {
    LacksLetters(header, "sales", subs, "p");
  }

  lemma RequiredExpensesColumn(h: seq<string>, subs: seq<string>)
    requires h == FileUpload.RequiredColumns && subs == ["te", "expense"]
    ensures FindHeader(h, subs) == Some("TE")
  {
    ExpensesSkipped(h, subs);
    MentionedBy(h[3], "te", subs, 0);
    FoundAt(h, subs, 3);
  }

  lemma ExpensesSkipped(h: seq<string>, subs: seq<string>)
    requires h == FileUpload.RequiredColumns && subs == ["te", "expense"]
    ensures forall j :: 0 <= j < 3 ==> !Mentions(h[j], subs)
  {
    ProductNameUnmentioned(h[0], subs);
    SalesLacksExpenses(h[1], subs);
    ProfitLacksExpenses(h[2], subs);
  }

  lemma SalesLacksExpenses(header: string, subs: seq<string>)
    requires header == "Sales" && subs == ["te", "expense"]
    ensures !Mentions(header, subs)
  {
    LacksLetters(header, "sales", subs, "tx");
  }

  lemma ProfitLacksExpenses(header: string, subs: seq<string>)
    requires header == "Profit" && subs == ["te", "expense"]
    ensures !Mentions(header, subs)
  {
    LacksLetters(header, "profit", subs, "ex");
  }

  lemma RequiredProductColumn(h: seq<string>)
    requires h == FileUpload.RequiredColumns
    ensures FindHeader(h, ["product", "name"]) == Some("Product Name")
  {
    MentionedBy(h[0], "product name", ["product", "name"], 0);
  }

  /** A header whose lower-cased text starts with one of the words mentions it. */
  lemma MentionedBy(h: string, lower: string, subs: seq<string>, k: nat)
    requires ToLower(h) == lower && k < |subs| && HasPrefix(lower, subs[k])
    ensures Mentions(h, subs)
  {
    assert subs[k] in subs && Contains(ToLower(h), subs[k]);
  }

  /** Each word has a letter, `letters[k]`, that the lower-cased header lacks. */
  lemma LacksLetters(h: string, lower: string, subs: seq<string>, letters: string)
    requires ToLower(h) == lower && |letters| == |subs|
    requires forall k :: 0 <= k < |subs| ==> letters[k] in subs[k] && letters[k] !in lower
    ensures !Mentions(h, subs)
  {
    forall w | w in subs ensures !Contains(lower, w) {
      var k :| 0 <= k < |subs| && subs[k] == w;
      var i :| 0 <= i < |w| && w[i] == letters[k];
      Lacks(lower, w, letters[k], i);
    }
  }

  /** "product name" has no "te" (its one `t` is followed by a space) and no "expense". */
  lemma ProductNameUnmentioned(h: string, subs: seq<string>)
    requires ToLower(h) == "product name" && subs == ["te", "expense"]
    ensures !Mentions(h, subs)
  {
    ProductNameLacksTe(ToLower(h), subs[0]);
    Lacks(ToLower(h), subs[1], 'x', 1);
  }

  /** A text missing one character of `sub` does not contain it. */
  lemma Lacks(s: string, sub: string, c: char, k: nat)
    requires k < |sub| && sub[k] == c && c !in s
    ensures !Contains(s, sub)
  {
    if Contains(s, sub) {
      ContainsChars(s, sub, k);
    }
  }

  lemma ProductNameLacksTe(s: string, te: string)
    requires s == "product name" && te == "te"
    ensures !Contains(s, te)
  {
    ProductNameLacksTeFrom3(s, te);
    NotContainsStep(s, te, 2);
    NotContainsStep(s, te, 1);
    NotContainsStep(s, te, 0);
    assert s[0..] == s;
  }

  lemma ProductNameLacksTeFrom3(s: string, te: string)
    requires s == "product name" && te == "te"
    ensures !Contains(s[3..], te)
  {
    assert s[7..] == " name";
    assert s[6..][..2] == "t ";
    Lacks(s[7..], te, 't', 0);
    NotContainsStep(s, te, 6);
    NotContainsStep(s, te, 5);
    NotContainsStep(s, te, 4);
    NotContainsStep(s, te, 3);
  }

  /** One column of every record, read as a number with NaN as 0. */
  function ColumnValues(data: seq<Row>, col: string): seq<real> {
    seq(|data|, i requires 0 <= i < |data| => NumberOrZero(Get(data[i], col)))
  }

  /** `data.reduce((sum, row) => sum + (parseFloat(row[col]) || 0), 0)` */
  function ColumnTotal(data: seq<Row>, col: string): real {
    Sum(ColumnValues(data, col))
  }

  /** Totals add up over a split of the records. */
  lemma ColumnTotalAppend(a: seq<Row>, b: seq<Row>, col: string)
    ensures ColumnTotal(a + b, col) == ColumnTotal(a, col) + ColumnTotal(b, col)
  {
    assert ColumnValues(a + b, col) == ColumnValues(a, col) + ColumnValues(b, col);
    SumAppend(ColumnValues(a, col), ColumnValues(b, col));
  }

  /** A record adds its parsed value, or nothing when the value does not parse. */
  lemma ColumnTotalSnoc(data: seq<Row>, row: Row, col: string)
    ensures ColumnTotal(data + [row], col) ==
              ColumnTotal(data, col) + (if ParseFloat(Get(row, col)).Some? then ParseFloat(Get(row, col)).value else 0.0)
  {
    ColumnTotalAppend(data, [row], col);
    assert ColumnValues([row], col) == [NumberOrZero(Get(row, col))];
    assert Sum([NumberOrZero(Get(row, col))]) == Sum([]) + NumberOrZero(Get(row, col));
  }

  /** `Math.max(sales - (profit + expenses), 0)` */
  function Remaining(sales: real, profit: real, expenses: real): (r: real)
    ensures r >= 0.0 && r >= sales - (profit + expenses)
    ensures r == 0.0 || r == sales - (profit + expenses)
  {
    if sales - (profit + expenses) > 0.0 then sales - (profit + expenses) else 0.0
  }

  datatype Totals = Totals(totalSales: real, totalProfit: real, totalExpenses: real, remaining: real)

  /** One point of the area chart. */
  datatype AreaPoint = AreaPoint(
    name: Cell,
    sales: real,
    profit: real,
    expenses: real,
    credit: real,
    amazonFee: real,
    profitPercentage: real)

  datatype ChartData = ChartData(
    totals: Totals,
    pieData: seq<Slice>,
    areaData: seq<AreaPoint>,
    summaryCards: seq<SummaryCard>,
    areaChartConfig: seq<Series>)

  /** The name of the area point of record `index`: its product cell, or "Product n" counting from 1. */
  function PointName(row: Row, product: string, index: nat): Cell {
    Or(Get(row, product), Str("Product " + NatText(index + 1)))
  }

  function AreaPointOf(row: Row, index: nat, cols: Columns): AreaPoint {
    AreaPoint(
      PointName(row, cols.product, index),
      NumberOrZero(Get(row, cols.sales)),
      NumberOrZero(Get(row, cols.profit)),
      NumberOrZero(Get(row, cols.expenses)),
      NumberOrZero(Lookup(row, ["Credit", "CREDIT", "credit"])),
      NumberOrZero(Lookup(row, ["Amazon Fee", "AMAZON FEE", "amazon fee"])),
      NumberOrZero(Lookup(row, ["Profit Percentage", "PROFIT PERCENTAGE", "profit percentage"])))
  }

  function PieData(t: Totals): seq<Slice> {
    [Slice("Profit", t.totalProfit, "#10B981"),
     Slice("Expenses", t.totalExpenses, "#EF4444"),
     Slice("Other Costs", t.remaining, "#F59E0B")]
  }

  /** `chartData`: nothing for an empty dataset. */
  function ChartDataOf(csvData: seq<Row>): Option<ChartData> {
    if |csvData| == 0 then None
    else
      var cols := ResolveColumns(Keys(csvData[0]));
      var totalSales := ColumnTotal(csvData, cols.sales);
      var totalProfit := ColumnTotal(csvData, cols.profit);
      var totalExpenses := ColumnTotal(csvData, cols.expenses);
      var totals := Totals(totalSales, totalProfit, totalExpenses, Remaining(totalSales, totalProfit, totalExpenses));
      Some(ChartData(
        totals,
        PieData(totals),
        seq(|csvData|, i requires 0 <= i < |csvData| => AreaPointOf(csvData[i], i, cols)),
        [SummaryCard("Total Sales", totalSales),
         SummaryCard("Total Profit", totalProfit),
         SummaryCard("Total Expenses", totalExpenses)],
        AreaChartConfig))
  }

  /**
   * Chart data exists exactly for a non-empty dataset; it then has one
   * area point per record in record order, and a pie of Profit, Expenses
   * and Other Costs whose values are the two totals and the remainder.
   */
  lemma ChartDataShape(csvData: seq<Row>)
    ensures ChartDataOf(csvData).None? <==> csvData == []
    ensures ChartDataOf(csvData).Some? ==>
              var d := ChartDataOf(csvData).value;
              var cols := ResolveColumns(Keys(csvData[0]));
              && |d.areaData| == |csvData|
              && (forall i :: 0 <= i < |csvData| ==> d.areaData[i] == AreaPointOf(csvData[i], i, cols))
              && |d.pieData| == 3
              && d.pieData[0].name == "Profit" && d.pieData[0].value == d.totals.totalProfit
              && d.pieData[1].name == "Expenses" && d.pieData[1].value == d.totals.totalExpenses
              && d.pieData[2].name == "Other Costs" && d.pieData[2].value == d.totals.remaining
  {
  }

  /**
   * The pie's three values add up to the sales total when profit and
   * expenses fit within it, and to profit plus expenses otherwise; the
   * remainder slice is never negative.
   */
  lemma PieCoversSales(csvData: seq<Row>)
    requires csvData != []
    ensures var d := ChartDataOf(csvData).value;
            var t := d.totals;
            && d.pieData[2].value >= 0.0
            && Sum([d.pieData[0].value, d.pieData[1].value, d.pieData[2].value]) ==
                 if t.totalSales >= t.totalProfit + t.totalExpenses then t.totalSales
                 else t.totalProfit + t.totalExpenses
  {
    var d := ChartDataOf(csvData).value;
    SumOfThree(d.pieData[0].value, d.pieData[1].value, d.pieData[2].value);
  }

  /** Summing the area points' sales, profit or expenses gives the corresponding total. */
  lemma AreaMatchesTotals(csvData: seq<Row>)
    requires csvData != []
    ensures var d := ChartDataOf(csvData).value;
            && Sum(seq(|d.areaData|, i requires 0 <= i < |d.areaData| => d.areaData[i].sales)) == d.totals.totalSales
            && Sum(seq(|d.areaData|, i requires 0 <= i < |d.areaData| => d.areaData[i].profit)) == d.totals.totalProfit
            && Sum(seq(|d.areaData|, i requires 0 <= i < |d.areaData| => d.areaData[i].expenses)) == d.totals.totalExpenses
  {
    var d := ChartDataOf(csvData).value;
    var cols := ResolveColumns(Keys(csvData[0]));
    assert seq(|d.areaData|, i requires 0 <= i < |d.areaData| => d.areaData[i].sales) == ColumnValues(csvData, cols.sales);
    assert seq(|d.areaData|, i requires 0 <= i < |d.areaData| => d.areaData[i].profit) == ColumnValues(csvData, cols.profit);
    assert seq(|d.areaData|, i requires 0 <= i < |d.areaData| => d.areaData[i].expenses) ==
             ColumnValues(csvData, cols.expenses);
  }

  /** A point is named by its product cell when that is truthy, and "Product n" otherwise; it is never falsy. */
  lemma PointNameFallback(row: Row, product: string, index: nat)
    ensures Truthy(PointName(row, product, index))
    ensures Truthy(Get(row, product)) ==> PointName(row, product, index) == Get(row, product)
    ensures !Truthy(Get(row, product)) ==> PointName(row, product, index) == Str("Product " + NatText(index + 1))
  {
  }

  /** Credit is read under "Credit", then "CREDIT", then "credit", and is 0 when none holds a number. */
  lemma CreditSpellings(row: Row, index: nat, cols: Columns)
    ensures Truthy(Get(row, "Credit")) ==>
              AreaPointOf(row, index, cols).credit == NumberOrZero(Get(row, "Credit"))
    ensures !Truthy(Get(row, "Credit")) && Truthy(Get(row, "CREDIT")) ==>
              AreaPointOf(row, index, cols).credit == NumberOrZero(Get(row, "CREDIT"))
    ensures !Truthy(Get(row, "Credit")) && !Truthy(Get(row, "CREDIT")) ==>
              AreaPointOf(row, index, cols).credit == NumberOrZero(Get(row, "credit"))
  {
    var keys := ["Credit", "CREDIT", "credit"];
    if Truthy(Get(row, "Credit")) {
      LookupFirstTruthy(row, keys, 0);
    } else if Truthy(Get(row, "CREDIT")) {
      LookupFirstTruthy(row, keys, 1);
    } else if Truthy(Get(row, "credit")) {
      LookupFirstTruthy(row, keys, 2);
    } else {
      LookupNoneTruthy(row, keys);
    }
  }
}
