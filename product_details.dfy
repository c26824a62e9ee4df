/**
 * The product details page: the figures of the chosen record read through
 * spelling fallbacks, the pie of its positive parts, its summary cards,
 * and a comparison of the first five records with shortened names.
 */
module ProductDetails {
  import opened Wrappers
  import opened JsText
  import opened Records
  import opened Charts
  import opened Seqs

  /** The spellings each figure is read under, in the order they are tried. */
  const SalesKeys: seq<string> := ["Sales", "sales"]
  const ProfitKeys: seq<string> := ["Profit", "profit"]
  const ExpensesKeys: seq<string> := ["TE", "te", "Expenses"]
  const CreditKeys: seq<string> := ["Credit", "credit"]
  const AmazonFeeKeys: seq<string> := ["Amazon Fee", "amazon fee"]
  const NameKeys: seq<string> := ["Product Name", "product name", "Product", "product"]

  datatype Figures = Figures(sales: real, profit: real, expenses: real, credit: real, amazonFee: real)

  /** `parseFloat(row.K1 || row.K2 ...) || 0` for each figure. */
  function FiguresOf(row: Row): Figures {
    Figures(
      NumberOrZero(Lookup(row, SalesKeys)),
      NumberOrZero(Lookup(row, ProfitKeys)),
      NumberOrZero(Lookup(row, ExpensesKeys)),
      NumberOrZero(Lookup(row, CreditKeys)),
      NumberOrZero(Lookup(row, AmazonFeeKeys)))
  }

  /**
   * Expenses are read under "TE", then "te", then "Expenses": the first
   * truthy one counts, and with none truthy the "Expenses" value is parsed
   * (0 when it does not parse).
   */
  lemma ExpensesSpellings(row: Row)
    ensures Truthy(Get(row, "TE")) ==> FiguresOf(row).expenses == NumberOrZero(Get(row, "TE"))
    ensures !Truthy(Get(row, "TE")) && Truthy(Get(row, "te")) ==>
              FiguresOf(row).expenses == NumberOrZero(Get(row, "te"))
    ensures !Truthy(Get(row, "TE")) && !Truthy(Get(row, "te")) ==>
              FiguresOf(row).expenses == NumberOrZero(Get(row, "Expenses"))
  {
    if Truthy(Get(row, "TE")) {
      LookupFirstTruthy(row, ExpensesKeys, 0);
    } else if Truthy(Get(row, "te")) {
      LookupFirstTruthy(row, ExpensesKeys, 1);
    } else if Truthy(Get(row, "Expenses")) {
      LookupFirstTruthy(row, ExpensesKeys, 2);
    } else {
      LookupNoneTruthy(row, ExpensesKeys);
    }
  }

  /** Sales are read under "Sales", falling back to "sales" when that is falsy. */
  lemma SalesSpellings(row: Row)
    ensures Truthy(Get(row, "Sales")) ==> FiguresOf(row).sales == NumberOrZero(Get(row, "Sales"))
    ensures !Truthy(Get(row, "Sales")) ==> FiguresOf(row).sales == NumberOrZero(Get(row, "sales"))
  {
    if Truthy(Get(row, "Sales")) {
      LookupFirstTruthy(row, SalesKeys, 0);
    } else if Truthy(Get(row, "sales")) {
      LookupFirstTruthy(row, SalesKeys, 1);
    } else {
      LookupNoneTruthy(row, SalesKeys);
    }
  }

  /** The four candidate slices, before the filter. */
  function Candidates(f: Figures): seq<Slice> {
    [Slice("Profit", f.profit, "#10B981"),
     Slice("Expenses", f.expenses, "#EF4444"),
     Slice("Amazon Fee", f.amazonFee, "#F59E0B"),
     Slice("Credit", f.credit, "#8B5CF6")]
  }

  /** `slices.filter(item => item.value > 0)` */
  function Positive(slices: seq<Slice>): seq<Slice> {
    if slices == [] then []
    else (if slices[0].value > 0.0 then [slices[0]] else []) + Positive(slices[1..])
  }

  /**
   * The filter keeps exactly the slices with a strictly positive value,
   * in their order.
   */
  lemma {:induction false} PositiveKeepsPositive(slices: seq<Slice>)
    ensures IsSubsequence(Positive(slices), slices)
    ensures forall i :: 0 <= i < |Positive(slices)| ==> Positive(slices)[i].value > 0.0
    ensures forall x :: x in slices && x.value > 0.0 ==> x in Positive(slices)
    ensures |Positive(slices)| <= |slices|
  {
    if slices != [] {
      var rest := Positive(slices[1..]);
      PositiveKeepsPositive(slices[1..]);
      assert slices == [slices[0]] + slices[1..];
      if slices[0].value > 0.0 {
        assert Positive(slices) == [slices[0]] + rest;
        SubsequenceCons(slices[0], rest, slices[1..]);
      } else {
        assert Positive(slices) == rest;
        SubsequenceSkip(slices[0], rest, slices[1..]);
      }
    }
  }

  function PieOf(f: Figures): seq<Slice> {
    Positive(Candidates(f))
  }

  /**
   * The pie is the subsequence of Profit, Expenses, Amazon Fee and Credit
   * whose values are positive: at most four slices, each positive, and
   * every positive figure present.
   */
  lemma ProductPie(f: Figures)
    ensures IsSubsequence(PieOf(f), Candidates(f))
    ensures |PieOf(f)| <= 4
    ensures forall i :: 0 <= i < |PieOf(f)| ==> PieOf(f)[i].value > 0.0
    ensures f.profit > 0.0 ==> Slice("Profit", f.profit, "#10B981") in PieOf(f)
    ensures f.expenses > 0.0 ==> Slice("Expenses", f.expenses, "#EF4444") in PieOf(f)
    ensures f.amazonFee > 0.0 ==> Slice("Amazon Fee", f.amazonFee, "#F59E0B") in PieOf(f)
    ensures f.credit > 0.0 ==> Slice("Credit", f.credit, "#8B5CF6") in PieOf(f)
  {
    var c := Candidates(f);
    PositiveKeepsPositive(c);
    assert c[0] in c && c[1] in c && c[2] in c && c[3] in c;
  }

  /** The "Total Expenses" card counts the Amazon fee alongside the expenses. */
  function TotalExpenses(f: Figures): real {
    f.expenses + f.amazonFee
  }

  function Cards(f: Figures): seq<SummaryCard> {
    [SummaryCard("Sales", f.sales), SummaryCard("Profit", f.profit), SummaryCard("Total Expenses", TotalExpenses(f))]
  }

  /** When both are positive, the total-expenses card equals the pie's Expenses and Amazon Fee slices together. */
  lemma TotalExpensesMatchesPie(f: Figures)
    requires f.expenses > 0.0 && f.amazonFee > 0.0
    ensures exists i, j :: 0 <= i < j < |PieOf(f)| &&
              PieOf(f)[i].name == "Expenses" && PieOf(f)[j].name == "Amazon Fee" &&
              PieOf(f)[i].value + PieOf(f)[j].value == Cards(f)[2].amount
  {
    var c := Candidates(f);
    var expenses := if f.profit > 0.0 then 1 else 0;
    assert Positive(c[3..]) == (if f.credit > 0.0 then [c[3]] else []);
    assert Positive(c[2..]) == [c[2]] + Positive(c[3..]);
    assert Positive(c[1..]) == [c[1]] + Positive(c[2..]);
    assert PieOf(f)[expenses] == c[1] && PieOf(f)[expenses + 1] == c[2];
  }

  /** `name.length > 15 ? name.substring(0, 12) + "..." : name`; only strings have a length. */
  function Truncate(c: Cell): (r: Cell)
    ensures c.Str? ==> r.Str? && |r.s| <= 15
    ensures c.Str? && |c.s| > 15 ==> |r.s| == 15 && r.s[..12] == c.s[..12] && r.s[12..] == "..."
    ensures !(c.Str? && |c.s| > 15) ==> r == c
  {
    if c.Str? && |c.s| > 15 then Str(c.s[..12] + "...") else c
  }

  /** A shortened name is short enough to stay as it is. */
  lemma TruncateIdempotent(c: Cell)
    ensures Truncate(Truncate(c)) == Truncate(c)
  {
  }

  /** The comparison name of record `index`: the first truthy spelling, or "Product n" counting from 1. */
  function ComparisonName(row: Row, index: nat): Cell {
    Or(Lookup(row, NameKeys), Str("Product " + NatText(index + 1)))
  }

  datatype ComparisonPoint = ComparisonPoint(name: Cell, sales: real, profit: real, expenses: real)

  function ComparisonPointOf(row: Row, index: nat): ComparisonPoint {
    var f := FiguresOf(row);
    ComparisonPoint(Truncate(ComparisonName(row, index)), f.sales, f.profit, f.expenses)
  }

  /** `allData.slice(0, 5).map(...)` */
  function ComparisonData(allData: seq<Row>): seq<ComparisonPoint> {
    var n := if |allData| < 5 then |allData| else 5;
    seq(n, i requires 0 <= i < n => ComparisonPointOf(allData[i], i))
  }

  /**
   * The comparison covers the first five records (all of them when there
   * are fewer), in order; every name is present and at most 15 characters
   * long when it is text.
   */
  lemma ComparisonShape(allData: seq<Row>)
    ensures |ComparisonData(allData)| == if |allData| < 5 then |allData| else 5
    ensures forall i :: 0 <= i < |ComparisonData(allData)| ==>
              var p := ComparisonData(allData)[i];
              && p == ComparisonPointOf(allData[i], i)
              && Truthy(p.name)
              && (p.name.Str? ==> |p.name.s| <= 15)
  {
    forall i | 0 <= i < |ComparisonData(allData)|
      ensures Truthy(ComparisonData(allData)[i].name)
    {
      TruncateKeepsTruthy(ComparisonName(allData[i], i));
    }
  }

  lemma TruncateKeepsTruthy(c: Cell)
    requires Truthy(c)
    ensures Truthy(Truncate(c))
  {
  }

  /** The name falls back through the four spellings, then to "Product n". */
  lemma ComparisonNameFallback(row: Row, index: nat)
    ensures Truthy(ComparisonName(row, index))
    ensures forall j :: 0 <= j < |NameKeys| && Truthy(Get(row, NameKeys[j])) &&
                        (forall i :: 0 <= i < j ==> !Truthy(Get(row, NameKeys[i]))) ==>
              ComparisonName(row, index) == Get(row, NameKeys[j])
    ensures (forall j :: 0 <= j < |NameKeys| ==> !Truthy(Get(row, NameKeys[j]))) ==>
              ComparisonName(row, index) == Str("Product " + NatText(index + 1))
  {
    forall j | 0 <= j < |NameKeys| && Truthy(Get(row, NameKeys[j])) &&
               (forall i :: 0 <= i < j ==> !Truthy(Get(row, NameKeys[i])))
      ensures ComparisonName(row, index) == Get(row, NameKeys[j])
    {
      LookupFirstTruthy(row, NameKeys, j);
    }
    if forall j :: 0 <= j < |NameKeys| ==> !Truthy(Get(row, NameKeys[j])) {
      LookupNoneTruthy(row, NameKeys);
    }
  }

  /** A compared record shows the same sales, profit and expenses as its own details page. */
  lemma ComparisonMatchesFigures(allData: seq<Row>, i: nat)
    requires i < |allData| && i < 5
    ensures ComparisonData(allData)[i].sales == FiguresOf(allData[i]).sales
    ensures ComparisonData(allData)[i].profit == FiguresOf(allData[i]).profit
    ensures ComparisonData(allData)[i].expenses == FiguresOf(allData[i]).expenses
  {
  }

  datatype ProductView =
    | NotFound
    | Details(
        figures: Figures,
        pieData: seq<Slice>,
        summaryCards: seq<SummaryCard>,
        comparisonData: seq<ComparisonPoint>,
        areaChartConfig: seq<Series>)

  /** The page: "Product Not Found" without a record, the breakdown otherwise. */
  function ProductViewOf(productData: Option<Row>, allData: seq<Row>): ProductView {
    match productData
    case None => NotFound
    case Some(row) =>
      var f := FiguresOf(row);
      Details(f, PieOf(f), Cards(f), ComparisonData(allData), AreaChartConfig)
  }

  /**
   * Without a record the page shows nothing else; with one it shows that
   * record's figures, its pie and the comparison of the first five records.
   */
  lemma ProductViewCases(productData: Option<Row>, allData: seq<Row>)
    ensures ProductViewOf(productData, allData).NotFound? <==> productData.None?
    ensures productData.Some? ==>
              var v := ProductViewOf(productData, allData);
              && v.figures == FiguresOf(productData.value)
              && v.pieData == PieOf(v.figures)
              && v.summaryCards[2].amount == v.figures.expenses + v.figures.amazonFee
              && |v.comparisonData| == (if |allData| < 5 then |allData| else 5)
  {
    ComparisonShape(allData);
  }
}
