/** The values the pages hand to their chart and summary-card components. */
module Charts {
  /** One pie slice: a label, its value and its colour. */
  datatype Slice = Slice(name: string, value: real, color: string)

  /** A summary card: its title and the amount it shows (the currency formatting is not modelled). */
  datatype SummaryCard = SummaryCard(title: string, amount: real)

  /** One series of an area chart: the key of the plotted value and its colour. */
  datatype Series = Series(dataKey: string, color: string)

  /** The series both pages plot. */
  const AreaChartConfig: seq<Series> :=
    [Series("Sales", "#3B82F6"), Series("Profit", "#10B981"), Series("Expenses", "#EF4444")]

  /** The sum of the values, added up from the left as `reduce` does. */
  function Sum(xs: seq<real>): real {
    if xs == [] then 0.0 else Sum(xs[..|xs| - 1]) + xs[|xs| - 1]
  }

  lemma {:induction false} SumAppend(a: seq<real>, b: seq<real>)
    ensures Sum(a + b) == Sum(a) + Sum(b)
  {
    if b != [] {
      assert (a + b)[..|a + b| - 1] == a + b[..|b| - 1];
      SumAppend(a, b[..|b| - 1]);
    } else {
      assert a + b == a;
    }
  }

  lemma SumOfThree(a: real, b: real, c: real)
    ensures Sum([a, b, c]) == a + b + c
  {
    assert [a, b, c][..2] == [a, b];
    assert [a, b][..1] == [a];
    assert [a][..0] == [];
    assert Sum([a]) == a;
    assert Sum([a, b]) == a + b;
  }
}
