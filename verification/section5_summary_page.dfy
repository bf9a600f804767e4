/**
 * The monthly summary page of the second frontend. It shares the fold of
 * the first one, but its "収支合計" (balance) line prints
 * `incomeTotal + expenseTotal`: the grand total of all amounts, not the
 * difference the label and the other page's balance call for.
 */
module Section5SummaryPage {
  import opened JsValues
  import opened Storage
  import opened SummaryTotals
  import AppSummaryPage

  /** The balance line as the page computes it. */
  function DisplayedBalance(t: Totals): int {
    t.incomeTotal + t.expenseTotal
  }

  /** As written, the balance line is the sum of every amount, income or not. */
  lemma DisplayedBalanceIsGrandTotal(ts: seq<Transaction>)
    ensures DisplayedBalance(Reduce(ts)) == Sum(ts)
  {
    TotalsPartitionSum(ts);
  }

  /** As written, recording an expense makes the balance go up. */
  lemma DisplayedBalanceRisesOnExpense(ts: seq<Transaction>, t: Transaction)
    requires t.kind != IncomeType && t.amount > 0
    ensures DisplayedBalance(Reduce(ts + [t])) > DisplayedBalance(Reduce(ts))
  {
    ReduceAppend(ts, t);
  }

  /** A salary of 1000 and a purchase of 300 show a balance of 1300, not 700. */
  lemma DisplayedBalanceCounterexample(d: JsValue)
    ensures var salary := Transaction(1, 1000, d, IncomeType, 1, None);
      var lunch := Transaction(2, 300, d, "支出", 2, None);
      && DisplayedBalance(Reduce([salary, lunch])) == 1300
      && CorrectedBalance(Reduce([salary, lunch])) == 700
  {
    var salary := Transaction(1, 1000, d, IncomeType, 1, None);
    var lunch := Transaction(2, 300, d, "支出", 2, None);
    assert lunch.kind != IncomeType by { assert lunch.kind[0] != IncomeType[0]; }
    ReduceAppend([], salary);
    assert [] + [salary] == [salary];
    ReduceAppend([salary], lunch);
    assert [salary] + [lunch] == [salary, lunch];
  }

  /** The balance the label calls for: income minus expense, as the other page shows. */
  function CorrectedBalance(t: Totals): int {
    AppSummaryPage.NetBalance(t)
  }

  /**
   * Corrected, the balance is the income sum minus the other sums, an
   * expense lowers it and an income raises it, each by its amount.
   */
  lemma CorrectedBalanceTracksRecords(ts: seq<Transaction>, t: Transaction)
    ensures CorrectedBalance(Reduce(ts)) == Sum(Incomes(ts)) - Sum(Others(ts))
    ensures t.kind != IncomeType ==> CorrectedBalance(Reduce(ts + [t])) == CorrectedBalance(Reduce(ts)) - t.amount
    ensures t.kind == IncomeType ==> CorrectedBalance(Reduce(ts + [t])) == CorrectedBalance(Reduce(ts)) + t.amount
  {
    AppSummaryPage.NetBalanceOfRecords(ts);
    AppSummaryPage.NetBalanceAppend(ts, t);
  }
}
