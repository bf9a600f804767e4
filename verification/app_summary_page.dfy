/**
 * The monthly summary page of the first frontend: income total, expense
 * total, and their difference, shown green when it is not negative and red
 * otherwise.
 */
module AppSummaryPage {
  import opened Storage
  import opened SummaryTotals

  /** The two text colours the net line can take. */
  datatype Tone = Green | Red

  /** The net line: income total minus expense total. */
  function NetBalance(t: Totals): int {
    t.incomeTotal - t.expenseTotal
  }

  /** The class chosen for the net line by the sign test on the difference. */
  function BalanceTone(t: Totals): Tone {
    if t.incomeTotal - t.expenseTotal >= 0 then Green else Red
  }

  /**
   * Over the fetched records, the net line is the income sum minus the sum
   * of everything else, and it is green exactly when income covers it.
   */
  lemma NetBalanceOfRecords(ts: seq<Transaction>)
    ensures NetBalance(Reduce(ts)) == Sum(Incomes(ts)) - Sum(Others(ts))
    ensures BalanceTone(Reduce(ts)) == Green <==> Sum(Incomes(ts)) >= Sum(Others(ts))
  {
    ReduceIsFilteredSums(ts);
  }

  /** An income record raises the net by its amount, any other record lowers it. */
  lemma NetBalanceAppend(ts: seq<Transaction>, t: Transaction)
    ensures t.kind == IncomeType ==> NetBalance(Reduce(ts + [t])) == NetBalance(Reduce(ts)) + t.amount
    ensures t.kind != IncomeType ==> NetBalance(Reduce(ts + [t])) == NetBalance(Reduce(ts)) - t.amount
  {
    ReduceAppend(ts, t);
  }
}
