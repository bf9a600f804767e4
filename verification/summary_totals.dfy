/**
 * The "monthly summary" page's `reduce` over every fetched transaction (the
 * page does no grouping by month): a record of type "収入" adds its amount to
 * the income total, every other record, of whatever type, to the expense
 * total. Both summary pages share it.
 */
module SummaryTotals {
  import opened Storage

  const IncomeType := "収入"

  datatype Totals = Totals(incomeTotal: int, expenseTotal: int)

  /** The `reduce` callback. */
  function Step(acc: Totals, t: Transaction): Totals {
    if t.kind == IncomeType then acc.(incomeTotal := acc.incomeTotal + t.amount)
    else acc.(expenseTotal := acc.expenseTotal + t.amount)
  }

  /** `transactions.reduce(Step, {incomeTotal: 0, expenseTotal: 0})`, folding from the left. */
  function Reduce(ts: seq<Transaction>): Totals {
    if |ts| == 0 then Totals(0, 0) else Step(Reduce(ts[..|ts| - 1]), ts[|ts| - 1])
  }

  /** The sum of the amounts, as a reference definition. */
  function Sum(ts: seq<Transaction>): int {
    if |ts| == 0 then 0 else ts[0].amount + Sum(ts[1..])
  }

  /** The records of type "収入", in order. */
  function Incomes(ts: seq<Transaction>): (r: seq<Transaction>)
    ensures forall i :: 0 <= i < |r| ==> r[i].kind == IncomeType
  {
    if |ts| == 0 then []
    else if ts[0].kind == IncomeType then [ts[0]] + Incomes(ts[1..])
    else Incomes(ts[1..])
  }

  /** All other records, in order. */
  function Others(ts: seq<Transaction>): (r: seq<Transaction>)
    ensures forall i :: 0 <= i < |r| ==> r[i].kind != IncomeType
  {
    if |ts| == 0 then []
    else if ts[0].kind == IncomeType then Others(ts[1..])
    else [ts[0]] + Others(ts[1..])
  }

  lemma {:induction false} SumConcat(a: seq<Transaction>, b: seq<Transaction>)
    ensures Sum(a + b) == Sum(a) + Sum(b)
    decreases |a|
  {
    if |a| == 0 {
      assert a + b == b;
    } else {
      assert (a + b)[1..] == a[1..] + b;
      SumConcat(a[1..], b);
    }
  }

  lemma {:induction false} FiltersConcat(a: seq<Transaction>, b: seq<Transaction>)
    ensures Incomes(a + b) == Incomes(a) + Incomes(b)
    ensures Others(a + b) == Others(a) + Others(b)
    decreases |a|
  {
    if |a| == 0 {
      assert a + b == b;
    } else {
      assert (a + b)[1..] == a[1..] + b;
      FiltersConcat(a[1..], b);
    }
  }

  /** The fold of the page equals the two filtered sums. */
  lemma {:induction false} ReduceIsFilteredSums(ts: seq<Transaction>)
    ensures Reduce(ts) == Totals(Sum(Incomes(ts)), Sum(Others(ts)))
    decreases |ts|
  {
    if |ts| > 0 {
      var init, last := ts[..|ts| - 1], ts[|ts| - 1];
      ReduceIsFilteredSums(init);
      FilteredSumsSnoc(init, last);
      assert init + [last] == ts;
    }
  }

  /** Adding a record at the end adds its share to each filtered sum. */
  lemma FilteredSumsSnoc(init: seq<Transaction>, last: Transaction)
    ensures Sum(Incomes(init + [last])) == Sum(Incomes(init)) + IncomeShare(last)
    ensures Sum(Others(init + [last])) == Sum(Others(init)) + ExpenseShare(last)
  {
    FiltersConcat(init, [last]);
    SumConcat(Incomes(init), Incomes([last]));
    SumConcat(Others(init), Others([last]));
    SingletonShares(last);
  }

  lemma SingletonShares(t: Transaction)
    ensures Sum(Incomes([t])) == IncomeShare(t) && Sum(Others([t])) == ExpenseShare(t)
  {
    assert [t][1..] == [];
  }

  /** Every record lands in exactly one of the two totals. */
  lemma {:induction false} TotalsPartitionSum(ts: seq<Transaction>)
    ensures Reduce(ts).incomeTotal + Reduce(ts).expenseTotal == Sum(ts)
  {
    ReduceIsFilteredSums(ts);
    FilteredSumsAddUp(ts);
  }

  lemma {:induction false} FilteredSumsAddUp(ts: seq<Transaction>)
    ensures Sum(Incomes(ts)) + Sum(Others(ts)) == Sum(ts)
    decreases |ts|
  {
    if |ts| > 0 {
      FilteredSumsAddUp(ts[1..]);
    }
  }

  /** No records, no money. */
  lemma ReduceEmpty()
    ensures Reduce([]) == Totals(0, 0)
  {
  }

  /** One more record raises exactly one total, by its amount. */
  lemma ReduceAppend(ts: seq<Transaction>, t: Transaction)
    ensures t.kind == IncomeType ==>
      Reduce(ts + [t]) == Totals(Reduce(ts).incomeTotal + t.amount, Reduce(ts).expenseTotal)
    ensures t.kind != IncomeType ==>
      Reduce(ts + [t]) == Totals(Reduce(ts).incomeTotal, Reduce(ts).expenseTotal + t.amount)
  {
    assert (ts + [t])[..|ts|] == ts;
  }

  /** What one record adds to the income total. */
  function IncomeShare(t: Transaction): int {
    if t.kind == IncomeType then t.amount else 0
  }

  /** What one record adds to the expense total. */
  function ExpenseShare(t: Transaction): int {
    if t.kind == IncomeType then 0 else t.amount
  }

  /** Removing the record at `i` takes its share out of the filtered sums. */
  lemma FilteredSumsWithout(b: seq<Transaction>, i: int)
    requires 0 <= i < |b|
    ensures var rest := b[..i] + b[i + 1..];
      && Sum(Incomes(b)) == Sum(Incomes(rest)) + IncomeShare(b[i])
      && Sum(Others(b)) == Sum(Others(rest)) + ExpenseShare(b[i])
  {
    var pre, x, post := b[..i], [b[i]], b[i + 1..];
    assert b == pre + (x + post);
    FiltersConcat(pre, x + post);
    FiltersConcat(x, post);
    FiltersConcat(pre, post);
    IncomesWithout(pre, b[i], post);
    OthersWithout(pre, b[i], post);
  }

  lemma IncomesWithout(pre: seq<Transaction>, t: Transaction, post: seq<Transaction>)
    ensures Sum(Incomes(pre) + (Incomes([t]) + Incomes(post))) == Sum(Incomes(pre) + Incomes(post)) + IncomeShare(t)
  {
    SumConcat(Incomes(pre), Incomes([t]) + Incomes(post));
    SumConcat(Incomes([t]), Incomes(post));
    SumConcat(Incomes(pre), Incomes(post));
  }

  lemma OthersWithout(pre: seq<Transaction>, t: Transaction, post: seq<Transaction>)
    ensures Sum(Others(pre) + (Others([t]) + Others(post))) == Sum(Others(pre) + Others(post)) + ExpenseShare(t)
  {
    SumConcat(Others(pre), Others([t]) + Others(post));
    SumConcat(Others([t]), Others(post));
    SumConcat(Others(pre), Others(post));
  }

  /** Taking one copy of the same record out of two permutations leaves permutations. */
  lemma MultisetWithout(a: seq<Transaction>, b: seq<Transaction>, i: int)
    requires multiset(a) == multiset(b)
    requires |a| > 0 && 0 <= i < |b| && b[i] == a[0]
    ensures multiset(a[..0] + a[1..]) == multiset(b[..i] + b[i + 1..])
  {
    MultisetSplit(a, 0);
    MultisetSplit(b, i);
    assert multiset(a[..0] + a[1..]) == multiset(a) - multiset{a[0]};
    assert multiset(b[..i] + b[i + 1..]) == multiset(b) - multiset{b[i]};
  }

  lemma MultisetSplit(b: seq<Transaction>, i: int)
    requires 0 <= i < |b|
    ensures multiset(b) == multiset(b[..i] + b[i + 1..]) + multiset{b[i]}
  {
    assert b == b[..i] + [b[i]] + b[i + 1..];
    assert multiset(b) == multiset(b[..i]) + multiset([b[i]]) + multiset(b[i + 1..]);
    assert multiset(b[..i] + b[i + 1..]) == multiset(b[..i]) + multiset(b[i + 1..]);
  }

  /** The filtered sums depend only on which records there are, not on their order. */
  lemma {:induction false} FilteredSumsPermutation(a: seq<Transaction>, b: seq<Transaction>)
    requires multiset(a) == multiset(b)
    ensures Sum(Incomes(a)) == Sum(Incomes(b)) && Sum(Others(a)) == Sum(Others(b))
    decreases |a|
  {
    if |a| == 0 {
      assert |b| == |multiset(b)| == 0;
    } else {
      assert a[0] in multiset(b);
      var i :| 0 <= i < |b| && b[i] == a[0];
      MultisetWithout(a, b, i);
      FilteredSumsPermutation(a[..0] + a[1..], b[..i] + b[i + 1..]);
      FilteredSumsWithout(a, 0);
      FilteredSumsWithout(b, i);
    }
  }

  /** Reordering the fetched list changes neither total. */
  lemma ReduceReorder(a: seq<Transaction>, b: seq<Transaction>)
    requires multiset(a) == multiset(b)
    ensures Reduce(a) == Reduce(b)
  {
    ReduceIsFilteredSums(a);
    ReduceIsFilteredSums(b);
    FilteredSumsPermutation(a, b);
  }
}
