/** The overspending "prediction" (app.py:80-87): a single threshold of 1.2
    times the mean monthly expense, and a status per month that is a risk
    exactly when the month's expense is strictly above it. */
module Overspending {
  import opened Sequences
  import opened Ledger
  import opened Aggregates

  datatype Status = WithinBudget | OverspendingRisk

  /** One row of `prediction_df`: columns Month, Expense, Status. */
  datatype Prediction = Prediction(month: YearMonth, expense: real, status: Status)

  /** `monthly_expense.mean()` (app.py:80); pandas gives NaN on an empty series. */
  function Mean(s: seq<Entry<YearMonth>>): real
    requires |s| > 0
  {
    SeriesSum(s) / (|s| as real)
  }

  /** `avg_expense * 1.2` (app.py:81). */
  function Threshold(s: seq<Entry<YearMonth>>): real
    requires |s| > 0
  {
    Mean(s) * 1.2
  }

  /** The status lambda of app.py:85-87. */
  function StatusOf(expense: real, threshold: real): Status
  {
    if expense > threshold then OverspendingRisk else WithinBudget
  }

  /** Scaling out the mean: `x > (total / n) * 1.2` is `5 * n * x > 6 * total`. */
  lemma AboveThreshold(x: real, total: real, n: nat)
    requires n > 0
    ensures x > (total / (n as real)) * 1.2 <==> 5.0 * (n as real) * x > 6.0 * total
  {
    var nr := n as real;
    assert (total / nr) * 1.2 * (5.0 * nr) == 6.0 * total;
    if x > (total / nr) * 1.2 {
      assert x * (5.0 * nr) > (total / nr) * 1.2 * (5.0 * nr);
    }
    if 5.0 * nr * x > 6.0 * total {
      assert x * (5.0 * nr) > (total / nr) * 1.2 * (5.0 * nr);
    }
  }

  /** `prediction_df` (app.py:83-87): one row per month of the series, in the
      series' order, each compared with the same threshold. On an empty series
      the NaN threshold is never compared and the table is empty. */
  function Predict(s: seq<Entry<YearMonth>>): (r: seq<Prediction>)
    ensures |r| == |s|
    ensures forall i :: 0 <= i < |r| ==> r[i].month == s[i].key && r[i].expense == s[i].value
    ensures forall i :: 0 <= i < |r| ==>
      (r[i].status == OverspendingRisk <==> 5.0 * (|s| as real) * s[i].value > 6.0 * SeriesSum(s))
  {
    if s == [] then []
    else
      var threshold := Threshold(s);
      var r := seq(|s|, i requires 0 <= i < |s| => Prediction(s[i].key, s[i].value, StatusOf(s[i].value, threshold)));
      assert forall i :: 0 <= i < |s| ==>
        (s[i].value > threshold <==> 5.0 * (|s| as real) * s[i].value > 6.0 * SeriesSum(s)) by {
        forall i | 0 <= i < |s| ensures s[i].value > threshold <==> 5.0 * (|s| as real) * s[i].value > 6.0 * SeriesSum(s) {
          AboveThreshold(s[i].value, SeriesSum(s), |s|);
        }
      }
      r
  }

  predicate IsFlagged(x: Prediction) { x.status == OverspendingRisk }

  /** The months flagged as a risk, in table order (app.py:132). */
  function AtRiskMonths(p: seq<Prediction>): (r: seq<YearMonth>)
    ensures forall m :: m in r <==> exists i :: 0 <= i < |p| && p[i].month == m && p[i].status == OverspendingRisk
  {
    var flagged := Filter(p, IsFlagged);
    FilterMembers(p, IsFlagged);
    var r := seq(|flagged|, k requires 0 <= k < |flagged| => flagged[k].month);
    assert forall m :: m in r <==> exists i :: 0 <= i < |p| && p[i].month == m && p[i].status == OverspendingRisk by {
      forall m ensures m in r <==> exists i :: 0 <= i < |p| && p[i].month == m && p[i].status == OverspendingRisk {
        if m in r {
          var k :| 0 <= k < |r| && r[k] == m;
          var i :| 0 <= i < |p| && p[i] == flagged[k];
        }
        if i :| 0 <= i < |p| && p[i].month == m && p[i].status == OverspendingRisk {
          var k :| 0 <= k < |flagged| && flagged[k] == p[i];
          assert r[k] == m;
        }
      }
    }
    r
  }

  /** Filtering the prediction table keeps its row order, so the flagged
      months of a table sorted by month come out sorted by month. */
  lemma AtRiskMonthsInOrder(s: seq<Entry<YearMonth>>)
    requires forall i, j :: 0 <= i < j < |s| ==> Before(s[i].key, s[j].key)
    ensures var m := AtRiskMonths(Predict(s));
      forall i, j :: 0 <= i < j < |m| ==> Before(m[i], m[j])
  {
    var p := Predict(s);
    var m := AtRiskMonths(p);
    var kept := Kept(p, IsFlagged);
    FilterKeepsOrder(p, IsFlagged);
    forall i, j | 0 <= i < j < |m| ensures Before(m[i], m[j]) {
      assert m[i] == p[kept[i]].month && m[j] == p[kept[j]].month;
    }
  }

  lemma {:induction false} SeriesSumConstant(s: seq<Entry<YearMonth>>, v: real)
    requires forall i :: 0 <= i < |s| ==> s[i].value == v
    ensures SeriesSum(s) == (|s| as real) * v
  {
    if s != [] {
      SeriesSumConstant(s[1..], v);
    }
  }

  /** Some month spends at most the mean: n * s[i] <= total. */
  lemma {:induction false} MonthAtMostMean(s: seq<Entry<YearMonth>>) returns (i: int)
    requires |s| > 0
    ensures 0 <= i < |s| && (|s| as real) * s[i].value <= SeriesSum(s)
  {
    if |s| == 1 {
      i := 0;
    } else {
      var j := MonthAtMostMean(s[1..]);
      var m := (|s| - 1) as real;
      if s[0].value <= s[j + 1].value {
        i := 0;
        ScaleMonotone(m, s[0].value, s[j + 1].value);
      } else {
        i := j + 1;
      }
      assert s[1..][j] == s[j + 1];
    }
  }

  lemma ScaleMonotone(m: real, x: real, y: real)
    requires m >= 0.0 && x <= y
    ensures m * x <= m * y
  {
  }

  lemma {:induction false} SeriesSumNonNegative(s: seq<Entry<YearMonth>>)
    requires forall i :: 0 <= i < |s| ==> s[i].value >= 0.0
    ensures SeriesSum(s) >= 0.0
  {
    if s != [] {
      SeriesSumNonNegative(s[1..]);
    }
  }

  /** When every month spends the same non-negative amount, no month is above
      1.2 times the mean, so none is flagged. */
  lemma EqualMonthsWithinBudget(s: seq<Entry<YearMonth>>)
    requires forall i :: 0 <= i < |s| ==> s[i].value == s[0].value && s[i].value >= 0.0
    ensures forall i :: 0 <= i < |s| ==> Predict(s)[i].status == WithinBudget
  {
    if s != [] {
      var n, v := |s| as real, s[0].value;
      SeriesSumConstant(s, v);
      assert 5.0 * n * v <= 6.0 * (n * v);
    }
  }

  /** Expenses are magnitudes, so the threshold can never be exceeded by every
      month: a month spending at most the mean is within budget. */
  lemma SomeMonthWithinBudget(s: seq<Entry<YearMonth>>)
    requires |s| > 0
    requires forall i :: 0 <= i < |s| ==> s[i].value >= 0.0
    ensures exists i :: 0 <= i < |s| && Predict(s)[i].status == WithinBudget
  {
    SeriesSumNonNegative(s);
    var i := MonthAtMostMean(s);
    var n, x, total := |s| as real, s[i].value, SeriesSum(s);
    assert 5.0 * n * x == 5.0 * (n * x);
    assert 5.0 * n * x <= 6.0 * total;
    assert Predict(s)[i].status == WithinBudget;
  }

  /** The monthly expenses [100, 100, 100, 500] average 200, so the threshold
      is 240: only the 500 month is flagged. */
  lemma ThresholdExample()
    ensures var s := [Entry(YearMonth(2024, 1), 100.0), Entry(YearMonth(2024, 2), 100.0),
                      Entry(YearMonth(2024, 3), 100.0), Entry(YearMonth(2024, 4), 500.0)];
      && Threshold(s) == 240.0
      && Predict(s) == [Prediction(YearMonth(2024, 1), 100.0, WithinBudget), Prediction(YearMonth(2024, 2), 100.0, WithinBudget),
                        Prediction(YearMonth(2024, 3), 100.0, WithinBudget), Prediction(YearMonth(2024, 4), 500.0, OverspendingRisk)]
  {
    var s := [Entry(YearMonth(2024, 1), 100.0), Entry(YearMonth(2024, 2), 100.0),
              Entry(YearMonth(2024, 3), 100.0), Entry(YearMonth(2024, 4), 500.0)];
    assert SeriesSum(s) == 800.0 by {
      assert s[1..][1..][1..][1..] == [];
    }
  }

  /** On a cleaned ledger with at least one expense, some month of the
      prediction table is within budget. */
  lemma LedgerHasMonthWithinBudget(l: seq<Txn>)
    requires ValidLedger(l)
    requires exists i :: 0 <= i < |l| && l[i].kind == Expense
    ensures |Predict(MonthlyExpense(l))| > 0
    ensures exists i :: 0 <= i < |Predict(MonthlyExpense(l))| && Predict(MonthlyExpense(l))[i].status == WithinBudget
  {
    MonthlyExpenseSpec(l);
    var i :| 0 <= i < |l| && l[i].kind == Expense;
    assert HasExpense(l, MonthKey, l[i].yearMonth);
    assert l[i].yearMonth in Keys(MonthlyExpense(l));
    SomeMonthWithinBudget(MonthlyExpense(l));
  }
}
