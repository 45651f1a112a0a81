/** The two lists of the chat summary (app.py:131-132): the top categories and
    the months flagged as an overspending risk, each joined with ", ". */
module Summary {
  import opened Sequences
  import opened Text
  import opened Categorizer
  import opened Ledger
  import opened Aggregates
  import opened Overspending
  import opened Advisor

  /** The category labels of the top-categories index, in order. */
  function TopCategoryNames(l: seq<Txn>): (r: seq<string>)
    ensures |r| == |TopCategories(l)|
  {
    var t := TopCategories(l);
    seq(|t|, i requires 0 <= i < |t| => Name(t[i].key))
  }

  /** `', '.join(top_categories.index.tolist())` (app.py:131). */
  function TopCategoryList(l: seq<Txn>): string
  {
    Join(TopCategoryNames(l), ", ")
  }

  /** The month labels of the flagged rows of the prediction table, in order. */
  function AtRiskMonthNames(p: seq<Prediction>): (r: seq<string>)
    ensures |r| == |AtRiskMonths(p)|
  {
    var m := AtRiskMonths(p);
    seq(|m|, i requires 0 <= i < |m| => MonthText(m[i]))
  }

  /** The overspending-months list of app.py:132, over the prediction table
      built from the ledger's monthly expense series. */
  function AtRiskMonthList(l: seq<Txn>): string
  {
    Join(AtRiskMonthNames(Predict(MonthlyExpense(l))), ", ")
  }

  lemma NameNoComma(c: Category)
    ensures NoComma(Name(c)) && |Name(c)| > 0
  {
  }

  lemma {:induction false} JoinEmpty(xs: seq<string>)
    requires forall k :: 0 <= k < |xs| ==> |xs[k]| > 0
    ensures Join(xs, ", ") == "" <==> xs == []
  {
    if |xs| > 1 {
      assert |Join(xs, ", ")| >= |xs[0]|;
    }
  }

  /** The top-categories list is empty exactly when no category is listed;
      otherwise splitting it at ", " gives back the labels of the top
      categories, in order, and each label names a category with an expense. */
  lemma TopCategoryListRoundTrip(l: seq<Txn>)
    ensures TopCategoryList(l) == "" <==> TopCategories(l) == []
    ensures TopCategories(l) != [] ==> SplitCommaSpace(TopCategoryList(l)) == TopCategoryNames(l)
  {
    var names := TopCategoryNames(l);
    forall k | 0 <= k < |names| ensures NoComma(names[k]) && |names[k]| > 0 {
      NameNoComma(TopCategories(l)[k].key);
    }
    JoinEmpty(names);
    if names != [] {
      SplitJoin(names);
    }
  }

  /** The overspending-months list is empty exactly when no month is flagged;
      otherwise splitting it at ", " gives back the "YYYY-MM" labels of the
      flagged months, in order. */
  lemma AtRiskMonthListRoundTrip(l: seq<Txn>)
    ensures var flagged := AtRiskMonths(Predict(MonthlyExpense(l)));
      && (AtRiskMonthList(l) == "" <==> flagged == [])
      && (flagged != [] ==> SplitCommaSpace(AtRiskMonthList(l)) == AtRiskMonthNames(Predict(MonthlyExpense(l))))
  {
    var p := Predict(MonthlyExpense(l));
    var names := AtRiskMonthNames(p);
    forall k | 0 <= k < |names| ensures NoComma(names[k]) && |names[k]| > 0 {
      MonthTextShape(AtRiskMonths(p)[k], AtRiskMonths(p)[k]);
    }
    JoinEmpty(names);
    if names != [] {
      SplitJoin(names);
    }
  }

  /** Two flagged months share a label exactly when they are the same month. */
  lemma AtRiskMonthNamesDistinct(p: seq<Prediction>, i: int, j: int)
    requires 0 <= i < |AtRiskMonths(p)| && 0 <= j < |AtRiskMonths(p)|
    ensures AtRiskMonthNames(p)[i] == AtRiskMonthNames(p)[j] <==> AtRiskMonths(p)[i] == AtRiskMonths(p)[j]
  {
    MonthTextShape(AtRiskMonths(p)[i], AtRiskMonths(p)[j]);
  }

  /** The overspending-months list of a ledger names the flagged months in
      calendar order, each once. */
  lemma AtRiskMonthListOrdered(l: seq<Txn>)
    requires ValidLedger(l)
    ensures var p := Predict(MonthlyExpense(l));
      forall i, j :: 0 <= i < j < |AtRiskMonths(p)| ==>
        Before(AtRiskMonths(p)[i], AtRiskMonths(p)[j]) && AtRiskMonthNames(p)[i] != AtRiskMonthNames(p)[j]
  {
    var p := Predict(MonthlyExpense(l));
    MonthlyExpenseSpec(l);
    AtRiskMonthsInOrder(MonthlyExpense(l));
    forall i, j | 0 <= i < j < |AtRiskMonths(p)|
      ensures AtRiskMonthNames(p)[i] != AtRiskMonthNames(p)[j]
    {
      AtRiskMonthNamesDistinct(p, i, j);
      BeforeIrreflexive(AtRiskMonths(p)[i], AtRiskMonths(p)[j]);
    }
  }

  lemma BeforeIrreflexive(a: YearMonth, b: YearMonth)
    requires Before(a, b)
    ensures a != b
  {
  }

  /** An empty ledger: every total is zero, no series has an entry, no
      category is listed and both summary lists are empty. */
  lemma EmptyLedger()
    ensures TotalIncome([]) == 0.0 && TotalExpense([]) == 0.0 && Balance([]) == 0.0
    ensures MonthlyExpense([]) == [] && Predict(MonthlyExpense([])) == []
    ensures CategoryExpense([]) == [] && TopCategories([]) == []
    ensures TopCategoryList([]) == "" && AtRiskMonthList([]) == ""
  {
    assert CategorySums([]) == [] by {
      assert forall c :: !HasExpense([], CategoryKey, c);
      assert ExpenseCategories([]) == [] by {
        FilterMembers(CategoryOrder, c => HasExpense([], CategoryKey, c));
      }
    }
  }

  /** A lunch order and a salary credit in January 2024. */
  const SampleLedger: seq<Txn> := [
    Txn(Date(2024, 1, 5), "Zomato", -450.0, Expense, Food, YearMonth(2024, 1)),
    Txn(Date(2024, 1, 1), "Salary", 50000.0, Income, Salary, YearMonth(2024, 1))
  ]

  /** The dashboard totals of the sample come out as income 50000, expense
      450 and balance 49550. */
  lemma SampleTotals()
    ensures TotalIncome(SampleLedger) == 50000.0 && TotalExpense(SampleLedger) == 450.0
    ensures Balance(SampleLedger) == 49550.0
  {
    assert SampleLedger[1..][1..] == [];
  }

  /** The sample has one expense month, January 2024, spending 450, which is
      not above its own mean, so no month is flagged. */
  lemma SampleMonths()
    ensures MonthlyExpense(SampleLedger) == [Entry(YearMonth(2024, 1), 450.0)]
    ensures Predict(MonthlyExpense(SampleLedger)) == [Prediction(YearMonth(2024, 1), 450.0, WithinBudget)]
    ensures AtRiskMonthList(SampleLedger) == ""
  {
    var l := SampleLedger;
    assert l[1..][1..] == [];
    assert ExpenseMonths(l[1..]) == [];
    assert ExpenseMonths(l) == [YearMonth(2024, 1)];
    assert GroupSum(l, MonthKey, YearMonth(2024, 1)) == -450.0;
    var s := MonthlyExpense(l);
    assert s == [Entry(YearMonth(2024, 1), 450.0)];
    assert SeriesSum(s) == 450.0 by { assert s[1..] == []; }
  }

  /** Food is the only expense category: it heads the top categories with
      450, and the summary lists just "Food". */
  lemma SampleCategories()
    ensures TopCategories(SampleLedger) == [Entry(Food, 450.0)]
    ensures TopCategoryList(SampleLedger) == "Food"
  {
    var l := SampleLedger;
    assert l[1..][1..] == [];
    assert HasExpense(l, CategoryKey, Food) by { assert l[0].kind == Expense; }
    forall c | c != Food ensures !HasExpense(l, CategoryKey, c) {
      assert l[0].category == Food && l[1].kind == Income;
    }
    assert ExpenseCategories(l) == [Food];
    assert GroupSum(l, CategoryKey, Food) == -450.0;
    assert CategorySums(l) == [Entry(Food, -450.0)];
  }
}
