/** The dashboard aggregates (app.py:47-49, 57-58, 97): total income, total
    expense as a magnitude, the balance, and the expense series grouped by
    month and by category. */
module Aggregates {
  import opened Sequences
  import opened Categorizer
  import opened Ledger

  /** One entry of a pandas series: an index label and its value. */
  datatype Entry<K> = Entry(key: K, value: real)

  /** `df[df['Type'] == 'Income']['Amount'].sum()` (app.py:47). */
  function TotalIncome(l: seq<Txn>): real
  {
    if l == [] then 0.0 else (if l[0].kind == Income then l[0].amount else 0.0) + TotalIncome(l[1..])
  }

  /** `df[df['Type'] == 'Expense']['Amount'].sum()`: the signed expense amounts. */
  function ExpenseAmountSum(l: seq<Txn>): real
  {
    if l == [] then 0.0 else (if l[0].kind == Expense then l[0].amount else 0.0) + ExpenseAmountSum(l[1..])
  }

  /** The expense total stored as a magnitude (app.py:48). */
  function TotalExpense(l: seq<Txn>): real
  {
    -ExpenseAmountSum(l)
  }

  /** app.py:49. */
  function Balance(l: seq<Txn>): real
  {
    TotalIncome(l) - TotalExpense(l)
  }

  /** The sum of every amount in the ledger, regardless of type. */
  function NetAmount(l: seq<Txn>): real
  {
    if l == [] then 0.0 else l[0].amount + NetAmount(l[1..])
  }

  /** The balance is the net of all amounts: every row is either income or expense. */
  lemma {:induction false} BalanceIsNetAmount(l: seq<Txn>)
    ensures Balance(l) == NetAmount(l)
  {
    if l != [] {
      BalanceIsNetAmount(l[1..]);
    }
  }

  /** On a cleaned ledger, income and the expense magnitude are never negative,
      and income is positive exactly when some row is income. */
  lemma {:induction false} TotalsNonNegative(l: seq<Txn>)
    requires ValidLedger(l)
    ensures TotalExpense(l) >= 0.0
    ensures TotalIncome(l) >= 0.0
    ensures TotalIncome(l) > 0.0 <==> exists i :: 0 <= i < |l| && l[i].kind == Income
  {
    if l != [] {
      assert WellFormed(l[0]);
      TotalsNonNegative(l[1..]);
      if exists i :: 0 <= i < |l[1..]| && l[1..][i].kind == Income {
        var i :| 0 <= i < |l[1..]| && l[1..][i].kind == Income;
        assert l[i + 1].kind == Income;
      }
      if exists i :: 0 <= i < |l| && l[i].kind == Income {
        var i :| 0 <= i < |l| && l[i].kind == Income;
        if i > 0 { assert l[1..][i - 1].kind == Income; }
      }
    }
  }

  /** The grouping keys of app.py:57 and app.py:97. */
  function MonthKey(x: Txn): YearMonth { x.yearMonth }
  function CategoryKey(x: Txn): Category { x.category }

  /** The signed sum of the expense amounts whose key is `k`: one group of
      `groupby(key)['Amount'].sum()` over the expense rows. */
  function GroupSum<K(==)>(l: seq<Txn>, key: Txn -> K, k: K): real
  {
    if l == [] then 0.0
    else (if l[0].kind == Expense && key(l[0]) == k then l[0].amount else 0.0) + GroupSum(l[1..], key, k)
  }

  /** Some expense row has key `k`: `k` is a group of the expense frame. */
  predicate HasExpense<K(==)>(l: seq<Txn>, key: Txn -> K, k: K)
  {
    exists i :: 0 <= i < |l| && l[i].kind == Expense && key(l[i]) == k
  }

  /** The grouped series for the given group keys, in that order. */
  function GroupSums<K(==)>(ks: seq<K>, l: seq<Txn>, key: Txn -> K): (r: seq<Entry<K>>)
    ensures |r| == |ks|
  {
    seq(|ks|, i requires 0 <= i < |ks| => Entry(ks[i], GroupSum(l, key, ks[i])))
  }

  /** Unary minus on a series: same index, negated values. */
  function Negated<K>(s: seq<Entry<K>>): (r: seq<Entry<K>>)
    ensures |r| == |s|
  {
    seq(|s|, i requires 0 <= i < |s| => Entry(s[i].key, -s[i].value))
  }

  /** `series.sum()`. */
  function SeriesSum<K>(s: seq<Entry<K>>): real
  {
    if s == [] then 0.0 else s[0].value + SeriesSum(s[1..])
  }

  /** `series.index.tolist()`. */
  function Keys<K>(s: seq<Entry<K>>): (r: seq<K>)
    ensures |r| == |s|
  {
    seq(|s|, i requires 0 <= i < |s| => s[i].key)
  }

  lemma {:induction false} SeriesSumNegated<K>(s: seq<Entry<K>>)
    ensures SeriesSum(Negated(s)) == -SeriesSum(s)
  {
    if s != [] {
      SeriesSumNegated(s[1..]);
      assert Negated(s)[1..] == Negated(s[1..]);
    }
  }

  /** Each group of a cleaned ledger sums non-positive amounts. */
  lemma {:induction false} GroupSumNonPositive<K>(l: seq<Txn>, key: Txn -> K, k: K)
    requires ValidLedger(l)
    ensures GroupSum(l, key, k) <= 0.0
  {
    if l != [] {
      assert WellFormed(l[0]);
      GroupSumNonPositive(l[1..], key, k);
    }
  }

  /** A group with no expense row sums to zero. */
  lemma {:induction false} GroupSumEmpty<K>(l: seq<Txn>, key: Txn -> K, k: K)
    requires !HasExpense(l, key, k)
    ensures GroupSum(l, key, k) == 0.0
  {
    if l != [] {
      GroupSumEmpty(l[1..], key, k);
    }
  }

  /** The groups of a sequence of distinct keys, summed over the keys. */
  function SumOverKeys<K(==)>(ks: seq<K>, l: seq<Txn>, key: Txn -> K): real
  {
    if ks == [] then 0.0 else GroupSum(l, key, ks[0]) + SumOverKeys(ks[1..], l, key)
  }

  lemma {:induction false} SeriesSumGroupSums<K>(ks: seq<K>, l: seq<Txn>, key: Txn -> K)
    ensures SeriesSum(GroupSums(ks, l, key)) == SumOverKeys(ks, l, key)
  {
    if ks != [] {
      SeriesSumGroupSums(ks[1..], l, key);
      assert GroupSums(ks, l, key)[1..] == GroupSums(ks[1..], l, key);
    }
  }

  /** Peeling the first row off the ledger changes the sum over distinct keys
      by that row's amount when it is an expense whose key is listed. */
  lemma {:induction false} SumOverKeysStep<K>(ks: seq<K>, l: seq<Txn>, key: Txn -> K)
    requires l != [] && Distinct(ks)
    ensures SumOverKeys(ks, l, key) ==
      SumOverKeys(ks, l[1..], key) + (if l[0].kind == Expense && key(l[0]) in ks then l[0].amount else 0.0)
  {
    if ks != [] {
      SumOverKeysStep(ks[1..], l, key);
      assert key(l[0]) in ks <==> key(l[0]) == ks[0] || key(l[0]) in ks[1..];
      if key(l[0]) == ks[0] {
        assert key(l[0]) !in ks[1..];
      }
    }
  }

  /** Summing the groups over distinct keys that cover every expense row gives
      the signed expense total: grouping loses and duplicates nothing. */
  lemma {:induction false} SumOverKeysTotal<K>(ks: seq<K>, l: seq<Txn>, key: Txn -> K)
    requires Distinct(ks)
    requires forall i :: 0 <= i < |l| && l[i].kind == Expense ==> key(l[i]) in ks
    ensures SumOverKeys(ks, l, key) == ExpenseAmountSum(l)
  {
    if l != [] {
      SumOverKeysStep(ks, l, key);
      assert forall i :: 0 <= i < |l[1..]| ==> l[1..][i] == l[i + 1];
      SumOverKeysTotal(ks, l[1..], key);
    } else {
      SumOverKeysZero(ks, l, key);
    }
  }

  lemma {:induction false} SumOverKeysZero<K>(ks: seq<K>, l: seq<Txn>, key: Txn -> K)
    requires l == []
    ensures SumOverKeys(ks, l, key) == 0.0
  {
    if ks != [] { SumOverKeysZero(ks[1..], l, key); }
  }

  /** Inserts a month into a strictly ascending list of months, keeping it so. */
  function InsertMonth(m: YearMonth, ms: seq<YearMonth>): (r: seq<YearMonth>)
    requires forall i, j :: 0 <= i < j < |ms| ==> Before(ms[i], ms[j])
    ensures forall i, j :: 0 <= i < j < |r| ==> Before(r[i], r[j])
    ensures forall x :: x in r <==> x == m || x in ms
  {
    if ms == [] then [m]
    else if m == ms[0] then ms
    else if Before(m, ms[0]) then
      assert forall j :: 0 < j < |ms| ==> Before(ms[0], ms[j]);
      [m] + ms
    else
      var rest := InsertMonth(m, ms[1..]);
      assert forall k :: 0 <= k < |rest| ==> Before(ms[0], rest[k]) by {
        forall k | 0 <= k < |rest| ensures Before(ms[0], rest[k]) {
          assert rest[k] in rest;
          if rest[k] != m {
            var j :| 0 <= j < |ms[1..]| && ms[1..][j] == rest[k];
            assert ms[j + 1] == rest[k];
          }
        }
      }
      [ms[0]] + rest
  }

  /** The index of the monthly series: the distinct months having an expense
      row, ascending (`groupby` sorts its keys). */
  function ExpenseMonths(l: seq<Txn>): (r: seq<YearMonth>)
    ensures forall i, j :: 0 <= i < j < |r| ==> Before(r[i], r[j])
    ensures forall m :: m in r <==> HasExpense(l, MonthKey, m)
  {
    if l == [] then []
    else
      var rest := ExpenseMonths(l[1..]);
      assert forall m :: HasExpense(l, MonthKey, m) <==>
        (l[0].kind == Expense && l[0].yearMonth == m) || HasExpense(l[1..], MonthKey, m) by {
        forall m ensures HasExpense(l, MonthKey, m) <==>
          (l[0].kind == Expense && l[0].yearMonth == m) || HasExpense(l[1..], MonthKey, m) {
          if HasExpense(l[1..], MonthKey, m) {
            var i :| 0 <= i < |l[1..]| && l[1..][i].kind == Expense && MonthKey(l[1..][i]) == m;
            assert l[i + 1] == l[1..][i];
          }
          if HasExpense(l, MonthKey, m) {
            var i :| 0 <= i < |l| && l[i].kind == Expense && MonthKey(l[i]) == m;
            if i > 0 { assert l[1..][i - 1] == l[i]; }
          }
        }
      }
      if l[0].kind == Expense then InsertMonth(l[0].yearMonth, rest) else rest
  }

  /** `groupby('YearMonth')['Amount'].sum()` over the expense rows (app.py:57). */
  function MonthSums(l: seq<Txn>): seq<Entry<YearMonth>>
  {
    GroupSums(ExpenseMonths(l), l, MonthKey)
  }

  /** The monthly expense series as magnitudes (app.py:57-58). */
  function MonthlyExpense(l: seq<Txn>): seq<Entry<YearMonth>>
  {
    Negated(MonthSums(l))
  }

  /** The expense magnitude of one month. */
  function MonthExpense(l: seq<Txn>, m: YearMonth): real
  {
    -GroupSum(l, MonthKey, m)
  }

  /** The monthly series is indexed by exactly the months holding an expense
      row, in ascending calendar order without repeats; each value is that
      month's expense magnitude, never negative; and the values add up to the
      expense total. */
  lemma MonthlyExpenseSpec(l: seq<Txn>)
    requires ValidLedger(l)
    ensures var r := MonthlyExpense(l);
      && (forall i, j :: 0 <= i < j < |r| ==> Before(r[i].key, r[j].key))
      && (forall m :: m in Keys(r) <==> HasExpense(l, MonthKey, m))
      && (forall i :: 0 <= i < |r| ==> r[i].value == MonthExpense(l, r[i].key) && r[i].value >= 0.0)
      && SeriesSum(r) == TotalExpense(l)
  {
    var ks := ExpenseMonths(l);
    var r := MonthlyExpense(l);
    assert Keys(r) == ks;
    forall i | 0 <= i < |r| ensures r[i].value >= 0.0 {
      GroupSumNonPositive(l, MonthKey, ks[i]);
    }
    assert Distinct(ks) by {
      forall i, j | 0 <= i < j < |ks| ensures ks[i] != ks[j] {
        assert Before(ks[i], ks[j]);
      }
    }
    forall i | 0 <= i < |l| && l[i].kind == Expense ensures MonthKey(l[i]) in ks {
      assert HasExpense(l, MonthKey, MonthKey(l[i]));
    }
    SeriesSumNegated(MonthSums(l));
    SeriesSumGroupSums(ks, l, MonthKey);
    SumOverKeysTotal(ks, l, MonthKey);
  }

  /** `groupby` orders category labels as strings:
      Entertainment < Food < Other < Salary < Shopping < Transport < Utilities. */
  const CategoryOrder: seq<Category> := [Entertainment, Food, Other, Salary, Shopping, Transport, Utilities]

  /** The index of the category series: the categories having an expense row. */
  function ExpenseCategories(l: seq<Txn>): seq<Category>
  {
    Filter(CategoryOrder, c => HasExpense(l, CategoryKey, c))
  }

  /** `expense_df.groupby('Category')['Amount'].sum()` (app.py:70, 97): signed sums. */
  function CategorySums(l: seq<Txn>): seq<Entry<Category>>
  {
    GroupSums(ExpenseCategories(l), l, CategoryKey)
  }

  /** The expense magnitude of one category. */
  function CategoryMagnitude(l: seq<Txn>, c: Category): real
  {
    -GroupSum(l, CategoryKey, c)
  }

  lemma CategoryOrderComplete(c: Category)
    ensures c in CategoryOrder
  {
    var i: nat := match c
      case Entertainment => 0 case Food => 1 case Other => 2 case Salary => 3
      case Shopping => 4 case Transport => 5 case Utilities => 6;
    assert CategoryOrder[i] == c;
  }

  /** The category index holds exactly the categories with an expense row. */
  lemma ExpenseCategoriesMembers(l: seq<Txn>, c: Category)
    ensures c in ExpenseCategories(l) <==> HasExpense(l, CategoryKey, c)
  {
    var ks := ExpenseCategories(l);
    var p := c => HasExpense(l, CategoryKey, c);
    FilterMembers(CategoryOrder, p);
    CategoryOrderComplete(c);
    if c in ks {
      var k :| 0 <= k < |ks| && ks[k] == c;
      assert p(ks[k]);
    } else {
      var i :| 0 <= i < |CategoryOrder| && CategoryOrder[i] == c;
      assert !p(CategoryOrder[i]);
    }
  }

  /** The category sums are indexed by exactly the categories holding an
      expense row, each once. */
  lemma CategorySumsKeys(l: seq<Txn>)
    ensures Distinct(Keys(CategorySums(l)))
    ensures forall c :: c in Keys(CategorySums(l)) <==> HasExpense(l, CategoryKey, c)
  {
    var ks := ExpenseCategories(l);
    assert Keys(CategorySums(l)) == ks;
    FilterDistinct(CategoryOrder, c => HasExpense(l, CategoryKey, c));
    forall c ensures c in ks <==> HasExpense(l, CategoryKey, c) {
      ExpenseCategoriesMembers(l, c);
    }
  }

  /** Every category sum is that category's signed expense total, never
      positive, and the sums add up to the signed expense total. */
  lemma CategorySumsValues(l: seq<Txn>)
    requires ValidLedger(l)
    ensures var s := CategorySums(l);
      && (forall i :: 0 <= i < |s| ==> s[i].value == -CategoryMagnitude(l, s[i].key) && s[i].value <= 0.0)
      && SeriesSum(s) == -TotalExpense(l)
  {
    var ks := ExpenseCategories(l);
    var s := CategorySums(l);
    CategorySumsKeys(l);
    assert Keys(s) == ks;
    forall i | 0 <= i < |s| ensures s[i].value <= 0.0 {
      GroupSumNonPositive(l, CategoryKey, ks[i]);
    }
    forall i | 0 <= i < |l| && l[i].kind == Expense ensures CategoryKey(l[i]) in ks {
      assert HasExpense(l, CategoryKey, CategoryKey(l[i]));
    }
    SeriesSumGroupSums(ks, l, CategoryKey);
    SumOverKeysTotal(ks, l, CategoryKey);
  }
}
