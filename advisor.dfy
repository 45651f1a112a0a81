/** Smart budget advice (app.py:97-117): the category expense series sorted by
    `sort_values` and negated, its first three entries as the top spending
    categories, and one advice text per top category. */
module Advisor {
  import opened Sequences
  import opened Categorizer
  import opened Ledger
  import opened Aggregates

  predicate Ascending<K>(s: seq<Entry<K>>)
  {
    forall i, j :: 0 <= i < j < |s| ==> s[i].value <= s[j].value
  }

  /** Inserts `x` before the first entry whose value is not smaller. */
  function InsertAscending<K>(x: Entry<K>, s: seq<Entry<K>>): (r: seq<Entry<K>>)
    ensures |r| == |s| + 1
  {
    if s == [] || x.value <= s[0].value then [x] + s
    else [s[0]] + InsertAscending(x, s[1..])
  }

  /** `sort_values(ascending=True)` as insertion sort. The order among equal
      values is not specified by pandas; this model uses one particular order
      and promises none. */
  function SortAscending<K>(s: seq<Entry<K>>): (r: seq<Entry<K>>)
    ensures |r| == |s|
  {
    if s == [] then [] else InsertAscending(s[0], SortAscending(s[1..]))
  }

  /** Inserting keeps every value above a common lower bound. */
  lemma {:induction false} InsertAscendingBound<K>(x: Entry<K>, s: seq<Entry<K>>, b: real)
    requires x.value >= b && forall k :: 0 <= k < |s| ==> s[k].value >= b
    ensures forall k :: 0 <= k < |InsertAscending(x, s)| ==> InsertAscending(x, s)[k].value >= b
  {
    if s != [] && x.value > s[0].value {
      InsertAscendingBound(x, s[1..], b);
    }
  }

  lemma {:induction false} InsertAscendingSorted<K>(x: Entry<K>, s: seq<Entry<K>>)
    requires Ascending(s)
    ensures Ascending(InsertAscending(x, s))
  {
    if s != [] && x.value > s[0].value {
      InsertAscendingSorted(x, s[1..]);
      InsertAscendingBound(x, s[1..], s[0].value);
    }
  }

  lemma {:induction false} InsertAscendingPermutes<K>(x: Entry<K>, s: seq<Entry<K>>)
    ensures multiset(InsertAscending(x, s)) == multiset(s) + multiset{x}
  {
    if s != [] && x.value > s[0].value {
      InsertAscendingPermutes(x, s[1..]);
      assert s == [s[0]] + s[1..];
    }
  }

  /** Sorting gives a series in ascending value order holding exactly the
      entries of the input, each as often as in the input. */
  lemma {:induction false} SortAscendingSpec<K>(s: seq<Entry<K>>)
    ensures Ascending(SortAscending(s))
    ensures multiset(SortAscending(s)) == multiset(s)
  {
    if s != [] {
      SortAscendingSpec(s[1..]);
      InsertAscendingSorted(s[0], SortAscending(s[1..]));
      InsertAscendingPermutes(s[0], SortAscending(s[1..]));
      assert s == [s[0]] + s[1..];
    }
  }

  /** Sorting rearranges the values, so their sum is unchanged. */
  lemma {:induction false} SortAscendingSum<K>(s: seq<Entry<K>>)
    ensures SeriesSum(SortAscending(s)) == SeriesSum(s)
  {
    if s != [] {
      SortAscendingSum(s[1..]);
      InsertAscendingSum(s[0], SortAscending(s[1..]));
    }
  }

  lemma {:induction false} InsertAscendingSum<K>(x: Entry<K>, s: seq<Entry<K>>)
    ensures SeriesSum(InsertAscending(x, s)) == x.value + SeriesSum(s)
  {
    if s != [] && x.value > s[0].value {
      InsertAscendingSum(x, s[1..]);
      assert InsertAscending(x, s)[1..] == InsertAscending(x, s[1..]);
    }
  }

  /** `category_expense` (app.py:97-98): the signed category sums sorted
      ascending, then negated into magnitudes. */
  function CategoryExpense(l: seq<Txn>): seq<Entry<Category>>
  {
    Negated(SortAscending(CategorySums(l)))
  }

  /** `category_expense.head(3)` (app.py:99). */
  function TopCategories(l: seq<Txn>): seq<Entry<Category>>
  {
    var ce := CategoryExpense(l);
    ce[..if |ce| < 3 then |ce| else 3]
  }

  /** An entry of a sorted series is an entry of the series. */
  lemma SortedEntryFromInput<K>(s: seq<Entry<K>>, i: int)
    requires 0 <= i < |SortAscending(s)|
    ensures SortAscending(s)[i] in s
  {
    SortAscendingSpec(s);
    assert SortAscending(s)[i] in multiset(SortAscending(s));
  }

  /** An entry of the series is an entry of the sorted series. */
  lemma InputEntryInSorted<K>(s: seq<Entry<K>>, i: int)
    requires 0 <= i < |s|
    ensures s[i] in SortAscending(s)
  {
    SortAscendingSpec(s);
    assert s[i] in multiset(s);
  }

  /** Every entry of the category expense series is a category sum negated. */
  lemma CategoryExpenseEntry(l: seq<Txn>, i: int)
    requires 0 <= i < |CategoryExpense(l)|
    ensures exists j :: 0 <= j < |CategorySums(l)| &&
                        CategoryExpense(l)[i] == Entry(CategorySums(l)[j].key, -CategorySums(l)[j].value)
  {
    var s := CategorySums(l);
    SortedEntryFromInput(s, i);
    var j :| 0 <= j < |s| && s[j] == SortAscending(s)[i];
  }

  /** Every category sum appears, negated, in the category expense series. */
  lemma CategoryExpenseCovers(l: seq<Txn>, j: int)
    requires 0 <= j < |CategorySums(l)|
    ensures exists i :: 0 <= i < |CategoryExpense(l)| &&
                        CategoryExpense(l)[i] == Entry(CategorySums(l)[j].key, -CategorySums(l)[j].value)
  {
    var s := CategorySums(l);
    InputEntryInSorted(s, j);
    var i :| 0 <= i < |SortAscending(s)| && SortAscending(s)[i] == s[j];
    assert CategoryExpense(l)[i] == Entry(s[j].key, -s[j].value);
  }

  /** A rearrangement of a series whose keys do not repeat has no repeated
      key either. */
  lemma PermutationKeepsDistinctKeys<K>(s: seq<Entry<K>>, t: seq<Entry<K>>)
    requires multiset(t) == multiset(s) && Distinct(Keys(s))
    ensures Distinct(Keys(t))
  {
    forall i, j | 0 <= i < j < |t| ensures Keys(t)[i] != Keys(t)[j] {
      NoRepeatedKey(s, t, i, j);
    }
  }

  lemma NoRepeatedKey<K>(s: seq<Entry<K>>, t: seq<Entry<K>>, i: int, j: int)
    requires multiset(t) == multiset(s) && Distinct(Keys(s))
    requires 0 <= i < j < |t|
    ensures t[i].key != t[j].key
  {
    assert t[i] in multiset(s) && t[j] in multiset(s);
    var a :| 0 <= a < |s| && s[a] == t[i];
    var b :| 0 <= b < |s| && s[b] == t[j];
    if t[i] == t[j] {
      DuplicateRaisesCount(t, i, j);
      DistinctKeysSingleCount(s, a);
    } else {
      assert Keys(s)[a] == t[i].key && Keys(s)[b] == t[j].key;
    }
  }

  /** The category expense series names no category twice. */
  lemma CategoryExpenseDistinct(l: seq<Txn>)
    ensures Distinct(Keys(CategoryExpense(l)))
  {
    var s := CategorySums(l);
    var sorted := SortAscending(s);
    CategorySumsKeys(l);
    SortAscendingSpec(s);
    PermutationKeepsDistinctKeys(s, sorted);
    assert Keys(CategoryExpense(l)) == Keys(sorted);
  }

  /** The category expense series is sorted by magnitude, largest first. */
  lemma CategoryExpenseOrder(l: seq<Txn>)
    ensures var r := CategoryExpense(l);
      forall i, j :: 0 <= i < j < |r| ==> r[i].value >= r[j].value
  {
    SortAscendingSpec(CategorySums(l));
  }

  /** The category expense series is indexed by exactly the categories
      holding an expense row. */
  lemma CategoryExpenseKeys(l: seq<Txn>)
    ensures forall c :: c in Keys(CategoryExpense(l)) <==> HasExpense(l, CategoryKey, c)
  {
    var s := CategorySums(l);
    var r := CategoryExpense(l);
    CategorySumsKeys(l);
    forall c ensures c in Keys(r) <==> HasExpense(l, CategoryKey, c) {
      if c in Keys(r) {
        var i :| 0 <= i < |r| && Keys(r)[i] == c;
        CategoryExpenseEntry(l, i);
        var j :| 0 <= j < |s| && r[i] == Entry(s[j].key, -s[j].value);
        assert Keys(s)[j] == c;
      }
      if HasExpense(l, CategoryKey, c) {
        var j :| 0 <= j < |s| && Keys(s)[j] == c;
        CategoryExpenseCovers(l, j);
        var i :| 0 <= i < |r| && r[i] == Entry(s[j].key, -s[j].value);
        assert Keys(r)[i] == c;
      }
    }
  }

  /** Each value of the category expense series is that category's expense
      magnitude, never negative. */
  lemma CategoryExpenseValues(l: seq<Txn>)
    requires ValidLedger(l)
    ensures var r := CategoryExpense(l);
      forall i :: 0 <= i < |r| ==> r[i].value == CategoryMagnitude(l, r[i].key) && r[i].value >= 0.0
  {
    var r := CategoryExpense(l);
    CategorySumsValues(l);
    forall i | 0 <= i < |r| ensures r[i].value == CategoryMagnitude(l, r[i].key) && r[i].value >= 0.0 {
      CategoryExpenseEntry(l, i);
    }
  }

  /** The category expense series adds up to the expense total. */
  lemma CategoryExpenseTotal(l: seq<Txn>)
    requires ValidLedger(l)
    ensures SeriesSum(CategoryExpense(l)) == TotalExpense(l)
  {
    var s := CategorySums(l);
    CategorySumsValues(l);
    SeriesSumNegated(SortAscending(s));
    SortAscendingSum(s);
  }

  /** The category expense series is sorted by magnitude, largest first; it is
      indexed by exactly the categories holding an expense row, each once; each
      value is that category's expense magnitude, never negative; and the
      values add up to the expense total. */
  lemma CategoryExpenseSpec(l: seq<Txn>)
    requires ValidLedger(l)
    ensures var r := CategoryExpense(l);
      && (forall i, j :: 0 <= i < j < |r| ==> r[i].value >= r[j].value)
      && (forall c :: c in Keys(r) <==> HasExpense(l, CategoryKey, c))
      && Distinct(Keys(r))
      && (forall i :: 0 <= i < |r| ==> r[i].value == CategoryMagnitude(l, r[i].key) && r[i].value >= 0.0)
      && SeriesSum(r) == TotalExpense(l)
  {
    CategoryExpenseOrder(l);
    CategoryExpenseKeys(l);
    CategoryExpenseDistinct(l);
    CategoryExpenseValues(l);
    CategoryExpenseTotal(l);
  }

  /** An entry at two positions occurs at least twice. */
  lemma {:induction false} DuplicateRaisesCount<K>(s: seq<Entry<K>>, i: int, j: int)
    requires 0 <= i < j < |s| && s[i] == s[j]
    ensures multiset(s)[s[i]] >= 2
  {
    var x := s[i];
    assert s == s[..j] + [s[j]] + s[j + 1..];
    assert s[..j][i] == x;
    assert x in multiset(s[..j]);
    assert multiset(s) == multiset(s[..j]) + multiset{x} + multiset(s[j + 1..]);
  }

  /** In a series whose keys do not repeat, every entry occurs once. */
  lemma {:induction false} DistinctKeysSingleCount<K>(s: seq<Entry<K>>, a: int)
    requires Distinct(Keys(s)) && 0 <= a < |s|
    ensures multiset(s)[s[a]] == 1
  {
    var x := s[a];
    assert s == s[..a] + [x] + s[a + 1..];
    assert multiset(s) == multiset(s[..a]) + multiset{x} + multiset(s[a + 1..]);
    assert x !in s[..a] by {
      forall k | 0 <= k < a ensures s[..a][k] != x { assert Keys(s)[k] != Keys(s)[a]; }
    }
    var tail := s[a + 1..];
    assert x !in tail by {
      forall k | 0 <= k < |tail| ensures tail[k] != x {
        assert tail[k] == s[a + 1 + k];
        assert Keys(s)[a + 1 + k] != Keys(s)[a];
      }
    }
  }

  /** The top categories are at most three distinct expense categories, listed
      by magnitude, largest first, each with its expense magnitude. */
  lemma TopCategoriesSpec(l: seq<Txn>)
    requires ValidLedger(l)
    ensures var t := TopCategories(l);
      && |t| <= 3
      && (forall i, j :: 0 <= i < j < |t| ==> t[i].value >= t[j].value)
      && Distinct(Keys(t))
      && (forall i :: 0 <= i < |t| ==> HasExpense(l, CategoryKey, t[i].key) && t[i].value == CategoryMagnitude(l, t[i].key))
  {
    var r := CategoryExpense(l);
    var t := TopCategories(l);
    CategoryExpenseSpec(l);
    assert forall i :: 0 <= i < |t| ==> t[i] == r[i] && Keys(t)[i] == Keys(r)[i];
    forall i | 0 <= i < |t| ensures HasExpense(l, CategoryKey, t[i].key) {
      assert Keys(r)[i] in Keys(r);
    }
  }

  /** When fewer than three categories are listed every expense category is
      among them, and no category left out spends more than any listed one. */
  lemma TopCategoriesAreTop(l: seq<Txn>)
    requires ValidLedger(l)
    ensures var t := TopCategories(l);
      && (|t| < 3 ==> forall c :: HasExpense(l, CategoryKey, c) ==> c in Keys(t))
      && (forall c :: HasExpense(l, CategoryKey, c) && c !in Keys(t) ==>
            forall i :: 0 <= i < |t| ==> CategoryMagnitude(l, c) <= t[i].value)
  {
    var r := CategoryExpense(l);
    var t := TopCategories(l);
    CategoryExpenseSpec(l);
    assert forall i :: 0 <= i < |t| ==> t[i] == r[i] && Keys(t)[i] == Keys(r)[i];
    forall c | HasExpense(l, CategoryKey, c) && c !in Keys(t)
      ensures forall i :: 0 <= i < |t| ==> CategoryMagnitude(l, c) <= t[i].value
    {
      var k :| 0 <= k < |r| && Keys(r)[k] == c;
      assert r[k].value == CategoryMagnitude(l, c);
    }
    forall c | |t| < 3 && HasExpense(l, CategoryKey, c) ensures c in Keys(t) {
      var k :| 0 <= k < |r| && Keys(r)[k] == c;
      assert Keys(t)[k] == c;
    }
  }

  /** The fixed tips of app.py:107-115. */
  const FoodTip: string := "\U{1F354} You\U{2019}re spending a lot on food. Try cooking at home more often or setting a monthly dining budget."
  const ShoppingTip: string := "\U{1F6CD}\U{FE0F} High shopping bills detected. Consider limiting impulse buys or setting a wishlist before shopping."
  const TransportTip: string := "\U{1F697} Transport costs are high. Try carpooling, using public transport, or optimizing your routes."
  const UtilitiesTip: string := "\U{1F4A1} Utilities seem high. Consider energy-saving habits or reviewing your internet/electricity plans."
  const EntertainmentTip: string := "\U{1F4FA} Subscriptions and entertainment are adding up. Cancel unused subscriptions or switch to cheaper plans."

  /** The generic tip for a category without a fixed text (app.py:117). */
  function GenericAdvice(c: Category): string
  {
    "\U{1F4A1} Spending on **" + Name(c) + "** is significant. Try to review if all those purchases were essential."
  }

  /** The advice text for one top category (app.py:106-117). */
  function AdviceFor(c: Category): string
  {
    match c
    case Food =>
      FoodTip
    case Shopping =>
      ShoppingTip
    case Transport =>
      TransportTip
    case Utilities =>
      UtilitiesTip
    case Entertainment =>
      EntertainmentTip
    case _ => GenericAdvice(c)
  }

  /** The seven possible tips have seven different lengths, which is what
      tells them apart. */
  lemma TipLengths(c: Category)
    ensures |GenericAdvice(c)| == 87 + |Name(c)|
    ensures |FoodTip| == 99 && |ShoppingTip| == 102 && |TransportTip| == 94
    ensures |UtilitiesTip| == 98 && |EntertainmentTip| == 104
  {
  }

  /** Salary and Other get the generic tip and the five others a fixed tip;
      the generic tip names its category. */
  lemma AdviceForSpec(c: Category)
    ensures AdviceFor(c) == GenericAdvice(c) <==> c == Salary || c == Other
    ensures Text.Contains(GenericAdvice(c), Name(c))
  {
    TipLengths(c);
    var g := GenericAdvice(c);
    var prefix := "\U{1F4A1} Spending on **";
    assert Text.OccursAt(g, Name(c), |prefix|) by {
      assert g[|prefix|..|prefix| + |Name(c)|] == Name(c);
    }
    Text.ContainsAt(g, Name(c));
  }

  /** Different categories never share a tip. */
  lemma AdviceForInjective(c: Category, d: Category)
    requires c != d
    ensures AdviceFor(c) != AdviceFor(d)
  {
    TipLengths(c);
    TipLengths(d);
    assert |AdviceFor(c)| != |AdviceFor(d)|;
  }

  /** The if/elif chain of app.py:106-117 for one category. */
  method Tip(category: Category) returns (tip: string)
    ensures tip == AdviceFor(category)
  {
    if category == Food {
      tip := FoodTip;
    } else if category == Shopping {
      tip := ShoppingTip;
    } else if category == Transport {
      tip := TransportTip;
    } else if category == Utilities {
      tip := UtilitiesTip;
    } else if category == Entertainment {
      tip := EntertainmentTip;
    } else {
      tip := GenericAdvice(category);
    }
  }

  /** The advice loop of app.py:104-117: one tip per top category, in order. */
  method Advise(top: seq<Category>) returns (advice: seq<string>)
    ensures |advice| == |top|
    ensures forall i :: 0 <= i < |top| ==> advice[i] == AdviceFor(top[i])
  {
    advice := [];
    var i := 0;
    while i < |top|
      invariant 0 <= i <= |top|
      invariant |advice| == i
      invariant forall k :: 0 <= k < i ==> advice[k] == AdviceFor(top[k])
    {
      var tip := Tip(top[i]);
      advice := advice + [tip];
      i := i + 1;
    }
  }
}
