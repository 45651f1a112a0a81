/** The rule-based categoriser `categorize` (app.py:23-38): lower-case the
    description, then test keyword groups in a fixed order; the first group
    with a keyword occurring in the text gives the label, `Other` otherwise. */
module Categorizer {
  import opened Text

  datatype Category = Food | Transport | Utilities | Shopping | Salary | Entertainment | Other

  /** The label string stored in the `Category` column. */
  function Name(c: Category): string
  {
    match c
    case Food => "Food"
    case Transport => "Transport"
    case Utilities => "Utilities"
    case Shopping => "Shopping"
    case Salary => "Salary"
    case Entertainment => "Entertainment"
    case Other => "Other"
  }

  /** The if/elif cascade exactly as written. */
  function Categorize(description: string): Category
  {
    var d := Lower(description);
    if Contains(d, "zomato") || Contains(d, "swiggy") || Contains(d, "restaurant") then Food
    else if Contains(d, "uber") || Contains(d, "ola") || Contains(d, "fuel") || Contains(d, "petrol") then Transport
    else if Contains(d, "electricity") || Contains(d, "bill") || Contains(d, "internet") then Utilities
    else if Contains(d, "amazon") || Contains(d, "flipkart") || Contains(d, "shopping") || Contains(d, "big bazaar") then Shopping
    else if Contains(d, "salary") || Contains(d, "income") then Salary
    else if Contains(d, "netflix") then Entertainment
    else Other
  }

  /** One keyword group of the cascade and the label it assigns. */
  datatype Rule = Rule(keywords: seq<string>, category: Category)

  /** The cascade as an ordered table, in precedence order. */
  const Rules: seq<Rule> := [
    Rule(["zomato", "swiggy", "restaurant"], Food),
    Rule(["uber", "ola", "fuel", "petrol"], Transport),
    Rule(["electricity", "bill", "internet"], Utilities),
    Rule(["amazon", "flipkart", "shopping", "big bazaar"], Shopping),
    Rule(["salary", "income"], Salary),
    Rule(["netflix"], Entertainment)
  ]

  /** Some keyword of the list occurs in `text`. */
  predicate AnyKeyword(text: string, keywords: seq<string>)
  {
    |keywords| > 0 && (Contains(text, keywords[0]) || AnyKeyword(text, keywords[1..]))
  }

  predicate Matches(text: string, rule: Rule)
  {
    AnyKeyword(text, rule.keywords)
  }

  lemma KeywordList1(text: string, a: string)
    ensures AnyKeyword(text, [a]) <==> Contains(text, a)
  {
    assert [a][1..] == [];
  }

  lemma KeywordList2(text: string, a: string, b: string)
    ensures AnyKeyword(text, [a, b]) <==> Contains(text, a) || Contains(text, b)
  {
    assert [a, b][1..] == [b];
    KeywordList1(text, b);
  }

  lemma KeywordList3(text: string, a: string, b: string, c: string)
    ensures AnyKeyword(text, [a, b, c]) <==> Contains(text, a) || Contains(text, b) || Contains(text, c)
  {
    assert [a, b, c][1..] == [b, c];
    KeywordList2(text, b, c);
  }

  lemma KeywordList4(text: string, a: string, b: string, c: string, e: string)
    ensures AnyKeyword(text, [a, b, c, e]) <==> Contains(text, a) || Contains(text, b) || Contains(text, c) || Contains(text, e)
  {
    assert [a, b, c, e][1..] == [b, c, e];
    KeywordList3(text, b, c, e);
  }

  /** The position of the first rule that matches `text`, or `|rules|` when none does. */
  function FirstMatch(rules: seq<Rule>, text: string): (k: nat)
    ensures k <= |rules|
  {
    if rules == [] then 0
    else if Matches(text, rules[0]) then 0
    else 1 + FirstMatch(rules[1..], text)
  }

  /** The label chosen by a rule table: that of the first matching rule, else `Other`. */
  function Classify(rules: seq<Rule>, text: string): Category
  {
    var k := FirstMatch(rules, text);
    if k < |rules| then rules[k].category else Other
  }

  /** A rule table is read front to back: the head rule decides when it matches. */
  lemma ClassifyStep(rules: seq<Rule>, text: string)
    requires rules != []
    ensures Classify(rules, text) ==
      if Matches(text, rules[0]) then rules[0].category else Classify(rules[1..], text)
  {
  }

  /** `FirstMatch` is the first matching position: the rule there matches and
      no earlier rule does. */
  lemma {:induction false} FirstMatchIsFirst(rules: seq<Rule>, text: string, k: nat)
    requires k <= |rules|
    ensures FirstMatch(rules, text) == k <==>
      (k < |rules| ==> Matches(text, rules[k])) && forall j :: 0 <= j < k ==> !Matches(text, rules[j])
  {
    if rules != [] && k > 0 {
      FirstMatchIsFirst(rules[1..], text, k - 1);
      forall j | 0 < j < k ensures rules[1..][j - 1] == rules[j] { }
    }
  }

  /** The cascade as written and the ordered rule table agree on every description. */
  lemma CategorizeFollowsRules(description: string)
    ensures Categorize(description) == Classify(Rules, Lower(description))
  {
    var d := Lower(description);
    KeywordList3(d, "zomato", "swiggy", "restaurant");
    KeywordList4(d, "uber", "ola", "fuel", "petrol");
    KeywordList3(d, "electricity", "bill", "internet");
    KeywordList4(d, "amazon", "flipkart", "shopping", "big bazaar");
    KeywordList2(d, "salary", "income");
    KeywordList1(d, "netflix");
    ClassifyStep(Rules, d);
    ClassifyStep(Rules[1..], d);
    ClassifyStep(Rules[2..], d);
    ClassifyStep(Rules[3..], d);
    ClassifyStep(Rules[4..], d);
    ClassifyStep(Rules[5..], d);
    assert Rules[5..][1..] == [];
  }

  /** Precedence: a description gets the label of the k-th group exactly when
      a keyword of that group occurs in its lower-cased text and no keyword of
      an earlier group does; it gets `Other` exactly when no group matches. */
  lemma CategorizePrecedence(description: string, k: nat)
    requires k < |Rules|
    ensures Categorize(description) == Rules[k].category <==>
      Matches(Lower(description), Rules[k]) && forall j :: 0 <= j < k ==> !Matches(Lower(description), Rules[j])
    ensures Categorize(description) == Other <==> forall j :: 0 <= j < |Rules| ==> !Matches(Lower(description), Rules[j])
  {
    var d := Lower(description);
    CategorizeFollowsRules(description);
    FirstMatchIsFirst(Rules, d, k);
    FirstMatchIsFirst(Rules, d, |Rules|);
    var m := FirstMatch(Rules, d);
    if m < |Rules| && Rules[m].category == Rules[k].category {
      assert m == k;
    }
  }

  /** Case-insensitivity: a description and its lower-cased form get the same label. */
  lemma CategorizeIgnoresCase(description: string)
    ensures Categorize(description) == Categorize(Lower(description))
  {
    LowerIdempotent(description);
  }

  /** Two descriptions that lower-case alike get the same label; in particular
      the empty description, which contains no keyword, is `Other`. */
  lemma CategorizeByLowerText(d1: string, d2: string)
    requires Lower(d1) == Lower(d2)
    ensures Categorize(d1) == Categorize(d2)
    ensures Categorize("") == Other
  {
  }

  /** A description naming both a ride ("uber") and a bill, and nothing from
      the food group, is Transport: Transport precedes Utilities. */
  lemma TransportBeforeUtilities(description: string)
    requires Contains(Lower(description), "uber") && Contains(Lower(description), "bill")
    requires !Matches(Lower(description), Rules[0])
    ensures Categorize(description) == Transport
  {
    CategorizePrecedence(description, 1);
    assert AnyKeyword(Lower(description), Rules[1].keywords);
  }

  lemma UberBillExample()
    ensures Categorize("Uber bill") == Transport
  {
    UberBillKeywords();
  }

  lemma UberBillKeywords()
    ensures Lower("Uber bill") == "uber bill"
    ensures Contains("uber bill", "uber")
    ensures !Contains("uber bill", "zomato") && !Contains("uber bill", "swiggy") && !Contains("uber bill", "restaurant")
  {
    assert IsPrefix("uber", "uber bill");
    UberBillMissesFood();
  }

  lemma UberBillMissesFood()
    ensures !Contains("uber bill", "zomato") && !Contains("uber bill", "swiggy") && !Contains("uber bill", "restaurant")
  {
    var d := "uber bill";
    NotContainsChar(d, "zomato");
    NotContainsChar(d, "swiggy");
    NotContainsLonger(d, "restaurant");
  }

  /** "Salary" matches no keyword of the four groups tested before the
      salary group, so the cascade reaches it. */
  lemma SalaryExample()
    ensures Categorize("Salary") == Salary
  {
    SalaryKeywords();
  }

  lemma SalaryKeywords()
    ensures Lower("Salary") == "salary"
    ensures Contains("salary", "salary")
    ensures !Contains("salary", "zomato") && !Contains("salary", "swiggy") && !Contains("salary", "restaurant")
    ensures !Contains("salary", "uber") && !Contains("salary", "ola") && !Contains("salary", "fuel") && !Contains("salary", "petrol")
    ensures !Contains("salary", "electricity") && !Contains("salary", "bill") && !Contains("salary", "internet")
    ensures !Contains("salary", "amazon") && !Contains("salary", "flipkart") && !Contains("salary", "shopping")
    ensures !Contains("salary", "big bazaar")
  {
    assert IsPrefix("salary", "salary");
    SalaryMissesFirstHalf();
    SalaryMissesSecondHalf();
  }

  lemma SalaryMissesFirstHalf()
    ensures !Contains("salary", "zomato") && !Contains("salary", "swiggy") && !Contains("salary", "restaurant")
    ensures !Contains("salary", "uber") && !Contains("salary", "ola") && !Contains("salary", "fuel") && !Contains("salary", "petrol")
  {
    var d := "salary";
    NotContainsChar(d, "zomato");
    NotContainsAtStart(d, "swiggy");
    NotContainsLonger(d, "restaurant");
    NotContainsChar(d, "uber");
    NotContainsChar(d, "ola");
    NotContainsChar(d, "fuel");
    NotContainsChar(d, "petrol");
  }

  lemma SalaryMissesSecondHalf()
    ensures !Contains("salary", "electricity") && !Contains("salary", "bill") && !Contains("salary", "internet")
    ensures !Contains("salary", "amazon") && !Contains("salary", "flipkart") && !Contains("salary", "shopping")
    ensures !Contains("salary", "big bazaar")
  {
    var d := "salary";
    NotContainsLonger(d, "electricity");
    NotContainsChar(d, "bill");
    NotContainsChar(d, "internet");
    NotContainsAtStart(d, "amazon");
    NotContainsChar(d, "flipkart");
    NotContainsLonger(d, "shopping");
    NotContainsLonger(d, "big bazaar");
  }

  /** A keyword as long as the text occurs in it only at the start. */
  lemma NotContainsAtStart(s: string, p: string)
    requires |p| == |s| && s != p
    ensures !Contains(s, p)
  {
    ContainsAt(s, p);
  }

  lemma ZomatoExample()
    ensures Categorize("Zomato") == Food
  {
    assert Lower("Zomato") == "zomato";
    assert IsPrefix("zomato", "zomato");
  }
}
