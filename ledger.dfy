/** Loading and normalising the uploaded statement (app.py:13-41): the frame
    read from the file loses every row with a missing cell, then every row
    whose date does not parse; the amounts are converted to numbers (one
    non-numeric amount aborts the whole load) and the derived columns
    `Type`, `Category` and `YearMonth` are added. */
module Ledger {
  import opened Wrappers
  import opened Sequences
  import opened Categorizer
  import opened Text

  /** The years pandas' nanosecond timestamps can represent (1677-09-21 to 2262-04-11). */
  type Year = y: int | 1677 <= y <= 2262 witness 1970
  type MonthNumber = m: int | 1 <= m <= 12 witness 1
  type DayNumber = d: int | 1 <= d <= 31 witness 1

  datatype Date = Date(year: Year, month: MonthNumber, day: DayNumber)

  /** The calendar-month bucket that `to_period('M')` gives a date. */
  datatype YearMonth = YearMonth(year: Year, month: MonthNumber)

  datatype TxnType = Income | Expense

  /** One row of the cleaned, categorised frame. */
  datatype Txn = Txn(date: Date, description: string, amount: real,
                     kind: TxnType, category: Category, yearMonth: YearMonth)

  /** One row of the frame as read from the file: a cell is `None` when empty. */
  datatype RawRow = RawRow(date: Option<string>, description: Option<string>,
                           amount: Option<string>, extra: seq<Option<string>>)

  /** The frame as read: which of the three required columns the header has,
      and the rows (cells of absent columns are ignored). */
  datatype RawTable = RawTable(hasDate: bool, hasDescription: bool, hasAmount: bool, rows: seq<RawRow>)

  datatype Column = DateColumn | DescriptionColumn | AmountColumn

  /** Why the load aborts: a required column is absent (pandas' `KeyError`), or
      some remaining amount is not a number (`astype(float)` raises `ValueError`). */
  datatype LoadError = MissingColumn(column: Column) | NonNumericAmount

  /** The `Type` column (app.py:20). */
  function TypeOf(amount: real): (k: TxnType)
    ensures k == Income <==> amount > 0.0
    ensures k == Expense ==> amount <= 0.0
  {
    if amount > 0.0 then Income else Expense
  }

  /** The `YearMonth` column (app.py:41). */
  function MonthOf(d: Date): YearMonth
  {
    YearMonth(d.year, d.month)
  }

  /** Calendar order of month buckets. */
  predicate Before(a: YearMonth, b: YearMonth)
  {
    a.year < b.year || (a.year == b.year && a.month < b.month)
  }

  /** The bucket as the `YearMonth` column holds it: the text "YYYY-MM". */
  function MonthText(m: YearMonth): string
  {
    Digits(4, m.year) + "-" + Digits(2, m.month)
  }

  /** Sorting the "YYYY-MM" texts, as `groupby` does with the string keys,
      gives calendar order: the text order and `Before` agree on every pair. */
  lemma MonthTextOrder(a: YearMonth, b: YearMonth)
    ensures Before(a, b) <==> LexLess(MonthText(a), MonthText(b))
  {
    assert Pow10(4) == 10000 && Pow10(2) == 100;
    var ya, yb := Digits(4, a.year), Digits(4, b.year);
    DigitsOrder(4, a.year, b.year);
    DigitsInjective(4, a.year, b.year);
    DigitsOrder(2, a.month, b.month);
    LexLessConcat(ya, "-", yb, "-");
    LexLessConcat(ya + "-", Digits(2, a.month), yb + "-", Digits(2, b.month));
    assert ya + "-" == yb + "-" <==> ya == yb by {
      if ya + "-" == yb + "-" { assert ya == (ya + "-")[..4] && yb == (yb + "-")[..4]; }
    }
  }

  /** Distinct buckets have distinct texts, and no text holds a comma. */
  lemma MonthTextShape(a: YearMonth, b: YearMonth)
    ensures MonthText(a) == MonthText(b) <==> a == b
    ensures NoComma(MonthText(a))
  {
    assert Pow10(4) == 10000 && Pow10(2) == 100;
    DigitsInjective(4, a.year, b.year);
    DigitsInjective(2, a.month, b.month);
    DigitsAreDigits(4, a.year);
    DigitsAreDigits(2, a.month);
    var ya, yb := Digits(4, a.year), Digits(4, b.year);
    var ma, mb := Digits(2, a.month), Digits(2, b.month);
    if MonthText(a) == MonthText(b) {
      assert ya == MonthText(a)[..4] && yb == MonthText(b)[..4];
      assert ma == MonthText(a)[5..] && mb == MonthText(b)[5..];
    }
    forall i | 0 <= i < 7 ensures MonthText(a)[i] != ',' {
      if i < 4 { assert MonthText(a)[i] == ya[i]; }
      else if i > 4 { assert MonthText(a)[i] == ma[i - 5]; }
    }
  }

  /** `dropna()` keeps a row only when none of its cells is empty (app.py:14). */
  predicate Complete(t: RawTable, r: RawRow)
  {
    && (t.hasDate ==> r.date.Some?)
    && (t.hasDescription ==> r.description.Some?)
    && (t.hasAmount ==> r.amount.Some?)
    && forall i :: 0 <= i < |r.extra| ==> r.extra[i].Some?
  }

  /** `to_datetime(errors='coerce')` on the row's date cell: `None` stands for `NaT`. */
  function ParsedDate(r: RawRow, parseDate: string -> Option<Date>): Option<Date>
  {
    if r.date.Some? then parseDate(r.date.value) else None
  }

  /** `astype(float)` on the row's amount cell: `None` when the text is not a number. */
  function ParsedAmount(r: RawRow, parseAmount: string -> Option<real>): Option<real>
  {
    if r.amount.Some? then parseAmount(r.amount.value) else None
  }

  /** A row survives both row-dropping steps (app.py:14 and 17-18). */
  predicate Survives(t: RawTable, parseDate: string -> Option<Date>, r: RawRow)
  {
    Complete(t, r) && ParsedDate(r, parseDate).Some?
  }

  /** The rows left after both dropping steps, in file order. */
  function Survivors(t: RawTable, parseDate: string -> Option<Date>): seq<RawRow>
  {
    Filter(t.rows, r => Survives(t, parseDate, r))
  }

  /** Every surviving amount is numeric, so `astype(float)` succeeds. */
  predicate AllNumeric(rows: seq<RawRow>, parseAmount: string -> Option<real>)
  {
    forall i :: 0 <= i < |rows| ==> ParsedAmount(rows[i], parseAmount).Some?
  }

  /** The cleaned row built from a raw row with its parsed date and amount
      (app.py:17-20, 40-41). */
  function Derive(r: RawRow, date: Date, amount: real): Txn
    requires r.description.Some?
  {
    Txn(date, r.description.value, amount, TypeOf(amount), Categorize(r.description.value), MonthOf(date))
  }

  /** The derived columns agree with the row's own date, description and amount. */
  predicate WellFormed(x: Txn)
  {
    x.kind == TypeOf(x.amount) && x.category == Categorize(x.description) && x.yearMonth == MonthOf(x.date)
  }

  predicate ValidLedger(l: seq<Txn>)
  {
    forall i :: 0 <= i < |l| ==> WellFormed(l[i])
  }

  /** The cleaned row `x` came from raw row `r`. */
  predicate DerivedFrom(x: Txn, r: RawRow, parseDate: string -> Option<Date>, parseAmount: string -> Option<real>)
  {
    r.description == Some(x.description) && ParsedDate(r, parseDate) == Some(x.date)
    && ParsedAmount(r, parseAmount) == Some(x.amount)
  }

  /** The load steps of app.py:13-41, with the frame threaded from step to step. */
  method Load(t: RawTable, parseDate: string -> Option<Date>, parseAmount: string -> Option<real>)
    returns (res: Result<seq<Txn>, LoadError>)
    ensures !t.hasDate ==> res == Failure(MissingColumn(DateColumn))
    ensures t.hasDate && !t.hasAmount ==> res == Failure(MissingColumn(AmountColumn))
    ensures t.hasDate && t.hasAmount ==>
      (res == Failure(NonNumericAmount) <==> !AllNumeric(Survivors(t, parseDate), parseAmount))
    ensures t.hasDate && t.hasAmount && !t.hasDescription && AllNumeric(Survivors(t, parseDate), parseAmount) ==>
      res == Failure(MissingColumn(DescriptionColumn))
    ensures res.Success? <==>
      t.hasDate && t.hasAmount && t.hasDescription && AllNumeric(Survivors(t, parseDate), parseAmount)
    ensures res.Success? ==>
      && |res.value| == |Survivors(t, parseDate)|
      && ValidLedger(res.value)
      && forall i :: 0 <= i < |res.value| ==> DerivedFrom(res.value[i], Survivors(t, parseDate)[i], parseDate, parseAmount)
  {
    var complete := r => Complete(t, r);
    var dated := r => ParsedDate(r, parseDate).Some?;
    var df := Filter(t.rows, complete);                      // df.dropna(inplace=True)
    if !t.hasDate {
      return Failure(MissingColumn(DateColumn));             // df['Date'] is a KeyError
    }
    df := Filter(df, dated);                                 // to_datetime, then dropna(subset=['Date'])
    FilterTwice(t.rows, complete, dated, r => Survives(t, parseDate, r));
    assert df == Survivors(t, parseDate);
    if !t.hasAmount {
      return Failure(MissingColumn(AmountColumn));           // df['Amount'] is a KeyError
    }
    if exists i :: 0 <= i < |df| && ParsedAmount(df[i], parseAmount).None? {
      return Failure(NonNumericAmount);                      // astype(float) raises
    }
    if !t.hasDescription {
      return Failure(MissingColumn(DescriptionColumn));      // df['Description'] is a KeyError
    }
    FilterMembers(t.rows, r => Survives(t, parseDate, r));
    assert forall i :: 0 <= i < |df| ==> Survives(t, parseDate, df[i]);
    var ledger := seq(|df|, i requires 0 <= i < |df| =>
      Derive(df[i], ParsedDate(df[i], parseDate).value, ParsedAmount(df[i], parseAmount).value));
    return Success(ledger);
  }

  /** Row dropping removes exactly the rows with an empty cell or an
      unparseable date and keeps the others in file order: the k-th survivor is
      the row at the k-th kept position, kept positions increase, and a row is
      among the survivors exactly when it passes both tests. */
  lemma {:induction false} SurvivorsAreOrderedSubsequence(t: RawTable, parseDate: string -> Option<Date>)
    ensures forall i :: 0 <= i < |t.rows| ==> (t.rows[i] in Survivors(t, parseDate) <==> Survives(t, parseDate, t.rows[i]))
    ensures var kept := Kept(t.rows, r => Survives(t, parseDate, r));
      && |kept| == |Survivors(t, parseDate)|
      && (forall k :: 0 <= k < |kept| ==> kept[k] < |t.rows| && Survivors(t, parseDate)[k] == t.rows[kept[k]])
      && (forall k, m :: 0 <= k < m < |kept| ==> kept[k] < kept[m])
      && (forall i :: 0 <= i < |t.rows| && Survives(t, parseDate, t.rows[i]) ==> i in kept)
  {
    var p := r => Survives(t, parseDate, r);
    FilterMembers(t.rows, p);
    FilterKeepsOrder(t.rows, p);
    var s := Survivors(t, parseDate);
    forall i | 0 <= i < |t.rows| && t.rows[i] in s ensures Survives(t, parseDate, t.rows[i]) {
      var k :| 0 <= k < |s| && s[k] == t.rows[i];
    }
  }

  /** A cleaned row with amount zero is an expense, and every expense row of a
      well-formed ledger has a non-positive amount. */
  lemma ExpenseAmountsNonPositive(l: seq<Txn>)
    requires ValidLedger(l)
    ensures forall i :: 0 <= i < |l| && l[i].kind == Expense ==> l[i].amount <= 0.0
    ensures forall i :: 0 <= i < |l| && l[i].kind == Income ==> l[i].amount > 0.0
  {
    forall i | 0 <= i < |l| ensures WellFormed(l[i]) { }
  }
}
