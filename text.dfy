/** Text helpers with Python's string semantics, restricted to ASCII where
    Python consults Unicode tables: `str.lower`, `in` on strings, `", ".join`
    and the code-point ordering `<` that pandas uses to sort string keys. */
module Text {

  predicate IsUpper(c: char) { 'A' <= c <= 'Z' }

  /** ASCII lower-casing of one character. */
  function LowerChar(c: char): char
  {
    if IsUpper(c) then (c as int + 32) as char else c
  }

  /** `str.lower()` restricted to ASCII letters. */
  function Lower(s: string): (r: string)
    ensures |r| == |s|
  {
    if s == [] then [] else [LowerChar(s[0])] + Lower(s[1..])
  }

  /** Lower-casing keeps every non-letter, turns every capital into its small
      letter, and leaves no capital behind. */
  lemma {:induction false} LowerPointwise(s: string)
    ensures forall i :: 0 <= i < |s| && !IsUpper(s[i]) ==> Lower(s)[i] == s[i]
    ensures forall i :: 0 <= i < |s| && IsUpper(s[i]) ==> Lower(s)[i] as int == s[i] as int + 32
    ensures forall i :: 0 <= i < |s| ==> !IsUpper(Lower(s)[i])
  {
    if s != [] {
      LowerPointwise(s[1..]);
      forall i | 0 < i < |s| ensures Lower(s)[i] == Lower(s[1..])[i - 1] && s[1..][i - 1] == s[i] { }
    }
  }

  /** Lower-casing twice is lower-casing once. */
  lemma {:induction false} LowerIdempotent(s: string)
    ensures Lower(Lower(s)) == Lower(s)
  {
    if s != [] {
      LowerIdempotent(s[1..]);
      assert Lower(s)[1..] == Lower(s[1..]);
    }
  }

  predicate IsPrefix(p: string, s: string)
  {
    |p| <= |s| && s[..|p|] == p
  }

  /** Python's `p in s` for strings: `p` occurs in `s` as a contiguous run. */
  predicate Contains(s: string, p: string)
    decreases |s|
  {
    IsPrefix(p, s) || (|s| > 0 && Contains(s[1..], p))
  }

  /** `p` occurs in `s` starting at position `i`. */
  predicate OccursAt(s: string, p: string, i: int)
  {
    0 <= i <= |s| - |p| && s[i..i + |p|] == p
  }

  /** `Contains` agrees with the definition by position: `p` occurs in `s`
      exactly when some slice of `s` equals `p`. */
  lemma {:induction false} ContainsAt(s: string, p: string)
    ensures Contains(s, p) <==> exists i :: OccursAt(s, p, i)
  {
    if s == [] {
      if IsPrefix(p, s) { assert OccursAt(s, p, 0); }
    } else {
      ContainsAt(s[1..], p);
      if IsPrefix(p, s) {
        assert OccursAt(s, p, 0);
      } else if Contains(s[1..], p) {
        var i :| OccursAt(s[1..], p, i);
        assert s[1..][i..i + |p|] == s[i + 1..i + 1 + |p|];
        assert OccursAt(s, p, i + 1);
      }
      if i :| OccursAt(s, p, i) {
        if i > 0 {
          assert s[1..][i - 1..i - 1 + |p|] == s[i..i + |p|];
          assert OccursAt(s[1..], p, i - 1);
        } else {
          assert IsPrefix(p, s);
        }
      }
    }
  }

  /** A pattern longer than the text never occurs in it. */
  lemma NotContainsLonger(s: string, p: string)
    requires |p| > |s|
    ensures !Contains(s, p)
  {
    ContainsAt(s, p);
  }

  /** A pattern whose first character is absent from the text never occurs in it. */
  lemma NotContainsChar(s: string, p: string)
    requires |p| > 0 && p[0] !in s
    ensures !Contains(s, p)
  {
    ContainsAt(s, p);
  }

  /** Python's `sep.join(xs)`. */
  function Join(xs: seq<string>, sep: string): string
  {
    if |xs| == 0 then ""
    else if |xs| == 1 then xs[0]
    else xs[0] + sep + Join(xs[1..], sep)
  }

  /** Splits `s` at every occurrence of ", ", the separator the summary uses. */
  function SplitCommaSpace(s: string): (r: seq<string>)
    ensures |r| >= 1
    decreases |s|
  {
    if |s| < 2 then [s]
    else if s[..2] == ", " then [""] + SplitCommaSpace(s[2..])
    else
      var rest := SplitCommaSpace(s[1..]);
      [[s[0]] + rest[0]] + rest[1..]
  }

  predicate NoComma(s: string) { forall i :: 0 <= i < |s| ==> s[i] != ',' }

  lemma {:induction false} SplitWithoutComma(x: string)
    requires NoComma(x)
    ensures SplitCommaSpace(x) == [x]
  {
    if |x| >= 2 {
      SplitWithoutComma(x[1..]);
      assert [x[0]] + x[1..] == x;
    }
  }

  lemma {:induction false} SplitFirstField(x: string, rest: string)
    requires NoComma(x)
    ensures SplitCommaSpace(x + ", " + rest) == [x] + SplitCommaSpace(rest)
  {
    var s := x + ", " + rest;
    if x == [] {
      assert s[..2] == ", " && s[2..] == rest;
    } else {
      assert s[..2] != ", " by { assert s[0] == x[0]; }
      assert s[1..] == x[1..] + ", " + rest;
      SplitFirstField(x[1..], rest);
      assert [x[0]] + x[1..] == x;
    }
  }

  /** Joining comma-free fields with ", " and splitting again gives the fields
      back: the joined list names exactly the given fields, in order. */
  lemma {:induction false} SplitJoin(xs: seq<string>)
    requires |xs| > 0
    requires forall k :: 0 <= k < |xs| ==> NoComma(xs[k])
    ensures SplitCommaSpace(Join(xs, ", ")) == xs
  {
    if |xs| == 1 {
      SplitWithoutComma(xs[0]);
    } else {
      SplitJoin(xs[1..]);
      SplitFirstField(xs[0], Join(xs[1..], ", "));
    }
  }

  /** Python's `a < b` on strings: code-point lexicographic order. */
  predicate LexLess(a: string, b: string)
  {
    |b| > 0 && (|a| == 0 || a[0] < b[0] || (a[0] == b[0] && LexLess(a[1..], b[1..])))
  }

  /** Comparing two concatenations whose first parts have the same length
      compares the first parts, and the second parts only on a tie. */
  lemma {:induction false} LexLessConcat(a1: string, a2: string, b1: string, b2: string)
    requires |a1| == |b1|
    ensures LexLess(a1 + a2, b1 + b2) <==> LexLess(a1, b1) || (a1 == b1 && LexLess(a2, b2))
  {
    if a1 == [] {
      assert a1 + a2 == a2 && b1 + b2 == b2;
    } else {
      LexLessConcat(a1[1..], a2, b1[1..], b2);
      assert (a1 + a2)[1..] == a1[1..] + a2;
      assert (b1 + b2)[1..] == b1[1..] + b2;
      assert a1 == b1 <==> a1[0] == b1[0] && a1[1..] == b1[1..] by {
        if a1[0] == b1[0] && a1[1..] == b1[1..] {
          assert a1 == [a1[0]] + a1[1..] && b1 == [b1[0]] + b1[1..];
        }
      }
    }
  }

  function DigitChar(d: nat): char
    requires d < 10
  {
    ('0' as int + d) as char
  }

  function Pow10(n: nat): nat
  {
    if n == 0 then 1 else 10 * Pow10(n - 1)
  }

  /** The last `n` decimal digits of `x`, zero-padded: `f"{x:0{n}d}"` for `x < 10^n`. */
  function Digits(n: nat, x: nat): (r: string)
    ensures |r| == n
  {
    if n == 0 then "" else Digits(n - 1, x / 10) + [DigitChar(x % 10)]
  }

  lemma {:induction false} DigitsAreDigits(n: nat, x: nat)
    ensures forall i :: 0 <= i < n ==> '0' <= Digits(n, x)[i] <= '9'
  {
    if n > 0 {
      DigitsAreDigits(n - 1, x / 10);
    }
  }

  lemma {:induction false} DigitsInjective(n: nat, x: nat, y: nat)
    requires x < Pow10(n) && y < Pow10(n)
    ensures Digits(n, x) == Digits(n, y) <==> x == y
  {
    if n > 0 {
      var dx, dy := Digits(n - 1, x / 10), Digits(n - 1, y / 10);
      DigitsInjective(n - 1, x / 10, y / 10);
      if Digits(n, x) == Digits(n, y) {
        assert Digits(n, x)[..n - 1] == dx && Digits(n, y)[..n - 1] == dy;
        assert Digits(n, x)[n - 1] == DigitChar(x % 10);
        assert Digits(n, y)[n - 1] == DigitChar(y % 10);
      }
    }
  }

  /** On numbers below `10^n`, the zero-padded decimal text orders like the numbers. */
  lemma {:induction false} DigitsOrder(n: nat, x: nat, y: nat)
    requires x < Pow10(n) && y < Pow10(n)
    ensures LexLess(Digits(n, x), Digits(n, y)) <==> x < y
  {
    if n > 0 {
      DigitsOrder(n - 1, x / 10, y / 10);
      DigitsInjective(n - 1, x / 10, y / 10);
      LexLessConcat(Digits(n - 1, x / 10), [DigitChar(x % 10)], Digits(n - 1, y / 10), [DigitChar(y % 10)]);
    } else {
      assert x == 0 && y == 0;
    }
  }
}
