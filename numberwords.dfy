/** English words for the numbers 0 to 99, as both copies of `getNumberWord` build them
    from the same three tables: a word for each unit, for each number in the teens and for
    each multiple of ten, joined with a hyphen for the numbers 21..99 that are not a
    multiple of ten. */
module NumberWords {

  const Ones: seq<string> :=
    ["Zero", "One", "Two", "Three", "Four", "Five", "Six", "Seven", "Eight", "Nine"]
  const Teens: seq<string> :=
    ["Ten", "Eleven", "Twelve", "Thirteen", "Fourteen", "Fifteen", "Sixteen", "Seventeen",
     "Eighteen", "Nineteen"]
  const Tens: seq<string> :=
    ["", "", "Twenty", "Thirty", "Forty", "Fifty", "Sixty", "Seventy", "Eighty", "Ninety"]

  /** The word for n < 100. */
  function Below100(n: nat): (r: string)
    requires n < 100
    ensures |r| > 0
  {
    if n < 10 then Ones[n]
    else if n < 20 then Teens[n - 10]
    else if n % 10 == 0 then Tens[n / 10]
    else Tens[n / 10] + "-" + Ones[n % 10]
  }

  /** Whether the word for n is a single table entry rather than a hyphenated pair. */
  predicate IsPlain(n: nat)
  {
    n < 20 || n % 10 == 0
  }

  /** The 28 single-entry words, numbered 0..27: the units, the teens, then the tens. */
  function Plain(k: nat): string
    requires k < 28
  {
    if k < 10 then Ones[k] else if k < 20 then Teens[k - 10] else Tens[k - 18]
  }

  /** The position in Plain of the word for a number whose word is plain. */
  function PlainIndex(n: nat): (k: nat)
    requires n < 100 && IsPlain(n)
    ensures k < 28 && Plain(k) == Below100(n)
  {
    if n < 20 then n else 18 + n / 10
  }

  /** The 28 single-entry words are pairwise different. */
  lemma PlainDistinct(a: nat, b: nat)
    requires a < b < 28
    ensures Plain(a) != Plain(b)
  {
    if a < 10 {
      if b < 10 { } else if b < 20 { } else { }
    } else if a < 20 {
      if b < 20 { } else { }
    } else {
    }
  }

  /** No single-entry word contains a hyphen. */
  lemma PlainHasNoHyphen(k: nat)
    requires k < 28
    ensures '-' !in Plain(k)
  {
  }

  /** Two words that both start with a hyphen-free part before their first hyphen agree
      on that part and on the rest. */
  lemma SplitAtHyphen(a: string, b: string, c: string, d: string)
    requires '-' !in a && '-' !in c
    requires a + "-" + b == c + "-" + d
    ensures a == c && b == d
  {
    var s := a + "-" + b;
    assert forall i :: 0 <= i < |a| ==> s[i] == a[i] != '-';
    assert forall i :: 0 <= i < |c| ==> s[i] == c[i] != '-';
    assert s[|a|] == '-' && s[|c|] == '-';
    assert |a| == |c|;
    assert a == s[..|a|] == c;
    assert b == s[|a| + 1..] == d;
  }

  /** Different numbers below 100 get different words, so a word names at most one number. */
  lemma {:induction false} Below100Injective(n: nat, m: nat)
    requires n < 100 && m < 100
    requires Below100(n) == Below100(m)
    ensures n == m
  {
    if IsPlain(n) && IsPlain(m) {
      var i, j := PlainIndex(n), PlainIndex(m);
      if i < j { PlainDistinct(i, j); } else if j < i { PlainDistinct(j, i); }
    } else if IsPlain(n) {
      PlainHasNoHyphen(PlainIndex(n));
    } else if IsPlain(m) {
      PlainHasNoHyphen(PlainIndex(m));
    } else {
      HyphenatedInjective(n, m);
    }
  }

  /** Two hyphenated words agree only when both their tens and their units do. */
  lemma HyphenatedInjective(n: nat, m: nat)
    requires n < 100 && m < 100 && !IsPlain(n) && !IsPlain(m)
    requires Below100(n) == Below100(m)
    ensures n == m
  {
    PlainHasNoHyphen(18 + n / 10);
    PlainHasNoHyphen(18 + m / 10);
    SplitAtHyphen(Tens[n / 10], Ones[n % 10], Tens[m / 10], Ones[m % 10]);
    var i, j := 18 + n / 10, 18 + m / 10;
    if i < j { PlainDistinct(i, j); } else if j < i { PlainDistinct(j, i); }
    var u, v := n % 10, m % 10;
    if u < v { PlainDistinct(u, v); } else if v < u { PlainDistinct(v, u); }
    assert n == 10 * (n / 10) + n % 10;
    assert m == 10 * (m / 10) + m % 10;
  }
}
