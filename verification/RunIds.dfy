/**
 The run-id scheme shared by the campaign runners:
 `<campaign>-<instance>-seed<seed or "default">-rep<repetition>`.
 Resuming a campaign trusts that one id names one (instance, seed, repetition).
 */
module RunIds {
  import opened Basics

  const DIGITS := "0123456789"

  function Decimal(n: nat): string {
    if n < 10 then [DIGITS[n]] else Decimal(n / 10) + [DIGITS[n % 10]]
  }

  /** How Python prints an `int`, negative ones included. */
  function IntText(n: int): string {
    if n < 0 then "-" + Decimal(-n) else Decimal(n)
  }

  function SeedText(seed: Option<int>): string {
    match seed
    case None => "default"
    case Some(n) => IntText(n)
  }

  function RunId(campaign: string, instance: string, seed: Option<int>, repetition: nat): string {
    campaign + "-" + instance + "-seed" + SeedText(seed) + "-rep" + Decimal(repetition)
  }

  lemma {:induction false} DecimalShape(n: nat)
    ensures |Decimal(n)| > 0 && Decimal(n)[0] != '-'
    ensures forall c :: c in Decimal(n) ==> c in DIGITS
  {
    if n >= 10 {
      DecimalShape(n / 10);
    }
  }

  lemma DigitsDistinct(a: nat, b: nat)
    requires a < 10 && b < 10 && DIGITS[a] == DIGITS[b]
    ensures a == b
  {
  }

  lemma {:induction false} DecimalInjective(m: nat, n: nat)
    requires Decimal(m) == Decimal(n)
    ensures m == n
  {
    DecimalShape(m / 10);
    DecimalShape(n / 10);
    var s, t := Decimal(m), Decimal(n);
    assert s[|s| - 1] == DIGITS[m % 10];
    assert t[|t| - 1] == DIGITS[n % 10];
    DigitsDistinct(m % 10, n % 10);
    if m >= 10 {
      assert s[..|s| - 1] == Decimal(m / 10);
      assert t[..|t| - 1] == Decimal(n / 10);
      DecimalInjective(m / 10, n / 10);
    }
  }

  lemma IntTextSign(n: int)
    ensures IntText(n) != "" && (IntText(n)[0] == '-' <==> n < 0)
    ensures n < 0 ==> IntText(n)[1..] == Decimal(-n)
    ensures n >= 0 ==> IntText(n) == Decimal(n)
  {
    if n >= 0 {
      DecimalShape(n);
    }
  }

  lemma IntTextInjective(m: int, n: int)
    requires IntText(m) == IntText(n)
    ensures m == n
  {
    IntTextSign(m);
    IntTextSign(n);
    if m < 0 {
      DecimalInjective(-m, -n);
    } else {
      DecimalInjective(m, n);
    }
  }

  /** A text splits in one way at the last occurrence of `mark`. */
  lemma SplitAtMark(a: string, x: string, b: string, y: string, mark: char)
    requires a + x == b + y
    requires a != [] && b != [] && a[|a| - 1] == mark == b[|b| - 1]
    requires mark !in x && mark !in y
    ensures a == b && x == y
  {
    assert forall k :: |a| <= k < |a + x| ==> (a + x)[k] in x;
    assert forall k :: |b| <= k < |b + y| ==> (b + y)[k] in y;
    assert (a + x)[|a| - 1] == mark && (b + y)[|b| - 1] == mark;
    assert |a| == |b|;
    assert (a + x)[..|a|] == a && (a + x)[|a|..] == x;
    assert (b + y)[..|b|] == b && (b + y)[|b|..] == y;
  }

  /** `d` ends "-seed" and occurs in no printed integer; "default" ends in `t`, no integer does. */
  lemma SeedSplit(a: string, s: Option<int>, b: string, t: Option<int>)
    requires a + "-seed" + SeedText(s) == b + "-seed" + SeedText(t)
    ensures a == b && s == t
  {
    var x, y := SeedText(s), SeedText(t);
    var p, q := a + "-seed", b + "-seed";
    IntTextShape(s);
    IntTextShape(t);
    if s.Some? && t.Some? {
      SplitAtMark(p, x, q, y, 'd');
      IntTextInjective(s.value, t.value);
    } else {
      assert (p + x)[|p + x| - 1] == x[|x| - 1];
      assert (q + y)[|q + y| - 1] == y[|y| - 1];
      assert |p + x| == |q + y|;
      assert s == t;
      assert (p + x)[..|p|] == p && (q + y)[..|q|] == q;
    }
    assert p[..|a|] == a && q[..|b|] == b;
  }

  lemma IntTextShape(seed: Option<int>)
    ensures |SeedText(seed)| > 0
    ensures seed.Some? ==> 'd' !in SeedText(seed) && 't' != SeedText(seed)[|SeedText(seed)| - 1]
  {
    if seed.Some? {
      var n := if seed.value < 0 then -seed.value else seed.value;
      DecimalShape(n);
      assert SeedText(seed)[|SeedText(seed)| - 1] in Decimal(n);
    }
  }

  /** Within one campaign a run id determines instance, seed and repetition. */
  lemma RunIdInjective(campaign: string, i: string, s: Option<int>, r: nat, j: string, t: Option<int>, q: nat)
    ensures RunId(campaign, i, s, r) == RunId(campaign, j, t, q) <==> i == j && s == t && r == q
  {
    if RunId(campaign, i, s, r) == RunId(campaign, j, t, q) {
      DecimalShape(r);
      DecimalShape(q);
      var a := campaign + "-" + i + "-seed" + SeedText(s);
      var b := campaign + "-" + j + "-seed" + SeedText(t);
      assert 'p' !in DIGITS;
      SplitAtMark(a + "-rep", Decimal(r), b + "-rep", Decimal(q), 'p');
      assert (a + "-rep")[..|a|] == a && (b + "-rep")[..|b|] == b;
      DecimalInjective(r, q);
      SeedSplit(campaign + "-" + i, s, campaign + "-" + j, t);
      assert (campaign + "-" + i)[|campaign| + 1..] == i;
      assert (campaign + "-" + j)[|campaign| + 1..] == j;
    }
  }

  /** Every run id of a campaign is caught by the campaign guard's `<campaign>-*` pattern. */
  lemma RunIdHasPrefix(campaign: string, instance: string, seed: Option<int>, repetition: nat)
    ensures campaign + "-" <= RunId(campaign, instance, seed, repetition)
  {
  }
}
