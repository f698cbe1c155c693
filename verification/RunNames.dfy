/** The names given to Runs: an owner's name, a dash and a time in seconds; and why no two owners or times share one. */
module RunNames {
  const SECOND: int := 1_000_000_000

  function Decimal(n: nat): (text: string)
    ensures |text| >= 1
  {
    var digit := [(n % 10) as char + '0'];
    if n < 10 then digit else Decimal(n / 10) + digit
  }

  function SignedDecimal(n: int): string { if n < 0 then "-" + Decimal(-n) else Decimal(n) }

  function ScheduledRunName(name: string, at: int): string { name + "-" + SignedDecimal(at / SECOND) }

  /** The API server accepts no object name that is empty or ends in a dash. */
  ghost predicate ValidName(name: string) { name != "" && name[|name| - 1] != '-' }

  lemma {:induction false} DecimalHasNoDash(n: nat, i: nat)
    requires i < |Decimal(n)|
    ensures Decimal(n)[i] != '-'
  {
    if n >= 10 && i < |Decimal(n / 10)| {
      DecimalHasNoDash(n / 10, i);
    }
  }

  /** The number a text of digits stands for. */
  function Value(text: string): int {
    if text == "" then 0 else 10 * Value(text[..|text| - 1]) + (text[|text| - 1] as int - '0' as int)
  }

  /** The digits written are those of the number, with a zero in front only for zero itself. */
  lemma {:induction false} DecimalIsTheNumber(n: nat)
    ensures Value(Decimal(n)) == n && (n > 0 ==> Decimal(n)[0] != '0')
    ensures forall i :: 0 <= i < |Decimal(n)| ==> '0' <= Decimal(n)[i] <= '9'
  {
    if n < 10 {
      assert Decimal(n)[..0] == "" && Value("") == 0;
    } else {
      var digits := Decimal(n);
      assert digits[..|digits| - 1] == Decimal(n / 10);
      DecimalIsTheNumber(n / 10);
    }
  }

  lemma {:induction false} DecimalInjective(a: nat, b: nat)
    requires Decimal(a) == Decimal(b)
    ensures a == b
  {
    var s := Decimal(a);
    assert s[|s| - 1] == (a % 10) as char + '0' == (b % 10) as char + '0';
    if a >= 10 && b >= 10 {
      assert s[..|s| - 1] == Decimal(a / 10) == Decimal(b / 10);
      DecimalInjective(a / 10, b / 10);
    }
  }

  lemma DashNotLater(p: string, a: nat, q: string, b: nat)
    requires q != "" && q[|q| - 1] == '-' && p + Decimal(a) == q + Decimal(b)
    ensures |q| <= |p|
  {
    hide Decimal;
    var s := p + Decimal(a);
    assert s[|q| - 1] == '-';
    if |p| < |q| {
      DecimalHasNoDash(a, |q| - 1 - |p|);
    }
  }

  /** The last dash tells the two parts apart. */
  lemma SplitAtLastDash(p: string, a: nat, q: string, b: nat)
    requires p != "" && p[|p| - 1] == '-' && q != "" && q[|q| - 1] == '-'
    requires p + Decimal(a) == q + Decimal(b)
    ensures p == q && a == b
  {
    hide Decimal;
    var s := p + Decimal(a);
    DashNotLater(p, a, q, b);
    DashNotLater(q, b, p, a);
    assert s[..|p|] == p && s[|p|..] == Decimal(a);
    assert s[..|q|] == q && s[|q|..] == Decimal(b);
    DecimalInjective(a, b);
  }

  function Sign(u: int): string { if u < 0 then "--" else "-" }

  function Magnitude(u: int): nat { if u < 0 then -u else u }

  lemma NameAsPrefix(name: string, u: int)
    ensures name + "-" + SignedDecimal(u) == name + Sign(u) + Decimal(Magnitude(u))
  {
  }

  lemma PrefixesInjective(n1: string, u1: int, n2: string, u2: int)
    requires ValidName(n1) && ValidName(n2) && n1 + Sign(u1) == n2 + Sign(u2)
    ensures n1 == n2 && (u1 < 0 <==> u2 < 0)
  {
    var p := n1 + Sign(u1);
    assert p[|p| - 2] == '-' <==> u1 < 0;
    assert p[|p| - 2] == '-' <==> u2 < 0;
    assert n1 == p[..|n1|] && n2 == p[..|n2|];
  }

  /** A Run name tells both its schedule and its window. */
  lemma RunNamesInjective(n1: string, at1: int, n2: string, at2: int)
    requires ValidName(n1) && ValidName(n2) && at1 % SECOND == 0 && at2 % SECOND == 0
    requires ScheduledRunName(n1, at1) == ScheduledRunName(n2, at2)
    ensures n1 == n2 && at1 == at2
  {
    hide Decimal, SignedDecimal, ValidName;
    var u1, u2 := at1 / SECOND, at2 / SECOND;
    NameAsPrefix(n1, u1);
    NameAsPrefix(n2, u2);
    SplitAtLastDash(n1 + Sign(u1), Magnitude(u1), n2 + Sign(u2), Magnitude(u2));
    PrefixesInjective(n1, u1, n2, u2);
  }
}
