/** The text that keys a proposal's idempotency entry: it tells the task and the attempt apart, so the
    model may key that table by the pair. */
module ProposalKey {

  function Digit(n: nat): char
    requires n < 10
  {
    '0' + n as char
  }

  /** The decimal digits of a number, as Python prints it. */
  function Decimal(n: nat): string {
    if n < 10 then [Digit(n)] else Decimal(n / 10) + [Digit(n % 10)]
  }

  function KeyText(task: string, attempt: nat): string { "proposal:" + task + ":" + Decimal(attempt) }

  lemma {:induction false} DecimalHasNoColon(n: nat)
    ensures Decimal(n) != "" && forall i :: 0 <= i < |Decimal(n)| ==> Decimal(n)[i] != ':'
    decreases n
  {
    if n >= 10 { DecimalHasNoColon(n / 10); }
  }

  lemma DecimalLength(n: nat)
    ensures |Decimal(n)| == 1 <==> n < 10
  {
    if n >= 10 { DecimalHasNoColon(n / 10); }
  }

  lemma {:induction false} DecimalIsInjective(m: nat, n: nat)
    requires Decimal(m) == Decimal(n)
    ensures m == n
    decreases m
  {
    DecimalLength(m);
    DecimalLength(n);
    var d, e := Decimal(m), Decimal(n);
    assert d[|d|-1] == Digit(m % 10) && e[|e|-1] == Digit(n % 10);
    if m >= 10 {
      assert d[..|d|-1] == Decimal(m / 10) && e[..|e|-1] == Decimal(n / 10);
      DecimalIsInjective(m / 10, n / 10);
    }
  }

  /** A task id may itself hold colons; the last one always ends it. */
  lemma SplitAtLastColon(a: string, x: string, b: string, y: string)
    requires a + ":" + x == b + ":" + y
    requires (forall i :: 0 <= i < |x| ==> x[i] != ':') && (forall i :: 0 <= i < |y| ==> y[i] != ':')
    ensures a == b && x == y
  {
    var t, u := a + ":" + x, b + ":" + y;
    assert t[|a|] == ':' && u[|b|] == ':';
    assert |a| == |b|;
    assert t[..|a|] == a && u[..|b|] == b;
    assert t[|a|+1..] == x && u[|b|+1..] == y;
  }

  lemma KeyTextIsInjective(task: string, attempt: nat, task': string, attempt': nat)
    requires KeyText(task, attempt) == KeyText(task', attempt')
    ensures task == task' && attempt == attempt'
  {
    DecimalHasNoColon(attempt);
    DecimalHasNoColon(attempt');
    SplitAtLastColon("proposal:" + task, Decimal(attempt), "proposal:" + task', Decimal(attempt'));
    var p := "proposal:";
    assert (p + task)[|p|..] == task && (p + task')[|p|..] == task';
    DecimalIsInjective(attempt, attempt');
  }
}
