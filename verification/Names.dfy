/** The text encodings of agent and reservation identifiers. */
module Names {

  function Digit(d: nat): (c: char)
    requires d < 10
    ensures c != '-'
  {
    ['0', '1', '2', '3', '4', '5', '6', '7', '8', '9'][d]
  }

  function Decimal(n: nat): (s: string)
    ensures s != [] && '-' !in s
  {
    if n < 10 then [Digit(n)] else Decimal(n / 10) + [Digit(n % 10)]
  }

  lemma DigitInjective(a: nat, b: nat)
    requires a < 10 && b < 10 && Digit(a) == Digit(b)
    ensures a == b
  {
  }

  lemma {:induction false} DecimalInjective(a: nat, b: nat)
    requires Decimal(a) == Decimal(b)
    ensures a == b
  {
    var s, t := Decimal(a), Decimal(b);
    assert s[|s|-1] == Digit(a % 10) && t[|t|-1] == Digit(b % 10);
    DigitInjective(a % 10, b % 10);
    if a >= 10 && b >= 10 {
      assert s[..|s|-1] == Decimal(a / 10) && t[..|t|-1] == Decimal(b / 10);
      DecimalInjective(a / 10, b / 10);
    }
  }

  function AgentName(task: string, generation: nat): string {
    "agent-" + task + "-" + Decimal(generation)
  }

  function ReservationName(n: nat): string {
    "reservation-" + Decimal(n)
  }

  lemma LastDash(x: string, d: string)
    requires '-' !in d
    ensures var s := x + "-" + d;
            s[|x|] == '-' && forall i :: |x| < i < |s| ==> s[i] != '-'
  {
    var s := x + "-" + d;
    forall i | |x| < i < |s| ensures s[i] != '-' {
      assert s[i] == d[i - |x| - 1];
    }
  }

  lemma SplitAtLastDash(x: string, d: string, y: string, e: string)
    requires '-' !in d && '-' !in e
    requires x + "-" + d == y + "-" + e
    ensures x == y && d == e
  {
    LastDash(x, d);
    LastDash(y, e);
    var s, t := x + "-" + d, y + "-" + e;
    assert s[|x|] == t[|x|] && s[|y|] == t[|y|];
    assert s[..|x|] == x && t[..|y|] == y;
    assert s[|x| + 1..] == d && t[|y| + 1..] == e;
  }

  /** Agent ids are never shared: the encoding determines task and generation,
      whatever dashes and digits the task id contains. */
  lemma AgentNameInjective(task: string, generation: nat, task': string, generation': nat)
    requires AgentName(task, generation) == AgentName(task', generation')
    ensures task == task' && generation == generation'
  {
    var a, b := "agent-" + task, "agent-" + task';
    SplitAtLastDash(a, Decimal(generation), b, Decimal(generation'));
    assert a[6..] == task && b[6..] == task';
    DecimalInjective(generation, generation');
  }

  lemma ReservationNameInjective(n: nat, m: nat)
    requires ReservationName(n) == ReservationName(m)
    ensures n == m
  {
    assert ReservationName(n)[12..] == Decimal(n) && ReservationName(m)[12..] == Decimal(m);
    DecimalInjective(n, m);
  }
}
