/** The names of intermediate and output files, and why no two of them collide. */
module MrNames {

  function Digit(d: nat): char
    requires d < 10
  {
    "0123456789"[d]
  }

  /** strconv.Itoa of a non-negative number. */
  function Itoa(n: nat): (s: string)
    ensures s != []
  {
    if n < 10 then [Digit(n)] else Itoa(n / 10) + [Digit(n % 10)]
  }

  function DigitValue(c: char): nat {
    if '0' <= c <= '9' then (c - '0') as int else 0
  }

  function Atoi(s: string): nat {
    if s == [] then 0 else 10 * Atoi(s[..|s| - 1]) + DigitValue(s[|s| - 1])
  }

  lemma {:induction false} AtoiItoa(n: nat)
    ensures Atoi(Itoa(n)) == n
  {
    if n >= 10 {
      AtoiItoa(n / 10);
      var s := Itoa(n);
      assert s[..|s| - 1] == Itoa(n / 10) && s[|s| - 1] == Digit(n % 10);
    }
  }

  lemma {:induction false} ItoaInjective(n: nat, m: nat)
    requires Itoa(n) == Itoa(m)
    ensures n == m
  {
    AtoiItoa(n);
    AtoiItoa(m);
  }

  lemma {:induction false} ItoaDigits(n: nat)
    ensures forall i :: 0 <= i < |Itoa(n)| ==> '0' <= Itoa(n)[i] <= '9'
  {
    if n >= 10 { ItoaDigits(n / 10); }
  }

  /** The file in which map task `t` leaves its pairs for reduce task `b`. */
  function Intermediate(t: nat, b: nat): string {
    "mr-" + (Itoa(t) + "-" + Itoa(b))
  }

  function Output(r: nat): string {
    "mr-out-" + Itoa(r)
  }

  /** The names tell the tasks: mr-X-Y for map task X and reduce task Y, mr-out-Y for the output. */
  lemma NamesTell(t: nat, b: nat)
    ensures Intermediate(t, b) == "mr-" + Itoa(t) + "-" + Itoa(b) && Output(b) == "mr-out-" + Itoa(b)
    ensures Atoi(Itoa(t)) == t && Atoi(Itoa(b)) == b && forall i :: 0 <= i < |Itoa(t)| ==> '0' <= Itoa(t)[i] <= '9'
  {
    AtoiItoa(t);
    AtoiItoa(b);
    ItoaDigits(t);
    assert "mr-" + Itoa(t) + "-" + Itoa(b) == "mr-" + (Itoa(t) + "-" + Itoa(b));
  }

  /** Two digit strings before the same separator are the same. */
  lemma SplitAtDash(a: string, b: string, x: string, y: string)
    requires a + "-" + x == b + "-" + y
    requires forall i :: 0 <= i < |a| ==> a[i] != '-'
    requires forall i :: 0 <= i < |b| ==> b[i] != '-'
    ensures a == b && x == y
  {
    var s := a + "-" + x;
    assert s[|a|] == '-' && s[|b|] == '-';
    assert a == s[..|a|] && b == s[..|b|];
    assert x == s[|a| + 1..] && y == s[|b| + 1..];
  }

  lemma {:induction false} IntermediateInjective(t: nat, b: nat, t': nat, b': nat)
    requires Intermediate(t, b) == Intermediate(t', b')
    ensures t == t' && b == b'
  {
    ItoaDigits(t);
    ItoaDigits(t');
    assert Intermediate(t, b)[3..] == Itoa(t) + "-" + Itoa(b);
    assert Intermediate(t', b')[3..] == Itoa(t') + "-" + Itoa(b');
    SplitAtDash(Itoa(t), Itoa(t'), Itoa(b), Itoa(b'));
    ItoaInjective(t, t');
    ItoaInjective(b, b');
  }

  lemma OutputInjective(r: nat, r': nat)
    requires Output(r) == Output(r')
    ensures r == r'
  {
    assert Output(r)[7..] == Itoa(r) && Output(r')[7..] == Itoa(r');
    ItoaInjective(r, r');
  }

  lemma OutputIsNotIntermediate(r: nat, t: nat, b: nat)
    ensures Output(r) != Intermediate(t, b)
  {
    ItoaDigits(t);
    assert Output(r)[3] == 'o';
    assert Intermediate(t, b)[3] == Itoa(t)[0];
  }
}
