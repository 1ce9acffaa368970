/** The champion-kill event id: four integers in decimal, separated by colons (parsers/timeline.py). */
module KillId {

  function Digit(d: nat): char
    requires d < 10
  {
    ('0' as int + d) as char
  }

  predicate IsDigit(c: char) {
    '0' <= c <= '9'
  }

  function Digits(n: nat): string {
    if n < 10 then [Digit(n)] else Digits(n / 10) + [Digit(n % 10)]
  }

  /** `str(n)`. */
  function Decimal(n: int): string {
    if n < 0 then "-" + Digits(-n) else Digits(n)
  }

  /** `champion_kill_event_id`. */
  function ChampionKillEventId(matchId: int, timestamp: int, killerId: int, victimId: int): string {
    Decimal(matchId) + ":" + Decimal(timestamp) + ":" + Decimal(killerId) + ":" + Decimal(victimId)
  }

  predicate AllDigits(s: string) {
    forall c <- s :: IsDigit(c)
  }

  function ParseDigits(s: string): nat
    requires AllDigits(s)
  {
    if s == "" then 0
    else
      assert IsDigit(s[|s| - 1]);
      10 * ParseDigits(s[..|s| - 1]) + (s[|s| - 1] as int - '0' as int)
  }

  lemma {:induction false} DigitsParse(n: nat)
    ensures Digits(n) != "" && AllDigits(Digits(n)) && ParseDigits(Digits(n)) == n
  {
    if n >= 10 {
      DigitsParse(n / 10);
      assert Digits(n)[..|Digits(n)| - 1] == Digits(n / 10);
    } else {
      assert ParseDigits("") == 0;
    }
  }

  lemma DecimalInjective(a: int, b: int)
    requires Decimal(a) == Decimal(b)
    ensures a == b
  {
    var m, n := if a < 0 then -a else a, if b < 0 then -b else b;
    DigitsParse(m);
    DigitsParse(n);
    assert IsDigit(Digits(m)[0]) && IsDigit(Digits(n)[0]);
    assert a < 0 <==> Decimal(a)[0] == '-';
    assert b < 0 <==> Decimal(b)[0] == '-';
    if a < 0 {
      assert Decimal(a)[1..] == Digits(m) && Decimal(b)[1..] == Digits(n);
    }
  }

  lemma DecimalNoColon(n: int)
    ensures ':' !in Decimal(n)
  {
    DigitsParse(if n < 0 then -n else n);
  }

  /** Two strings that agree up to and beyond their first colon agree in both parts. */
  lemma SplitAtColon(a: string, x: string, b: string, y: string)
    requires ':' !in a && ':' !in b && a + ":" + x == b + ":" + y
    ensures a == b && x == y
  {
    var s, t := a + ":" + x, b + ":" + y;
    assert s[|a|] == ':' && t[|b|] == ':';
    assert forall i | 0 <= i < |a| :: a[i] in a && s[i] == a[i];
    assert forall i | 0 <= i < |b| :: b[i] in b && t[i] == b[i];
    assert a == s[..|a|] && b == t[..|b|];
    assert x == s[|a| + 1..] && y == t[|b| + 1..];
  }

  /** Equal ids come from equal matches, timestamps, killers and victims. */
  lemma KillIdInjective(m: int, t: int, k: int, v: int, m': int, t': int, k': int, v': int)
    requires ChampionKillEventId(m, t, k, v) == ChampionKillEventId(m', t', k', v')
    ensures m == m' && t == t' && k == k' && v == v'
  {
    var rest := Decimal(t) + ":" + (Decimal(k) + ":" + Decimal(v));
    var rest' := Decimal(t') + ":" + (Decimal(k') + ":" + Decimal(v'));
    IdParts(m, t, k, v);
    IdParts(m', t', k', v');
    NoColons(m, t, k);
    NoColons(m', t', k');
    SplitAtColon(Decimal(m), rest, Decimal(m'), rest');
    SplitAtColon(Decimal(t), Decimal(k) + ":" + Decimal(v), Decimal(t'), Decimal(k') + ":" + Decimal(v'));
    SplitAtColon(Decimal(k), Decimal(v), Decimal(k'), Decimal(v'));
    DecimalInjective(m, m');
    DecimalInjective(t, t');
    DecimalInjective(k, k');
    DecimalInjective(v, v');
  }

  /** Decimal digits, without leading zeros, a minus sign for a negative number, and colons in between. */
  lemma KillIdFormat()
    ensures ChampionKillEventId(12, 305, 0, -40) == "12:305:0:-40"
  {
    assert Digits(12) == "12" && Digits(3) == "3" && Digits(30) == "30" && Digits(305) == "305" && Digits(0) == "0";
    assert Digits(40) == "40" && Decimal(-40) == "-40";
  }

  lemma NoColons(m: int, t: int, k: int)
    ensures ':' !in Decimal(m) && ':' !in Decimal(t) && ':' !in Decimal(k)
  {
    DecimalNoColon(m);
    DecimalNoColon(t);
    DecimalNoColon(k);
  }

  lemma IdParts(m: int, t: int, k: int, v: int)
    ensures ChampionKillEventId(m, t, k, v) ==
            Decimal(m) + ":" + (Decimal(t) + ":" + (Decimal(k) + ":" + Decimal(v)))
  {
  }
}
