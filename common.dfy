/**
 * Small shared vocabulary: optional values, results with an error message,
 * and the decimal rendering JavaScript uses when a number is interpolated
 * into a template string (`${n}`), together with its inverse.
 */
module Common {

  datatype Option<+T> = None | Some(value: T) {
    function GetOr(default: T): T {
      match this
      case Some(v) => v
      case None => default
    }
  }

  /** `m[k]` in JavaScript: undefined when the key is absent. */
  function Get<K, V>(m: map<K, V>, k: K): (r: Option<V>)
    ensures r.Some? <==> k in m
    ensures r.Some? ==> r.value == m[k]
  {
    if k in m then Some(m[k]) else None
  }

  /** A value or the message of the Error the source throws instead. */
  datatype Result<+T> = Success(value: T) | Failure(error: string)

  /** The outcome of an action that returns nothing but may throw. */
  datatype Outcome = Done | Failed(error: string)

  /** The outcome of an action whose checks gave `e` when nothing after them fails. */
  function OutcomeOf(e: Option<string>): (o: Outcome)
    ensures o.Failed? <==> e.Some?
    ensures o.Failed? ==> o.error == e.value
  {
    if e.Some? then Failed(e.value) else Done
  }

  predicate IsDigit(c: char) {
    '0' <= c <= '9'
  }

  function Digit(d: nat): (c: char)
    requires d < 10
    ensures IsDigit(c)
    ensures c as int - '0' as int == d
  {
    "0123456789"[d]
  }

  function DigitValue(c: char): nat
    requires IsDigit(c)
  {
    c as int - '0' as int
  }

  /** Decimal digits of `n`, most significant first, without leading zeros. */
  function NatToString(n: nat): (s: string)
    ensures |s| > 0
    ensures forall i :: 0 <= i < |s| ==> IsDigit(s[i])
    ensures s[0] == '0' <==> n == 0
  {
    if n < 10 then [Digit(n)] else NatToString(n / 10) + [Digit(n % 10)]
  }

  /** `${i}` for an integer `i`: a minus sign in front of negative numbers. */
  function IntToString(i: int): (s: string)
    ensures |s| > 0
    ensures s[0] == '-' <==> i < 0
  {
    if i < 0 then "-" + NatToString(-i) else NatToString(i)
  }

  /** Reads a string of decimal digits back as a number. */
  function ParseNat(s: string): nat
    requires forall i :: 0 <= i < |s| ==> IsDigit(s[i])
  {
    if s == [] then 0 else ParseNat(s[..|s| - 1]) * 10 + DigitValue(s[|s| - 1])
  }

  function ParseInt(s: string): int
    requires |s| > 0
    requires forall i :: 0 < i < |s| ==> IsDigit(s[i])
    requires s[0] == '-' || IsDigit(s[0])
  {
    if s[0] == '-' then 0 - ParseNat(s[1..]) else ParseNat(s)
  }

  lemma {:induction false} NatToStringRoundTrip(n: nat)
    ensures ParseNat(NatToString(n)) == n
  {
    if n >= 10 {
      var s := NatToString(n);
      assert s[..|s| - 1] == NatToString(n / 10);
      NatToStringRoundTrip(n / 10);
    }
  }

  lemma IntToStringRoundTrip(i: int)
    ensures ParseInt(IntToString(i)) == i
  {
    if i < 0 {
      var digits := NatToString(-i);
      assert IntToString(i) == "-" + digits;
      assert ("-" + digits)[1..] == digits;
      NatToStringRoundTrip(-i);
    } else {
      NatToStringRoundTrip(i);
    }
  }

  /** Two different numbers never render to the same text. */
  lemma IntToStringInjective(a: int, b: int)
    requires IntToString(a) == IntToString(b)
    ensures a == b
  {
    IntToStringRoundTrip(a);
    IntToStringRoundTrip(b);
  }
}
