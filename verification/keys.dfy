/** The `"x,y"` string keys of board_type.js (`Point.toString` and `Point.fromString`). */
module Keys {
  import opened Points

  datatype Option<T> = None | Some(value: T)

  predicate IsDigit(c: char) {
    '0' <= c <= '9'
  }

  predicate AllDigits(s: string) {
    forall i | 0 <= i < |s| :: IsDigit(s[i])
  }

  function DigitChar(d: int): (c: char)
    requires 0 <= d < 10
    ensures IsDigit(c) && (c as int) - ('0' as int) == d
  {
    (('0' as int) + d) as char
  }

  function DigitValue(c: char): int
    requires IsDigit(c)
  {
    (c as int) - ('0' as int)
  }

  /** Decimal digits of `n`, without leading zeros. */
  function NatToString(n: nat): (s: string)
    ensures |s| > 0 && AllDigits(s)
  {
    if n < 10 then [DigitChar(n)] else NatToString(n / 10) + [DigitChar(n % 10)]
  }

  /** How a template literal renders an integer `i` with `|i| < 10^21`: an optional minus
      sign, then its decimal digits. Larger magnitudes print in exponent notation, which this
      rendering does not cover. */
  function IntToString(i: int): (s: string)
    ensures ',' !in s
  {
    if i < 0 then "-" + NatToString(-i) else NatToString(i)
  }

  /** `Point.toString`. */
  function Key(p: Point): string {
    IntToString(p.x) + "," + IntToString(p.y)
  }

  /** Value of a string of decimal digits (leading zeros allowed). */
  function ParseDigits(s: string): nat
    requires AllDigits(s)
  {
    if |s| == 0 then 0 else ParseDigits(s[..|s| - 1]) * 10 + DigitValue(s[|s| - 1])
  }

  /** The unary `+` coercion, restricted to optionally signed decimal integers;
      anything else stands for `NaN` and yields `None`. */
  function ParseNumber(s: string): Option<int> {
    if |s| > 0 && AllDigits(s) then Some(ParseDigits(s))
    else if |s| > 1 && s[0] == '-' && AllDigits(s[1..]) then Some(0 - ParseDigits(s[1..]))
    else None
  }

  /** Position of the first `c` in `s`, or `|s|` when there is none. */
  function IndexOf(s: string, c: char): (i: nat)
    ensures i <= |s|
    ensures i < |s| ==> s[i] == c
    ensures forall j | 0 <= j < i :: s[j] != c
  {
    if |s| == 0 then 0 else if s[0] == c then 0 else 1 + IndexOf(s[1..], c)
  }

  /** `Point.fromString`: the first two comma-separated fields, each coerced to a number.
      With no comma at all the second field is `undefined`, which coerces to `NaN`. */
  function ParseKey(s: string): Option<Point> {
    var i := IndexOf(s, ',');
    if i == |s| then None
    else
      var rest := s[i + 1..];
      match (ParseNumber(s[..i]), ParseNumber(rest[..IndexOf(rest, ',')]))
      case (Some(x), Some(y)) => Some(Point(x, y))
      case _ => None
  }

  lemma {:induction false} ParseDigitsOfNat(n: nat)
    ensures ParseDigits(NatToString(n)) == n
  {
    if n >= 10 {
      var s := NatToString(n);
      var pre := NatToString(n / 10);
      assert s[..|s| - 1] == pre;
      ParseDigitsOfNat(n / 10);
    }
  }

  lemma ParseNumberOfInt(i: int)
    ensures ParseNumber(IntToString(i)) == Some(i)
  {
    if i < 0 {
      var s := IntToString(i);
      ParseDigitsOfNat(-i);
      assert s[1..] == NatToString(-i);
      assert !IsDigit(s[0]);
    } else {
      ParseDigitsOfNat(i);
    }
  }

  lemma IndexOfFirst(a: string, b: string, c: char)
    requires c !in a
    ensures IndexOf(a + [c] + b, c) == |a|
  {
    var s := a + [c] + b;
    assert s[|a|] == c;
    assert forall j | 0 <= j < |a| :: s[j] == a[j];
  }

  lemma IndexOfAbsent(s: string, c: char)
    requires c !in s
    ensures IndexOf(s, c) == |s|
  {
    assert forall j | 0 <= j < |s| :: s[j] in s;
  }

  /** Parsing a key gives back the point it was made from. */
  lemma KeyRoundTrip(p: Point)
    ensures ParseKey(Key(p)) == Some(p)
  {
    var xs, ys := IntToString(p.x), IntToString(p.y);
    var s := Key(p);
    IndexOfFirst(xs, ys, ',');
    assert s[..|xs|] == xs;
    assert s[|xs| + 1..] == ys;
    IndexOfAbsent(ys, ',');
    assert ys[..|ys|] == ys;
    ParseNumberOfInt(p.x);
    ParseNumberOfInt(p.y);
  }

  /** Distinct points have distinct keys, so a map keyed by strings is a map keyed by points. */
  lemma KeyInjective(p: Point, q: Point)
    ensures Key(p) == Key(q) ==> p == q
  {
    KeyRoundTrip(p);
    KeyRoundTrip(q);
  }
}
