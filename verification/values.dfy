/** Tool-call argument values, as the decision model's JSON delivers them,
    and the two Python conversions the control loop applies to them:
    truthiness (`if x`) and rendering inside an f-string (`str(x)`). */
module Values {
  import opened Wrappers

  /** A JSON argument value. Floats, arrays and objects are not modelled. */
  datatype Value = JStr(s: string) | JInt(i: int) | JBool(b: bool) | JNull

  /** Python truthiness: empty strings, zero, `False` and `None` are falsy. */
  predicate Truthy(v: Value) {
    match v
    case JStr(s) => s != ""
    case JInt(i) => i != 0
    case JBool(b) => b
    case JNull => false
  }

  /** What `f"{v}"` produces for the value `v`. */
  function Render(v: Value): string {
    match v
    case JStr(s) => s
    case JInt(i) => ShowInt(i)
    case JBool(b) => if b then "True" else "False"
    case JNull => "None"
  }

  predicate IsDigit(c: char) {
    '0' <= c <= '9'
  }

  predicate AllDigits(s: string) {
    forall k :: 0 <= k < |s| ==> IsDigit(s[k])
  }

  function DigitChar(d: nat): (c: char)
    requires d < 10
    ensures IsDigit(c)
  {
    ('0' as int + d) as char
  }

  function DigitValue(c: char): (d: nat)
    requires IsDigit(c)
    ensures d < 10
  {
    c as int - '0' as int
  }

  /** Decimal digits of a natural number, most significant first, with no
      leading zero except for zero itself. */
  function ShowNat(n: nat): (r: string)
    ensures |r| > 0 && AllDigits(r)
    ensures r[0] == '0' ==> n == 0
    decreases n
  {
    if n < 10 then [DigitChar(n)] else ShowNat(n / 10) + [DigitChar(n % 10)]
  }

  /** Python's `str(i)` for an integer: a minus sign for negatives, then the
      decimal digits of the magnitude. */
  function ShowInt(i: int): (r: string)
    ensures |r| > 0
    ensures r[0] == '-' <==> i < 0
    ensures forall k :: 0 < k < |r| ==> IsDigit(r[k])
    ensures i < 0 ==> |r| > 1
    ensures r[if i < 0 then 1 else 0] == '0' ==> i == 0
  {
    if i < 0 then "-" + ShowNat(-i) else ShowNat(i)
  }

  /** The value of a string of decimal digits (the empty string reads as 0). */
  function NatValue(s: string): nat
    requires AllDigits(s)
  {
    if |s| == 0 then 0 else NatValue(s[..|s| - 1]) * 10 + DigitValue(s[|s| - 1])
  }

  /** Reads back an optionally signed decimal integer; the partner of ShowInt. */
  function ParseInt(s: string): Option<int> {
    if |s| > 1 && s[0] == '-' && AllDigits(s[1..]) then
      var magnitude: int := NatValue(s[1..]);
      Some(-magnitude)
    else if |s| > 0 && AllDigits(s) then Some(NatValue(s))
    else None
  }

  lemma {:induction false} ShowNatRoundTrip(n: nat)
    ensures NatValue(ShowNat(n)) == n
    decreases n
  {
    if n >= 10 {
      var s := ShowNat(n);
      assert s[..|s| - 1] == ShowNat(n / 10);
      ShowNatRoundTrip(n / 10);
    }
  }

  /** Every integer rendering reads back as the same integer. */
  lemma ShowIntRoundTrip(i: int)
    ensures ParseInt(ShowInt(i)) == Some(i)
  {
    var s := ShowInt(i);
    if i < 0 {
      assert s[1..] == ShowNat(-i);
      ShowNatRoundTrip(-i);
    } else {
      ShowNatRoundTrip(i);
    }
  }

  /** Truthiness and rendering agree: a value is falsy exactly when it renders
      as the empty string, `0`, `False` or `None`, according to its type. */
  lemma FalsyRendering(v: Value)
    ensures !Truthy(v) <==>
      match v
      case JStr(_) => Render(v) == ""
      case JInt(_) => Render(v) == "0"
      case JBool(_) => Render(v) == "False"
      case JNull => Render(v) == "None"
  {
    if v.JInt? {
      assert ShowInt(0) == [DigitChar(0)] == "0";
      if ShowInt(v.i) == "0" {
        ShowIntRoundTrip(v.i);
        ShowIntRoundTrip(0);
      }
    }
  }

  /** Rendering is injective on integers: distinct degrees give distinct text. */
  lemma ShowIntInjective(i: int, j: int)
    requires ShowInt(i) == ShowInt(j)
    ensures i == j
  {
    ShowIntRoundTrip(i);
    ShowIntRoundTrip(j);
  }
}
