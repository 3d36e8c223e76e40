/** The JavaScript number behaviour the browser ledger relies on: text to
    number with `Number.parseInt`, number to text with `toString`, and the
    arithmetic and comparisons involved, with `NaN` for text that holds no
    number. Only integral values are represented (see README). */
module JsNumbers {
  import opened Digits

  datatype JsNumber = Num(value: int) | NaN

  /** The length of the run of decimal digits at the start of `s`. */
  function DigitRun(s: string): (n: nat)
    ensures n <= |s| && AllDigits(s[..n])
    ensures n < |s| ==> !IsDigit(s[n])
  {
    if s == [] || !IsDigit(s[0]) then 0
    else
      var m := DigitRun(s[1..]);
      assert s[..m + 1] == [s[0]] + s[1..][..m];
      1 + m
  }

  /** `Number.parseInt(s)`: an optional sign, then as many decimal digits as
      follow; `NaN` when there is not a single digit. */
  function ParseInt(s: string): (r: JsNumber)
    ensures r == NaN <==> DigitRun(if |s| > 0 && (s[0] == '-' || s[0] == '+') then s[1..] else s) == 0
  {
    var negative := |s| > 0 && s[0] == '-';
    var rest := if |s| > 0 && (s[0] == '-' || s[0] == '+') then s[1..] else s;
    var n := DigitRun(rest);
    if n == 0 then NaN
    else
      var magnitude: int := StringToNat(rest[..n]);
      Num(if negative then -magnitude else magnitude)
  }

  /** `toString` of an integral number. */
  function IntToString(i: int): (s: string)
    ensures |s| >= 1
  {
    if i < 0 then "-" + NatToString(-i) else NatToString(i)
  }

  /** `toString` of a number. */
  function ToString(x: JsNumber): string {
    match x
    case Num(i) => IntToString(i)
    case NaN => "NaN"
  }

  function Add(x: JsNumber, y: JsNumber): JsNumber
  {
    if x.Num? && y.Num? then Num(x.value + y.value) else NaN
  }

  function Sub(x: JsNumber, y: JsNumber): JsNumber
  {
    if x.Num? && y.Num? then Num(x.value - y.value) else NaN
  }

  /** `x < y`: false whenever either side is `NaN`. */
  predicate Less(x: JsNumber, y: JsNumber) {
    x.Num? && y.Num? && x.value < y.value
  }

  /** `x >= y`: false whenever either side is `NaN`. */
  predicate AtLeast(x: JsNumber, y: JsNumber) {
    x.Num? && y.Num? && x.value >= y.value
  }

  // ------------------------------------------------------------ properties

  lemma {:induction false} DigitRunOfDigits(s: string)
    requires AllDigits(s)
    ensures DigitRun(s) == |s|
  {
    if s != [] {
      DigitRunOfDigits(s[1..]);
    }
  }

  /** Reading back what `toString` wrote gives the same number, `NaN`
      included. */
  lemma ParseIntOfToString(x: JsNumber)
    ensures ParseInt(ToString(x)) == x
  {
    if x.Num? {
      var i := x.value;
      var digits := NatToString(if i < 0 then -i else i);
      DigitRunOfDigits(digits);
      StringToNatOfNatToString(if i < 0 then -i else i);
      if i < 0 {
        assert ("-" + digits)[1..] == digits;
      } else {
        assert digits[0] != '-' && digits[0] != '+';
      }
      assert digits[..|digits|] == digits;
    } else {
      assert !IsDigit("NaN"[0]);
    }
  }

  /** Subtracting what was added gives back the number, and `NaN` on
      either side makes the sum and the difference `NaN`. */
  lemma SubUndoesAdd(x: JsNumber, y: JsNumber)
    ensures y.Num? ==> Sub(Add(x, y), y) == x
    ensures Add(x, y) == NaN <==> x == NaN || y == NaN
    ensures Sub(x, y) == NaN <==> x == NaN || y == NaN
  {
  }

  /** Between numbers, `<` and `>=` are complements; `NaN` makes both false. */
  lemma ComparisonsWithNaN(x: JsNumber, y: JsNumber)
    ensures x.Num? && y.Num? ==> (Less(x, y) <==> !AtLeast(x, y))
    ensures (x == NaN || y == NaN) ==> !Less(x, y) && !AtLeast(x, y)
  {
  }
}
