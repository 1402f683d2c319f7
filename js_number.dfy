/**
 * The few JavaScript number conversions the sync server relies on: printing an
 * integer into a template literal, `parseInt` on a file name, and the string to
 * number conversion that `>` applies to a query-string operand.
 */
module JsNumber {

  /** A JavaScript number restricted to integers, plus NaN. */
  datatype Num = NaN | Int(value: int)

  predicate IsDigit(c: char) { '0' <= c <= '9' }

  predicate AllDigits(s: string) { forall i :: 0 <= i < |s| ==> IsDigit(s[i]) }

  function DigitChar(d: nat): (c: char)
    requires d < 10
    ensures IsDigit(c)
    ensures c == '0' <==> d == 0
  {
    ('0' as int + d) as char
  }

  function DigitValue(c: char): (d: nat)
    requires IsDigit(c)
  {
    c as int - '0' as int
  }

  /** Value of a string of decimal digits, most significant first. */
  function DigitsValue(s: string): (v: nat)
    requires AllDigits(s)
    decreases |s|
  {
    if s == [] then 0 else DigitsValue(s[..|s| - 1]) * 10 + DigitValue(s[|s| - 1])
  }

  /** Decimal digits of `n` without leading zeros; reads back as `n`. */
  function Decimal(n: nat): (s: string)
    ensures |s| > 0 && AllDigits(s)
    ensures DigitsValue(s) == n
    ensures s[0] == '0' <==> n == 0
    ensures n == 0 ==> s == "0"
    decreases n
  {
    if n < 10 then [DigitChar(n)]
    else
      var s := Decimal(n / 10) + [DigitChar(n % 10)];
      assert s[..|s| - 1] == Decimal(n / 10);
      s
  }

  /** `${n}` for an integer `n`: a minus sign for a negative `n`, then the decimal digits of its magnitude. */
  function Show(n: int): (s: string)
    ensures n >= 0 ==> |s| > 0 && AllDigits(s) && DigitsValue(s) == n
    ensures n < 0 ==> |s| > 1 && s[0] == '-' && AllDigits(s[1..]) && DigitsValue(s[1..]) == -n
    ensures |s| > 1 && IsDigit(s[0]) ==> s[0] != '0'
    ensures n < 0 ==> s[1] != '0'
  {
    if n < 0 then "-" + Decimal(-n) else Decimal(n)
  }

  /** Length of the longest prefix of `s` made of decimal digits. */
  function DigitRun(s: string): (k: nat)
    ensures k <= |s| && AllDigits(s[..k])
    ensures k < |s| ==> !IsDigit(s[k])
    ensures AllDigits(s) ==> k == |s|
    decreases |s|
  {
    if s == [] || !IsDigit(s[0]) then 0
    else
      var k := 1 + DigitRun(s[1..]);
      assert s[..k] == [s[0]] + s[1..][..k - 1];
      k
  }

  /** A digit prefix that stops at a non-digit or at the end is the digit run. */
  lemma DigitRunUnique(s: string)
    ensures forall j :: 0 <= j <= |s| && AllDigits(s[..j]) && (j == |s| || !IsDigit(s[j])) ==> j == DigitRun(s)
  {
    var k := DigitRun(s);
    forall j | 0 <= j <= |s| && AllDigits(s[..j]) && (j == |s| || !IsDigit(s[j]))
      ensures j == k
    {
      assert forall i :: 0 <= i < k ==> s[..k][i] == s[i];
      assert forall i :: 0 <= i < j ==> s[..j][i] == s[i];
    }
  }

  /** `parseInt(s)` in base ten: an optional sign, then the longest run of digits; NaN when there is none. */
  function ParseInt(s: string): (r: Num)
    ensures s == "" || !(IsDigit(s[0]) || s[0] == '-' || s[0] == '+') ==> r == NaN
    ensures s != "" && AllDigits(s) ==> r == Int(DigitsValue(s))
    ensures r.Int? && s[0] == '-' ==> r.value <= 0
    ensures r.Int? && s[0] != '-' ==> r.value >= 0
    ensures var b := if s != "" && (s[0] == '-' || s[0] == '+') then s[1..] else s;
      r.NaN? <==> b == "" || !IsDigit(b[0])
    ensures var b := if s != "" && (s[0] == '-' || s[0] == '+') then s[1..] else s;
      forall k :: 0 < k <= |b| && AllDigits(b[..k]) && (k == |b| || !IsDigit(b[k])) ==>
        r == Int(if s[0] == '-' then -(DigitsValue(b[..k]) as int) else DigitsValue(b[..k]))
  {
    var body := if |s| > 0 && (s[0] == '-' || s[0] == '+') then s[1..] else s;
    var k := DigitRun(body);
    DigitRunUnique(body);
    assert AllDigits(body) ==> body[..k] == body;
    if k == 0 then NaN
    else if |s| > 0 && s[0] == '-' then Int(-(DigitsValue(body[..k]) as int))
    else Int(DigitsValue(body[..k]))
  }

  /** The conversion `Number(s)` that `>` applies to a string operand: the empty string is 0, otherwise an optional sign and only digits. */
  function ToNumber(s: string): (r: Num)
    ensures s == "" ==> r == Int(0)
    ensures s != "" && AllDigits(s) ==> r == Int(DigitsValue(s))
    ensures s != "" && r.Int? ==> ParseInt(s) == r
    ensures var b := if s != "" && (s[0] == '-' || s[0] == '+') then s[1..] else s;
      s != "" ==> (r.Int? <==> b != "" && AllDigits(b))
  {
    if s == "" then Int(0)
    else
      var body := if s[0] == '-' || s[0] == '+' then s[1..] else s;
      assert body[..|body|] == body;
      if body == [] || !AllDigits(body) then NaN
      else if s[0] == '-' then Int(-(DigitsValue(body) as int))
      else Int(DigitsValue(body))
  }

  /** JavaScript `a > b` on numbers: false whenever either side is NaN. */
  predicate Greater(a: Num, b: Num) { a.Int? && b.Int? && a.value > b.value }

  /** JavaScript `a == b` on numbers: NaN equals nothing, not even NaN. */
  predicate LooseEquals(a: Num, b: Num) { a.Int? && b.Int? && a.value == b.value }

  /** A version written into a file name by a template literal reads back unchanged, by `parseInt` and by `Number`. */
  lemma {:induction false} ShowRoundTrip(n: int)
    ensures ParseInt(Show(n)) == Int(n)
    ensures ToNumber(Show(n)) == Int(n)
  {
    var s := Show(n);
    var d := if n < 0 then Decimal(-n) else Decimal(n);
    assert IsDigit(d[0]);
    if n < 0 {
      assert s[1..] == d;
    } else {
      assert s == d;
    }
    assert DigitRun(d) == |d|;
    assert d[..|d|] == d;
  }

  /**
   * GET's `parseInt(file) > updatedAt` on a file named `${m}` and a query
   * `updatedAt=${n}` is exactly the integer comparison of the two versions.
   */
  lemma VersionOrder(m: int, n: int)
    ensures Greater(ParseInt(Show(m)), ToNumber(Show(n))) <==> m > n
  {
    ShowRoundTrip(m);
    ShowRoundTrip(n);
  }

  /** Distinct versions get distinct file names. */
  lemma ShowInjective(m: int, n: int)
    requires Show(m) == Show(n)
    ensures m == n
  {
    ShowRoundTrip(m);
    ShowRoundTrip(n);
  }
}
