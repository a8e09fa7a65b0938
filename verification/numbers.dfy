/** Integer text: JavaScript's `parseInt(s, 10)` and the decimal rendering
    of an integer (`String(n)`), which the CSV export writes and `parseInt`
    reads back. */
module Numbers {
  import opened Base
  import opened Text

  predicate IsDigit(c: char) {
    '0' <= c <= '9'
  }

  predicate AllDigits(s: string) {
    forall i :: 0 <= i < |s| ==> IsDigit(s[i])
  }

  /** Value of a run of decimal digits, most significant first. */
  function DigitsValue(ds: string): nat
    requires AllDigits(ds)
  {
    if |ds| == 0 then 0
    else DigitsValue(ds[..|ds| - 1]) * 10 + (ds[|ds| - 1] as int - '0' as int)
  }

  /** Length of the longest prefix of `s` made of decimal digits. */
  function DigitRun(s: string): (n: nat)
    ensures n <= |s|
    ensures AllDigits(s[..n])
    ensures n == |s| || !IsDigit(s[n])
  {
    if |s| > 0 && IsDigit(s[0]) then
      var n := 1 + DigitRun(s[1..]);
      assert forall i :: 1 <= i < n ==> s[..n][i] == s[1..][..n - 1][i - 1];
      n
    else 0
  }

  /** What `parseInt` looks at after skipping leading spaces and one sign. */
  function Unsigned(s: string): string {
    var t := TrimStart(s);
    if |t| > 0 && (t[0] == '+' || t[0] == '-') then t[1..] else t
  }

  /** The first character after the leading spaces is a minus sign. */
  predicate Negative(s: string) {
    var t := TrimStart(s);
    |t| > 0 && t[0] == '-'
  }

  /** `parseInt(s, 10)`: skip leading spaces, take one optional sign, then the
      longest run of decimal digits; anything after the run is ignored, and
      with no digit at all the result is NaN, here `None`. A result is always
      an integer, so `Number.isInteger` of it holds exactly when it is `Some`. */
  function ParseInt(s: string): (r: Option<int>)
    ensures r.Some? <==> |Unsigned(s)| > 0 && IsDigit(Unsigned(s)[0])
    ensures r.Some? && !Negative(s) ==> r.value >= 0
    ensures r.Some? && Negative(s) ==> r.value <= 0
    ensures r.Some? ==> Abs(r.value) == DigitsValue(Unsigned(s)[..DigitRun(Unsigned(s))])
  {
    var u := Unsigned(s);
    var n := DigitRun(u);
    if n == 0 then None
    else if Negative(s) then Some(-(DigitsValue(u[..n]) as int))
    else Some(DigitsValue(u[..n]))
  }

  function DigitChar(d: nat): (c: char)
    requires d < 10
    ensures IsDigit(c) && c as int - '0' as int == d
  {
    ('0' as int + d) as char
  }

  /** Decimal digits of a natural number, most significant first. */
  function ShowNat(n: nat): string
  {
    if n < 10 then [DigitChar(n)] else ShowNat(n / 10) + [DigitChar(n % 10)]
  }

  /** The rendering is a non-empty run of digits worth `n`, with no leading
      zero. */
  lemma {:induction false} ShowNatDigits(n: nat)
    ensures |ShowNat(n)| >= 1 && AllDigits(ShowNat(n))
    ensures DigitsValue(ShowNat(n)) == n
    ensures |ShowNat(n)| > 1 ==> ShowNat(n)[0] != '0'
  {
    if n >= 10 {
      var hi := ShowNat(n / 10);
      ShowNatDigits(n / 10);
      var r := hi + [DigitChar(n % 10)];
      assert r[..|r| - 1] == hi;
      assert |hi| == 1 ==> hi[0] != '0';
    }
  }

  /** `String(n)` for an integer: its decimal digits, after a minus sign
      when it is negative. */
  function Show(n: int): string
  {
    if n < 0 then "-" + ShowNat(-n) else ShowNat(n)
  }

  /** The rendering starts with a digit or a minus sign followed by digits,
      and holds nothing else. */
  lemma ShowShape(n: int)
    ensures |Show(n)| >= 1
    ensures n >= 0 ==> AllDigits(Show(n))
    ensures n < 0 ==> Show(n)[0] == '-' && |Show(n)| >= 2 && AllDigits(Show(n)[1..])
  {
    ShowNatDigits(if n < 0 then -n else n);
    if n < 0 {
      assert Show(n)[1..] == ShowNat(-n);
    }
  }

  /** A character that is neither a digit nor a minus sign never appears in
      a rendered integer. */
  lemma ShowAvoids(n: int, c: char)
    requires !IsDigit(c) && c != '-'
    ensures c !in Show(n)
  {
    ShowShape(n);
    assert forall i :: 0 <= i < |Show(n)| ==> IsDigit(Show(n)[i]) || (i == 0 && Show(n)[i] == '-');
  }

  lemma {:induction false} DigitRunOf(ds: string, rest: string)
    requires AllDigits(ds)
    requires rest == [] || !IsDigit(rest[0])
    ensures DigitRun(ds + rest) == |ds|
    decreases |ds|
  {
    if |ds| > 0 {
      assert (ds + rest)[1..] == ds[1..] + rest;
      DigitRunOf(ds[1..], rest);
    } else {
      assert ds + rest == rest;
    }
  }

  /** Magnitude of an integer. */
  function Abs(n: int): nat {
    if n < 0 then -n else n
  }

  /** The text a sign and a run of digits make. */
  function Signed(negative: bool, ds: string): string {
    if negative then ['-'] + ds else ds
  }

  /** After a sign and a run of digits there is no space to skip, the sign
      says whether the number is negative, and the digits come next. */
  lemma SignOfDigits(negative: bool, ds: string, rest: string)
    requires |ds| >= 1 && AllDigits(ds)
    ensures Unsigned(Signed(negative, ds) + rest) == ds + rest
    ensures Negative(Signed(negative, ds) + rest) <==> negative
  {
  }

  /** `parseInt` reads back what `String` wrote, even when other text that
      does not start with a digit follows it. */
  lemma {:induction false} ParseShow(n: int, rest: string)
    requires rest == [] || !IsDigit(rest[0])
    ensures ParseInt(Show(n) + rest) == Some(n)
  {
    var ds := ShowNat(Abs(n));
    ShowNatDigits(Abs(n));
    assert Show(n) == Signed(n < 0, ds);
    SignOfDigits(n < 0, ds, rest);
    DigitRunOf(ds, rest);
    assert (ds + rest)[..|ds|] == ds;
  }
}
