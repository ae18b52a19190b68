/** std::to_string and std::stoi for 32-bit integers. */
module Decimal {
  import opened Wrappers

  const INT_MIN := -0x8000_0000
  const INT_MAX := 0x7fff_ffff

  predicate IsDigit(c: char) {
    '0' <= c <= '9'
  }

  function DigitOf(d: nat): char
    requires d < 10
  {
    ('0' as int + d) as char
  }

  function ValueOf(c: char): nat
    requires IsDigit(c)
  {
    c as int - '0' as int
  }

  function Digits(n: nat): string {
    if n < 10 then [DigitOf(n)] else Digits(n / 10) + [DigitOf(n % 10)]
  }

  function ToString(n: int): string {
    if n < 0 then "-" + Digits(-n) else Digits(n)
  }

  predicate IsSpace(c: char) {
    c == ' ' || 9 as char <= c <= 13 as char
  }

  function SkipSpace(s: string): string {
    if s != "" && IsSpace(s[0]) then SkipSpace(s[1..]) else s
  }

  /** The value of the digits s begins with, appended to those of acc. */
  function Leading(s: string, acc: nat): nat {
    if s != "" && IsDigit(s[0]) then Leading(s[1..], 10 * acc + ValueOf(s[0])) else acc
  }

  /** Leading white space, an optional sign, digits; the rest is ignored. No digits and values out of
      range are errors. */
  function Stoi(s: string): Option<int> {
    var t := SkipSpace(s);
    var negative := t != "" && t[0] == '-';
    var u := if t != "" && (t[0] == '-' || t[0] == '+') then t[1..] else t;
    if u == "" || !IsDigit(u[0]) then None
    else
      var n: int := if negative then 0 - Leading(u, 0) else Leading(u, 0);
      if INT_MIN <= n <= INT_MAX then Some(n) else None
  }

  lemma {:induction false} DigitsAreDigits(n: nat)
    ensures Digits(n) != "" && forall k :: 0 <= k < |Digits(n)| ==> IsDigit(Digits(n)[k])
  {
    if n >= 10 { DigitsAreDigits(n / 10); }
  }

  lemma {:induction false} LeadingSnoc(s: string, c: char, acc: nat)
    requires (forall k :: 0 <= k < |s| ==> IsDigit(s[k])) && IsDigit(c)
    ensures Leading(s + [c], acc) == 10 * Leading(s, acc) + ValueOf(c)
    decreases |s|
  {
    if s == "" {
      assert [c][1..] == "" && s + [c] == [c];
    } else {
      assert (s + [c])[1..] == s[1..] + [c];
      LeadingSnoc(s[1..], c, 10 * acc + ValueOf(s[0]));
    }
  }

  lemma {:induction false} LeadingDigits(n: nat)
    ensures Leading(Digits(n), 0) == n
  {
    if n < 10 {
      assert Digits(n)[1..] == "";
    } else {
      LeadingDigits(n / 10);
      DigitsAreDigits(n / 10);
      LeadingSnoc(Digits(n / 10), DigitOf(n % 10), 0);
    }
  }

  /** Every 32-bit integer survives being printed and read. */
  lemma StoiOfToString(n: int)
    requires INT_MIN <= n <= INT_MAX
    ensures Stoi(ToString(n)) == Some(n)
  {
    var m := if n < 0 then -n else n;
    DigitsAreDigits(m);
    LeadingDigits(m);
    assert n < 0 ==> ToString(n)[1..] == Digits(m);
    hide Leading, Digits;
  }

  // ---- What is printed and what is read ----

  predicate AllDigits(s: string) {
    forall k :: 0 <= k < |s| ==> IsDigit(s[k])
  }

  /** The number that digits denote, by place value. */
  function Value(ds: string): nat
    requires AllDigits(ds)
  {
    if ds == "" then 0 else 10 * Value(ds[..|ds| - 1]) + (ds[|ds| - 1] as int - '0' as int)
  }

  lemma {:induction false} LeadingIsValue(ds: string, rest: string)
    requires AllDigits(ds) && (rest == "" || !IsDigit(rest[0]))
    ensures Leading(ds + rest, 0) == Value(ds)
  {
    LeadingStops(ds, rest, 0);
    if ds == "" {
    } else {
      var init, c := ds[..|ds| - 1], ds[|ds| - 1];
      LeadingIsValue(init, "");
      assert init + "" == init && init + [c] == ds;
      LeadingSnoc(init, c, 0);
    }
  }

  lemma {:induction false} LeadingStops(ds: string, rest: string, acc: nat)
    requires AllDigits(ds) && (rest == "" || !IsDigit(rest[0]))
    ensures Leading(ds + rest, acc) == Leading(ds, acc)
    decreases |ds|
  {
    if ds == "" {
      assert ds + rest == rest;
    } else {
      assert (ds + rest)[1..] == ds[1..] + rest;
      LeadingStops(ds[1..], rest, 10 * acc + ValueOf(ds[0]));
    }
  }

  predicate AllSpace(s: string) {
    forall k :: 0 <= k < |s| ==> IsSpace(s[k])
  }

  lemma {:induction false} SkipSpaceSkips(ws: string, rest: string)
    requires AllSpace(ws) && (rest == "" || !IsSpace(rest[0]))
    ensures SkipSpace(ws + rest) == rest
  {
    if ws == "" {
      assert ws + rest == rest;
    } else {
      assert (ws + rest)[1..] == ws[1..] + rest;
      SkipSpaceSkips(ws[1..], rest);
    }
  }

  predicate Sign(s: string) {
    s == "" || s == "+" || s == "-"
  }

  /** White space, a sign, digits and a rest that does not go on with a digit; without sign and digits it does
      not begin with white space or a sign either. Every string is of this form. */
  predicate Shaped(ws: string, sign: string, ds: string, rest: string) {
    && AllSpace(ws) && Sign(sign) && AllDigits(ds)
    && (rest == "" || !IsDigit(rest[0]))
    && (sign == ds == "" && rest != "" ==> !IsSpace(rest[0]) && rest[0] != '+' && rest[0] != '-')
  }

  /** Read is the number the digits denote with its sign, if there are digits and it is in range, and else nothing. */
  lemma StoiReads(ws: string, sign: string, ds: string, rest: string)
    requires Shaped(ws, sign, ds, rest)
    ensures var n: int := if sign == "-" then 0 - Value(ds) else Value(ds);
      Stoi(ws + (sign + (ds + rest))) == if ds != "" && INT_MIN <= n <= INT_MAX then Some(n) else None
  {
    var u := ds + rest;
    var t := sign + u;
    assert u != "" ==> u[0] == if ds != "" then ds[0] else rest[0];
    assert t != "" ==> t[0] == if sign != "" then sign[0] else u[0];
    assert sign == "" ==> t == u;
    assert sign != "" ==> t[1..] == u;
    SkipSpaceSkips(ws, t);
    LeadingIsValue(ds, rest);
    hide Leading, Value, SkipSpace;
  }

  lemma {:induction false} TakeDigits(s: string) returns (ds: string, rest: string)
    ensures s == ds + rest && AllDigits(ds) && (rest == "" || !IsDigit(rest[0]))
  {
    if s == "" || !IsDigit(s[0]) {
      ds, rest := "", s;
    } else {
      ds, rest := TakeDigits(s[1..]);
      ds := [s[0]] + ds;
      assert s == [s[0]] + s[1..];
    }
  }

  lemma {:induction false} TakeSpace(s: string) returns (ws: string, rest: string)
    ensures s == ws + rest && AllSpace(ws) && (rest == "" || !IsSpace(rest[0]))
  {
    if s == "" || !IsSpace(s[0]) {
      ws, rest := "", s;
    } else {
      ws, rest := TakeSpace(s[1..]);
      ws := [s[0]] + ws;
      assert s == [s[0]] + s[1..];
    }
  }

  lemma EveryStringIsShaped(s: string) returns (ws: string, sign: string, ds: string, rest: string)
    ensures s == ws + (sign + (ds + rest)) && Shaped(ws, sign, ds, rest)
  {
    var t, u;
    ws, t := TakeSpace(s);
    sign, u := "", t;
    if t != "" && (t[0] == '+' || t[0] == '-') {
      sign, u := [t[0]], t[1..];
      assert t == sign + u;
    } else {
      assert t == "" + u;
    }
    ds, rest := TakeDigits(u);
    assert ds == "" ==> u == rest;
  }

  /** Printed are a minus sign for negative numbers and digits that denote the magnitude, without leading zeros. */
  lemma {:induction false} DigitsDenote(n: nat)
    ensures AllDigits(Digits(n)) && Value(Digits(n)) == n
    ensures n > 0 ==> Digits(n)[0] != '0'
    ensures n == 0 ==> Digits(n) == "0"
  {
    DigitsAreDigits(n);
    if n < 10 {
      assert Digits(n)[..0] == "";
    } else {
      DigitsDenote(n / 10);
      var ds := Digits(n);
      assert ds[..|ds| - 1] == Digits(n / 10);
    }
  }

  lemma ToStringDenotes(n: int)
    ensures n >= 0 ==> AllDigits(ToString(n)) && Value(ToString(n)) == n
    ensures n < 0 ==> ToString(n)[..1] == "-" && AllDigits(ToString(n)[1..]) && Value(ToString(n)[1..]) == -n
  {
    DigitsDenote(if n < 0 then -n else n);
    hide Digits, Value;
    assert n < 0 ==> ToString(n)[1..] == Digits(-n);
  }
}
