/** The pieces of Go's string formatting and parsing the companion relies on. */
module Text {
  import opened Base

  // strconv.Atoi rejects values outside the 64-bit int range.
  const MIN_INT := -0x8000_0000_0000_0000
  const MAX_INT := 0x7fff_ffff_ffff_ffff

  predicate IsDigit(c: char) {
    '0' <= c <= '9'
  }

  predicate AllDigits(s: string) {
    forall i :: 0 <= i < |s| ==> IsDigit(s[i])
  }

  function DigitOf(d: nat): char
    requires d < 10
  {
    ('0' as int + d) as char
  }

  /** The decimal numeral of a natural number, most significant digit first. */
  function Digits(n: nat): string {
    if n < 10 then [DigitOf(n)] else Digits(n / 10) + [DigitOf(n % 10)]
  }

  /** fmt's %d verb. */
  function Decimal(n: int): string {
    if n < 0 then "-" + Digits(-n) else Digits(n)
  }

  function Zeros(n: nat): string {
    seq(n, _ => '0')
  }

  /** Digits left-padded with zeros to at least the given width. */
  function Padded(n: nat, width: nat): string {
    var s := Digits(n);
    if |s| < width then Zeros(width - |s|) + s else s
  }

  function NatVal(s: string): nat
    requires AllDigits(s)
  {
    if s == "" then 0 else 10 * NatVal(s[..|s| - 1]) + (s[|s| - 1] as int - '0' as int)
  }

  lemma {:induction false} DigitsValue(n: nat)
    ensures Digits(n) != "" && AllDigits(Digits(n)) && NatVal(Digits(n)) == n
  {
    if n >= 10 {
      DigitsValue(n / 10);
      var s := Digits(n);
      assert s[..|s| - 1] == Digits(n / 10);
    }
  }

  lemma {:induction false} LeadingZeros(k: nat, s: string)
    requires AllDigits(s)
    ensures AllDigits(Zeros(k) + s) && NatVal(Zeros(k) + s) == NatVal(s)
  {
    var t := Zeros(k) + s;
    if s != "" {
      assert t[..|t| - 1] == Zeros(k) + s[..|s| - 1];
      LeadingZeros(k, s[..|s| - 1]);
    } else if k > 0 {
      assert t[..|t| - 1] == Zeros(k - 1) + "";
      LeadingZeros(k - 1, "");
    }
  }

  lemma PaddedValue(n: nat, width: nat)
    ensures Padded(n, width) != "" && AllDigits(Padded(n, width)) && NatVal(Padded(n, width)) == n
    ensures |Padded(n, width)| >= width
  {
    DigitsValue(n);
    var s := Digits(n);
    if |s| < width {
      LeadingZeros(width - |s|, s);
    }
  }

  /** Two different integers never print alike. */
  lemma DecimalInjective(a: int, b: int)
    ensures Decimal(a) == Decimal(b) <==> a == b
  {
    var m, n := if a < 0 then -a else a, if b < 0 then -b else b;
    DigitsValue(m);
    DigitsValue(n);
    if Decimal(a) == Decimal(b) {
      assert Decimal(a)[0] == Decimal(b)[0];
      assert a < 0 <==> b < 0;
      if a < 0 {
        assert Digits(m) == Decimal(a)[1..] == Decimal(b)[1..] == Digits(n);
      }
    }
  }

  lemma DecimalHasNo(n: int, c: char)
    requires c != '-' && !IsDigit(c)
    ensures c !in Decimal(n)
  {
    DigitsValue(if n < 0 then -n else n);
  }

  /** The position of the first c, or |s|: strings.Cut's search. */
  function IndexOf(s: string, c: char): (i: nat)
    ensures i <= |s| && c !in s[..i]
    ensures i < |s| ==> s[i] == c
  {
    if s == "" || s[0] == c then 0
    else
      var j := IndexOf(s[1..], c);
      assert s[..1 + j] == [s[0]] + s[1..][..j];
      1 + j
  }

  /** A separator that does not occur in the left parts splits two concatenations alike. */
  lemma SplitAtFirst(a: string, b: string, c: string, d: string, sep: char)
    requires sep !in a && sep !in c
    requires a + [sep] + b == c + [sep] + d
    ensures a == c && b == d
  {
    var x, y := a + [sep] + b, c + [sep] + d;
    assert x[|a|] == sep && y[|c|] == sep;
    assert forall i | 0 <= i < |a| :: x[i] == a[i];
    assert forall i | 0 <= i < |c| :: y[i] == c[i];
    assert |a| == |c|;
    assert a == x[..|a|] == y[..|a|] == c;
    assert b == x[|a| + 1..] == y[|a| + 1..] == d;
  }

  /** strconv.Atoi: an optional sign, then one or more digits, within 64 bits. */
  function Atoi(s: string): Option<int> {
    var signed := s != "" && (s[0] == '-' || s[0] == '+');
    var digits := if signed then s[1..] else s;
    if digits == "" || !AllDigits(digits) then None
    else
      var v: int := if s[0] == '-' then 0 - NatVal(digits) else NatVal(digits);
      if MIN_INT <= v <= MAX_INT then Some(v) else None
  }
}
