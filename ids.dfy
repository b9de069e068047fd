/** Identifier formatting of the bank-transaction generator.

    Transaction identifiers are `TX` followed by the row index formatted with
    Python's `05d` format spec, customer identifiers are `CUST` followed by the
    customer number formatted with `03d`.  A format spec `0<w>d` writes the
    shortest decimal form of the number and pads it on the left with '0' up to
    at least `w` characters; it never truncates.  */
module Ids {

  predicate IsDigit(c: char) { '0' <= c <= '9' }

  predicate AllDigits(s: string) { forall i :: 0 <= i < |s| ==> IsDigit(s[i]) }

  function DigitChar(d: nat): (c: char)
    requires d < 10
    ensures IsDigit(c)
  {
    (d + '0' as int) as char
  }

  function DigitValue(c: char): (d: nat)
    requires IsDigit(c)
    ensures d < 10 && DigitChar(d) == c
  {
    c as int - '0' as int
  }

  function Pow10(w: nat): (p: nat)
    ensures p >= 1
  {
    if w == 0 then 1 else 10 * Pow10(w - 1)
  }

  /** The number a string of decimal digits denotes (most significant digit first). */
  function Value(s: string): nat
    requires AllDigits(s)
  {
    if s == [] then 0 else 10 * Value(s[..|s| - 1]) + DigitValue(s[|s| - 1])
  }

  /** Python's `str(v)` for a non-negative integer: the shortest decimal form,
      which is exactly the digit string denoting `v`. */
  function Decimal(v: nat): (s: string)
    ensures |s| >= 1 && AllDigits(s)
    ensures Value(s) == v
    ensures |s| == 1 <==> v < 10
    ensures |s| == 1 || s[0] != '0'
  {
    if v < 10 then [DigitChar(v)]
    else
      var p := Decimal(v / 10);
      var s := p + [DigitChar(v % 10)];
      assert s[..|s| - 1] == p;
      s
  }

  function Zeros(k: nat): (s: string)
    ensures |s| == k && AllDigits(s)
  {
    seq(k, _ => '0')
  }

  /** The `0<w>d` format spec applied to a digit string. */
  function ZeroPad(s: string, w: nat): (r: string)
    requires AllDigits(s)
    ensures AllDigits(r) && Value(r) == Value(s)
    ensures |r| == if |s| >= w then |s| else w
  {
    if |s| >= w then s
    else
      LeadingZeros(w - |s|, s);
      Zeros(w - |s|) + s
  }

  /** Leading zeros do not change the value of a digit string. */
  lemma {:induction false} LeadingZeros(k: nat, s: string)
    requires AllDigits(s)
    ensures AllDigits(Zeros(k) + s) && Value(Zeros(k) + s) == Value(s)
  {
    var z := Zeros(k) + s;
    if s == [] {
      assert z == Zeros(k);
      ZerosValue(k);
    } else {
      var p := s[..|s| - 1];
      LeadingZeros(k, p);
      assert z[..|z| - 1] == Zeros(k) + p;
    }
  }

  lemma {:induction false} ZerosValue(k: nat)
    ensures Value(Zeros(k)) == 0
  {
    if k > 0 {
      assert Zeros(k)[..k - 1] == Zeros(k - 1);
      ZerosValue(k - 1);
    }
  }

  /** The shortest decimal form of `v` fits in `w >= 1` characters exactly when
      `v < 10^w`. */
  lemma {:induction false} DecimalLength(v: nat, w: nat)
    requires w >= 1
    ensures |Decimal(v)| <= w <==> v < Pow10(w)
  {
    if v >= 10 {
      assert |Decimal(v)| == |Decimal(v / 10)| + 1;
      if w > 1 {
        DecimalLength(v / 10, w - 1);
        assert v / 10 < Pow10(w - 1) <==> v < Pow10(w);
      }
    } else if w > 1 {
      assert Pow10(w) == 10 * Pow10(w - 1);
    }
  }

  /** Line 13: `f"TX{i:05d}"`. */
  function TransactionId(i: nat): (id: string)
    ensures |id| >= 7 && id[..2] == "TX"
    ensures AllDigits(id[2..]) && Value(id[2..]) == i
    ensures |id| == 7 <==> i < 100000
  {
    var digits := ZeroPad(Decimal(i), 5);
    DecimalLength(i, 5);
    assert ("TX" + digits)[2..] == digits;
    "TX" + digits
  }

  /** Line 14: `f"CUST{c:03d}"`, where the generator draws `c` from [100, 500). */
  function CustomerId(c: nat): (id: string)
    ensures |id| >= 7 && id[..4] == "CUST"
    ensures AllDigits(id[4..]) && Value(id[4..]) == c
    ensures |id| == 7 <==> c < 1000
    ensures c >= 100 ==> id[4..] == Decimal(c)
  {
    var digits := ZeroPad(Decimal(c), 3);
    DecimalLength(c, 3);
    DecimalLength(c, 2);
    assert ("CUST" + digits)[4..] == digits;
    "CUST" + digits
  }

  /** Every customer number the generator draws yields a seven-character
      identifier whose three digits start with 1 to 4 (no zero padding). */
  lemma CustomerIdShape(c: nat)
    requires 100 <= c < 500
    ensures |CustomerId(c)| == 7
    ensures '1' <= CustomerId(c)[4] <= '4'
  {
    var d := Decimal(c);
    assert d == Decimal(c / 10) + [DigitChar(c % 10)];
    assert Decimal(c / 10) == Decimal(c / 100) + [DigitChar(c / 10 % 10)];
    assert Decimal(c / 100) == [DigitChar(c / 100)];
    assert CustomerId(c)[4] == d[0];
  }

  /** Python's ordering of strings: lexicographic by code point, a proper
      prefix sorting first. */
  predicate LexLess(s: string, t: string)
  {
    if s == [] then t != []
    else if t == [] then false
    else s[0] < t[0] || (s[0] == t[0] && LexLess(s[1..], t[1..]))
  }

  lemma {:induction false} LexLessCommonPrefix(p: string, s: string, t: string)
    ensures LexLess(p + s, p + t) <==> LexLess(s, t)
  {
    if p != [] {
      var x, y := p + s, p + t;
      assert x != [] && y != [] && x[0] == y[0];
      assert x[1..] == p[1..] + s && y[1..] == p[1..] + t;
      assert LexLess(x, y) == LexLess(x[1..], y[1..]);
      LexLessCommonPrefix(p[1..], s, t);
    } else {
      assert p + s == s && p + t == t;
    }
  }

  /** Appending one character to two strings of equal length. */
  lemma {:induction false} LexLessSnoc(s: string, t: string, a: char, b: char)
    requires |s| == |t|
    ensures LexLess(s + [a], t + [b]) <==> LexLess(s, t) || (s == t && a < b)
  {
    if s != [] {
      assert (s + [a])[1..] == s[1..] + [a];
      assert (t + [b])[1..] == t[1..] + [b];
      LexLessSnoc(s[1..], t[1..], a, b);
      if s[0] == t[0] {
        assert s == t <==> s[1..] == t[1..] by {
          if s[1..] == t[1..] { assert s == [s[0]] + s[1..]; assert t == [t[0]] + t[1..]; }
        }
      }
    }
  }

  /** The last decimal digit and the rest of a number are determined by it. */
  lemma LastDigit(x: nat, a: nat, y: nat, b: nat)
    requires a < 10 && b < 10 && 10 * x + a == 10 * y + b
    ensures x == y && a == b
  {
    assert (10 * x + a) / 10 == x && (10 * x + a) % 10 == a;
    assert (10 * y + b) / 10 == y && (10 * y + b) % 10 == b;
  }

  /** Digit strings of equal length that denote the same number are equal. */
  lemma {:induction false} ValueInjective(s: string, t: string)
    requires AllDigits(s) && AllDigits(t) && |s| == |t|
    requires Value(s) == Value(t)
    ensures s == t
  {
    if s != [] {
      var n := |s| - 1;
      var a, b := DigitValue(s[n]), DigitValue(t[n]);
      LastDigit(Value(s[..n]), a, Value(t[..n]), b);
      ValueInjective(s[..n], t[..n]);
      assert s == s[..n] + [s[n]];
      assert t == t[..n] + [t[n]];
    }
  }

  /** For digit strings of equal length, a smaller value sorts first. */
  lemma {:induction false} ValueOrderIsLexOrder(s: string, t: string)
    requires AllDigits(s) && AllDigits(t) && |s| == |t|
    requires Value(s) < Value(t)
    ensures LexLess(s, t)
  {
    var n := |s| - 1;
    var p, q := s[..n], t[..n];
    var a, b := DigitValue(s[n]), DigitValue(t[n]);
    assert s == p + [s[n]] && t == q + [t[n]];
    LexLessSnoc(p, q, s[n], t[n]);
    if Value(p) < Value(q) {
      ValueOrderIsLexOrder(p, q);
    } else {
      assert Value(p) == Value(q);
      ValueInjective(p, q);
    }
  }

  /** Transaction identifiers sort in row order as long as the index fits in
      five digits, which holds for every table of at most 100000 rows. */
  lemma TransactionIdsInRowOrder(i: nat, j: nat)
    requires i < j < 100000
    ensures LexLess(TransactionId(i), TransactionId(j))
  {
    var x, y := TransactionId(i), TransactionId(j);
    assert x == "TX" + x[2..] && y == "TX" + y[2..];
    ValueOrderIsLexOrder(x[2..], y[2..]);
    LexLessCommonPrefix("TX", x[2..], y[2..]);
  }
}
