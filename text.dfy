/**
 * The JavaScript string operations the dashboard relies on: `String(n)`,
 * `n.toString(16).toUpperCase()`, `padStart`, and `join`/`split` on a one-character
 * separator, together with their inverses (decimal/hex parsing and splitting).
 */
module Text {

  /** The digit character for `d`; upper-case letters above 9, as after `toUpperCase()`. */
  function DigitChar(d: nat): (c: char)
    requires d < 16
    ensures IsDigit(c, 16)
  {
    if d < 10 then ('0' as int + d) as char else ('A' as int + d - 10) as char
  }

  /** The value of a digit character (0 for anything else). */
  function DigitValue(c: char): nat {
    if '0' <= c <= '9' then c as int - '0' as int
    else if 'A' <= c <= 'F' then c as int - 'A' as int + 10
    else 0
  }

  predicate IsDigit(c: char, base: Radix) {
    ('0' <= c <= '9' || 'A' <= c <= 'F') && DigitValue(c) < base
  }

  lemma DigitRoundTrip(d: nat)
    requires d < 16
    ensures DigitValue(DigitChar(d)) == d
  {
  }

  /** The two radixes the dashboard prints in: decimal (`String(n)`) and hexadecimal (`toString(16)`). */
  type Radix = b: nat | b == 10 || b == 16 witness 10

  /** `n.toString(base)` for a non-negative integer, upper-case digits. */
  function NatToString(n: nat, base: Radix): (s: string)
    ensures |s| >= 1
    ensures forall i :: 0 <= i < |s| ==> IsDigit(s[i], base)
    decreases n
  {
    if n < base then [DigitChar(n)]
    else NatToString(n / base, base) + [DigitChar(n % base)]
  }

  /** `String(i)` for an integer: an optional minus sign, then the decimal digits. */
  function IntToString(i: int): (s: string)
    ensures |s| >= 1
  {
    if i < 0 then "-" + NatToString(-i, 10) else NatToString(i, 10)
  }

  /** Parses a digit string (most significant digit first); the inverse of NatToString. */
  function StringValue(s: string, base: Radix): nat
    decreases |s|
  {
    if s == [] then 0 else StringValue(s[..|s| - 1], base) * base + DigitValue(s[|s| - 1])
  }

  lemma {:induction false} StringValueOfNatToString(n: nat, base: Radix)
    ensures StringValue(NatToString(n, base), base) == n
    decreases n
  {
    var s := NatToString(n, base);
    if n < base {
      assert s[..|s| - 1] == [];
    } else {
      var q, r := n / base, n % base;
      var prefix := NatToString(q, base);
      assert s == prefix + [DigitChar(r)];
      assert s[..|s| - 1] == prefix && s[|s| - 1] == DigitChar(r);
      DivLess(n, base);
      StringValueOfNatToString(q, base);
      DigitRoundTrip(r);
      var v := StringValue(prefix, base);
      assert v == q;
      assert StringValue(s, base) == v * base + DigitValue(DigitChar(r));
      DivMod(n, base);
    }
  }

  lemma DivMod(n: nat, b: Radix)
    ensures (n / b) * b + n % b == n
  {
    if b == 10 { } else { }
  }

  lemma DivLess(n: nat, b: Radix)
    requires b <= n
    ensures n / b < n
  {
    if b == 10 { } else { }
  }

  function Repeat(c: char, k: nat): (r: string)
    ensures |r| == k && forall i :: 0 <= i < k ==> r[i] == c
  {
    if k == 0 then [] else [c] + Repeat(c, k - 1)
  }

  /** `s.padStart(width, c)` */
  function PadStart(s: string, width: nat, c: char): (r: string)
    ensures |r| == if |s| < width then width else |s|
    ensures r[|r| - |s|..] == s
    ensures forall i :: 0 <= i < |r| - |s| ==> r[i] == c
  {
    if |s| < width then Repeat(c, width - |s|) + s else s
  }

  lemma {:induction false} LeadingZerosValue(k: nat, s: string, base: Radix)
    ensures StringValue(Repeat('0', k) + s, base) == StringValue(s, base)
    decreases |s|
  {
    if s == [] {
      LeadingZerosOnly(k, base);
      assert Repeat('0', k) + s == Repeat('0', k);
    } else {
      var t := Repeat('0', k) + s;
      assert t[..|t| - 1] == Repeat('0', k) + s[..|s| - 1];
      LeadingZerosValue(k, s[..|s| - 1], base);
    }
  }

  lemma {:induction false} LeadingZerosOnly(k: nat, base: Radix)
    ensures StringValue(Repeat('0', k), base) == 0
  {
    if k > 0 {
      var z := Repeat('0', k);
      assert z[..k - 1] == Repeat('0', k - 1);
      LeadingZerosOnly(k - 1, base);
    }
  }

  /** Zero padding does not change the value a digit string denotes. */
  lemma PaddedValue(n: nat, width: nat, base: Radix)
    ensures StringValue(PadStart(NatToString(n, base), width, '0'), base) == n
  {
    var s := NatToString(n, base);
    StringValueOfNatToString(n, base);
    if |s| < width {
      LeadingZerosValue(width - |s|, s, base);
    }
  }

  /** Every character of `s` is a digit of `base`. */
  predicate AllDigits(s: string, base: Radix) {
    forall i :: 0 <= i < |s| ==> IsDigit(s[i], base)
  }

  /** Zero padding keeps a printed number made of digits only. */
  lemma PaddedDigits(n: nat, width: nat, base: Radix)
    ensures AllDigits(PadStart(NatToString(n, base), width, '0'), base)
  {
    var s := NatToString(n, base);
    var r := PadStart(s, width, '0');
    forall i | 0 <= i < |r|
      ensures IsDigit(r[i], base)
    {
      if i >= |r| - |s| {
        assert r[i] == r[|r| - |s|..][i - (|r| - |s|)];
      }
    }
  }

  lemma DecimalWidth(n: nat)
    ensures n < 10 ==> |NatToString(n, 10)| == 1
    ensures 10 <= n < 100 ==> |NatToString(n, 10)| == 2
    ensures 100 <= n < 1000 ==> |NatToString(n, 10)| == 3
  {
  }

  lemma HexWidth(n: nat)
    requires n < 0x10000
    ensures |NatToString(n, 16)| <= 4
  {
    if n >= 16 {
      var n1 := n / 16;
      if n1 >= 16 {
        var n2 := n1 / 16;
        if n2 >= 16 {
          var n3 := n2 / 16;
          assert n3 < 16;
          assert |NatToString(n3, 16)| == 1;
        }
        assert |NatToString(n2, 16)| <= 2;
      }
      assert |NatToString(n1, 16)| <= 3;
    }
  }

  // ---------------------------------------------------------------------------
  // join / split on a one-character separator

  /** `fields.join(sep)` */
  function Join(fields: seq<string>, sep: char): string
    decreases |fields|
  {
    if |fields| == 0 then ""
    else if |fields| == 1 then fields[0]
    else fields[0] + [sep] + Join(fields[1..], sep)
  }

  /** `s.split(sep)`: always at least one piece; the pieces never contain `sep`. */
  function Split(s: string, sep: char): (pieces: seq<string>)
    ensures |pieces| >= 1
    decreases |s|
  {
    if s == [] then [""]
    else if s[0] == sep then [""] + Split(s[1..], sep)
    else
      var rest := Split(s[1..], sep);
      [[s[0]] + rest[0]] + rest[1..]
  }

  lemma {:induction false} SplitField(f: string, sep: char)
    requires sep !in f
    ensures Split(f, sep) == [f]
    decreases |f|
  {
    if f != [] {
      assert f[0] in f;
      assert forall c :: c in f[1..] ==> c in f;
      SplitField(f[1..], sep);
      assert [f[0]] + f[1..] == f;
    }
  }

  lemma {:induction false} SplitAfterField(f: string, t: string, sep: char)
    requires sep !in f
    ensures Split(f + [sep] + t, sep) == [f] + Split(t, sep)
    decreases |f|
  {
    var s := f + [sep] + t;
    if f == [] {
      assert s[1..] == t;
    } else {
      assert f[0] in f;
      assert forall c :: c in f[1..] ==> c in f;
      assert s[1..] == f[1..] + [sep] + t;
      SplitAfterField(f[1..], t, sep);
      assert [f[0]] + f[1..] == f;
    }
  }

  /** Splitting a joined list gives the list back, when no field holds the separator. */
  lemma {:induction false} SplitJoin(fields: seq<string>, sep: char)
    requires |fields| >= 1
    requires forall i :: 0 <= i < |fields| ==> sep !in fields[i]
    ensures Split(Join(fields, sep), sep) == fields
    decreases |fields|
  {
    if |fields| == 1 {
      SplitField(fields[0], sep);
    } else {
      SplitJoin(fields[1..], sep);
      SplitAfterField(fields[0], Join(fields[1..], sep), sep);
    }
  }
}
