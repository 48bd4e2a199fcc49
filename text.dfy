/**
 * The JavaScript string operations the application uses, restricted to ASCII:
 * `toLowerCase`, `toUpperCase`, `includes`, `Number.prototype.toString` on a
 * non-negative integer, `parseInt` on a digit string, and `padStart`.
 */
module Text {

  function LowerChar(c: char): char {
    if 'A' <= c <= 'Z' then (c as int + 32) as char else c
  }

  function UpperChar(c: char): char {
    if 'a' <= c <= 'z' then (c as int - 32) as char else c
  }

  /** `s.toLowerCase()` on ASCII letters. */
  function ToLower(s: string): (r: string)
  {
    seq(|s|, i requires 0 <= i < |s| => LowerChar(s[i]))
  }

  /** `s.toUpperCase()` on ASCII letters. */
  function ToUpper(s: string): (r: string)
  {
    seq(|s|, i requires 0 <= i < |s| => UpperChar(s[i]))
  }

  /** Upper-casing leaves no lower-case ASCII letter behind and keeps the length. */
  lemma ToUpperShape(s: string)
    ensures |ToUpper(s)| == |s|
    ensures forall i :: 0 <= i < |s| ==> !('a' <= ToUpper(s)[i] <= 'z')
  {
  }

  /** Upper-casing an already upper-cased string changes nothing. */
  lemma ToUpperIdempotent(s: string)
    ensures ToUpper(ToUpper(s)) == ToUpper(s)
  {
    var u := ToUpper(s);
    forall i | 0 <= i < |u| ensures UpperChar(u[i]) == u[i] {
      ToUpperShape(s);
    }
  }

  /** `s.includes(t)`: `t` occurs in `s` at some position. */
  predicate Includes(s: string, t: string)
    decreases |s|
  {
    t <= s || (s != [] && Includes(s[1..], t))
  }

  /** Every string includes the empty string, so an empty search term matches everything. */
  lemma IncludesEmpty(s: string)
    ensures Includes(s, [])
  {
  }

  /** `t` occurs in `s` starting at position `i`. */
  ghost predicate OccursAt(s: string, t: string, i: int) {
    0 <= i <= |s| - |t| && s[i..i + |t|] == t
  }

  /** An occurrence past the first position is an occurrence in the tail, one position earlier. */
  lemma OccursShift(s: string, t: string, i: int)
    requires s != [] && 1 <= i
    ensures OccursAt(s, t, i) <==> OccursAt(s[1..], t, i - 1)
  {
    if 0 <= i <= |s| - |t| {
      assert s[1..][i - 1..i - 1 + |t|] == s[i..i + |t|];
    }
  }

  /** `Includes` agrees with the positional definition of a substring. */
  lemma {:induction false} IncludesAt(s: string, t: string)
    ensures Includes(s, t) <==> exists i :: OccursAt(s, t, i)
    decreases |s|
  {
    if t <= s {
      assert OccursAt(s, t, 0);
    } else if s != [] {
      IncludesAt(s[1..], t);
      if Includes(s, t) {
        var j :| OccursAt(s[1..], t, j);
        OccursShift(s, t, j + 1);
      } else {
        forall i ensures !OccursAt(s, t, i) {
          if 1 <= i {
            OccursShift(s, t, i);
          }
        }
      }
    }
  }

  /** A non-empty `t` can only occur in a string that contains its first character. */
  lemma {:induction false} IncludesFirstChar(s: string, t: string)
    requires t != [] && Includes(s, t)
    ensures t[0] in s
    decreases |s|
  {
    if !(t <= s) {
      IncludesFirstChar(s[1..], t);
    }
  }

  predicate IsDigit(c: char) {
    '0' <= c <= '9'
  }

  function DigitChar(d: nat): (c: char)
    requires d < 10
    ensures IsDigit(c)
  {
    ('0' as int + d) as char
  }

  function DigitValue(c: char): nat
    requires IsDigit(c)
  {
    c as int - '0' as int
  }

  function Pow10(k: nat): (p: nat)
    ensures p >= 1
  {
    if k == 0 then 1 else 10 * Pow10(k - 1)
  }

  /** `n.toString()` for a non-negative integer: decimal digits, most significant first, no leading zero. */
  function DecimalString(n: nat): (s: string)
    decreases n
  {
    if n < 10 then [DigitChar(n)] else DecimalString(n / 10) + [DigitChar(n % 10)]
  }

  /** `parseInt(s, 10)` on a non-empty string of decimal digits. */
  function ParseDecimal(s: string): nat
    requires forall i :: 0 <= i < |s| ==> IsDigit(s[i])
  {
    if s == [] then 0 else 10 * ParseDecimal(s[..|s| - 1]) + DigitValue(s[|s| - 1])
  }

  /** `s.padStart(n, c)`: prefix copies of `c` until the length reaches `n`. */
  function PadStart(s: string, n: nat, c: char): (r: string)
  {
    if |s| >= n then s else seq(n - |s|, _ => c) + s
  }

  /** Padding never shortens, and a string already long enough is returned as it is. */
  lemma PadStartShape(s: string, n: nat, c: char)
    ensures |PadStart(s, n, c)| == if |s| >= n then |s| else n
    ensures |s| >= n ==> PadStart(s, n, c) == s
    ensures PadStart(s, n, c)[|PadStart(s, n, c)| - |s|..] == s
  {
  }

  /** The decimal form is made of digits and starts with a non-zero digit unless the number is 0. */
  lemma {:induction false} DecimalDigits(n: nat)
    ensures |DecimalString(n)| >= 1
    ensures forall i :: 0 <= i < |DecimalString(n)| ==> IsDigit(DecimalString(n)[i])
    ensures n > 0 ==> DecimalString(n)[0] != '0'
    decreases n
  {
    if n >= 10 {
      DecimalDigits(n / 10);
    }
  }

  /** A number with exactly `k` digits prints as `k` characters. */
  lemma {:induction false} DecimalLength(n: nat, k: nat)
    requires 1 <= k && Pow10(k - 1) <= n < Pow10(k)
    ensures |DecimalString(n)| == k
    decreases k
  {
    if k > 1 {
      assert Pow10(k) == 10 * Pow10(k - 1);
      assert Pow10(k - 1) == 10 * Pow10(k - 2);
      assert n >= 10;
      assert Pow10(k - 2) <= n / 10 < Pow10(k - 1);
      DecimalLength(n / 10, k - 1);
    } else {
      assert n < 10;
    }
  }

  /** Parsing the decimal form gives the number back. */
  lemma {:induction false} ParseDecimalString(n: nat)
    ensures forall i :: 0 <= i < |DecimalString(n)| ==> IsDigit(DecimalString(n)[i])
    ensures ParseDecimal(DecimalString(n)) == n
    decreases n
  {
    DecimalDigits(n);
    var s := DecimalString(n);
    if n >= 10 {
      ParseDecimalString(n / 10);
      assert s[..|s| - 1] == DecimalString(n / 10);
    }
  }
}
