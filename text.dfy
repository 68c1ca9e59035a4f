/**
 * The JavaScript string operations the pages rely on, over `seq<char>`:
 * `String(n)` for integers, `padStart(2, "0")`, `localeCompare` (as code-point
 * lexicographic order), `startsWith`, `includes`, `toLowerCase` (ASCII letters)
 * and `Number(s)` on integer strings, plus fixed-width digit strings.
 */
module Text {
  import opened Wrappers

  predicate IsDigit(c: char) { '0' <= c <= '9' }

  predicate AllDigits(s: string) { forall i :: 0 <= i < |s| ==> IsDigit(s[i]) }

  function DigitChar(d: int): (c: char)
    requires 0 <= d < 10
    ensures IsDigit(c) && c as int - '0' as int == d
  {
    ('0' as int + d) as char
  }

  function CharValue(c: char): (d: nat)
    requires IsDigit(c)
    ensures d < 10 && DigitChar(d) == c
  {
    c as int - '0' as int
  }

  function Pow10(w: nat): (p: nat)
    ensures p >= 1
  {
    if w == 0 then 1 else 10 * Pow10(w - 1)
  }

  /** The last `w` decimal digits of `n`, zero-padded on the left. */
  function Digits(n: nat, w: nat): (s: string)
    ensures |s| == w && AllDigits(s)
  {
    if w == 0 then [] else Digits(n / 10, w - 1) + [DigitChar(n % 10)]
  }

  /** The number a string of decimal digits denotes. */
  function DigitsValue(s: string): nat
    requires AllDigits(s)
  {
    if s == [] then 0 else 10 * DigitsValue(s[..|s| - 1]) + CharValue(s[|s| - 1])
  }

  lemma {:induction false} DigitsRoundTrip(n: nat, w: nat)
    requires n < Pow10(w)
    ensures DigitsValue(Digits(n, w)) == n
  {
    if w > 0 {
      DigitsRoundTrip(n / 10, w - 1);
      var s := Digits(n, w);
      assert s[..|s| - 1] == Digits(n / 10, w - 1);
    }
  }

  lemma {:induction false} ValueRoundTrip(s: string)
    requires AllDigits(s)
    ensures DigitsValue(s) < Pow10(|s|)
    ensures Digits(DigitsValue(s), |s|) == s
  {
    if s != [] {
      var init := s[..|s| - 1];
      ValueRoundTrip(init);
      var v := DigitsValue(s);
      assert v / 10 == DigitsValue(init) && v % 10 == CharValue(s[|s| - 1]);
      assert s == init + [s[|s| - 1]];
    }
  }

  /** Digit strings of the same width are equal exactly when their values are. */
  lemma DigitsValueInjective(a: string, b: string)
    requires AllDigits(a) && AllDigits(b) && |a| == |b|
    ensures DigitsValue(a) == DigitsValue(b) <==> a == b
  {
    ValueRoundTrip(a);
    ValueRoundTrip(b);
  }

  /** `String(n)`: decimal digits without leading zeros, with a minus sign when negative. */
  function DecimalString(n: int): (s: string)
    ensures |s| >= 1
    decreases if n < 0 then 1 - n else n
  {
    if n < 0 then "-" + DecimalString(-n)
    else if n < 10 then [DigitChar(n)]
    else DecimalString(n / 10) + [DigitChar(n % 10)]
  }

  /** A number with exactly `w` digits prints as its `w`-digit string. */
  lemma {:induction false} DecimalStringIsDigits(n: nat, w: nat)
    requires w >= 1 && n < Pow10(w)
    requires w > 1 ==> Pow10(w - 1) <= n
    ensures DecimalString(n) == Digits(n, w)
  {
    if w > 1 {
      assert Pow10(w - 2) <= n / 10 < Pow10(w - 1) by {
        assert Pow10(w - 1) == 10 * Pow10(w - 2);
      }
      if w > 2 {
        DecimalStringIsDigits(n / 10, w - 1);
      } else {
        DecimalStringIsDigits(n / 10, 1);
      }
    }
  }

  /** `String(s).padStart(2, "0")`. */
  function PadStart2(s: string): (r: string)
    ensures |r| == if |s| >= 2 then |s| else 2
    ensures r[|r| - |s|..] == s
  {
    if |s| >= 2 then s else seq(2 - |s|, _ => '0') + s
  }

  /** `a.localeCompare(b) <= 0`, taken as code-point lexicographic order. */
  predicate LexLe(a: string, b: string)
  {
    if a == [] then true
    else if b == [] then false
    else if a[0] != b[0] then a[0] < b[0]
    else LexLe(a[1..], b[1..])
  }

  lemma {:induction false} LexLeReflexive(a: string)
    ensures LexLe(a, a)
  {
    if a != [] { LexLeReflexive(a[1..]); }
  }

  lemma {:induction false} LexLeTotal(a: string, b: string)
    ensures LexLe(a, b) || LexLe(b, a)
  {
    if a != [] && b != [] && a[0] == b[0] { LexLeTotal(a[1..], b[1..]); }
  }

  lemma {:induction false} LexLeTransitive(a: string, b: string, c: string)
    requires LexLe(a, b) && LexLe(b, c)
    ensures LexLe(a, c)
  {
    if a != [] && b != [] && c != [] && a[0] == b[0] == c[0] {
      LexLeTransitive(a[1..], b[1..], c[1..]);
    }
  }

  lemma {:induction false} LexLeAntisymmetric(a: string, b: string)
    requires LexLe(a, b) && LexLe(b, a)
    ensures a == b
  {
    if a != [] && b != [] {
      LexLeAntisymmetric(a[1..], b[1..]);
      assert a == [a[0]] + a[1..] && b == [b[0]] + b[1..];
    }
  }

  /** Comparing two concatenations whose first parts have the same length. */
  lemma {:induction false} LexLeConcat(p: string, q: string, s: string, t: string)
    requires |p| == |q|
    ensures LexLe(p + s, q + t) <==> (p != q && LexLe(p, q)) || (p == q && LexLe(s, t))
  {
    if p != [] {
      assert (p + s)[0] == p[0] && (q + t)[0] == q[0];
      assert (p + s)[1..] == p[1..] + s && (q + t)[1..] == q[1..] + t;
      LexLeConcat(p[1..], q[1..], s, t);
      if p[0] == q[0] {
        assert p == q <==> p[1..] == q[1..] by {
          assert p == [p[0]] + p[1..] && q == [q[0]] + q[1..];
        }
      }
    } else {
      assert p + s == s && q + t == t;
    }
  }

  /** On digit strings of one width, lexicographic order is numeric order. */
  lemma {:induction false} LexLeDigits(a: string, b: string)
    requires AllDigits(a) && AllDigits(b) && |a| == |b|
    ensures LexLe(a, b) <==> DigitsValue(a) <= DigitsValue(b)
  {
    if a != [] {
      var n := |a| - 1;
      var a', b' := a[..n], b[..n];
      LexLeDigits(a', b');
      DigitsValueInjective(a', b');
      assert a == a' + [a[n]] && b == b' + [b[n]];
      LexLeConcat(a', b', [a[n]], [b[n]]);
    }
  }

  function StartsWith(s: string, prefix: string): bool
  {
    |prefix| <= |s| && s[..|prefix|] == prefix
  }

  /** `s.includes(q)`: `q` occurs in `s` at some position. */
  function Contains(s: string, q: string): bool
  {
    StartsWith(s, q) || (s != [] && Contains(s[1..], q))
  }

  /** `q` occurs in `s` starting at index `i`. */
  predicate OccursAt(s: string, q: string, i: int)
  {
    0 <= i && i + |q| <= |s| && s[i..i + |q|] == q
  }

  lemma {:induction false} ContainsAt(s: string, q: string, i: nat)
    requires i + |q| <= |s| && s[i..i + |q|] == q
    ensures Contains(s, q)
  {
    if i > 0 {
      assert s[1..][i - 1..i - 1 + |q|] == s[i..i + |q|];
      ContainsAt(s[1..], q, i - 1);
    }
  }

  /** Conversely, `includes` answers true only where the query occurs. */
  lemma {:induction false} ContainsFound(s: string, q: string) returns (i: nat)
    requires Contains(s, q)
    ensures OccursAt(s, q, i)
  {
    if StartsWith(s, q) {
      i := 0;
    } else {
      var i' := ContainsFound(s[1..], q);
      assert s[1..][i'..i' + |q|] == s[i' + 1..i' + 1 + |q|];
      i := i' + 1;
    }
  }

  /** `s.includes(q)` holds exactly when `q` occurs in `s` at some index. */
  lemma ContainsIffOccurs(s: string, q: string)
    ensures Contains(s, q) <==> exists i :: OccursAt(s, q, i)
  {
    if exists i :: OccursAt(s, q, i) {
      var i :| OccursAt(s, q, i);
      ContainsAt(s, q, i);
    }
    if Contains(s, q) {
      var i := ContainsFound(s, q);
    }
  }

  function LowerChar(c: char): char
  {
    if 'A' <= c <= 'Z' then (c as int - 'A' as int + 'a' as int) as char else c
  }

  predicate IsUpper(c: char)
  {
    'A' <= c <= 'Z'
  }

  /** `s.toLowerCase()` on ASCII letters: same length, and no capital letter is left. */
  function ToLower(s: string): (r: string)
    ensures |r| == |s|
    ensures forall i :: 0 <= i < |r| ==> !IsUpper(r[i])
  {
    seq(|s|, i requires 0 <= i < |s| => LowerChar(s[i]))
  }

  /** Lower-casing twice is lower-casing once. */
  lemma ToLowerIdempotent(s: string)
    ensures ToLower(ToLower(s)) == ToLower(s)
  {
  }

  /** Two characters are the same letter in either case, or simply equal. */
  predicate SameLetter(a: char, b: char)
  {
    a == b
    || (IsUpper(a) && b as int == a as int + 32)
    || (IsUpper(b) && a as int == b as int + 32)
  }

  /** The strings differ at most in the case of ASCII letters. */
  predicate SameIgnoringCase(a: string, b: string)
  {
    |a| == |b| && forall i :: 0 <= i < |a| ==> SameLetter(a[i], b[i])
  }

  lemma LowerCharEqual(a: char, b: char)
    ensures LowerChar(a) == LowerChar(b) <==> SameLetter(a, b)
  {
  }

  /** Lower-cased strings are equal exactly when the originals differ only in letter case. */
  lemma ToLowerEqualIff(a: string, b: string)
    ensures ToLower(a) == ToLower(b) <==> SameIgnoringCase(a, b)
  {
    if |a| == |b| {
      forall i | 0 <= i < |a|
        ensures ToLower(a)[i] == ToLower(b)[i] <==> SameLetter(a[i], b[i])
      {
        LowerCharEqual(a[i], b[i]);
      }
      if SameIgnoringCase(a, b) {
        assert ToLower(a) == ToLower(b);
      }
    }
  }

  /**
   * `Number(s)` on an optionally signed string of decimal digits; `None`
   * stands for NaN, which is what any other non-empty string gives here.
   */
  function ParseNumber(s: string): (r: Option<int>)
    ensures AllDigits(s) && s != [] ==> r == Some(DigitsValue(s))
  {
    if s == [] then Some(0)
    else if s[0] == '-' && |s| > 1 && AllDigits(s[1..]) then
      var v: int := DigitsValue(s[1..]); Some(-v)
    else if AllDigits(s) then Some(DigitsValue(s))
    else None
  }

  lemma ParseNumberDecimal(n: int)
    ensures ParseNumber(DecimalString(n)) == Some(n)
  {
    var m := if n < 0 then -n else n;
    var w := DigitCount(m);
    DecimalStringIsDigits(m, w);
    DigitsRoundTrip(m, w);
    if n < 0 {
      assert DecimalString(n)[1..] == DecimalString(m);
    }
  }

  /** The number of decimal digits `String(n)` prints for `n >= 0`. */
  function DigitCount(n: nat): (w: nat)
    ensures w >= 1 && n < Pow10(w) && (w > 1 ==> Pow10(w - 1) <= n)
  {
    if n < 10 then 1 else 1 + DigitCount(n / 10)
  }
}
