/** The few JavaScript built-ins the application's logic leans on, stated exactly:
    nullable values, `Array.prototype.filter`, `Math.round` of a quotient,
    `String.prototype.includes`, `slice(-n)`, `substring`, `toUpperCase` on
    ASCII text and `Number.prototype.toString()` for natural numbers. */
module JsPrims {

  /** A value that may be `undefined`/`null`. */
  datatype Option<+T> = None | Some(value: T) {
    function GetOr(default: T): T {
      match this
      case Some(v) => v
      case None => default
    }
  }

  /** JavaScript truthiness of an optional string: present and non-empty. */
  predicate Truthy(s: Option<string>) {
    s.Some? && s.value != ""
  }

  /** `s || fallback` on an optional string. */
  function OrElse(s: Option<string>, fallback: string): string {
    if Truthy(s) then s.value else fallback
  }

  /** `s.filter(p)`: the elements satisfying `p`, in their original order. */
  function Filter<T(!new)>(s: seq<T>, p: T -> bool): (r: seq<T>)
    ensures |r| <= |s|
    ensures forall i :: 0 <= i < |r| ==> p(r[i])
    ensures forall x :: x in r <==> x in s && p(x)
  {
    if s == [] then []
    else
      assert s == [s[0]] + s[1..];
      (if p(s[0]) then [s[0]] else []) + Filter(s[1..], p)
  }

  /** Filtering distributes over concatenation. */
  lemma {:induction false} FilterAppend<T(!new)>(a: seq<T>, b: seq<T>, p: T -> bool)
    ensures Filter(a + b, p) == Filter(a, p) + Filter(b, p)
  {
    if a == [] {
      assert a + b == b;
    } else {
      assert (a + b)[1..] == a[1..] + b;
      FilterAppend(a[1..], b, p);
    }
  }

  /** A filter that keeps no element gives the empty sequence. */
  lemma {:induction false} FilterNone<T(!new)>(s: seq<T>, p: T -> bool)
    requires forall i :: 0 <= i < |s| ==> !p(s[i])
    ensures Filter(s, p) == []
  {
    if s != [] {
      FilterNone(s[1..], p);
    }
  }

  /** A filter that keeps only the element at index k gives just that element. */
  lemma {:induction false} FilterOnly<T(!new)>(s: seq<T>, p: T -> bool, k: nat)
    requires k < |s| && p(s[k])
    requires forall i :: 0 <= i < |s| && i != k ==> !p(s[i])
    ensures Filter(s, p) == [s[k]]
  {
    var t := s[1..];
    if k == 0 {
      assert forall i :: 0 <= i < |t| ==> !p(t[i]) by {
        forall i | 0 <= i < |t| ensures !p(t[i]) {
          assert t[i] == s[i + 1];
        }
      }
      FilterNone(t, p);
    } else {
      assert forall i :: 0 <= i < |t| && i != k - 1 ==> !p(t[i]) by {
        forall i | 0 <= i < |t| && i != k - 1 ensures !p(t[i]) {
          assert t[i] == s[i + 1];
        }
      }
      FilterOnly(t, p, k - 1);
      assert !p(s[0]);
    }
  }

  /** A filter that keeps every element is the identity. */
  lemma {:induction false} FilterAll<T(!new)>(s: seq<T>, p: T -> bool)
    requires forall i :: 0 <= i < |s| ==> p(s[i])
    ensures Filter(s, p) == s
  {
    if s != [] {
      FilterAll(s[1..], p);
    }
  }

  /** `Math.round(a / b)` for `b > 0`: the integer nearest to a/b, a half rounded up. */
  function RoundDiv(a: int, b: int): (r: int)
    requires b > 0
    ensures 2 * b * r <= 2 * a + b < 2 * b * (r + 1)
  {
    var q := (2 * a + b) / (2 * b);
    assert 2 * a + b == q * (2 * b) + (2 * a + b) % (2 * b);
    q
  }

  /** `a < b` on strings: lexicographic order of the characters, a proper prefix first.
      For timestamps written in one ISO-8601 format it is chronological order. */
  predicate StringLess(a: string, b: string) {
    if a == [] then b != []
    else if b == [] then false
    else if a[0] != b[0] then a[0] < b[0]
    else StringLess(a[1..], b[1..])
  }

  /** Two strings that agree up to index k and differ first at k are ordered by their k-th characters. */
  lemma {:induction false} StringLessAt(a: string, b: string, k: nat)
    requires k < |a| && k < |b| && a[..k] == b[..k] && a[k] < b[k]
    ensures StringLess(a, b)
  {
    if k > 0 {
      assert a[0] == a[..k][0] == b[..k][0] == b[0];
      assert a[1..][..k - 1] == a[1..k] == a[..k][1..];
      assert b[1..][..k - 1] == b[1..k] == b[..k][1..];
      StringLessAt(a[1..], b[1..], k - 1);
    }
  }

  lemma {:induction false} StringLessIrreflexive(a: string)
    ensures !StringLess(a, a)
  {
    if a != [] {
      StringLessIrreflexive(a[1..]);
    }
  }

  /** Two different strings are ordered one way round and not the other. */
  lemma {:induction false} StringLessTotal(a: string, b: string)
    ensures a != b ==> StringLess(a, b) || StringLess(b, a)
    ensures !(StringLess(a, b) && StringLess(b, a))
  {
    if a != [] && b != [] && a[0] == b[0] {
      StringLessTotal(a[1..], b[1..]);
      if a != b {
        assert a == [a[0]] + a[1..] && b == [b[0]] + b[1..];
      }
    }
  }

  lemma {:induction false} StringLessTransitive(a: string, b: string, c: string)
    requires StringLess(a, b) && StringLess(b, c)
    ensures StringLess(a, c)
  {
    if a != [] && a[0] == b[0] && b[0] == c[0] {
      StringLessTransitive(a[1..], b[1..], c[1..]);
    }
  }

  /** "Not earlier than" is transitive. */
  lemma NotLessTransitive(a: string, b: string, c: string)
    requires !StringLess(a, b) && !StringLess(b, c)
    ensures !StringLess(a, c)
  {
    StringLessTotal(a, b);
    StringLessTotal(b, c);
    StringLessTotal(a, c);
    if a != b && b != c {
      StringLessTransitive(c, b, a);
    }
  }

  /** `s.includes(sub)`. */
  predicate Includes(s: string, sub: string)
    decreases |s|
  {
    (|sub| <= |s| && s[..|sub|] == sub) || (|s| > 0 && Includes(s[1..], sub))
  }

  /** `sub` occurs in `s` starting at offset `i`. */
  predicate OccursAt(s: string, sub: string, i: int) {
    0 <= i <= |s| - |sub| && s[i..i + |sub|] == sub
  }

  /** `includes` holds exactly when `sub` occurs at some offset of `s`. */
  lemma {:induction false} IncludesAt(s: string, sub: string)
    ensures Includes(s, sub) <==> exists i :: OccursAt(s, sub, i)
  {
    if |sub| <= |s| && s[..|sub|] == sub {
      assert OccursAt(s, sub, 0);
    } else if |s| > 0 {
      IncludesAt(s[1..], sub);
      if Includes(s[1..], sub) {
        var i :| OccursAt(s[1..], sub, i);
        assert s[i + 1..i + 1 + |sub|] == s[1..][i..i + |sub|];
        assert OccursAt(s, sub, i + 1);
      }
      if exists i :: OccursAt(s, sub, i) {
        var i :| OccursAt(s, sub, i);
        assert i != 0;
        assert s[1..][i - 1..i - 1 + |sub|] == s[i..i + |sub|];
        assert OccursAt(s[1..], sub, i - 1);
      }
    }
  }

  /** The last `n` characters of `s`, or all of `s` when it is shorter. For `n > 0` this is
      `s.slice(-n)` (the callers take `n` = 6); at `n` = 0 it is "", whereas `s.slice(-0)` is `s`. */
  function SliceLast(s: string, n: nat): (r: string)
    ensures |r| == if |s| < n then |s| else n
    ensures r == s[|s| - |r|..]
  {
    if |s| < n then s else s[|s| - n..]
  }

  /** `s.substring(start, end)` for `start <= end`: indices are clamped to the string. */
  function Substring(s: string, start: nat, end: nat): (r: string)
    requires start <= end
    ensures |r| <= end - start
  {
    var a := if start < |s| then start else |s|;
    var b := if end < |s| then end else |s|;
    s[a..b]
  }

  /** `s.length`: the number of UTF-16 code units, two for a character outside the Basic
      Multilingual Plane. */
  function Utf16Length(s: string): (n: nat)
    ensures |s| <= n <= 2 * |s|
  {
    if s == [] then 0
    else Utf16Length(s[..|s| - 1]) + (if s[|s| - 1] as int >= 0x1_0000 then 2 else 1)
  }

  /** The length is additive over concatenation. */
  lemma {:induction false} Utf16LengthAppend(a: string, b: string)
    ensures Utf16Length(a + b) == Utf16Length(a) + Utf16Length(b)
    decreases |b|
  {
    if b == [] {
      assert a + b == a;
    } else {
      assert (a + b)[..|a + b| - 1] == a + b[..|b| - 1];
      Utf16LengthAppend(a, b[..|b| - 1]);
    }
  }

  function UpperChar(c: char): char {
    if 'a' <= c <= 'z' then (c as int - 32) as char else c
  }

  /** `s.toUpperCase()` on ASCII text: letters a-z become A-Z, everything else is kept. */
  function ToUpperCase(s: string): (r: string)
    ensures |r| == |s|
    ensures forall i :: 0 <= i < |s| ==> !('a' <= r[i] <= 'z')
  {
    seq(|s|, i requires 0 <= i < |s| => UpperChar(s[i]))
  }

  predicate IsDigit(c: char) {
    '0' <= c <= '9'
  }

  function DigitChar(d: nat): char
    requires d < 10
  {
    ('0' as int + d) as char
  }

  /** `n.toString()` for a natural number: decimal digits without leading zeros. */
  function DecimalString(n: nat): (r: string)
    ensures |r| >= 1
    ensures forall i :: 0 <= i < |r| ==> IsDigit(r[i])
  {
    if n < 10 then [DigitChar(n)] else DecimalString(n / 10) + [DigitChar(n % 10)]
  }

  /** The value of a string of decimal digits. */
  function DecimalValue(s: string): nat
    requires forall i :: 0 <= i < |s| ==> IsDigit(s[i])
  {
    if s == [] then 0
    else
      assert IsDigit(s[|s| - 1]);
      DecimalValue(s[..|s| - 1]) * 10 + (s[|s| - 1] as int - '0' as int)
  }

  function Pow10(k: nat): (r: nat)
    ensures r >= 1
  {
    if k == 0 then 1 else 10 * Pow10(k - 1)
  }

  /** Reading back the decimal string gives the number, which has fewer digits than any larger power of ten. */
  lemma {:induction false} DecimalRoundTrip(n: nat)
    ensures DecimalValue(DecimalString(n)) == n
    ensures n < Pow10(|DecimalString(n)|)
  {
    if n >= 10 {
      DecimalRoundTrip(n / 10);
      var s := DecimalString(n / 10);
      assert DecimalString(n)[..|DecimalString(n)| - 1] == s;
    }
  }

  lemma ModOfDecomposition(n: int, m: nat, q: int, r: int)
    requires m > 0 && n == q * m + r && 0 <= r < m
    ensures n % m == r
  {
    var k := q - n / m;
    assert k * m == n % m - r by {
      assert n == (n / m) * m + n % m;
      assert k * m == q * m - (n / m) * m;
    }
  }

  /** Appending a digit multiplies the value by ten and adds the digit. */
  lemma DecimalValueSnoc(t: string, d: nat)
    requires d < 10
    requires forall i :: 0 <= i < |t| ==> IsDigit(t[i])
    ensures forall i :: 0 <= i < |t + [DigitChar(d)]| ==> IsDigit((t + [DigitChar(d)])[i])
    ensures DecimalValue(t + [DigitChar(d)]) == DecimalValue(t) * 10 + d
  {
    assert (t + [DigitChar(d)])[..|t|] == t;
  }

  lemma DigitStep(n: nat, p: nat)
    requires p >= 1
    ensures 10 * ((n / 10) % p) + n % 10 == n % (10 * p)
  {
    var a := (n / 10) / p;
    var b := (n / 10) % p;
    assert n / 10 == a * p + b;
    assert n == 10 * (n / 10) + n % 10;
    assert n == a * (10 * p) + (10 * b + n % 10);
    ModOfDecomposition(n, 10 * p, a, 10 * b + n % 10);
  }

  /** The last k digits of n's decimal string spell n mod 10^k. */
  lemma {:induction false} LastDigitsValue(n: nat, k: nat)
    ensures DecimalValue(SliceLast(DecimalString(n), k)) == n % Pow10(k)
  {
    var s := DecimalString(n);
    if |s| < k {
      ShortStringValue(n, k);
    } else if k == 0 {
      assert SliceLast(s, k) == [];
    } else if n < 10 {
      assert SliceLast(s, k) == s;
      ModOfDecomposition(n, Pow10(k), 0, n);
    } else {
      LastDigitsValue(n / 10, k - 1);
      LastDigitsStep(n, k);
    }
  }

  lemma ShortStringValue(n: nat, k: nat)
    requires |DecimalString(n)| < k
    ensures DecimalValue(SliceLast(DecimalString(n), k)) == n % Pow10(k)
  {
    var s := DecimalString(n);
    DecimalRoundTrip(n);
    PowMonotone(|s|, k);
    assert SliceLast(s, k) == s;
    ModOfDecomposition(n, Pow10(k), 0, n);
  }

  lemma LastDigitsStep(n: nat, k: nat)
    requires n >= 10 && 1 <= k <= |DecimalString(n)|
    requires DecimalValue(SliceLast(DecimalString(n / 10), k - 1)) == (n / 10) % Pow10(k - 1)
    ensures DecimalValue(SliceLast(DecimalString(n), k)) == n % Pow10(k)
  {
    DecimalStringSnoc(n);
    SliceValueSnoc(DecimalString(n / 10), n % 10, k);
    DigitStep(n, Pow10(k - 1));
  }

  lemma DecimalStringSnoc(n: nat)
    requires n >= 10
    ensures DecimalString(n) == DecimalString(n / 10) + [DigitChar(n % 10)]
  {
  }

  /** The value of the last k digits of t + [d] is ten times that of the last k - 1 of t, plus d. */
  lemma SliceValueSnoc(t: string, d: nat, k: nat)
    requires d < 10 && 1 <= k <= |t| + 1
    requires forall i :: 0 <= i < |t| ==> IsDigit(t[i])
    ensures forall i :: 0 <= i < |SliceLast(t + [DigitChar(d)], k)| ==> IsDigit(SliceLast(t + [DigitChar(d)], k)[i])
    ensures DecimalValue(SliceLast(t + [DigitChar(d)], k)) == DecimalValue(SliceLast(t, k - 1)) * 10 + d
  {
    SliceLastSnoc(t, DigitChar(d), k);
    DecimalValueSnoc(SliceLast(t, k - 1), d);
  }

  /** The last k characters of t + [c] are the last k - 1 of t, then c. */
  lemma SliceLastSnoc(t: string, c: char, k: nat)
    requires 1 <= k <= |t| + 1
    ensures SliceLast(t + [c], k) == SliceLast(t, k - 1) + [c]
  {
    var s := t + [c];
    assert SliceLast(s, k) == s[|s| - k..];
    assert SliceLast(t, k - 1) == t[|t| - (k - 1)..];
    assert s[|s| - k..] == t[|t| - (k - 1)..] + [c];
  }

  lemma {:induction false} PowMonotone(i: nat, j: nat)
    requires i <= j
    ensures Pow10(i) <= Pow10(j)
  {
    if i < j {
      PowMonotone(i, j - 1);
    }
  }
}
