/**
 * String helpers standing for the Rust standard-library calls the scanner makes:
 * `str::contains`, `str::starts_with`, `str::replace` with a one-character pattern,
 * `{}` / `{:x}` integer formatting and the UTF-8 byte length `str::len`.
 * Strings are sequences of Unicode scalar values, like Rust's `char`.
 */
module Text {

  /** `s.contains(sub)`: `sub` occurs at some position of `s`. */
  predicate Contains(s: string, sub: string) {
    exists i | 0 <= i <= |s| - |sub| :: OccursAt(s, sub, i)
  }

  /** `sub` occurs in `s` starting at index `i`. */
  predicate OccursAt(s: string, sub: string, i: nat) {
    i + |sub| <= |s| && s[i..i + |sub|] == sub
  }

  /** `s.starts_with(prefix)`. */
  predicate StartsWith(s: string, prefix: string) {
    |prefix| <= |s| && s[..|prefix|] == prefix
  }

  /** A string contains itself, and every string contains the empty one. */
  lemma ContainsSelf(s: string)
    ensures Contains(s, s) && Contains(s, "")
  {
    assert s[0..|s|] == s;
    assert OccursAt(s, s, 0);
    assert OccursAt(s, "", 0);
  }

  /** Whatever `a` contains, `pre + a + post` contains. */
  lemma ContainsInConcat(pre: string, a: string, post: string, sub: string)
    requires Contains(a, sub)
    ensures Contains(pre + a + post, sub)
  {
    var i :| 0 <= i <= |a| - |sub| && OccursAt(a, sub, i);
    var s := pre + a + post;
    assert s[|pre| + i..|pre| + i + |sub|] == a[i..i + |sub|];
    assert OccursAt(s, sub, |pre| + i);
  }

  /** What the left part of a concatenation contains, the whole contains. */
  lemma ContainsLeft(a: string, b: string, sub: string)
    requires Contains(a, sub)
    ensures Contains(a + b, sub)
  {
    var i :| 0 <= i <= |a| - |sub| && OccursAt(a, sub, i);
    assert (a + b)[i..i + |sub|] == a[i..i + |sub|];
    assert OccursAt(a + b, sub, i);
  }

  /** What the right part of a concatenation contains, the whole contains. */
  lemma ContainsRight(a: string, b: string, sub: string)
    requires Contains(b, sub)
    ensures Contains(a + b, sub)
  {
    var i :| 0 <= i <= |b| - |sub| && OccursAt(b, sub, i);
    assert (a + b)[|a| + i..|a| + i + |sub|] == b[i..i + |sub|];
    assert OccursAt(a + b, sub, |a| + i);
  }

  /** A prefix of `a` is a prefix of `a + b`. */
  lemma StartsWithAppend(a: string, b: string, prefix: string)
    requires StartsWith(a, prefix)
    ensures StartsWith(a + b, prefix)
  {
    assert (a + b)[..|prefix|] == a[..|prefix|];
  }

  /** Number of occurrences of `c` in `s`. */
  function Count(s: string, c: char): nat {
    if s == [] then 0 else (if s[0] == c then 1 else 0) + Count(s[1..], c)
  }

  lemma {:induction false} CountAppend(a: string, b: string, c: char)
    ensures Count(a + b, c) == Count(a, c) + Count(b, c)
  {
    if a != [] {
      assert (a + b)[0] == a[0];
      assert (a + b)[1..] == a[1..] + b;
      CountAppend(a[1..], b, c);
    } else {
      assert a + b == b;
    }
  }

  lemma {:induction false} CountZero(s: string, c: char)
    ensures Count(s, c) == 0 <==> c !in s
  {
    if s != [] {
      CountZero(s[1..], c);
      assert s == [s[0]] + s[1..];
    }
  }

  /** `s.replace(c, r)` where the pattern is the single character `c`. */
  function ReplaceChar(s: string, c: char, r: string): (t: string)
    ensures c !in r ==> c !in t
    ensures c !in s ==> t == s
  {
    if s == [] then [] else (if s[0] == c then r else [s[0]]) + ReplaceChar(s[1..], c, r)
  }

  /** Every character of `ReplaceChar(s, c, r)` is a character of `s` other than `c` or a character of `r`. */
  lemma {:induction false} ReplaceCharFrom(s: string, c: char, r: string, x: char)
    requires x in ReplaceChar(s, c, r)
    ensures (x in s && x != c) || x in r
  {
    if s != [] {
      var head := if s[0] == c then r else [s[0]];
      if x !in head {
        ReplaceCharFrom(s[1..], c, r, x);
      }
    }
  }

  lemma {:induction false} ReplaceCharAppend(a: string, b: string, c: char, r: string)
    ensures ReplaceChar(a + b, c, r) == ReplaceChar(a, c, r) + ReplaceChar(b, c, r)
  {
    if a != [] {
      assert (a + b)[0] == a[0];
      assert (a + b)[1..] == a[1..] + b;
      ReplaceCharAppend(a[1..], b, c, r);
    } else {
      assert a + b == b;
    }
  }

  lemma MulSucc(k: nat, m: nat)
    ensures (k + 1) * m == k * m + m
  {
  }

  /** The occurrences of `c` in `s` are those of its first character and those of the rest. */
  lemma CountCons(s: string, c: char)
    requires s != []
    ensures Count(s, c) == Count([s[0]], c) + Count(s[1..], c)
    ensures Count([s[0]], c) == if s[0] == c then 1 else 0
  {
    assert [s[0]][1..] == [];
  }

  /** Each replaced character turns into `|r|` characters. */
  lemma {:induction false} ReplaceCharLength(s: string, c: char, r: string)
    ensures |ReplaceChar(s, c, r)| + Count(s, c) == |s| + Count(s, c) * |r|
  {
    if s != [] {
      ReplaceCharLength(s[1..], c, r);
      var k := Count(s[1..], c);
      var tail := ReplaceChar(s[1..], c, r);
      var head := if s[0] == c then r else [s[0]];
      assert ReplaceChar(s, c, r) == head + tail;
      assert |tail| + k == |s[1..]| + k * |r|;
      if s[0] == c {
        assert Count(s, c) == k + 1;
        MulSucc(k, |r|);
      } else {
        assert Count(s, c) == k;
      }
    }
  }

  /** Replacing `c` keeps every occurrence of any other character `d` that `r` does not hold. */
  lemma {:induction false} ReplaceCharCount(s: string, c: char, r: string, d: char)
    requires d != c
    ensures Count(ReplaceChar(s, c, r), d) == Count(s, d) + Count(s, c) * Count(r, d)
  {
    if s != [] {
      ReplaceCharCount(s[1..], c, r, d);
      var k := Count(s[1..], c);
      var tail := ReplaceChar(s[1..], c, r);
      var head := if s[0] == c then r else [s[0]];
      assert ReplaceChar(s, c, r) == head + tail;
      CountAppend(head, tail, d);
      CountCons(s, c);
      CountCons(s, d);
      assert Count(tail, d) == Count(s[1..], d) + k * Count(r, d);
      if s[0] == c {
        MulSucc(k, Count(r, d));
      }
    }
  }

  /** Position of the first `c` in `s`, or `|s|` when there is none. */
  function IndexOf(s: string, c: char): (i: nat)
    ensures i <= |s|
    ensures c !in s[..i]
    ensures i < |s| ==> s[i] == c
  {
    if s == [] then 0 else if s[0] == c then 0 else 1 + IndexOf(s[1..], c)
  }

  /** The first `c` of `a + b` is right after `a` when `a` has none and `b` is empty or starts with `c`. */
  lemma IndexOfAfter(a: string, b: string, c: char)
    requires c !in a
    requires b == [] || b[0] == c
    ensures IndexOf(a + b, c) == |a|
  {
    var s := a + b;
    assert forall j | 0 <= j < |a| :: s[j] == a[j];
    if b != [] {
      assert s[|a|] == c;
    }
  }

  /** The decimal digit for `d < 10`. */
  function DigitChar(d: nat): (c: char)
    requires d < 10
    ensures '0' <= c <= '9'
  {
    ['0', '1', '2', '3', '4', '5', '6', '7', '8', '9'][d]
  }

  /** `format!("{}", n)` for an unsigned integer. */
  function Decimal(n: nat): (s: string)
    ensures |s| > 0
    ensures forall k | 0 <= k < |s| :: '0' <= s[k] <= '9'
  {
    if n < 10 then [DigitChar(n)] else Decimal(n / 10) + [DigitChar(n % 10)]
  }

  /** Value of a non-empty string of decimal digits. */
  function DecimalValue(s: string): nat
    requires forall k | 0 <= k < |s| :: '0' <= s[k] <= '9'
  {
    if s == [] then 0 else DecimalValue(s[..|s| - 1]) * 10 + (s[|s| - 1] as int - '0' as int)
  }

  lemma DigitCharValue(d: nat)
    requires d < 10
    ensures DigitChar(d) as int - '0' as int == d
  {
  }

  /** Reading back a printed number gives the number: `{}` formatting is injective. */
  lemma {:induction false} DecimalRoundTrip(n: nat)
    ensures DecimalValue(Decimal(n)) == n
  {
    DigitCharValue(n % 10);
    if n >= 10 {
      var s := Decimal(n);
      assert s[..|s| - 1] == Decimal(n / 10);
      DecimalRoundTrip(n / 10);
    }
  }

  lemma DecimalInjective(m: nat, n: nat)
    requires m != n
    ensures Decimal(m) != Decimal(n)
  {
    DecimalRoundTrip(m);
    DecimalRoundTrip(n);
  }

  /** The lowercase hexadecimal digit for `d < 16`. */
  function HexDigit(d: nat): (c: char)
    requires d < 16
    ensures ('0' <= c <= '9') || ('a' <= c <= 'f')
  {
    "0123456789abcdef"[d]
  }

  /** `format!("{:x}", n)`: lowercase hexadecimal without padding. */
  function Hex(n: nat): (s: string)
    ensures |s| > 0
    ensures forall k | 0 <= k < |s| :: ('0' <= s[k] <= '9') || ('a' <= s[k] <= 'f')
  {
    if n < 16 then [HexDigit(n)] else Hex(n / 16) + [HexDigit(n % 16)]
  }

  predicate IsHexDigit(c: char) {
    ('0' <= c <= '9') || ('a' <= c <= 'f')
  }

  function HexDigitValue(c: char): (d: nat)
    requires IsHexDigit(c)
    ensures d < 16
  {
    if c <= '9' then c as int - '0' as int else c as int - 'a' as int + 10
  }

  /** Value of a string of lowercase hexadecimal digits. */
  function HexValue(s: string): nat
    requires forall k | 0 <= k < |s| :: IsHexDigit(s[k])
  {
    if s == [] then 0 else HexValue(s[..|s| - 1]) * 16 + HexDigitValue(s[|s| - 1])
  }

  /** `c` repeated `n` times. */
  function Repeat(c: char, n: nat): (s: string)
    ensures |s| == n && forall k | 0 <= k < n :: s[k] == c
  {
    if n == 0 then [] else Repeat(c, n - 1) + [c]
  }

  /** A hexadecimal digit reads back as its value. */
  lemma HexDigitRoundTrip(d: nat)
    requires d < 16
    ensures HexDigitValue(HexDigit(d)) == d
  {
  }

  lemma {:induction false} HexRoundTrip(n: nat)
    ensures HexValue(Hex(n)) == n
  {
    HexDigitRoundTrip(n % 16);
    if n >= 16 {
      var s := Hex(n);
      assert s[..|s| - 1] == Hex(n / 16) && s[|s| - 1] == HexDigit(n % 16);
      HexRoundTrip(n / 16);
      assert HexValue(s) == n / 16 * 16 + n % 16;
    }
  }

  function Zeros(k: nat): (z: string)
    ensures |z| == k && forall i | 0 <= i < k :: z[i] == '0'
  {
    if k == 0 then [] else Zeros(k - 1) + "0"
  }

  /** Leading zeros do not change a hexadecimal value. */
  lemma {:induction false} HexValueLeadingZeros(k: nat, s: string)
    requires forall i | 0 <= i < |s| :: IsHexDigit(s[i])
    ensures HexValue(Zeros(k) + s) == HexValue(s)
  {
    if s == [] {
      assert Zeros(k) + s == Zeros(k);
      if k > 0 {
        assert Zeros(k)[..k - 1] == Zeros(k - 1);
        HexValueLeadingZeros(k - 1, s);
        assert Zeros(k - 1) + s == Zeros(k - 1);
      }
    } else {
      var t := Zeros(k) + s;
      assert t[..|t| - 1] == Zeros(k) + s[..|s| - 1];
      HexValueLeadingZeros(k, s[..|s| - 1]);
    }
  }

  /** `format!("{:0w}", ...)`-style left padding of `s` with '0' to at least `w` characters. */
  function PadZeros(s: string, w: nat): (t: string)
    ensures |t| == if |s| >= w then |s| else w
    ensures t == Zeros(|t| - |s|) + s
  {
    if |s| >= w then (assert Zeros(0) + s == s; s) else Zeros(w - |s|) + s
  }

  /** A value below 16^4 prints in at most four hexadecimal digits. */
  lemma HexWidth(n: nat)
    ensures n < 0x10000 ==> |Hex(n)| <= 4
    ensures n < 0x10 <==> |Hex(n)| == 1
  {
    if 16 <= n < 0x10000 {
      var m := n / 16;
      assert |Hex(n)| == |Hex(m)| + 1;
      if m >= 16 {
        var q := m / 16;
        assert |Hex(m)| == |Hex(q)| + 1;
        if q >= 16 {
          assert q / 16 < 16;
          assert |Hex(q)| == 2;
        }
      }
    }
  }

  /** Number of bytes of the UTF-8 encoding of `c`. */
  function Utf8Width(c: char): (w: nat)
    ensures 1 <= w <= 4
  {
    if c as int < 0x80 then 1 else if c as int < 0x800 then 2 else if c as int < 0x10000 then 3 else 4
  }

  /** `s.len()`: the byte length of the UTF-8 encoding of `s`. */
  function Utf8Len(s: string): (n: nat)
    ensures |s| <= n <= 4 * |s|
  {
    if s == [] then 0 else Utf8Len(s[..|s| - 1]) + Utf8Width(s[|s| - 1])
  }

  lemma {:induction false} Utf8LenAppend(a: string, b: string)
    ensures Utf8Len(a + b) == Utf8Len(a) + Utf8Len(b)
  {
    if b != [] {
      assert (a + b)[..|a + b| - 1] == a + b[..|b| - 1];
      Utf8LenAppend(a, b[..|b| - 1]);
    } else {
      assert a + b == a;
    }
  }

  /** On ASCII text the byte length is the character count. */
  lemma {:induction false} Utf8LenAscii(s: string)
    requires forall k | 0 <= k < |s| :: s[k] as int < 0x80
    ensures Utf8Len(s) == |s|
  {
    if s != [] {
      Utf8LenAscii(s[..|s| - 1]);
    }
  }

  /** ASCII-only `char::to_ascii_uppercase` / `to_ascii_lowercase`. */
  function UpperChar(c: char): char {
    if 'a' <= c <= 'z' then (c as int - 32) as char else c
  }

  function LowerChar(c: char): char {
    if 'A' <= c <= 'Z' then (c as int + 32) as char else c
  }

  /** `str::to_lowercase` restricted to ASCII letters. */
  function Lower(s: string): (t: string)
    ensures |t| == |s|
    ensures forall k | 0 <= k < |s| :: t[k] == LowerChar(s[k])
  {
    if s == [] then [] else [LowerChar(s[0])] + Lower(s[1..])
  }

  /** Lowercasing is idempotent. */
  lemma LowerIdempotent(s: string)
    ensures Lower(Lower(s)) == Lower(s)
  {
  }

  /** `pieces.concat()`. */
  function Concat(pieces: seq<string>): string {
    if pieces == [] then [] else Concat(pieces[..|pieces| - 1]) + pieces[|pieces| - 1]
  }
}
