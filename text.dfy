/** String helpers shared by the components: JavaScript's `includes`, the
    removal of one character (`replace(/-/g, '')`) and fixed-width ASCII
    decimal numerals. */
module Text {
  import opened Js

  /** `s.includes(sub)`: some window of `s` equals `sub` (the empty string
      is found everywhere). Written recursively so that concrete cases can be
      evaluated. */
  predicate Contains(s: string, sub: string)
    decreases |s|
  {
    |sub| <= |s| && (s[..|sub|] == sub || Contains(s[1..], sub))
  }

  /** `sub` occurs in `s` starting at index `i`. */
  predicate OccursAt(s: string, sub: string, i: int)
  {
    0 <= i <= |s| - |sub| && s[i..i + |sub|] == sub
  }

  /** The declarative reading of `Contains`: some index starts an occurrence. */
  lemma {:induction false} ContainsIffOccurrence(s: string, sub: string)
    ensures Contains(s, sub) <==> exists i :: OccursAt(s, sub, i)
    decreases |s|
  {
    if |sub| <= |s| {
      if s[..|sub|] == sub {
        assert OccursAt(s, sub, 0);
      } else {
        ContainsIffOccurrence(s[1..], sub);
        if Contains(s[1..], sub) {
          var i :| OccursAt(s[1..], sub, i);
          SliceOfTail(s, i + 1, i + 1 + |sub|);
          assert OccursAt(s, sub, i + 1);
        } else {
          forall i | 0 <= i <= |s| - |sub|
            ensures !OccursAt(s, sub, i)
          {
            if i > 0 {
              assert !OccursAt(s[1..], sub, i - 1);
              SliceOfTail(s, i, i + |sub|);
            }
          }
        }
      }
    }
  }

  /** A window of the tail is the window one place further along. */
  lemma SliceOfTail(s: string, i: int, j: int)
    requires 1 <= i <= j <= |s|
    ensures s[1..][i - 1..j - 1] == s[i..j]
  {
    assert forall k :: 0 <= k < j - i ==> s[1..][i - 1..j - 1][k] == s[i..j][k];
  }

  /** An occurrence inside a string is also an occurrence inside any string
      that extends it on both sides. */
  lemma ContainsInfix(a: string, sub: string, b: string)
    ensures Contains(a + sub + b, sub)
  {
    var s := a + sub + b;
    assert s[|a|..|a| + |sub|] == sub;
    assert OccursAt(s, sub, |a|);
    ContainsIffOccurrence(s, sub);
  }

  /** `s.replace(/c/g, '')`: every occurrence of `c` dropped, the rest kept in order. */
  function RemoveChar(s: string, c: char): (r: string)
    ensures c !in r
    ensures |r| <= |s|
    ensures forall x :: x != c ==> (x in r <==> x in s)
  {
    if s == [] then []
    else if s[0] == c then RemoveChar(s[1..], c)
    else [s[0]] + RemoveChar(s[1..], c)
  }

  /** What is left after removing `c` is exactly `s` without its `c`s: the
      other characters keep their order and each keeps its number of
      occurrences. */
  lemma {:induction false} RemoveCharKeeps(s: string, c: char)
    ensures Subsequence(RemoveChar(s, c), s)
    ensures multiset(RemoveChar(s, c)) == multiset(s)[c := 0]
    decreases |s|
  {
    if s != [] {
      assert s == [s[0]] + s[1..];
      RemoveCharKeeps(s[1..], c);
      if s[0] != c {
        assert RemoveChar(s, c)[1..] == RemoveChar(s[1..], c);
      }
    }
  }

  /** Removing a character distributes over concatenation. */
  lemma {:induction false} RemoveCharAppend(a: string, b: string, c: char)
    ensures RemoveChar(a + b, c) == RemoveChar(a, c) + RemoveChar(b, c)
    decreases |a|
  {
    if a != [] {
      assert (a + b)[1..] == a[1..] + b;
      RemoveCharAppend(a[1..], b, c);
    } else {
      assert a + b == b;
    }
  }

  /** A string without `c` is left unchanged. */
  lemma {:induction false} RemoveCharAbsent(s: string, c: char)
    requires c !in s
    ensures RemoveChar(s, c) == s
    decreases |s|
  {
    if s != [] {
      RemoveCharAbsent(s[1..], c);
      assert [s[0]] + s[1..] == s;
    }
  }

  predicate IsAsciiDigit(c: char)
  {
    '0' <= c <= '9'
  }

  predicate AllAsciiDigits(s: string)
  {
    forall i :: 0 <= i < |s| ==> IsAsciiDigit(s[i])
  }

  function DigitValue(c: char): nat
    requires IsAsciiDigit(c)
  {
    (c as int) - ('0' as int)
  }

  function DigitChar(v: nat): (c: char)
    requires v < 10
    ensures IsAsciiDigit(c) && DigitValue(c) == v
  {
    (('0' as int) + v) as char
  }

  function Pow10(w: nat): (p: nat)
    ensures p >= 1
  {
    if w == 0 then 1 else 10 * Pow10(w - 1)
  }

  /** The number a string of ASCII digits denotes, most significant first. */
  function DigitsValue(s: string): (v: nat)
    requires AllAsciiDigits(s)
    ensures v < Pow10(|s|)
  {
    if s == [] then 0 else 10 * DigitsValue(s[..|s| - 1]) + DigitValue(s[|s| - 1])
  }

  /** `v` written with exactly `w` decimal digits, zero-padded on the left. */
  function Padded(v: nat, w: nat): (s: string)
    requires v < Pow10(w)
    ensures |s| == w && AllAsciiDigits(s)
  {
    if w == 0 then "" else Padded(v / 10, w - 1) + [DigitChar(v % 10)]
  }

  /** Reading back a padded numeral gives the number. */
  lemma {:induction false} DigitsValuePadded(v: nat, w: nat)
    requires v < Pow10(w)
    ensures DigitsValue(Padded(v, w)) == v
  {
    if w > 0 {
      var s := Padded(v, w);
      assert s[..w - 1] == Padded(v / 10, w - 1);
      DigitsValuePadded(v / 10, w - 1);
    }
  }

  /** Writing out the value of a digit string with its own width gives the string back. */
  lemma {:induction false} PaddedDigitsValue(s: string)
    requires AllAsciiDigits(s)
    ensures Padded(DigitsValue(s), |s|) == s
  {
    if s != [] {
      var n := |s| - 1;
      assert AllAsciiDigits(s[..n]) && IsAsciiDigit(s[n]);
      var a, d := DigitsValue(s[..n]), DigitValue(s[n]);
      assert DigitsValue(s) == 10 * a + d;
      PaddedAppend(a, d, n);
      PaddedDigitsValue(s[..n]);
      assert DigitChar(d) == s[n];
      assert s == s[..n] + [s[n]];
    }
  }

  /** Writing `10 * a + d` in `n + 1` digits writes `a` in `n` digits, then `d`. */
  lemma PaddedAppend(a: nat, d: nat, n: nat)
    requires d < 10 && a < Pow10(n)
    ensures 10 * a + d < Pow10(n + 1)
    ensures Padded(10 * a + d, n + 1) == Padded(a, n) + [DigitChar(d)]
  {
    LastDigit(a, d);
  }

  /** Appending a digit `d` to the numeral of `a` is undone by `/ 10` and `% 10`. */
  lemma LastDigit(a: nat, d: nat)
    requires d < 10
    ensures (10 * a + d) / 10 == a && (10 * a + d) % 10 == d
  {
  }

  /** One character of `toLowerCase()` on the ASCII letters; every other
      character (Bengali script has no case) is kept. */
  function LowerChar(c: char): char
  {
    if 'A' <= c <= 'Z' then (c as int + 32) as char else c
  }

  /** `s.toLowerCase()` restricted to ASCII case mapping. */
  function ToLowerAscii(s: string): (r: string)
    ensures |r| == |s|
    ensures forall i :: 0 <= i < |s| ==> r[i] == LowerChar(s[i])
    ensures forall i :: 0 <= i < |r| ==> !('A' <= r[i] <= 'Z')
  {
    seq(|s|, i requires 0 <= i < |s| => LowerChar(s[i]))
  }

  /** Lower-casing is idempotent, and leaves alone a string without ASCII
      capitals, such as any string in Bengali script. */
  lemma ToLowerAsciiFixed(s: string)
    ensures ToLowerAscii(ToLowerAscii(s)) == ToLowerAscii(s)
    ensures (forall i :: 0 <= i < |s| ==> !('A' <= s[i] <= 'Z')) ==> ToLowerAscii(s) == s
  {
  }
}
