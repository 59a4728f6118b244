/**
 * The small part of JavaScript's string semantics the pages rely on:
 * truthiness of optional strings, `toLowerCase` (ASCII only), `includes`,
 * `startsWith`, `replace` with a one-character pattern, and the decimal
 * text of a positive whole number in a template string.
 */
module JsText {
  import opened Wrappers

  /** `if (v)` for a string field that may be null or undefined: "" is falsy too. */
  predicate Truthy(v: Option<string>) {
    v.Some? && v.value != ""
  }

  /** `v || fallback` for an optional string. */
  function OrElse(v: Option<string>, fallback: string): string {
    if Truthy(v) then v.value else fallback
  }

  lemma OrElseShowsValueOrFallback(v: Option<string>, fallback: string)
    ensures OrElse(v, fallback) == fallback <==> !Truthy(v) || v.value == fallback
    ensures Truthy(v) ==> OrElse(v, fallback) == v.value
  {
  }

  // ---------------------------------------------------------------- case

  function LowerChar(c: char): char {
    if 'A' <= c <= 'Z' then (c as int + 32) as char else c
  }

  /**
   * `s.toLowerCase()`, restricted to ASCII letters: no upper-case letter
   * survives, every other character is kept, and an upper-case letter
   * becomes its lower-case counterpart.
   */
  function Lower(s: string): (r: string)
    ensures |r| == |s|
    ensures forall i :: 0 <= i < |r| ==> !('A' <= r[i] <= 'Z')
    ensures forall i :: 0 <= i < |s| && !('A' <= s[i] <= 'Z') ==> r[i] == s[i]
    ensures forall i :: 0 <= i < |s| && 'A' <= s[i] <= 'Z' ==> r[i] as int == s[i] as int + 32
  {
    seq(|s|, i requires 0 <= i < |s| => LowerChar(s[i]))
  }

  lemma LowerIdempotent(s: string)
    ensures Lower(Lower(s)) == Lower(s)
  {
    assert forall i :: 0 <= i < |s| ==> LowerChar(LowerChar(s[i])) == LowerChar(s[i]);
  }

  /** Lowercasing commutes with slicing. */
  lemma LowerSlice(s: string, i: int, j: int)
    requires 0 <= i <= j <= |s|
    ensures Lower(s)[i..j] == Lower(s[i..j])
  {
  }

  /** A string without upper-case ASCII letters is its own lower case. */
  lemma LowerKeepsLowercase(s: string)
    requires forall i :: 0 <= i < |s| ==> !('A' <= s[i] <= 'Z')
    ensures Lower(s) == s
  {
  }

  /** A lower-case letter appears in the lower case of `s` only where `s` holds it in either case. */
  lemma LowerLacks(s: string, c: char)
    requires 'a' <= c <= 'z' && c !in s && (c as int - 32) as char !in s
    ensures c !in Lower(s)
  {
    forall i | 0 <= i < |s| ensures Lower(s)[i] != c {
      assert s[i] != c && s[i] != (c as int - 32) as char;
    }
  }

  // ---------------------------------------------------------------- search

  /** `s.startsWith(p)`: `p` agrees with the first |p| characters of `s`. */
  predicate StartsWith(s: string, p: string)
    ensures StartsWith(s, p) <==> |p| <= |s| && forall i :: 0 <= i < |p| ==> s[i] == p[i]
  {
    |p| <= |s| && s[..|p|] == p
  }

  /** `t` occurs in `s` starting at position `i`. */
  ghost predicate OccursAt(s: string, t: string, i: int) {
    0 <= i <= |s| - |t| && s[i..i + |t|] == t
  }

  /** An occurrence at position 0 is a prefix. */
  lemma OccursAtStart(s: string, t: string)
    ensures OccursAt(s, t, 0) <==> StartsWith(s, t)
  {
    if |t| <= |s| { assert s[..|t|] == s[0..0 + |t|]; }
  }

  /** An occurrence at position i > 0 of `s` is one at i - 1 of `s[1..]`. */
  lemma OccursShift(s: string, t: string)
    requires s != []
    ensures forall i :: 0 < i ==> (OccursAt(s, t, i) <==> OccursAt(s[1..], t, i - 1))
    ensures forall j :: 0 <= j ==> (OccursAt(s[1..], t, j) <==> OccursAt(s, t, j + 1))
  {
    forall i | 0 < i
      ensures OccursAt(s, t, i) <==> OccursAt(s[1..], t, i - 1)
    {
      if i <= |s| - |t| {
        assert s[i..i + |t|] == s[1..][i - 1..i - 1 + |t|];
      }
    }
  }

  /**
   * `s.includes(t)`, scanning from the left; its contract is the positional
   * definition of a substring, in both directions.
   */
  predicate Includes(s: string, t: string)
    decreases |s|
    ensures Includes(s, t) <==> exists i :: OccursAt(s, t, i)
  {
    OccursAtStart(s, t);
    if StartsWith(s, t) then true
    else if s == [] then
      assert forall i :: !OccursAt(s, t, i);
      false
    else
      OccursShift(s, t);
      Includes(s[1..], t)
  }

  /** `t` does not occur in `s` when no position of `s` holds t's first character. */
  lemma NotIncludes(s: string, t: string)
    requires |t| > 0 && t[0] !in s
    ensures !Includes(s, t)
  {
    forall i | 0 <= i <= |s| - |t| ensures !OccursAt(s, t, i) {
      assert s[i..i + |t|][0] == s[i];
    }
  }

  /** Every string includes the empty string, so an empty search term matches. */
  lemma IncludesEmpty(s: string)
    ensures Includes(s, "")
  {
    assert StartsWith(s, "");
  }

  // ---------------------------------------------------------------- replace

  /** `s.replace(a, b)` for one-character strings: only the first `a` is replaced. */
  function ReplaceFirst(s: string, a: char, b: char): (r: string)
    ensures |r| == |s|
    ensures forall i :: 0 <= i < |s| ==> r[i] == if s[i] == a && a !in s[..i] then b else s[i]
  {
    if s == [] then s
    else if s[0] == a then
      assert forall i :: 0 < i < |s| ==> a in s[..i] by {
        forall i | 0 < i < |s| ensures a in s[..i] { assert s[..i][0] == a; }
      }
      [b] + s[1..]
    else
      var rest := ReplaceFirst(s[1..], a, b);
      assert forall i :: 0 < i < |s| ==> s[..i] == [s[0]] + s[1..][..i - 1];
      [s[0]] + rest
  }

  /** Splitting at the first `a`: it becomes `b`, and every later `a` stays. */
  lemma ReplaceFirstSplit(p: string, a: char, q: string, b: char)
    requires a !in p
    ensures ReplaceFirst(p + [a] + q, a, b) == p + [b] + q
  {
    var s := p + [a] + q;
    assert s[..|p|] == p;
    forall i | |p| < i < |s| ensures a in s[..i] {
      assert s[..i][|p|] == a;
    }
  }

  // ---------------------------------------------------------------- numbers

  function DigitChar(d: nat): char
    requires d < 10
  {
    "0123456789"[d]
  }

  predicate IsDigit(c: char) {
    '0' <= c <= '9'
  }

  /** `${n}` for a whole number n >= 0: its decimal digits, no leading zero. */
  function Decimal(n: nat): (r: string)
    ensures |r| >= 1
    ensures forall i :: 0 <= i < |r| ==> IsDigit(r[i])
    ensures n > 0 ==> r[0] != '0'
  {
    if n < 10 then [DigitChar(n)] else Decimal(n / 10) + [DigitChar(n % 10)]
  }

  /** The value of a string of decimal digits. */
  function DigitsValue(s: string): nat
    requires forall i :: 0 <= i < |s| ==> IsDigit(s[i])
  {
    if s == [] then 0
    else
      assert IsDigit(s[|s| - 1]);
      DigitsValue(s[..|s| - 1]) * 10 + (s[|s| - 1] as int - '0' as int)
  }

  /** Reading back the digits of `${n}` gives n: the text names exactly the number. */
  lemma {:induction false} DecimalRoundTrip(n: nat)
    ensures DigitsValue(Decimal(n)) == n
  {
    if n >= 10 {
      DecimalRoundTrip(n / 10);
      var r := Decimal(n);
      assert r[..|r| - 1] == Decimal(n / 10);
    }
  }
}
