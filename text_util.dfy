/**
 * The Python `str` operations the modelled code relies on, written over
 * `seq<char>`: strip, startswith, `in` (substring), split, isdigit, int(),
 * str(), upper, lower, title, replace and slicing.  Case mapping covers ASCII
 * letters only; whitespace is Python's `str.isspace` set.
 */
module TextUtil {

  /** Python's `str.isspace` for one character. */
  predicate IsSpace(c: char) {
    || ('\U{9}' <= c <= '\U{D}')
    || ('\U{1C}' <= c <= ' ')
    || c == '\U{85}' || c == '\U{A0}' || c == '\U{1680}'
    || ('\U{2000}' <= c <= '\U{200A}')
    || c == '\U{2028}' || c == '\U{2029}' || c == '\U{202F}' || c == '\U{205F}' || c == '\U{3000}'
  }

  function TrimLeft(s: string): (r: string)
    ensures |r| <= |s| && r == s[|s| - |r|..]
    ensures r == [] || !IsSpace(r[0])
    ensures AllSpace(s[..|s| - |r|])
  {
    if |s| > 0 && IsSpace(s[0]) then
      var r := TrimLeft(s[1..]);
      assert s[..|s| - |r|] == [s[0]] + s[1..][..|s| - 1 - |r|];
      r
    else s
  }

  function TrimRight(s: string): (r: string)
    ensures |r| <= |s| && r == s[..|r|]
    ensures r == [] || !IsSpace(r[|r| - 1])
    ensures AllSpace(s[|r|..])
  {
    if |s| > 0 && IsSpace(s[|s| - 1]) then
      var r := TrimRight(s[..|s| - 1]);
      assert s[|r|..] == s[..|s| - 1][|r|..] + [s[|s| - 1]];
      r
    else s
  }

  /** Python's `s.strip()`. */
  function Strip(s: string): (r: string)
    ensures |r| <= |s|
    ensures r == [] || (!IsSpace(r[0]) && !IsSpace(r[|r| - 1]))
  {
    TrimRight(TrimLeft(s))
  }

  /** `strip` only removes characters: one absent from `s` is absent from the result. */
  lemma StripKeepsAbsent(s: string, c: char)
    requires c !in s
    ensures c !in Strip(s)
  {
    var t := TrimLeft(s);
    assert c !in t;
    assert Strip(s) == t[..|Strip(s)|];
  }

  /** Every character of `s` is whitespace. */
  predicate AllSpace(s: string) {
    forall k :: 0 <= k < |s| ==> IsSpace(s[k])
  }

  /** Three pieces put back together. */
  lemma Concat3<T>(s: seq<T>, a: seq<T>, t: seq<T>, r: seq<T>, b: seq<T>)
    requires s == a + t && t == r + b
    ensures s == a + r + b
  {
  }

  /** The pieces `strip` cuts off: the leading run `TrimLeft` drops and the trailing run `TrimRight` drops. */
  lemma StripPieces(s: string)
    ensures var t := TrimLeft(s);
      |Strip(s)| <= |t|
      && s == s[..|s| - |t|] + Strip(s) + t[|Strip(s)|..]
      && AllSpace(s[..|s| - |t|]) && AllSpace(t[|Strip(s)|..])
  {
    var t := TrimLeft(s);
    Concat3(s, s[..|s| - |t|], t, TrimRight(t), t[|TrimRight(t)|..]);
  }

  /**
   * What `strip` removes: `s` is the result with a run of whitespace before
   * and after it, and the result neither starts nor ends with whitespace.
   */
  lemma StripRemovesOnlySpace(s: string)
    ensures var r := Strip(s);
      (r == [] || (!IsSpace(r[0]) && !IsSpace(r[|r| - 1])))
      && exists a, b :: s == a + r + b && AllSpace(a) && AllSpace(b)
  {
    StripPieces(s);
    var t := TrimLeft(s);
    var a, b := s[..|s| - |t|], t[|Strip(s)|..];
    assert s == a + Strip(s) + b && AllSpace(a) && AllSpace(b);
  }

  /** Python's `s.startswith(p)`. */
  predicate StartsWith(s: string, p: string) {
    |p| <= |s| && s[..|p|] == p
  }

  /** Python's `t in s` on strings: `t` occurs in `s` as a contiguous block. */
  predicate Contains(s: string, t: string)
    decreases |s|
  {
    StartsWith(s, t) || (|s| > 0 && Contains(s[1..], t))
  }

  /** Index of the first `c` in `s`, or `|s|` when there is none. */
  function IndexOf(s: string, c: char): (r: nat)
    ensures r <= |s|
    ensures r < |s| ==> s[r] == c
    ensures c !in s[..r]
  {
    if |s| == 0 then 0
    else if s[0] == c then 0
    else
      assert s[..IndexOf(s[1..], c) + 1] == [s[0]] + s[1..][..IndexOf(s[1..], c)];
      1 + IndexOf(s[1..], c)
  }

  /** Python's `s.split(c)[0]`: everything before the first `c`. */
  function BeforeFirst(s: string, c: char): (r: string)
    ensures c !in r
    ensures StartsWith(s, r)
    ensures |r| < |s| ==> s[|r|] == c
  {
    s[..IndexOf(s, c)]
  }

  /** Python's `s.split(c, 1)[1]` when `c` occurs in `s`: everything after the first `c`. */
  function AfterFirst(s: string, c: char): (r: string)
    requires c in s
    ensures s == BeforeFirst(s, c) + [c] + r
  {
    var i := IndexOf(s, c);
    assert s == s[..i] + [c] + s[i + 1..];
    s[i + 1..]
  }

  /** Python's `s.split(c)`: the pieces between occurrences of `c`, always at least one. */
  function SplitOn(s: string, c: char): (r: seq<string>)
    ensures |r| >= 1
    ensures forall k :: 0 <= k < |r| ==> c !in r[k]
    decreases |s|
  {
    var i := IndexOf(s, c);
    if i == |s| then [s] else [s[..i]] + SplitOn(s[i + 1..], c)
  }

  predicate IsDigit(c: char) {
    '0' <= c <= '9'
  }

  /** Python's `s.isdigit()` restricted to ASCII digits: non-empty and all digits. */
  predicate IsDigits(s: string) {
    |s| > 0 && forall k :: 0 <= k < |s| ==> IsDigit(s[k])
  }

  /** Python's `int(s)` for a string of ASCII digits (leading zeros allowed). */
  function DigitsValue(s: string): (r: nat)
    requires forall k :: 0 <= k < |s| ==> IsDigit(s[k])
  {
    if |s| == 0 then 0
    else
      assert IsDigit(s[|s| - 1]);
      DigitsValue(s[..|s| - 1]) * 10 + (s[|s| - 1] as int - '0' as int)
  }

  function DigitChar(d: nat): (c: char)
    requires d < 10
    ensures IsDigit(c) && c as int - '0' as int == d
  {
    ('0' as int + d) as char
  }

  /** Python's `str(n)` for a natural number. */
  function NatToString(n: nat): (r: string)
    ensures IsDigits(r)
    ensures DigitsValue(r) == n
    ensures |r| > 1 ==> r[0] != '0'
  {
    if n < 10 then [DigitChar(n)]
    else
      var p := NatToString(n / 10);
      var r := p + [DigitChar(n % 10)];
      assert r[..|r| - 1] == p;
      r
  }

  function UpperChar(c: char): char {
    if 'a' <= c <= 'z' then (c as int - 'a' as int + 'A' as int) as char else c
  }

  function LowerChar(c: char): char {
    if 'A' <= c <= 'Z' then (c as int - 'A' as int + 'a' as int) as char else c
  }

  predicate IsCased(c: char) {
    ('a' <= c <= 'z') || ('A' <= c <= 'Z')
  }

  /** Python's `s.upper()` on ASCII letters. */
  function Upper(s: string): (r: string)
    ensures |r| == |s|
    ensures forall k :: 0 <= k < |s| ==> r[k] == UpperChar(s[k])
  {
    seq(|s|, k requires 0 <= k < |s| => UpperChar(s[k]))
  }

  /** Python's `s.lower()` on ASCII letters. */
  function Lower(s: string): (r: string)
    ensures |r| == |s|
    ensures forall k :: 0 <= k < |s| ==> r[k] == LowerChar(s[k])
  {
    seq(|s|, k requires 0 <= k < |s| => LowerChar(s[k]))
  }

  /**
   * Python's `s.title()` on ASCII letters: a letter that follows a letter is
   * lower-cased, every other letter is upper-cased.
   */
  function Title(s: string): (r: string)
    ensures |r| == |s|
    ensures Lower(r) == Lower(s)
    ensures forall k :: 0 <= k < |s| && !IsCased(s[k]) ==> r[k] == s[k]
    ensures forall k :: 0 <= k < |s| && IsCased(s[k]) ==>
      ('A' <= r[k] <= 'Z' <==> k == 0 || !IsCased(s[k - 1]))
  {
    var r := seq(|s|, k requires 0 <= k < |s| => TitleAt(s, k));
    TitleCases(s, r);
    r
  }

  /** The character `title()` puts at position `k`. */
  function TitleAt(s: string, k: nat): char
    requires k < |s|
  {
    if k > 0 && IsCased(s[k - 1]) then LowerChar(s[k]) else UpperChar(s[k])
  }

  /** The case facts `Title` rests on, position by position. */
  lemma TitleCases(s: string, r: string)
    requires |r| == |s|
    requires forall k :: 0 <= k < |s| ==> r[k] == TitleAt(s, k)
    ensures Lower(r) == Lower(s)
    ensures forall k :: 0 <= k < |s| && !IsCased(s[k]) ==> r[k] == s[k]
    ensures forall k :: 0 <= k < |s| && IsCased(s[k]) ==>
      ('A' <= r[k] <= 'Z' <==> k == 0 || !IsCased(s[k - 1]))
  {
    forall k | 0 <= k < |s|
      ensures LowerChar(r[k]) == LowerChar(s[k])
      ensures !IsCased(s[k]) ==> r[k] == s[k]
      ensures IsCased(s[k]) ==> ('A' <= r[k] <= 'Z' <==> k == 0 || !IsCased(s[k - 1]))
    {
      CaseChar(s[k]);
      assert r[k] == TitleAt(s, k);
    }
    assert forall k :: 0 <= k < |s| ==> Lower(r)[k] == Lower(s)[k];
  }

  /** Changing the case of an ASCII letter keeps its lower-case form; other characters are left alone. */
  lemma CaseChar(c: char)
    ensures LowerChar(UpperChar(c)) == LowerChar(c) && LowerChar(LowerChar(c)) == LowerChar(c)
    ensures !IsCased(c) ==> UpperChar(c) == c && LowerChar(c) == c
    ensures IsCased(c) ==> 'A' <= UpperChar(c) <= 'Z' && !('A' <= LowerChar(c) <= 'Z')
  {
  }

  /** Python's `s[:n]` for a non-negative `n`. */
  function Take(s: string, n: nat): (r: string)
    ensures |r| <= n && StartsWith(s, r)
    ensures |s| <= n ==> r == s
  {
    if |s| <= n then s else s[..n]
  }

  /** Python's `s.replace(c, d)` for single characters. */
  function ReplaceChar(s: string, c: char, d: char): (r: string)
    ensures |r| == |s|
    ensures forall k :: 0 <= k < |s| ==> r[k] == if s[k] == c then d else s[k]
  {
    seq(|s|, k requires 0 <= k < |s| => if s[k] == c then d else s[k])
  }

  /** No element occurs twice. */
  predicate Distinct<T(==)>(s: seq<T>) {
    forall i, j :: 0 <= i < j < |s| ==> s[i] != s[j]
  }

  /** `s` with every occurrence of `x` taken out, order kept. */
  function Remove(s: seq<string>, x: string): (r: seq<string>)
    ensures x !in r
    ensures forall y :: y in r <==> y in s && y != x
    ensures Distinct(s) ==> Distinct(r)
    ensures x !in s ==> r == s
  {
    if |s| == 0 then []
    else if s[0] == x then Remove(s[1..], x)
    else
      assert Distinct(s) ==> s[0] !in s[1..];
      [s[0]] + Remove(s[1..], x)
  }

  /** A map whose keys a duplicate-free sequence lists has as many entries as the sequence. */
  lemma {:induction false} KeysListed<V>(m: map<string, V>, keys: seq<string>)
    requires Distinct(keys) && forall e :: e in m <==> e in keys
    ensures |m| == |keys|
  {
    if keys == [] {
      assert m.Keys == {};
    } else {
      var x := keys[|keys| - 1];
      var rest := keys[..|keys| - 1];
      assert forall e :: e in keys <==> e in rest || e == x;
      KeysListed(m - {x}, rest);
    }
  }

  /** Appending to the empty sequence gives the appended one. */
  lemma AppendToEmpty<T>(s: seq<T>)
    ensures [] + s == s
  {
  }

  /** A prefix grown by one element, and what it then contains. */
  lemma PrefixSnoc<T>(s: seq<T>, i: nat)
    requires i < |s|
    ensures s[..i + 1] == s[..i] + [s[i]]
    ensures s[..i + 1][..i] == s[..i]
    ensures forall x :: x in s[..i + 1] <==> x in s[..i] || x == s[i]
  {
  }

  lemma WholePrefix<T>(s: seq<T>)
    ensures s[..|s|] == s
  {
  }

  /** A second update of the same key wipes out the first. */
  lemma UpdateTwice<K, V>(m: map<K, V>, k: K, a: V, b: V)
    ensures m[k := a][k := b] == m[k := b]
  {
  }
}
