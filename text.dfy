/** String helpers standing for the few .NET string operations the modelled
    code uses: `StartsWith`, `Contains`, `Replace(c, "")`, ASCII lower-casing
    and the character class `[0-9]`. */
module Text {

  predicate IsPrefix(p: string, s: string) {
    |p| <= |s| && s[..|p|] == p
  }

  /** `s.Contains(sub)`: `sub` occurs at some position of `s`. */
  predicate Contains(s: string, sub: string)
    decreases |s|
  {
    IsPrefix(sub, s) || (|s| > 0 && Contains(s[1..], sub))
  }

  /** A string that does not have `sub[k]` as a character cannot contain
      `sub`. */
  lemma {:induction false} NotContainsWhenCharMissing(s: string, sub: string, k: nat)
    requires k < |sub| && sub[k] !in s
    ensures !Contains(s, sub)
    decreases |s|
  {
    if |sub| <= |s| {
      assert s[..|sub|][k] == s[k] != sub[k];
    }
    if |s| > 0 {
      NotContainsWhenCharMissing(s[1..], sub, k);
    }
  }

  /** `s.Replace(c.ToString(), "")`: every occurrence of `c` removed. */
  function RemoveChar(s: string, c: char): (r: string)
    ensures c !in r
    ensures |r| <= |s|
    ensures forall x :: x in r <==> x in s && x != c
    ensures c !in s ==> r == s
  {
    if s == [] then []
    else if s[0] == c then RemoveChar(s[1..], c)
    else [s[0]] + RemoveChar(s[1..], c)
  }

  /** A sequence of strings used as a set: no string twice. */
  predicate NoDuplicates(s: seq<string>) {
    forall i, j :: 0 <= i < j < |s| ==> s[i] != s[j]
  }

  predicate IsDigit(ch: char) {
    '0' <= ch <= '9'
  }

  predicate AllDigits(s: string) {
    forall i :: 0 <= i < |s| ==> IsDigit(s[i])
  }

  /** `Char.ToLowerInvariant` restricted to ASCII letters. */
  function LowerChar(ch: char): (r: char)
    ensures IsDigit(r) <==> IsDigit(ch)
    ensures (r == '{' <==> ch == '{') && (r == '}' <==> ch == '}')
  {
    if 'A' <= ch <= 'Z' then (ch as int - 'A' as int + 'a' as int) as char else ch
  }

  /** `ToLowerInvariant` restricted to ASCII letters. */
  function Lower(s: string): (r: string)
    ensures |r| == |s|
    ensures forall i :: 0 <= i < |s| ==> r[i] == LowerChar(s[i])
  {
    seq(|s|, i requires 0 <= i < |s| => LowerChar(s[i]))
  }

  // ----- Generic facts about sequences -----

  lemma AppendAssociates<T>(a: seq<T>, b: seq<T>, c: seq<T>)
    ensures (a + b) + c == a + (b + c)
  {
  }

  lemma AppendParts<T>(a: seq<T>, b: seq<T>)
    ensures |a + b| >= |b| && (a + b)[|a + b| - |b|..] == b && (a + b)[..|a + b| - |b|] == a
  {
  }

  lemma SliceAppend<T>(a: seq<T>, b: seq<T>, n: nat)
    requires n <= |a|
    ensures (a + b)[..n] == a[..n] && (a + b)[n..] == a[n..] + b
  {
  }

  lemma DropStep<T>(a: seq<T>, x: T, s: seq<T>)
    requires a + [x] <= s
    ensures s[|a|..] == [x] + s[|a| + 1..]
  {
    assert s[|a|] == x;
  }

  lemma TakeDrop<T>(s: seq<T>, n: nat)
    requires n <= |s|
    ensures s[..n] + s[n..] == s
  {
  }
}
