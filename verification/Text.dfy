/** Strings as the services handle them: stripping, searching, splitting, comparing and printing numbers. */
module Text {

  datatype Option<+T> = None | Some(value: T)

  /** The characters Python's `str.strip()` removes. */
  predicate IsSpace(c: char) {
    || '\t' <= c <= '\r'
    || '\U{1C}' <= c <= ' '
    || c in {'\U{85}', '\U{A0}', '\U{1680}', '\U{2028}', '\U{2029}', '\U{202F}', '\U{205F}', '\U{3000}'}
    || '\U{2000}' <= c <= '\U{200A}'
  }

  function StripLeft(s: string): string {
    if s != "" && IsSpace(s[0]) then StripLeft(s[1..]) else s
  }

  function StripRight(s: string): string {
    if s != "" && IsSpace(s[|s| - 1]) then StripRight(s[..|s| - 1]) else s
  }

  function Strip(s: string): string {
    StripRight(StripLeft(s))
  }

  /** `s.rstrip(c)` for one character. */
  function DropTrailing(s: string, c: char): (r: string)
    ensures r <= s
    ensures r != "" ==> r[|r| - 1] != c
  {
    if s != "" && s[|s| - 1] == c then DropTrailing(s[..|s| - 1], c) else s
  }

  /** `s.lstrip(c)` for one character. */
  function DropLeading(s: string, c: char): (r: string)
    ensures |r| <= |s| && r == s[|s| - |r|..]
    ensures r != "" ==> r[0] != c
  {
    if s != "" && s[0] == c then DropLeading(s[1..], c) else s
  }

  predicate OccursAt(s: string, sub: string, i: nat) {
    i + |sub| <= |s| && s[i..i + |sub|] == sub
  }

  /** `sub in s`. */
  predicate Contains(s: string, sub: string) {
    exists i: nat | i <= |s| :: OccursAt(s, sub, i)
  }

  lemma {:induction false} ConcatContainsMiddle(left: string, middle: string, right: string)
    ensures Contains(left + middle + right, middle)
  {
    assert OccursAt(left + middle + right, middle, |left|);
  }

  lemma {:induction false} ContainsStays(s: string, sub: string, rest: string)
    requires Contains(s, sub)
    ensures Contains(s + rest, sub)
  {
    var i: nat :| i <= |s| && OccursAt(s, sub, i);
    assert (s + rest)[i..i + |sub|] == s[i..i + |sub|];
    assert OccursAt(s + rest, sub, i);
  }

  lemma {:induction false} LaterSeparator(c: char, s: string, a: string, t: string, b: string)
    requires s + [c] + a == t + [c] + b && |s| < |t|
    ensures c in a
  {
    assert (t + [c] + b)[|t|] == c;
    assert (s + [c] + a)[|t|] == a[|t| - |s| - 1];
  }

  /** Where the last parts hold no separator, both parts come back. */
  lemma {:induction false} SplitAtLast(c: char, s: string, a: string, t: string, b: string)
    requires c !in a && c !in b && s + [c] + a == t + [c] + b
    ensures s == t && a == b
  {
    if |s| < |t| {
      LaterSeparator(c, s, a, t, b);
    } else if |t| < |s| {
      LaterSeparator(c, t, b, s, a);
    } else {
      assert (s + [c] + a)[..|s|] == s && (t + [c] + b)[..|s|] == t;
      assert (s + [c] + a)[|s| + 1..] == a && (t + [c] + b)[|s| + 1..] == b;
    }
  }

  /** A search hit at `i` that the pattern's trailing `(?![\w-])` accepts. */
  predicate HitAt(s: string, sub: string, isWord: char -> bool, i: nat) {
    && OccursAt(s, sub, i)
    && (i + |sub| < |s| ==> !isWord(s[i + |sub|]) && s[i + |sub|] != '-')
  }

  predicate ContainsBounded(s: string, sub: string, isWord: char -> bool) {
    exists i: nat | i <= |s| :: HitAt(s, sub, isWord, i)
  }

  lemma {:induction false} ConcatContainsBounded(left: string, middle: string, right: string, isWord: char -> bool)
    requires right != "" ==> !isWord(right[0]) && right[0] != '-'
    ensures ContainsBounded(left + middle + right, middle, isWord)
  {
    assert HitAt(left + middle + right, middle, isWord, |left|);
  }

  function Digit(d: nat): char
    requires d < 10
  {
    '0' + d as char
  }

  /** `str(n)` for a natural number. */
  function Decimal(n: nat): (s: string)
    ensures s != "" && forall c | c in s :: '0' <= c <= '9'
  {
    if n < 10 then [Digit(n)] else Decimal(n / 10) + [Digit(n % 10)]
  }

  lemma {:induction false} DecimalLength(n: nat)
    ensures |Decimal(n)| == 1 <==> n < 10
  {
  }

  lemma {:induction false} DecimalIsInjective(m: nat, n: nat)
    requires Decimal(m) == Decimal(n)
    ensures m == n
  {
    var s := Decimal(m);
    DecimalLength(m);
    DecimalLength(n);
    if m < 10 {
      assert s[0] == Digit(m) == Digit(n);
    } else {
      assert s[|s| - 1] == Digit(m % 10) == Digit(n % 10);
      assert Decimal(m / 10) == s[..|s| - 1] == Decimal(n / 10);
      DecimalIsInjective(m / 10, n / 10);
    }
  }
}
