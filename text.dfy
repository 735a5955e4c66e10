/**
 * The handful of Python string operations the application relies on:
 * `str.split()` with no separator, `str.strip()`, `str.startswith`,
 * `str.capitalize()`, decimal rendering of integers, and the
 * case-insensitive comparisons behind the ORM lookups `iexact`,
 * `istartswith` and `icontains` (which SQLite's LIKE performs on ASCII
 * letters only).
 */
module Text {
  import opened Common

  /** Python's `str.isspace()`: the characters `split()` and `strip()` treat as whitespace. */
  predicate IsSpace(c: char) {
    var n := c as int;
    (9 <= n <= 13) || (28 <= n <= 32) || n == 0x85 || n == 0xA0 || n == 0x1680
    || (0x2000 <= n <= 0x200A) || n == 0x2028 || n == 0x2029 || n == 0x202F
    || n == 0x205F || n == 0x3000
  }

  /** A non-empty run of non-whitespace characters: what `split()` yields. */
  predicate IsWord(w: string) {
    w != [] && forall i :: 0 <= i < |w| ==> !IsSpace(w[i])
  }

  /** Length of the longest whitespace-free prefix of `s`. */
  function WordLength(s: string): (n: nat)
    ensures n <= |s|
    ensures forall i :: 0 <= i < n ==> !IsSpace(s[i])
    ensures n < |s| ==> IsSpace(s[n])
  {
    if s == [] || IsSpace(s[0]) then 0 else 1 + WordLength(s[1..])
  }

  /** Python's `s.split()`: the maximal whitespace-free runs, in order. */
  function Split(s: string): seq<string>
    decreases |s|
  {
    if s == [] then []
    else if IsSpace(s[0]) then Split(s[1..])
    else
      var n := WordLength(s);
      [s[..n]] + Split(s[n..])
  }

  /** Every piece `split()` yields is a word. */
  lemma {:induction false} SplitYieldsWords(s: string)
    ensures forall i :: 0 <= i < |Split(s)| ==> IsWord(Split(s)[i])
    decreases |s|
  {
    if s != [] {
      if IsSpace(s[0]) {
        SplitYieldsWords(s[1..]);
      } else {
        var n := WordLength(s);
        SplitYieldsWords(s[n..]);
        assert IsWord(s[..n]);
      }
    }
  }

  /** The words joined by single spaces, e.g. a first and last name. */
  function Join(words: seq<string>): string {
    if words == [] then []
    else if |words| == 1 then words[0]
    else words[0] + " " + Join(words[1..])
  }

  lemma SplitWord(w: string)
    requires IsWord(w)
    ensures Split(w) == [w]
  {
    assert WordLength(w) == |w|;
    assert w[..|w|] == w;
    assert w[|w|..] == [];
  }

  lemma SplitWordThenSpace(w: string, rest: string)
    requires IsWord(w)
    ensures Split(w + " " + rest) == [w] + Split(rest)
  {
    var s := w + " " + rest;
    assert s[|w|] == ' ';
    assert forall i :: 0 <= i < |w| ==> s[i] == w[i];
    assert WordLength(s) == |w|;
    assert s[..|w|] == w;
    assert s[|w|..] == " " + rest;
    assert (" " + rest)[1..] == rest;
  }

  /** `split()` undoes joining words with single spaces. */
  lemma {:induction false} SplitJoin(words: seq<string>)
    requires forall i :: 0 <= i < |words| ==> IsWord(words[i])
    ensures Split(Join(words)) == words
  {
    if words == [] {
    } else if |words| == 1 {
      SplitWord(words[0]);
    } else {
      SplitJoin(words[1..]);
      SplitWordThenSpace(words[0], Join(words[1..]));
    }
  }

  /** `s.lstrip()`. */
  function StripLeft(s: string): (r: string)
    ensures |r| <= |s| && r == s[|s| - |r|..]
    ensures r != [] ==> !IsSpace(r[0])
    ensures forall i :: 0 <= i < |s| - |r| ==> IsSpace(s[i])
  {
    if s != [] && IsSpace(s[0]) then StripLeft(s[1..]) else s
  }

  /** `s.rstrip()`. */
  function StripRight(s: string): (r: string)
    ensures |r| <= |s| && r == s[..|r|]
    ensures r != [] ==> !IsSpace(r[|r| - 1])
    ensures forall i :: |r| <= i < |s| ==> IsSpace(s[i])
  {
    if s != [] && IsSpace(s[|s| - 1]) then StripRight(s[..|s| - 1]) else s
  }

  /** `s.strip()`. */
  function Strip(s: string): string {
    StripRight(StripLeft(s))
  }

  /** Splitting whitespace-only text yields no words. */
  lemma {:induction false} SplitAllSpace(s: string)
    requires forall i :: 0 <= i < |s| ==> IsSpace(s[i])
    ensures Split(s) == []
  {
    if s != [] {
      SplitAllSpace(s[1..]);
    }
  }

  /** Leading whitespace does not change the words. */
  lemma {:induction false} SplitSkipsLeft(s: string)
    ensures Split(StripLeft(s)) == Split(s)
  {
    if s != [] && IsSpace(s[0]) {
      SplitSkipsLeft(s[1..]);
    }
  }

  /**
   * When `split()` finds exactly one word, that word is the whole text
   * without its surrounding whitespace.
   */
  lemma {:induction false} SingleWordIsStripped(s: string)
    requires |Split(s)| == 1
    ensures Strip(s) == Split(s)[0]
  {
    var t := StripLeft(s);
    SplitSkipsLeft(s);
    assert t != [] && !IsSpace(t[0]);
    var n := WordLength(t);
    assert Split(t) == [t[..n]] + Split(t[n..]);
    assert Split(t[n..]) == [];
    NoWordsAllSpace(t[n..]);
    StripRightOfWordThenSpace(t, n);
  }

  /** Text with no words is whitespace only. */
  lemma {:induction false} NoWordsAllSpace(s: string)
    requires Split(s) == []
    ensures forall i :: 0 <= i < |s| ==> IsSpace(s[i])
  {
    if s != [] {
      NoWordsAllSpace(s[1..]);
      forall i | 0 <= i < |s| ensures IsSpace(s[i]) {
        if i > 0 { assert s[i] == s[1..][i - 1]; }
      }
    }
  }

  /** Right-stripping a word followed by whitespace leaves the word. */
  lemma {:induction false} StripRightOfWordThenSpace(t: string, n: nat)
    requires 0 < n <= |t|
    requires !IsSpace(t[n - 1])
    requires forall i :: n <= i < |t| ==> IsSpace(t[i])
    ensures StripRight(t) == t[..n]
    decreases |t|
  {
    if |t| > n {
      assert IsSpace(t[|t| - 1]);
      var u := t[..|t| - 1];
      assert forall i :: n <= i < |u| ==> u[i] == t[i];
      StripRightOfWordThenSpace(u, n);
      assert u[..n] == t[..n];
    } else {
      assert t[..n] == t;
    }
  }

  predicate StartsWith(s: string, prefix: string) {
    |prefix| <= |s| && s[..|prefix|] == prefix
  }

  /** The ASCII lower-case form of one character. */
  function LowerChar(c: char): char {
    if 'A' <= c <= 'Z' then (c as int + 32) as char else c
  }

  /** The ASCII upper-case form of one character. */
  function UpperChar(c: char): char {
    if 'a' <= c <= 'z' then (c as int - 32) as char else c
  }

  function Lower(s: string): (r: string)
    ensures |r| == |s|
  {
    seq(|s|, i requires 0 <= i < |s| => LowerChar(s[i]))
  }

  /** Python's `s.capitalize()` restricted to ASCII letters. */
  function Capitalize(s: string): string {
    if s == [] then [] else [UpperChar(s[0])] + Lower(s[1..])
  }

  /** The ORM's `iexact` lookup. */
  predicate EqualsIgnoreCase(a: string, b: string) {
    Lower(a) == Lower(b)
  }

  /** The ORM's `istartswith` lookup. */
  predicate StartsWithIgnoreCase(s: string, prefix: string) {
    StartsWith(Lower(s), Lower(prefix))
  }

  /** `sub` occurs in `s` as a contiguous piece. */
  predicate Contains(s: string, sub: string)
    decreases |s|
  {
    StartsWith(s, sub) || (s != [] && Contains(s[1..], sub))
  }

  /** A piece placed between two others is contained in the whole. */
  lemma {:induction false} ContainsMiddle(a: string, b: string, c: string)
    ensures Contains(a + b + c, b)
    decreases |a|
  {
    if a == [] {
      assert a + b + c == b + c;
      assert (b + c)[..|b|] == b;
    } else {
      ContainsMiddle(a[1..], b, c);
      assert (a + b + c)[1..] == a[1..] + b + c;
    }
  }

  /** The ORM's `icontains` lookup. */
  predicate ContainsIgnoreCase(s: string, sub: string) {
    Contains(Lower(s), Lower(sub))
  }

  predicate IsDigit(c: char) {
    '0' <= c <= '9'
  }

  predicate AllDigits(s: string) {
    forall i :: 0 <= i < |s| ==> IsDigit(s[i])
  }

  function DigitChar(d: nat): (c: char)
    requires d < 10
    ensures IsDigit(c) && c as int - '0' as int == d
  {
    ('0' as int + d) as char
  }

  function DigitValue(c: char): nat
    requires IsDigit(c)
  {
    c as int - '0' as int
  }

  /** Python's `str(n)` for a non-negative integer. */
  function NatToString(n: nat): (r: string)
    ensures r != [] && AllDigits(r)
  {
    if n < 10 then [DigitChar(n)] else NatToString(n / 10) + [DigitChar(n % 10)]
  }

  /** Python's `str(i)` for any integer. */
  function IntToString(i: int): string {
    if i < 0 then "-" + NatToString(-i) else NatToString(i)
  }

  /** Python's `int(s)` restricted to decimal digits: `None` where it raises. */
  function ParseNat(s: string): Option<nat>
    decreases |s|
  {
    if s == [] || !IsDigit(s[|s| - 1]) then None
    else if |s| == 1 then Some(DigitValue(s[0]))
    else
      var init := ParseNat(s[..|s| - 1]);
      if init.Some? then Some(10 * init.value + DigitValue(s[|s| - 1])) else None
  }

  /** Decimal rendering is read back exactly. */
  lemma {:induction false} ParseNatToString(n: nat)
    ensures ParseNat(NatToString(n)) == Some(n)
  {
    if n >= 10 {
      var s := NatToString(n);
      assert s[..|s| - 1] == NatToString(n / 10);
      ParseNatToString(n / 10);
    }
  }
}
