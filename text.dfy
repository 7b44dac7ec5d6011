/**
  * The Python string operations the source relies on, written on `seq<char>`:
  * `in`, `startswith`, `find`, `split(sep)`, `split(sep, 1)`, `split()`, `strip()`,
  * `lower()`, `upper()`, `replace`, `count`, `str(int)`, `int(str)` and the `<` order
  * of `str`.  Character classes are the ASCII ones.
  */
module Text {
  import opened Wrappers

  predicate IsDigit(c: char) { '0' <= c <= '9' }

  predicate IsUpper(c: char) { 'A' <= c <= 'Z' }

  /** The ASCII characters for which Python's `str.isspace()` holds. */
  predicate IsSpace(c: char) {
    c == ' ' || (9 <= c as int <= 13) || (28 <= c as int <= 31)
  }

  predicate AllDigits(s: string) {
    forall k :: 0 <= k < |s| ==> IsDigit(s[k])
  }

  /** `s.startswith(prefix)` */
  predicate StartsWith(s: string, prefix: string) {
    prefix <= s
  }

  /** `s.endswith(suffix)` */
  predicate EndsWith(s: string, suffix: string) {
    |suffix| <= |s| && s[|s| - |suffix|..] == suffix
  }

  /** The first index at or after `i` where `sub` occurs in `s`, as Python's `s.find(sub, i)`. */
  function FindFrom(s: string, sub: string, i: nat): (r: Option<nat>)
    requires i <= |s|
    ensures r.Some? ==> i <= r.value <= |s| && sub <= s[r.value..]
    ensures r.Some? ==> forall j :: i <= j < r.value ==> !(sub <= s[j..])
    ensures r.None? ==> forall j :: i <= j <= |s| ==> !(sub <= s[j..])
    decreases |s| - i
  {
    if sub <= s[i..] then Some(i)
    else if i == |s| then None
    else FindFrom(s, sub, i + 1)
  }

  function Find(s: string, sub: string): Option<nat> {
    FindFrom(s, sub, 0)
  }

  /** `sub in s` */
  predicate Contains(s: string, sub: string) {
    Find(s, sub).Some?
  }

  lemma ContainsAt(s: string, sub: string, i: nat)
    requires i <= |s| && sub <= s[i..]
    ensures Contains(s, sub)
  {
  }

  lemma NotContainsAt(s: string, sub: string, i: nat)
    requires !Contains(s, sub) && i <= |s|
    ensures !(sub <= s[i..])
  {
  }

  /** A prefix that ends before the first occurrence of `sub` does not contain `sub`. */
  lemma BeforeFirstOccurrence(s: string, sub: string, i: nat)
    requires sub != [] && Find(s, sub) == Some(i)
    ensures !Contains(s[..i], sub)
  {
    var t := s[..i];
    forall j | 0 <= j <= |t|
      ensures !(sub <= t[j..])
    {
      if j < i {
        assert t[j..] == s[j..i];
        assert !(sub <= s[j..]);
      }
    }
  }

  /** `s.split(sep)` for a non-empty separator. */
  function Split(s: string, sep: string): (parts: seq<string>)
    requires sep != []
    ensures |parts| >= 1
    ensures forall k :: 0 <= k < |parts| ==> !Contains(parts[k], sep)
    decreases |s|
  {
    match Find(s, sep)
    case None => [s]
    case Some(i) =>
      BeforeFirstOccurrence(s, sep, i);
      [s[..i]] + Split(s[i + |sep|..], sep)
  }

  /** `split` cuts at the first occurrence: a first part is followed by a separator only when it ends there. */
  lemma SplitAtFirstOccurrence(s: string, sep: string)
    requires sep != []
    ensures |Split(s, sep)| >= 2 <==> Contains(s, sep)
    ensures |Split(s, sep)| >= 2 ==> Find(s, sep) == Some(|Split(s, sep)[0]|)
  {
  }

  /** `sep.join(parts)` */
  function Join(parts: seq<string>, sep: string): string
    requires |parts| >= 1
    decreases |parts|
  {
    if |parts| == 1 then parts[0] else parts[0] + sep + Join(parts[1..], sep)
  }

  /** Splitting loses nothing: joining the parts with the separator gives the input back. */
  lemma {:induction false} JoinSplit(s: string, sep: string)
    requires sep != []
    ensures Join(Split(s, sep), sep) == s
    decreases |s|
  {
    match Find(s, sep)
    case None =>
    case Some(i) =>
      var rest := s[i + |sep|..];
      var parts := Split(s, sep);
      assert parts == [s[..i]] + Split(rest, sep);
      assert |parts| >= 2;
      assert parts[1..] == Split(rest, sep);
      JoinSplit(rest, sep);
      assert Join(parts, sep) == s[..i] + sep + rest;
      assert s[i..i + |sep|] == sep;
      assert s == s[..i] + s[i..i + |sep|] + rest;
  }

  /** `s.split(sep, 1)` for a non-empty separator. */
  function SplitOnce(s: string, sep: string): (parts: seq<string>)
    requires sep != []
    ensures |parts| == 1 || |parts| == 2
    ensures |parts| == 1 <==> !Contains(s, sep)
    ensures |parts| == 1 ==> parts[0] == s
    ensures |parts| == 2 ==> parts[0] + sep + parts[1] == s && !Contains(parts[0], sep)
    ensures |parts| == 2 ==> Find(s, sep) == Some(|parts[0]|)
  {
    match Find(s, sep)
    case None => [s]
    case Some(i) =>
      BeforeFirstOccurrence(s, sep, i);
      assert s[i..i + |sep|] == sep;
      assert s == s[..i] + sep + s[i + |sep|..];
      [s[..i], s[i + |sep|..]]
  }

  /** The number of whitespace characters at the start of `s`. */
  function LeadingSpaces(s: string): (n: nat)
    ensures n <= |s|
    ensures forall k :: 0 <= k < n ==> IsSpace(s[k])
    ensures n < |s| ==> !IsSpace(s[n])
  {
    if s == [] || !IsSpace(s[0]) then 0 else 1 + LeadingSpaces(s[1..])
  }

  /** The number of whitespace characters at the end of `s`. */
  function TrailingSpaces(s: string): (n: nat)
    ensures n <= |s|
    ensures forall k :: |s| - n <= k < |s| ==> IsSpace(s[k])
    ensures n < |s| ==> !IsSpace(s[|s| - n - 1])
  {
    if s == [] || !IsSpace(s[|s| - 1]) then 0 else 1 + TrailingSpaces(s[..|s| - 1])
  }

  /** `s.strip()`: drops leading and trailing whitespace and nothing else. */
  function Strip(s: string): (r: string)
    ensures |r| <= |s|
    ensures r == [] || (!IsSpace(r[0]) && !IsSpace(r[|r| - 1]))
    ensures (s == [] || (!IsSpace(s[0]) && !IsSpace(s[|s| - 1]))) ==> r == s
    ensures (forall k :: 0 <= k < |s| ==> IsSpace(s[k])) ==> r == []
  {
    var t := s[LeadingSpaces(s)..];
    t[..|t| - TrailingSpaces(t)]
  }

  /**
    * `str.strip()` removes whitespace at the two ends and nothing else: the result is a
    * contiguous piece of the input with only whitespace before and after it.
    */
  lemma StripRemovesOnlyEndSpaces(s: string)
    ensures exists i, j ::
              && 0 <= i <= j <= |s| && Strip(s) == s[i..j]
              && (forall k :: 0 <= k < i ==> IsSpace(s[k]))
              && (forall k :: j <= k < |s| ==> IsSpace(s[k]))
  {
    var i := LeadingSpaces(s);
    var t := s[i..];
    var j := i + |t| - TrailingSpaces(t);
    assert Strip(s) == s[i..j];
    assert forall k :: j <= k < |s| ==> s[k] == t[k - i];
  }

  /** `[p.strip() for p in parts if p.strip()]`: the stripped items that are not empty, in order. */
  function StrippedItems(parts: seq<string>): (r: seq<string>)
    ensures |r| <= |parts|
    ensures forall k :: 0 <= k < |r| ==> r[k] != [] && Strip(r[k]) == r[k]
    ensures forall k :: 0 <= k < |parts| && Strip(parts[k]) != [] ==> Strip(parts[k]) in r
  {
    if parts == [] then []
    else
      var t := Strip(parts[0]);
      var rest := StrippedItems(parts[1..]);
      assert forall k :: 1 <= k < |parts| ==> parts[k] == parts[1..][k - 1];
      if t != [] then [t] + rest else rest
  }

  /** One step of the comprehension: the first part contributes its stripped form when that is not empty. */
  lemma StrippedItemsCons(parts: seq<string>)
    requires parts != []
    ensures StrippedItems(parts)
      == (if Strip(parts[0]) != [] then [Strip(parts[0])] else []) + StrippedItems(parts[1..])
  {
  }

  /** Every kept item is the stripped form of some part: the comprehension invents nothing. */
  lemma {:induction false} StrippedItemsFromParts(parts: seq<string>, k: nat)
    requires k < |StrippedItems(parts)|
    ensures exists j :: 0 <= j < |parts| && StrippedItems(parts)[k] == Strip(parts[j])
    decreases |parts|
  {
    var items := StrippedItems(parts);
    var t := Strip(parts[0]);
    var rest := StrippedItems(parts[1..]);
    StrippedItemsCons(parts);
    if t != [] && k == 0 {
      assert items[k] == Strip(parts[0]);
    } else {
      var k' := if t != [] then k - 1 else k;
      assert items[k] == rest[k'];
      StrippedItemsFromParts(parts[1..], k');
      var j :| 0 <= j < |parts[1..]| && rest[k'] == Strip(parts[1..][j]);
      assert parts[1..][j] == parts[j + 1];
    }
  }

  /** The comprehension works item by item, so the kept items stay in the order of the parts. */
  lemma {:induction false} StrippedItemsAppend(a: seq<string>, b: seq<string>)
    ensures StrippedItems(a + b) == StrippedItems(a) + StrippedItems(b)
    decreases |a|
  {
    if a == [] {
      assert a + b == b;
    } else {
      assert (a + b)[1..] == a[1..] + b;
      assert (a + b)[0] == a[0];
      StrippedItemsAppend(a[1..], b);
    }
  }

  /** The length of the run of non-whitespace characters that starts `s`. */
  function WordLength(s: string): (n: nat)
    ensures n <= |s|
    ensures forall k :: 0 <= k < n ==> !IsSpace(s[k])
    ensures n < |s| ==> IsSpace(s[n])
  {
    if s == [] || IsSpace(s[0]) then 0 else 1 + WordLength(s[1..])
  }

  predicate NoSpace(w: string) {
    forall k :: 0 <= k < |w| ==> !IsSpace(w[k])
  }

  /** `s.split()`: the maximal runs of non-whitespace characters, in order. */
  function SplitWhitespace(s: string): (words: seq<string>)
    ensures forall k :: 0 <= k < |words| ==> words[k] != [] && NoSpace(words[k])
    ensures NoSpace(s) && s != [] ==> words == [s]
    ensures (forall k :: 0 <= k < |s| ==> IsSpace(s[k])) ==> words == []
    decreases |s|
  {
    var t := s[LeadingSpaces(s)..];
    if t == [] then []
    else
      var n := WordLength(t);
      assert NoSpace(s) && s != [] ==> !IsSpace(s[0]) && LeadingSpaces(s) == 0;
      assert NoSpace(s) && s != [] ==> t == s && NoSpace(t) && n == |t| && t[n..] == [] && t[..n] == s;
      [t[..n]] + SplitWhitespace(t[n..])
  }

  /** `" ".join(words)` */
  function JoinWords(words: seq<string>): (r: string)
    ensures words != [] ==> words[0] <= r
    decreases |words|
  {
    if words == [] then ""
    else if |words| == 1 then words[0]
    else words[0] + " " + JoinWords(words[1..])
  }

  /** A word followed by whitespace is one run of non-whitespace characters. */
  lemma {:induction false} WordLengthOfWord(w: string, tail: string)
    requires NoSpace(w) && tail != [] && IsSpace(tail[0])
    ensures WordLength(w + tail) == |w|
    decreases |w|
  {
    if w != [] {
      assert (w + tail)[1..] == w[1..] + tail;
      WordLengthOfWord(w[1..], tail);
    } else {
      assert w + tail == tail;
    }
  }

  /** Leading whitespace before a word does not change what `split()` finds. */
  lemma SplitWhitespaceSkipsSpace(s: string)
    requires s != [] && !IsSpace(s[0])
    ensures SplitWhitespace(" " + s) == SplitWhitespace(s)
  {
    assert (" " + s)[1..] == s;
    assert LeadingSpaces(s) == 0;
    assert LeadingSpaces(" " + s) == 1;
  }

  /** Words joined by single spaces split back into the same words. */
  lemma {:induction false} SplitWhitespaceOfJoinWords(words: seq<string>)
    requires forall k :: 0 <= k < |words| ==> words[k] != [] && NoSpace(words[k])
    ensures SplitWhitespace(JoinWords(words)) == words
    decreases |words|
  {
    if |words| >= 2 {
      var w := words[0];
      var rest := JoinWords(words[1..]);
      var s := w + " " + rest;
      assert words[1..][0] == words[1];
      assert rest != [] && rest[0] == words[1][0];
      assert LeadingSpaces(s) == 0 by { assert s[0] == w[0]; }
      assert s[0..] == s;
      assert w + " " + rest == w + (" " + rest);
      WordLengthOfWord(w, " " + rest);
      assert s[..|w|] == w;
      assert s[|w|..] == " " + rest;
      SplitWhitespaceSkipsSpace(rest);
      SplitWhitespaceOfJoinWords(words[1..]);
      assert SplitWhitespace(s) == [w] + SplitWhitespace(" " + rest);
    } else if |words| == 1 {
      assert NoSpace(words[0]);
    }
  }

  function LowerChar(c: char): char {
    if 'A' <= c <= 'Z' then (c as int + 32) as char else c
  }

  function UpperChar(c: char): char {
    if 'a' <= c <= 'z' then (c as int - 32) as char else c
  }

  /** `s.lower()` */
  function Lower(s: string): (r: string)
    ensures |r| == |s| && forall k :: 0 <= k < |s| ==> r[k] == LowerChar(s[k])
  {
    seq(|s|, k requires 0 <= k < |s| => LowerChar(s[k]))
  }

  /** `s.upper()` */
  function Upper(s: string): (r: string)
    ensures |r| == |s| && forall k :: 0 <= k < |s| ==> r[k] == UpperChar(s[k])
  {
    seq(|s|, k requires 0 <= k < |s| => UpperChar(s[k]))
  }

  /** `s.replace(a, b)` for single characters. */
  function ReplaceChar(s: string, a: char, b: char): (r: string)
    ensures |r| == |s|
    ensures forall k :: 0 <= k < |s| ==> r[k] == (if s[k] == a then b else s[k])
  {
    seq(|s|, k requires 0 <= k < |s| => if s[k] == a then b else s[k])
  }

  /** `s.count(c)` for a single character. */
  function CountChar(s: string, c: char): nat {
    multiset(s)[c]
  }

  function DigitChar(d: nat): (c: char)
    requires d < 10
    ensures IsDigit(c)
  {
    ('0' as int + d) as char
  }

  function DigitValue(c: char): nat
    requires IsDigit(c)
  {
    c as int - '0' as int
  }

  /** `str(n)` for a natural number: decimal digits, no leading zero. */
  function NatToString(n: nat): (r: string)
    ensures r != [] && AllDigits(r)
    ensures r[0] == '0' ==> n == 0
    decreases n
  {
    if n < 10 then [DigitChar(n)] else NatToString(n / 10) + [DigitChar(n % 10)]
  }

  /** The number a non-empty run of decimal digits denotes. */
  function DigitsValue(s: string): nat
    requires AllDigits(s)
  {
    if s == [] then 0 else 10 * DigitsValue(s[..|s| - 1]) + DigitValue(s[|s| - 1])
  }

  lemma {:induction false} DigitsValueOfNatToString(n: nat)
    ensures DigitsValue(NatToString(n)) == n
    decreases n
  {
    if n >= 10 {
      DigitsValueOfNatToString(n / 10);
      var r := NatToString(n);
      assert r[..|r| - 1] == NatToString(n / 10);
    }
  }

  /** `str(i)` for an integer. */
  function IntToString(i: int): string {
    if i < 0 then "-" + NatToString(-i) else NatToString(i)
  }

  /** `str(i)` starts with a minus sign exactly for negative `i`. */
  lemma SignOfIntToString(i: int)
    ensures IntToString(i) != []
    ensures IntToString(i)[0] == '-' <==> i < 0
  {
    if i >= 0 {
      assert IsDigit(NatToString(i)[0]);
    }
  }

  /** Distinct integers print differently, so `str` is injective on ints. */
  lemma IntToStringInjective(i: int, j: int)
    requires IntToString(i) == IntToString(j)
    ensures i == j
  {
    SignOfIntToString(i);
    SignOfIntToString(j);
    if i < 0 && j < 0 {
      assert NatToString(-i) == IntToString(i)[1..] == NatToString(-j);
      DigitsValueOfNatToString(-i);
      DigitsValueOfNatToString(-j);
    } else if i >= 0 && j >= 0 {
      DigitsValueOfNatToString(i);
      DigitsValueOfNatToString(j);
    }
  }

  /**
    * `int(s)` on ASCII text: surrounding whitespace, an optional sign and at least one
    * decimal digit; anything else raises `ValueError`, modelled as `None`.
    */
  function ParseInt(s: string): Option<int> {
    var t := Strip(s);
    if t != [] && (t[0] == '-' || t[0] == '+') then
      var d := t[1..];
      if d != [] && AllDigits(d) then
        var v: int := DigitsValue(d);
        Some(if t[0] == '-' then -v else v)
      else None
    else if t != [] && AllDigits(t) then Some(DigitsValue(t))
    else None
  }

  /** `int(str(n)) == n` for a natural number: a run of digits. */
  lemma ParseIntOfNatToString(n: nat)
    ensures ParseInt(NatToString(n)) == Some(n)
  {
    var s := NatToString(n);
    assert IsDigit(s[0]) && IsDigit(s[|s| - 1]);
    assert Strip(s) == s;
    DigitsValueOfNatToString(n);
  }

  /** `int("-" + str(n)) == -n`: a minus sign before a run of digits. */
  lemma ParseIntOfNegated(n: nat)
    ensures ParseInt("-" + NatToString(n)) == Some(-(n as int))
  {
    DigitsValueOfNatToString(n);
    ParseIntOfMinusDigits(NatToString(n));
  }

  /** A minus sign before a run of digits reads as the negated value of the digits. */
  lemma ParseIntOfMinusDigits(d: string)
    requires d != [] && AllDigits(d)
    ensures ParseInt("-" + d) == Some(-(DigitsValue(d) as int))
  {
    var s := "-" + d;
    assert IsDigit(d[|d| - 1]) && s[|s| - 1] == d[|d| - 1];
    assert Strip(s) == s;
    assert s[0] == '-' && s[1..] == d;
  }

  /** `int(str(i)) == i` */
  lemma ParseIntOfIntToString(i: int)
    ensures ParseInt(IntToString(i)) == Some(i)
  {
    if i < 0 {
      ParseIntOfNegated(-i);
    } else {
      ParseIntOfNatToString(i);
    }
  }

  /** Python's `a < b` on strings: lexicographic by code point. */
  predicate LexLess(a: string, b: string)
    decreases |a|
  {
    if a == [] then b != []
    else b != [] && (a[0] < b[0] || (a[0] == b[0] && LexLess(a[1..], b[1..])))
  }

  lemma {:induction false} LexLessIrreflexive(a: string)
    ensures !LexLess(a, a)
    decreases |a|
  {
    if a != [] {
      LexLessIrreflexive(a[1..]);
    }
  }

  lemma {:induction false} LexLessTransitive(a: string, b: string, c: string)
    requires LexLess(a, b) && LexLess(b, c)
    ensures LexLess(a, c)
    decreases |a|
  {
    if a != [] && a[0] == b[0] && b[0] == c[0] {
      LexLessTransitive(a[1..], b[1..], c[1..]);
    }
  }

  lemma {:induction false} LexLessTotal(a: string, b: string)
    requires a != b
    ensures LexLess(a, b) || LexLess(b, a)
    decreases |a|
  {
    if a != [] && b != [] && a[0] == b[0] {
      assert a == [a[0]] + a[1..] && b == [b[0]] + b[1..];
      LexLessTotal(a[1..], b[1..]);
    }
  }

  lemma {:induction false} LexLessAsymmetric(a: string, b: string)
    requires LexLess(a, b)
    ensures !LexLess(b, a)
    decreases |a|
  {
    if a != [] && a[0] == b[0] {
      LexLessAsymmetric(a[1..], b[1..]);
    }
  }
}
