/**
  * The two patterns the engines read out of Solidtime descriptions: the issue-key
  * prefix `^([A-Z]+-\d+):` (matched at the start) and the sync marker
  * `\[JiraSync:(\d+)\]` (searched for, leftmost match).  Digits and letters are ASCII.
  */
module Markers {
  import opened Wrappers
  import opened Text

  const Lit: string := "[JiraSync:"

  /** The length of the run of decimal digits that starts `s` (`\d+` is greedy). */
  function DigitRun(s: string): (n: nat)
    ensures n <= |s| && AllDigits(s[..n])
    ensures n < |s| ==> !IsDigit(s[n])
  {
    if s == [] || !IsDigit(s[0]) then 0
    else
      var n := 1 + DigitRun(s[1..]);
      assert s[..n] == [s[0]] + s[1..][..n - 1];
      n
  }

  /** The length of the run of upper-case letters that starts `s` (`[A-Z]+` is greedy). */
  function UpperRun(s: string): (n: nat)
    ensures n <= |s| && forall k :: 0 <= k < n ==> IsUpper(s[k])
    ensures n < |s| ==> !IsUpper(s[n])
  {
    if s == [] || !IsUpper(s[0]) then 0 else 1 + UpperRun(s[1..])
  }

  lemma {:induction false} DigitRunAppend(s: string, t: string)
    requires AllDigits(s) && (t == [] || !IsDigit(t[0]))
    ensures DigitRun(s + t) == |s|
    decreases |s|
  {
    if s != [] {
      assert (s + t)[1..] == s[1..] + t;
      DigitRunAppend(s[1..], t);
    }
  }

  lemma {:induction false} UpperRunAppend(s: string, t: string)
    requires UpperRun(s) < |s|
    ensures UpperRun(s + t) == UpperRun(s)
    decreases |s|
  {
    if IsUpper(s[0]) {
      assert (s + t)[1..] == s[1..] + t;
      UpperRunAppend(s[1..], t);
    }
  }

  /** `k` is an issue key such as `AS-12`: capitals, a dash, digits. */
  predicate IsIssueKey(k: string) {
    var u := UpperRun(k);
    1 <= u < |k| && k[u] == '-' && k[u + 1..] != [] && AllDigits(k[u + 1..])
  }

  /** The length of the `[A-Z]+-\d+` key that starts `s` and is followed by a colon; 0 when none is. */
  function KeyLength(s: string): (n: nat)
    ensures n == 0 || n < |s|
  {
    var u := UpperRun(s);
    if 1 <= u < |s| && s[u] == '-' then
      var d := DigitRun(s[u + 1..]);
      if 1 <= d && u + 1 + d < |s| && s[u + 1 + d] == ':' then u + 1 + d else 0
    else 0
  }

  /** `re.match(r"^([A-Z]+-\d+):", s)`: group 1 when the pattern matches at the start. */
  function IssueKeyPrefix(s: string): (r: Option<string>)
    ensures r.Some? ==> IsIssueKey(r.value) && r.value + ":" <= s
    ensures r.None? <==> KeyLength(s) == 0
    ensures r.Some? ==> |r.value| == KeyLength(s)
  {
    var e := KeyLength(s);
    if e == 0 then None
    else
      var u := UpperRun(s);
      var n := DigitRun(s[u + 1..]);
      assert e == u + 1 + n;
      var k := s[..e];
      assert UpperRun(k) == u by { UpperRunAppend(k, s[e..]); assert k + s[e..] == s; }
      assert k[u + 1..] == s[u + 1..][..n];
      assert k + ":" == s[..e + 1];
      Some(k)
  }

  /** An issue key followed by a colon is read back as that key, whatever follows. */
  lemma IssueKeyPrefixOfKey(k: string, rest: string)
    requires IsIssueKey(k)
    ensures IssueKeyPrefix(k + ":" + rest) == Some(k)
  {
    var t := ":" + rest;
    var s := k + t;
    assert s == k + ":" + rest;
    var u := UpperRun(k);
    UpperRunAppend(k, t);
    assert UpperRun(s) == u && s[u] == '-';
    assert s[u + 1..] == k[u + 1..] + t;
    DigitRunAppend(k[u + 1..], t);
    assert DigitRun(s[u + 1..]) == |k| - u - 1;
    assert s[|k|] == ':' && s[..|k|] == k;
    IssueKeyPrefixAt(s, u, |k| - u - 1);
  }

  /** The prefix read once the upper-case run and the digit run of `s` are known. */
  lemma IssueKeyPrefixAt(s: string, u: nat, n: nat)
    requires UpperRun(s) == u && 1 <= u < |s| && s[u] == '-'
    requires DigitRun(s[u + 1..]) == n && 1 <= n && u + 1 + n < |s| && s[u + 1 + n] == ':'
    ensures IssueKeyPrefix(s) == Some(s[..u + 1 + n])
  {
    KeyLengthAt(s, u, n);
  }

  lemma KeyLengthAt(s: string, u: nat, n: nat)
    requires UpperRun(s) == u && 1 <= u < |s| && s[u] == '-'
    requires DigitRun(s[u + 1..]) == n && 1 <= n && u + 1 + n < |s| && s[u + 1 + n] == ':'
    ensures KeyLength(s) == u + 1 + n
  {
  }

  /** The marker, if `s` starts with one: the digits of `[JiraSync:<digits>]`. */
  function MarkerAt(s: string): (r: Option<string>)
    ensures r.Some? ==> Lit <= s && r.value != [] && AllDigits(r.value)
    ensures r.Some? ==> Lit + r.value + "]" <= s
  {
    if Lit <= s then
      var n := DigitRun(s[|Lit|..]);
      if 1 <= n && |Lit| + n < |s| && s[|Lit| + n] == ']' then
        var d := s[|Lit|..|Lit| + n];
        assert d == s[|Lit|..][..n];
        assert Lit + d + "]" == s[..|Lit| + n + 1];
        Some(d)
      else None
    else None
  }

  /** `re.search(r"\[JiraSync:(\d+)\]", s)`: group 1 of the leftmost match. */
  function FindMarker(s: string): (r: Option<string>)
    ensures r.Some? ==> r.value != [] && AllDigits(r.value)
    decreases |s|
  {
    if s == [] then None
    else if MarkerAt(s).Some? then MarkerAt(s)
    else FindMarker(s[1..])
  }

  /** The search finds nothing exactly when no position of `s` starts a marker. */
  lemma {:induction false} FindMarkerNone(s: string)
    ensures FindMarker(s).None? <==> forall i :: 0 <= i <= |s| ==> MarkerAt(s[i..]).None?
    decreases |s|
  {
    assert s[0..] == s;
    if s != [] && MarkerAt(s).None? {
      FindMarkerNone(s[1..]);
      forall i | 1 <= i <= |s| ensures s[i..] == s[1..][i - 1..] {
        DropTail(s, i);
      }
    }
  }

  /** Dropping `i` characters is dropping one and then `i - 1`. */
  lemma DropTail(s: string, i: nat)
    requires 1 <= i <= |s|
    ensures s[i..] == s[1..][i - 1..]
  {
  }

  /** A found marker is the one at the leftmost position of `s` that starts a marker. */
  lemma {:induction false} FindMarkerLeftmost(s: string)
    requires FindMarker(s).Some?
    ensures exists i ::
              && 0 <= i < |s| && MarkerAt(s[i..]) == FindMarker(s)
              && forall j :: 0 <= j < i ==> MarkerAt(s[j..]).None?
    decreases |s|
  {
    assert s[0..] == s;
    if MarkerAt(s).None? {
      var t := s[1..];
      assert FindMarker(s) == FindMarker(t);
      FindMarkerLeftmost(t);
      var i :|
        && 0 <= i < |t| && MarkerAt(t[i..]) == FindMarker(t)
        && forall j :: 0 <= j < i ==> MarkerAt(t[j..]).None?;
      DropTail(s, i + 1);
      forall j | 0 <= j < i + 1 ensures MarkerAt(s[j..]).None? {
        if j > 0 {
          DropTail(s, j);
        }
      }
      assert MarkerAt(s[i + 1..]) == FindMarker(s);
    } else {
      assert MarkerAt(s[0..]) == FindMarker(s);
    }
  }

  lemma {:induction false} FindMarkerSkips(a: string, b: string)
    requires forall i :: 0 <= i < |a| ==> !(Lit <= (a + b)[i..])
    ensures FindMarker(a + b) == FindMarker(b)
    decreases |a|
  {
    if a != [] {
      assert !(Lit <= (a + b)[0..]);
      assert (a + b)[0..] == a + b;
      assert (a + b)[1..] == a[1..] + b;
      forall i | 0 <= i < |a| - 1 ensures !(Lit <= (a[1..] + b)[i..]) {
        assert (a[1..] + b)[i..] == (a + b)[i + 1..];
      }
      FindMarkerSkips(a[1..], b);
    }
  }

  /** A marker with no earlier `[JiraSync:` before it is the one found. */
  lemma MarkerOfSuffix(digits: string)
    requires digits != [] && AllDigits(digits)
    ensures FindMarker(Lit + digits + "]") == Some(digits)
  {
    var s := Lit + digits + "]";
    assert s[|Lit|..] == digits + "]";
    DigitRunAppend(digits, "]");
    assert s[|Lit|..|Lit| + |digits|] == digits;
  }

  lemma LitHasNoSpace(k: nat)
    requires k < |Lit|
    ensures Lit[k] != ' '
  {
  }

  lemma KeyHasNoBracket(key: string, i: nat)
    requires IsIssueKey(key) && i < |key|
    ensures key[i] != '['
  {
    var u := UpperRun(key);
    if u < i {
      assert key[i] == key[u + 1..][i - u - 1];
    }
  }

  /** No `[JiraSync:` starts inside `key: text ` when the free text holds none. */
  lemma NoLitInPrefix(key: string, text: string, m: string, i: nat)
    requires IsIssueKey(key) && !Contains(text, Lit)
    requires i < |key| + |text| + 3
    ensures !(Lit <= (key + ": " + text + " " + m)[i..])
  {
    var p := key + ": " + text + " ";
    var s := p + m;
    assert key + ": " + text + " " + m == s;
    if i < |key| {
      KeyHasNoBracket(key, i);
      assert s[i] == key[i];
    } else if i < |key| + 2 {
      assert s[i] == ": "[i - |key|];
    } else if i + |Lit| < |p| {
      var j := i - |key| - 2;
      NotContainsAt(text, Lit, j);
      assert s[i..i + |Lit|] == text[j..j + |Lit|];
    } else {
      LitHasNoSpace(|p| - 1 - i);
      assert s[|p| - 1] == ' ';
      assert s[i..][|p| - 1 - i] == ' ';
    }
  }

  /**
    * The description `key: text [JiraSync:<digits>]` carries its marker back out,
    * provided the free text holds no `[JiraSync:` of its own.
    */
  lemma MarkerOfDescription(key: string, text: string, digits: string)
    requires IsIssueKey(key) && !Contains(text, Lit)
    requires digits != [] && AllDigits(digits)
    ensures FindMarker(key + ": " + text + " " + Lit + digits + "]") == Some(digits)
  {
    var p := key + ": " + text + " ";
    var m := Lit + digits + "]";
    assert key + ": " + text + " " + Lit + digits + "]" == p + m;
    forall i | 0 <= i < |p| ensures !(Lit <= (p + m)[i..]) {
      NoLitInPrefix(key, text, m, i);
    }
    FindMarkerSkips(p, m);
    MarkerOfSuffix(digits);
  }

  /** The same description carries its issue key back out. */
  lemma KeyOfDescription(key: string, text: string, digits: string)
    requires IsIssueKey(key)
    ensures IssueKeyPrefix(key + ": " + text + " " + Lit + digits + "]") == Some(key)
  {
    assert key + ": " + text + " " + Lit + digits + "]"
        == key + ":" + (" " + text + " " + Lit + digits + "]");
    IssueKeyPrefixOfKey(key, " " + text + " " + Lit + digits + "]");
  }
}
