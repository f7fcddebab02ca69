/** The few Python string operations the game relies on, with Python's
    meaning: `str.strip()`, `str.lower()` followed by `startswith`, the
    `in` test for substrings, `str.split(sep, 1)` and `startswith`. */
module PyText {
  import opened Common

  /** Python's `str.isspace()`: the characters `str.strip()` removes. */
  predicate IsSpace(c: char)
  {
    ('\U{9}' <= c <= '\U{D}') || ('\U{1C}' <= c <= '\U{20}') ||
    c == '\U{85}' || c == '\U{A0}' || c == '\U{1680}' ||
    ('\U{2000}' <= c <= '\U{200A}') || c == '\U{2028}' || c == '\U{2029}' ||
    c == '\U{202F}' || c == '\U{205F}' || c == '\U{3000}'
  }

  predicate AllSpace(s: string)
  {
    forall k :: 0 <= k < |s| ==> IsSpace(s[k])
  }

  /** Length of the run of whitespace at the start of `s`. */
  function LeadingSpace(s: string): (n: nat)
    ensures n <= |s|
    ensures AllSpace(s[..n])
    ensures n < |s| ==> !IsSpace(s[n])
  {
    if s == [] || !IsSpace(s[0]) then 0
    else
      var m := LeadingSpace(s[1..]);
      var u := s[..m + 1];
      assert AllSpace(u) by {
        forall k | 0 <= k < |u| ensures IsSpace(u[k]) {
          if k > 0 { assert u[k] == s[1..][..m][k - 1]; }
        }
      }
      m + 1
  }

  /** Length of `s` once the run of whitespace at its end is cut off. */
  function TrailingCut(s: string): (n: nat)
    ensures n <= |s|
    ensures AllSpace(s[n..])
    ensures n > 0 ==> !IsSpace(s[n - 1])
  {
    if s == [] || !IsSpace(s[|s| - 1]) then |s|
    else
      var m := TrailingCut(s[..|s| - 1]);
      assert AllSpace(s[m..]) by {
        forall k | 0 <= k < |s| - m ensures IsSpace(s[m..][k]) {
          if k < |s| - 1 - m { assert s[m..][k] == s[..|s| - 1][m..][k]; }
        }
      }
      m
  }

  /** Python's `str.strip()` with no argument. */
  function Strip(s: string): string
  {
    var a := LeadingSpace(s);
    s[a..][..TrailingCut(s[a..])]
  }

  /** `str.strip()` removes the whitespace at both ends and nothing else: the
      result is the middle of `s` between two runs of whitespace, and it
      neither starts nor ends with whitespace. */
  lemma StripSpec(s: string)
    ensures LeadingSpace(s) + |Strip(s)| <= |s|
    ensures Strip(s) == s[LeadingSpace(s)..LeadingSpace(s) + |Strip(s)|]
    ensures AllSpace(s[..LeadingSpace(s)]) && AllSpace(s[LeadingSpace(s) + |Strip(s)|..])
    ensures Strip(s) != [] ==> !IsSpace(Strip(s)[0]) && !IsSpace(Strip(s)[|Strip(s)| - 1])
    ensures Strip(s) == [] <==> AllSpace(s)
  {
    StripMiddle(s);
    StripEnds(s);
    StripEmpty(s);
  }

  lemma StripMiddle(s: string)
    ensures LeadingSpace(s) + |Strip(s)| <= |s|
    ensures Strip(s) == s[LeadingSpace(s)..LeadingSpace(s) + |Strip(s)|]
    ensures AllSpace(s[..LeadingSpace(s)]) && AllSpace(s[LeadingSpace(s) + |Strip(s)|..])
  {
    var a := LeadingSpace(s);
    var t := s[a..];
    var b := TrailingCut(t);
    assert t[b..] == s[a + b..];
  }

  lemma StripEnds(s: string)
    ensures Strip(s) != [] ==> !IsSpace(Strip(s)[0]) && !IsSpace(Strip(s)[|Strip(s)| - 1])
  {
    var a := LeadingSpace(s);
    var t := s[a..];
    var b := TrailingCut(t);
    assert a < |s| ==> b > 0;
  }

  lemma StripEmpty(s: string)
    ensures Strip(s) == [] <==> AllSpace(s)
  {
    var a := LeadingSpace(s);
    var t := s[a..];
    var b := TrailingCut(t);
    assert t[b..] == s[a + b..];
    assert a < |s| ==> b > 0;
    if b == 0 {
      assert a == |s|;
      forall k | 0 <= k < |s| ensures IsSpace(s[k]) {
        assert s[k] == s[..a][k];
      }
    }
  }

  /** A string that has no whitespace at either end is its own strip. */
  lemma StripNoop(s: string)
    requires s == [] || (!IsSpace(s[0]) && !IsSpace(s[|s| - 1]))
    ensures Strip(s) == s
  {
    if s != [] {
      assert LeadingSpace(s) == 0;
    }
  }

  /** Whitespace around a string with non-space ends is removed exactly. */
  lemma {:induction false} StripPadded(w1: string, s: string, w2: string)
    requires AllSpace(w1) && AllSpace(w2)
    requires s != [] && !IsSpace(s[0]) && !IsSpace(s[|s| - 1])
    ensures Strip(w1 + s + w2) == s
  {
    var x := w1 + s + w2;
    LeadingOfPadded(w1, s + w2);
    assert x == w1 + (s + w2);
    var a := LeadingSpace(x);
    assert a == |w1|;
    var r := Strip(x);
    assert x[a..] == s + w2;
    var t := s + w2;
    TrailingOfPadded(s, w2);
    assert r == t[..TrailingCut(t)] == s;
  }

  lemma {:induction false} LeadingOfPadded(w: string, s: string)
    requires AllSpace(w) && s != [] && !IsSpace(s[0])
    ensures LeadingSpace(w + s) == |w|
  {
    if w != [] {
      assert (w + s)[1..] == w[1..] + s;
      LeadingOfPadded(w[1..], s);
    } else {
      assert w + s == s;
    }
  }

  lemma {:induction false} TrailingOfPadded(s: string, w: string)
    requires AllSpace(w) && s != [] && !IsSpace(s[|s| - 1])
    ensures TrailingCut(s + w) == |s|
  {
    if w != [] {
      assert (s + w)[..|s + w| - 1] == s + w[..|w| - 1];
      TrailingOfPadded(s, w[..|w| - 1]);
    } else {
      assert s + w == s;
    }
  }

  /** Python's `startswith`. */
  predicate StartsWith(s: string, p: string)
  {
    |p| <= |s| && s[..|p|] == p
  }

  /** Python's `p in s` for strings. */
  predicate Contains(s: string, p: string)
    decreases |s|
  {
    StartsWith(s, p) || (s != [] && Contains(s[1..], p))
  }

  /** Python's `str.find(p)`, None standing for -1. */
  function Find(s: string, p: string): (r: Option<nat>)
    decreases |s|
    ensures r.Some? ==> r.value + |p| <= |s| && s[r.value..r.value + |p|] == p
    ensures r.None? <==> !Contains(s, p)
  {
    if StartsWith(s, p) then Some(0)
    else if s == [] then None
    else
      match Find(s[1..], p)
      case None => None
      case Some(k) =>
        assert s[1..][k..k + |p|] == s[k + 1..k + 1 + |p|];
        Some(k + 1)
  }

  /** `Find` reports the first occurrence: `p` does not start at any
      earlier position. */
  lemma {:induction false} FindNoEarlier(s: string, p: string, j: nat)
    requires Find(s, p).Some? && j < Find(s, p).value
    ensures !StartsWith(s[j..], p)
  {
    if j == 0 {
      assert s[j..] == s;
    } else {
      FindNoEarlier(s[1..], p, j - 1);
      assert s[1..][j - 1..] == s[j..];
    }
  }

  /** `s.split(sep, 1)` when `sep` occurs: the part before and after its
      first occurrence; None when `sep` does not occur (Python then returns
      a one-element list). */
  function SplitOnce(s: string, sep: string): (r: Option<(string, string)>)
    ensures r.None? <==> !Contains(s, sep)
    ensures r.Some? ==> r.value.0 + sep + r.value.1 == s
  {
    match Find(s, sep)
    case None => None
    case Some(i) =>
      assert s[..i] + sep + s[i + |sep|..] == s by {
        assert s == s[..i] + s[i..i + |sep|] + s[i + |sep|..];
      }
      Some((s[..i], s[i + |sep|..]))
  }

  /** The part before the separator, followed by all but the last character
      of the separator, holds no occurrence of it: the split is at the first
      occurrence. */
  lemma SplitOnceFirst(s: string, sep: string)
    requires SplitOnce(s, sep).Some? && sep != []
    ensures !Contains(SplitOnce(s, sep).value.0 + sep[..|sep| - 1], sep)
  {
    FindFirstIsFirst(s, sep, Find(s, sep).value);
  }

  /** The first occurrence of `p` found by `Find` is not preceded by another
      occurrence that ends before the separator's last character. */
  lemma {:induction false} FindFirstIsFirst(s: string, p: string, i: nat)
    requires p != [] && Find(s, p) == Some(i)
    ensures !Contains(s[..i] + p[..|p| - 1], p)
  {
    var t := s[..i] + p[..|p| - 1];
    assert t == s[..i + |p| - 1];
    forall j | 0 <= j <= |t| ensures !StartsWith(t[j..], p) {
      if j < i {
        FindNoEarlier(s, p, j);
        if |p| <= |t| - j {
          assert t[j..][..|p|] == s[j..][..|p|];
        }
      }
    }
    NotContainsFromNoStart(t, p, 0);
  }

  lemma {:induction false} NotContainsFromNoStart(t: string, p: string, j: nat)
    requires j <= |t|
    requires forall k :: j <= k <= |t| ==> !StartsWith(t[k..], p)
    ensures !Contains(t[j..], p)
    decreases |t| - j
  {
    if j < |t| {
      NotContainsFromNoStart(t, p, j + 1);
      assert t[j..][1..] == t[j + 1..];
    }
  }

  /** Python's `str.lower()` on one character, as far as the result decides
      `startswith("ai")`: A-Z fold to a-z, U+0130 (capital I with dot) folds
      to "i" followed by U+0307; every other character is kept. */
  function LowerChar(c: char): (r: string)
    ensures |r| == 1 || |r| == 2
  {
    if 'A' <= c <= 'Z' then [(c as int + 32) as char]
    else if c == '\U{130}' then ['i', '\U{307}']
    else [c]
  }

  function Lower(s: string): string
  {
    if s == [] then [] else LowerChar(s[0]) + Lower(s[1..])
  }

  /** `name.lower().startswith("ai")`, the test that marks a participant as
      automated. */
  predicate IsAutomatedName(name: string)
  {
    StartsWith(Lower(name), "ai")
  }

  /** The first character of a lowered character is `a` only for a and A,
      and `i` only for i, I and U+0130; only U+0130 lowers to two characters. */
  lemma LowerCharHead(c: char)
    ensures LowerChar(c)[0] == 'a' <==> c == 'a' || c == 'A'
    ensures LowerChar(c)[0] == 'i' <==> c == 'i' || c == 'I' || c == '\U{130}'
    ensures |LowerChar(c)| == 1 <==> c != '\U{130}'
  {
  }

  /** The lowered name starts with "ai" exactly when the name's first
      character is a or A and its second is i, I or U+0130. */
  lemma AutomatedNameChars(name: string)
    ensures IsAutomatedName(name) <==>
              |name| >= 2 && (name[0] == 'a' || name[0] == 'A') &&
              (name[1] == 'i' || name[1] == 'I' || name[1] == '\U{130}')
  {
    if |name| >= 1 {
      var l := Lower(name);
      LowerCharHead(name[0]);
      assert l == LowerChar(name[0]) + Lower(name[1..]);
      if |name| >= 2 {
        LowerCharHead(name[1]);
        assert Lower(name[1..]) == LowerChar(name[1]) + Lower(name[2..]);
        assert l == LowerChar(name[0]) + LowerChar(name[1]) + Lower(name[2..]);
        if name[0] == 'a' || name[0] == 'A' {
          assert l[0] == 'a' && l[1] == LowerChar(name[1])[0];
        } else {
          assert l[0] != 'a';
        }
      } else {
        assert name[1..] == [];
        assert l == LowerChar(name[0]);
      }
    }
  }
}
