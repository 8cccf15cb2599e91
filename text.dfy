/** The few Python string methods the screenshot reader relies on:
    `str.strip()` with no argument (and, by another set of whitespace, the
    trim `int()` applies to its argument) and `str.replace(old, new)` for a
    one-character `old`. Strings are sequences of code points. */
module Text {

  /** The code points for which Python's `str.isspace()` holds, i.e. the
      characters `str.strip()` removes when called without an argument. */
  predicate IsSpace(c: char) {
    || c == ' '
    || ('\t' <= c <= '\r')
    || ('\U{1C}' <= c <= '\U{1F}')
    || c == '\U{85}' || c == '\U{A0}' || c == '\U{1680}'
    || ('\U{2000}' <= c <= '\U{200A}')
    || c == '\U{2028}' || c == '\U{2029}' || c == '\U{202F}'
    || c == '\U{205F}' || c == '\U{3000}'
  }

  /** Drops the leading characters for which `sp` holds (characterised by
      `TrimStartSpec`). */
  function TrimStart(s: string, sp: char -> bool): string {
    if s != [] && sp(s[0]) then TrimStart(s[1..], sp) else s
  }

  /** Drops the trailing characters for which `sp` holds (characterised by
      `TrimEndSpec`). */
  function TrimEnd(s: string, sp: char -> bool): string {
    if s != [] && sp(s[|s| - 1]) then TrimEnd(s[..|s| - 1], sp) else s
  }

  /** `TrimStart(s, sp)` is the suffix of `s` that starts at its first
      character outside `sp`. */
  lemma {:induction false} TrimStartSpec(s: string, sp: char -> bool)
    ensures |TrimStart(s, sp)| <= |s| && TrimStart(s, sp) == s[|s| - |TrimStart(s, sp)|..]
    ensures forall k :: 0 <= k < |s| - |TrimStart(s, sp)| ==> sp(s[k])
    ensures TrimStart(s, sp) == [] || !sp(TrimStart(s, sp)[0])
  {
    if s != [] && sp(s[0]) {
      var t := TrimStart(s[1..], sp);
      assert TrimStart(s, sp) == t;
      TrimStartSpec(s[1..], sp);
      assert s[1..][|s| - 1 - |t|..] == s[|s| - |t|..];
      forall k | 0 <= k < |s| - |t| ensures sp(s[k]) {
        if k > 0 {
          assert s[k] == s[1..][k - 1];
        }
      }
    }
  }

  /** `TrimEnd(s, sp)` is the prefix of `s` that ends at its last character
      outside `sp`. */
  lemma {:induction false} TrimEndSpec(s: string, sp: char -> bool)
    ensures |TrimEnd(s, sp)| <= |s| && TrimEnd(s, sp) == s[..|TrimEnd(s, sp)|]
    ensures forall k :: |TrimEnd(s, sp)| <= k < |s| ==> sp(s[k])
    ensures TrimEnd(s, sp) == [] || !sp(TrimEnd(s, sp)[|TrimEnd(s, sp)| - 1])
  {
    if s != [] && sp(s[|s| - 1]) {
      assert TrimEnd(s, sp) == TrimEnd(s[..|s| - 1], sp);
      TrimEndSpec(s[..|s| - 1], sp);
    }
  }

  /** `r` is the slice of `s` starting at `i`, and everything of `s`
      before and after that slice satisfies `sp`. */
  ghost predicate StrippedAt(s: string, r: string, i: int, sp: char -> bool) {
    && 0 <= i <= |s| - |r|
    && r == s[i..i + |r|]
    && (forall k :: 0 <= k < i ==> sp(s[k]))
    && (forall k :: i + |r| <= k < |s| ==> sp(s[k]))
  }

  /** The part of `s` between its leading and its trailing run of
      characters in `sp` (characterised by `TrimSpec`). */
  function Trim(s: string, sp: char -> bool): string {
    TrimEnd(TrimStart(s, sp), sp)
  }

  /** Python `s.strip()`: `Trim` with the whitespace of `str.isspace()`. */
  function Strip(s: string): string {
    Trim(s, IsSpace)
  }

  /** `Trim(s, sp)` is a slice of `s` with only `sp` characters around it,
      and it neither starts nor ends with one. */
  lemma TrimSpec(s: string, sp: char -> bool)
    ensures exists i :: StrippedAt(s, Trim(s, sp), i, sp)
    ensures Trim(s, sp) == [] || (!sp(Trim(s, sp)[0]) && !sp(Trim(s, sp)[|Trim(s, sp)| - 1]))
  {
    var t := TrimStart(s, sp);
    var r := TrimEnd(t, sp);
    TrimStartSpec(s, sp);
    TrimEndSpec(t, sp);
    SuffixThenPrefix(s, t, r, sp);
    assert r == Trim(s, sp);
    if r != [] {
      assert r[0] == t[0];
    }
  }

  /** A prefix `r` of a suffix `t` of `s`, where everything cut off on
      either side is in `sp`, sits in `s` at `|s| - |t|` with only `sp`
      characters around it. */
  lemma SuffixThenPrefix(s: string, t: string, r: string, sp: char -> bool)
    requires |t| <= |s| && t == s[|s| - |t|..]
    requires forall k :: 0 <= k < |s| - |t| ==> sp(s[k])
    requires |r| <= |t| && r == t[..|r|]
    requires forall k :: |r| <= k < |t| ==> sp(t[k])
    ensures StrippedAt(s, r, |s| - |t|, sp)
  {
    var i := |s| - |t|;
    assert r == s[i..i + |r|];
    forall k | i + |r| <= k < |s| ensures sp(s[k]) {
      assert s[k] == t[k - i];
    }
  }

  /** Trimming twice is trimming once. */
  lemma TrimIdempotent(s: string, sp: char -> bool)
    ensures Trim(Trim(s, sp), sp) == Trim(s, sp)
  {
    var r := Trim(s, sp);
    TrimSpec(s, sp);
    assert TrimStart(r, sp) == r;
    assert TrimEnd(r, sp) == r;
  }

  /** Text that neither starts nor ends with an `sp` character is its own
      trim. */
  lemma TrimUnspaced(s: string, sp: char -> bool)
    requires s == [] || (!sp(s[0]) && !sp(s[|s| - 1]))
    ensures Trim(s, sp) == s
  {
    assert TrimStart(s, sp) == s;
    assert TrimEnd(s, sp) == s;
  }

  /** Python `s.replace(a, "")` for a single character `a` (characterised
      by `RemoveCharSpec`). */
  function RemoveChar(s: string, a: char): string {
    if s == [] then []
    else if s[0] == a then RemoveChar(s[1..], a)
    else [s[0]] + RemoveChar(s[1..], a)
  }

  /** Every occurrence of `a` is deleted and every other character keeps
      its number of occurrences. */
  lemma {:induction false} RemoveCharSpec(s: string, a: char)
    ensures a !in RemoveChar(s, a)
    ensures forall c :: c != a ==> multiset(RemoveChar(s, a))[c] == multiset(s)[c]
    ensures |RemoveChar(s, a)| + multiset(s)[a] == |s|
  {
    if s != [] {
      RemoveCharSpec(s[1..], a);
      assert s == [s[0]] + s[1..];
    }
  }

  /** Removing a character that does not occur changes nothing. */
  lemma {:induction false} RemoveAbsentChar(s: string, a: char)
    requires a !in s
    ensures RemoveChar(s, a) == s
  {
    if s != [] {
      RemoveAbsentChar(s[1..], a);
    }
  }

  /** Deleting works character by character, so it distributes over
      concatenation. */
  lemma {:induction false} RemoveCharAppend(s: string, t: string, a: char)
    ensures RemoveChar(s + t, a) == RemoveChar(s, a) + RemoveChar(t, a)
  {
    if s != [] {
      assert (s + t)[1..] == s[1..] + t;
      RemoveCharAppend(s[1..], t, a);
    } else {
      assert s + t == t;
    }
  }

  /** Python `s.replace(a, b)` for single characters `a` and `b`. */
  function ReplaceChar(s: string, a: char, b: char): string {
    seq(|s|, k requires 0 <= k < |s| => if s[k] == a then b else s[k])
  }

  /** Replacing works character by character too. */
  lemma ReplaceCharAppend(s: string, t: string, a: char, b: char)
    ensures ReplaceChar(s + t, a, b) == ReplaceChar(s, a, b) + ReplaceChar(t, a, b)
  {
    assert |ReplaceChar(s + t, a, b)| == |ReplaceChar(s, a, b) + ReplaceChar(t, a, b)|;
  }
}
