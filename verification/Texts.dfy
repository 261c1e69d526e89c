/** The string operations the parsers and the scorer are built on. */
module Texts {
  import opened Prelude

  /** Whether t occurs somewhere in s. */
  predicate Contains(s: string, t: string) {
    t <= s || (s != "" && Contains(s[1..], t))
  }

  predicate OccursAt(s: string, t: string, i: nat) {
    i + |t| <= |s| && s[i..i + |t|] == t
  }

  lemma OccursLater(s: string, t: string, i: nat)
    requires s != ""
    ensures OccursAt(s, t, i + 1) <==> OccursAt(s[1..], t, i)
  {
    if i + 1 + |t| <= |s| {
      assert s[1..][i..i + |t|] == s[i + 1..i + 1 + |t|];
    }
  }

  /** Containing a text is having it at some place. */
  lemma {:induction false} ContainsExactly(s: string, t: string)
    ensures Contains(s, t) <==> exists i: nat :: OccursAt(s, t, i)
  {
    assert t <= s <==> OccursAt(s, t, 0);
    if s == "" {
      assert forall i: nat :: OccursAt(s, t, i) ==> i == 0;
    } else {
      ContainsExactly(s[1..], t);
      hide OccursAt;
      if Contains(s[1..], t) {
        var i: nat :| OccursAt(s[1..], t, i);
        OccursLater(s, t, i);
      }
      if exists i: nat :: OccursAt(s, t, i) {
        var i: nat :| OccursAt(s, t, i);
        if i > 0 {
          OccursLater(s, t, i - 1);
        }
      }
    }
  }

  predicate ContainsAny(s: string, terms: seq<string>) {
    exists t :: t in terms && Contains(s, t)
  }

  /** A text that contains a term contains each part of it. */
  lemma Longer(t: string, term: string, part: string, at: nat)
    requires at + |part| <= |term| && term[at..at + |part|] == part
    ensures Contains(t, term) ==> Contains(t, part)
  {
    hide Contains;
    if Contains(t, term) {
      ContainsExactly(t, term);
      var i: nat :| OccursAt(t, term, i);
      OccursWithin(t, term, part, i, at);
      ContainsExactly(t, part);
    }
  }

  lemma OccursWithin(t: string, term: string, part: string, i: nat, at: nat)
    requires OccursAt(t, term, i) && at + |part| <= |term| && term[at..at + |part|] == part
    ensures OccursAt(t, part, i + at)
  {
    forall k | 0 <= k < |part| ensures part[k] == t[i + at..i + at + |part|][k] {
      assert part[k] == term[at..at + |part|][k] == term[at + k] == t[i..i + |term|][at + k];
    }
  }

  lemma AnyOfParts(t: string, a: seq<string>, b: seq<string>, c: seq<string>)
    ensures ContainsAny(t, a + b + c) <==> ContainsAny(t, a) || ContainsAny(t, b) || ContainsAny(t, c)
  {
    hide Contains;
  }

  predicate StartsWith(s: string, t: string) {
    t <= s
  }

  /** s without its leading and trailing characters that satisfy p. */
  function Strip(s: string, p: char -> bool): string
    decreases |s|
  {
    if s == "" then s
    else if p(s[0]) then Strip(s[1..], p)
    else if p(s[|s| - 1]) then Strip(s[..|s| - 1], p)
    else s
  }

  /** The stretch from i to j is all of s but characters that satisfy p, and does not end in one. */
  predicate StripsTo(s: string, p: char -> bool, i: nat, j: nat) {
    && i <= j <= |s|
    && (forall k :: 0 <= k < i ==> p(s[k]))
    && (forall k :: j <= k < |s| ==> p(s[k]))
    && (i < j ==> !p(s[i]) && !p(s[j - 1]))
  }

  lemma StripsFirst(s: string, p: char -> bool, i: nat, j: nat)
    requires s != "" && p(s[0]) && StripsTo(s[1..], p, i, j)
    ensures StripsTo(s, p, i + 1, j + 1) && s[1..][i..j] == s[i + 1..j + 1]
  {
    assert forall k :: 0 < k < |s| ==> s[1..][k - 1] == s[k];
  }

  lemma StripsLast(s: string, p: char -> bool, i: nat, j: nat)
    requires s != "" && p(s[|s| - 1]) && StripsTo(s[..|s| - 1], p, i, j)
    ensures StripsTo(s, p, i, j) && s[..|s| - 1][i..j] == s[i..j]
  {
    assert forall k :: 0 <= k < |s| - 1 ==> s[..|s| - 1][k] == s[k];
  }

  /** What is left after stripping is a stretch of s whose ends do not satisfy p, and everything around it does. */
  lemma {:induction false} StripExactly(s: string, p: char -> bool) returns (i: nat, j: nat)
    ensures StripsTo(s, p, i, j) && Strip(s, p) == s[i..j]
    decreases |s|
  {
    if s == "" {
      i, j := 0, 0;
    } else if p(s[0]) {
      hide StripsTo;
      i, j := StripExactly(s[1..], p);
      StripsFirst(s, p, i, j);
      i, j := i + 1, j + 1;
    } else if p(s[|s| - 1]) {
      hide StripsTo;
      i, j := StripExactly(s[..|s| - 1], p);
      StripsLast(s, p, i, j);
    } else {
      i, j := 0, |s|;
      assert s[0..|s|] == s;
    }
  }

  /** How many runs of non-space characters s has, given whether one is already under way. */
  function CountWords(s: string, isSpace: char -> bool, inWord: bool): nat {
    if s == "" then 0
    else if isSpace(s[0]) then CountWords(s[1..], isSpace, false)
    else (if inWord then 0 else 1) + CountWords(s[1..], isSpace, true)
  }

  /** A space ends a word: the words on both sides of it are counted on their own. */
  lemma {:induction false} WordsAdd(a: string, c: char, b: string, isSpace: char -> bool, inWord: bool)
    requires isSpace(c)
    ensures CountWords(a + [c] + b, isSpace, inWord) == CountWords(a, isSpace, inWord) + CountWords(b, isSpace, false)
  {
    if a == "" {
      assert a + [c] + b == [c] + b;
      assert ([c] + b)[1..] == b;
    } else {
      assert (a + [c] + b)[1..] == a[1..] + [c] + b;
      WordsAdd(a[1..], c, b, isSpace, !isSpace(a[0]));
    }
  }

  /** A text without spaces is one word, and the empty text is none. */
  lemma {:induction false} WordIsOne(s: string, isSpace: char -> bool, inWord: bool)
    requires forall c :: c in s ==> !isSpace(c)
    ensures CountWords(s, isSpace, inWord) == if s == "" || inWord then 0 else 1
  {
    if s != "" {
      WordIsOne(s[1..], isSpace, true);
    }
  }

  /** The pieces of s between occurrences of a separator. */
  function Split(s: string, separator: char): (parts: seq<string>)
    ensures |parts| >= 1
  {
    if s == "" then [""]
    else
      var rest := Split(s[1..], separator);
      if s[0] == separator then [""] + rest else [[s[0]] + rest[0]] + rest[1..]
  }

  /** The pieces with the separator put back between them. */
  function Join(parts: seq<string>, separator: char): string {
    if parts == [] then "" else if |parts| == 1 then parts[0] else parts[0] + [separator] + Join(parts[1..], separator)
  }

  /** Splitting loses nothing but the separators, and leaves none of them in a piece. */
  lemma {:induction false} SplitExactly(s: string, separator: char)
    ensures Join(Split(s, separator), separator) == s
    ensures forall k :: 0 <= k < |Split(s, separator)| ==> separator !in Split(s, separator)[k]
  {
    if s != "" {
      var rest := Split(s[1..], separator);
      SplitExactly(s[1..], separator);
      assert s == [s[0]] + s[1..];
      if s[0] == separator {
        assert ([""] + rest)[1..] == rest;
        assert Join([""] + rest, separator) == "" + [separator] + Join(rest, separator);
      } else {
        var parts := [[s[0]] + rest[0]] + rest[1..];
        assert parts[1..] == rest[1..];
        if |rest| == 1 {
          assert Join(parts, separator) == [s[0]] + rest[0];
        } else {
          assert Join(parts, separator) == [s[0]] + rest[0] + [separator] + Join(rest[1..], separator);
          assert Join(rest, separator) == rest[0] + [separator] + Join(rest[1..], separator);
        }
      }
    }
  }

  /** The text of an optional string, empty when it is absent. */
  function OrEmpty(s: Option<string>): string {
    if s.Some? then s.value else ""
  }

  /** The first optional string that is present and not empty. */
  function FirstOf(a: Option<string>, b: Option<string>): Option<string> {
    if a.Some? && a.value != "" then a else b
  }
}
