/** The few Python `str` built-ins the batch printer relies on, over `seq<char>`:
    `str.isspace` on one character, `str.strip()`, `str.split(sep)`, `str.split()`
    and `str.endswith(suffix)`. */
module PyText {

  /** A character Python's `str.isspace` (and so `strip()` and `split()` with no
      argument) treats as whitespace. */
  predicate IsSpace(c: char) {
    c == ' ' || ('\t' <= c <= '\r') || ('\U{1C}' <= c <= '\U{1F}') ||
    c == '\U{85}' || c == '\U{A0}' || c == '\U{1680}' || ('\U{2000}' <= c <= '\U{200A}') ||
    c == '\U{2028}' || c == '\U{2029}' || c == '\U{202F}' || c == '\U{205F}' || c == '\U{3000}'
  }

  predicate AllSpace(s: string) {
    forall i :: 0 <= i < |s| ==> IsSpace(s[i])
  }

  predicate NoSpace(s: string) {
    forall i :: 0 <= i < |s| ==> !IsSpace(s[i])
  }

  /** The index of the first non-whitespace character of `s` at or after `i`
      (`|s|` if there is none). */
  function SkipSpace(s: string, i: nat): (j: nat)
    requires i <= |s|
    ensures i <= j <= |s| && AllSpace(s[i..j])
    ensures j == |s| || !IsSpace(s[j])
    decreases |s| - i
  {
    if i < |s| && IsSpace(s[i]) then SkipSpace(s, i + 1) else i
  }

  /** The index just past the last non-whitespace character of `s[lo..hi]`
      (`lo` if there is none). */
  function SkipSpaceBack(s: string, lo: nat, hi: nat): (j: nat)
    requires lo <= hi <= |s|
    ensures lo <= j <= hi && AllSpace(s[j..hi])
    ensures j == lo || !IsSpace(s[j - 1])
  {
    if lo < hi && IsSpace(s[hi - 1]) then
      var j := SkipSpaceBack(s, lo, hi - 1);
      assert s[j..hi] == s[j..hi - 1] + [s[hi - 1]];
      j
    else hi
  }

  /** `s.strip()`: the slice left after dropping the leading and the trailing
      whitespace. */
  function Strip(s: string): (r: string)
    ensures r == [] <==> AllSpace(s)
    ensures r != [] ==> !IsSpace(r[0]) && !IsSpace(r[|r| - 1])
  {
    var lo := SkipSpace(s, 0);
    var hi := SkipSpaceBack(s, lo, |s|);
    assert lo == |s| ==> s[0..lo] == s;
    assert lo < |s| ==> s[lo] == s[lo..hi][0];
    s[lo..hi]
  }

  /** Whatever `strip()` removes is whitespace, and what it keeps is one
      contiguous slice of the input. */
  lemma StripIsSlice(s: string)
    ensures var lo := SkipSpace(s, 0);
      lo + |Strip(s)| <= |s| && Strip(s) == s[lo..lo + |Strip(s)|] &&
      AllSpace(s[..lo]) && AllSpace(s[lo + |Strip(s)|..])
  {
  }

  /** `"".join`-style inverse of `SplitOn`: the parts glued back with `sep`. */
  function JoinWith(parts: seq<string>, sep: char): string {
    if |parts| == 0 then []
    else if |parts| == 1 then parts[0]
    else parts[0] + [sep] + JoinWith(parts[1..], sep)
  }

  /** `s.split(sep)` for a one-character separator: never empty (`"".split("\n")`
      is `[""]`), no part contains the separator, and joining the parts back
      gives `s`. */
  function SplitOn(s: string, sep: char): (r: seq<string>)
    ensures |r| >= 1
    ensures forall k :: 0 <= k < |r| ==> sep !in r[k]
    ensures JoinWith(r, sep) == s
  {
    if s == [] then [[]]
    else
      var rest := SplitOn(s[1..], sep);
      if s[0] == sep then
        assert JoinWith([[]] + rest, sep) == [] + [sep] + JoinWith(rest, sep) by {
          assert ([[]] + rest)[1..] == rest;
        }
        [[]] + rest
      else
        var r := [[s[0]] + rest[0]] + rest[1..];
        assert JoinWith(r, sep) == s by {
          if |rest| == 1 {
          } else {
            assert r[1..] == rest[1..];
            assert JoinWith(rest, sep) == rest[0] + [sep] + JoinWith(rest[1..], sep);
          }
        }
        r
  }

  /** The other half of the round trip: splitting a join of separator-free parts
      gives the parts back. */
  lemma {:induction false} SplitJoin(parts: seq<string>, sep: char)
    requires |parts| >= 1
    requires forall k :: 0 <= k < |parts| ==> sep !in parts[k]
    ensures SplitOn(JoinWith(parts, sep), sep) == parts
  {
    if |parts| == 1 {
      SplitOnNoSep(parts[0], sep);
    } else {
      SplitJoin(parts[1..], sep);
      SplitOnPrefix(parts[0], JoinWith(parts[1..], sep), sep);
      assert [parts[0]] + parts[1..] == parts;
    }
  }

  lemma {:induction false} SplitOnNoSep(s: string, sep: char)
    requires sep !in s
    ensures SplitOn(s, sep) == [s]
  {
    if s != [] {
      SplitOnNoSep(s[1..], sep);
      assert [s[0]] + s[1..] == s;
    }
  }

  lemma {:induction false} SplitOnPrefix(a: string, b: string, sep: char)
    requires sep !in a
    ensures SplitOn(a + [sep] + b, sep) == [a] + SplitOn(b, sep)
  {
    if a == [] {
      assert ([] + [sep] + b)[1..] == b;
    } else {
      SplitOnPrefix(a[1..], b, sep);
      assert (a + [sep] + b)[1..] == a[1..] + [sep] + b;
      assert [a[0]] + a[1..] == a;
    }
  }

  /** The index just past the run of non-whitespace that starts at `i`. */
  function WordEnd(s: string, i: nat): (j: nat)
    requires i <= |s|
    ensures i <= j <= |s| && NoSpace(s[i..j])
    ensures j == |s| || IsSpace(s[j])
    decreases |s| - i
  {
    if i == |s| || IsSpace(s[i]) then i else WordEnd(s, i + 1)
  }

  predicate AreWords(ws: seq<string>) {
    forall k :: 0 <= k < |ws| ==> ws[k] != [] && NoSpace(ws[k])
  }

  lemma ConsWords(w: string, ws: seq<string>)
    requires w != [] && NoSpace(w) && AreWords(ws)
    ensures AreWords([w] + ws)
  {
    assert forall k :: 1 <= k < 1 + |ws| ==> ([w] + ws)[k] == ws[k - 1];
  }

  /** The whitespace-separated words of `s[i..]`. */
  function WordsFrom(s: string, i: nat): (r: seq<string>)
    requires i <= |s|
    ensures AreWords(r)
    ensures r == [] <==> AllSpace(s[i..])
    decreases |s| - i
  {
    var a := SkipSpace(s, i);
    if a == |s| then
      assert s[i..] == s[i..a];
      []
    else
      var b := WordEnd(s, a);
      var rest := WordsFrom(s, b);
      assert s[a..b][0] == s[a];
      assert s[i..][a - i] == s[a];
      ConsWords(s[a..b], rest);
      [s[a..b]] + rest
  }

  /** `s.split()` with no argument, computed as the maximal runs of
      non-whitespace in order. The contract states that the words are non-empty
      and free of whitespace, and that there are none exactly when `s` is all
      whitespace; `FirstTokenShape` pins down the first word. */
  function SplitWhitespace(s: string): (r: seq<string>)
    ensures AreWords(r)
    ensures r == [] <==> AllSpace(s)
  {
    assert s[0..] == s;
    WordsFrom(s, 0)
  }

  /** `tok` is what `s.split()[0]` reads: after the leading whitespace of `s`,
      a non-empty run of non-whitespace that ends at the end of `s` or at a
      whitespace character. */
  predicate IsFirstToken(s: string, tok: string) {
    var i := SkipSpace(s, 0);
    AllSpace(s[..i]) && i + |tok| <= |s| && s[i..i + |tok|] == tok &&
    tok != [] && NoSpace(tok) && (i + |tok| == |s| || IsSpace(s[i + |tok|]))
  }

  /** The first item of `s.split()` is the first token of `s`. */
  lemma FirstTokenShape(s: string)
    requires !AllSpace(s)
    ensures SplitWhitespace(s) != []
    ensures IsFirstToken(s, SplitWhitespace(s)[0])
  {
    assert s[0..] == s;
  }

  /** `s.endswith(suffix)`. */
  predicate EndsWith(s: string, suffix: string) {
    |suffix| <= |s| && s[|s| - |suffix|..] == suffix
  }
}
