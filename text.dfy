/** The handful of Python string operations the digest scripts rely on:
    `str.isspace`, `str.strip()`, `str.split()` (whitespace words),
    `str.split(sep)`, `str.split(sep, 1)`, `str.startswith`, `in` on strings
    and prefix slicing `s[:n]`.  A Dafny `char` is a Unicode scalar value,
    as a character of a Python `str` is a code point. */
module PyText {

  /** Python's `str.isspace()` for one character: the characters with
      bidirectional class WS, B or S, or general category Zs. */
  predicate IsSpace(c: char) {
    ('\t' <= c <= '\r') || ('\U{1C}' <= c <= ' ') || c == '\U{85}' || c == '\U{A0}'
    || c == '\U{1680}' || ('\U{2000}' <= c <= '\U{200A}') || c == '\U{2028}' || c == '\U{2029}'
    || c == '\U{202F}' || c == '\U{205F}' || c == '\U{3000}'
  }

  predicate AllSpace(s: string) {
    forall k | 0 <= k < |s| :: IsSpace(s[k])
  }

  predicate NoSpace(s: string) {
    forall k | 0 <= k < |s| :: !IsSpace(s[k])
  }

  /** `s[:n]`: the first min(n, |s|) characters. */
  function Take(s: string, n: nat): (r: string)
    ensures |r| == if |s| <= n then |s| else n
    ensures r <= s
  {
    if |s| <= n then s else s[..n]
  }

  /** `s.startswith(p)` */
  predicate StartsWith(s: string, p: string) {
    |p| <= |s| && s[..|p|] == p
  }

  /** `sub in s` */
  function Contains(s: string, sub: string): (r: bool)
    ensures r <==> exists i :: 0 <= i <= |s| && StartsWith(s[i..], sub)
    decreases |s|
  {
    if StartsWith(s, sub) then
      assert s[0..] == s;
      true
    else if s == [] then
      false
    else
      var r := Contains(s[1..], sub);
      assert forall i :: 1 <= i <= |s| ==> s[i..] == s[1..][i - 1..];
      assert r ==> exists i :: 0 <= i <= |s| && StartsWith(s[i..], sub) by {
        if r {
          var j :| 0 <= j <= |s[1..]| && StartsWith(s[1..][j..], sub);
          assert s[j + 1..] == s[1..][j..];
        }
      }
      r
  }

  /** `s.lstrip()` */
  function TrimLeft(s: string): (r: string)
    ensures |r| <= |s| && r == s[|s| - |r|..]
    ensures AllSpace(s[..|s| - |r|])
    ensures r != [] ==> !IsSpace(r[0])
  {
    if s != [] && IsSpace(s[0]) then
      var r := TrimLeft(s[1..]);
      assert s[..|s| - |r|] == [s[0]] + s[1..][..|s[1..]| - |r|];
      r
    else
      s
  }

  /** `s.rstrip()` */
  function TrimRight(s: string): (r: string)
    ensures |r| <= |s| && r == s[..|r|]
    ensures AllSpace(s[|r|..])
    ensures r != [] ==> !IsSpace(r[|r| - 1])
  {
    if s != [] && IsSpace(s[|s| - 1]) then
      var r := TrimRight(s[..|s| - 1]);
      assert s[|r|..] == s[..|s| - 1][|r|..] + [s[|s| - 1]];
      r
    else
      s
  }

  /** The number of leading whitespace characters. */
  function Leading(s: string): (n: nat)
    ensures n <= |s| && AllSpace(s[..n])
    ensures n < |s| ==> !IsSpace(s[n])
  {
    |s| - |TrimLeft(s)|
  }

  /** `s.strip()`: `s` without its leading and trailing whitespace, which
      starts after the leading whitespace. */
  function Strip(s: string): (r: string)
    ensures Leading(s) + |r| <= |s| && r == s[Leading(s)..Leading(s) + |r|]
    ensures AllSpace(s[Leading(s) + |r|..])
    ensures r != [] ==> !IsSpace(r[0]) && !IsSpace(r[|r| - 1])
  {
    var i := Leading(s);
    var j := |TrimRight(s)|;
    if i >= j then
      assert s[i..] == s[j..][i - j..];
      []
    else
      assert s[j - 1] == TrimRight(s)[j - 1];
      s[i..j]
  }

  /** Nothing to strip: no whitespace at either end. */
  predicate Stripped(s: string) {
    s != [] ==> !IsSpace(s[0]) && !IsSpace(s[|s| - 1])
  }

  /** Stripping a string that has nothing to strip leaves it as it is. */
  lemma StripNothing(s: string)
    requires Stripped(s)
    ensures Strip(s) == s
  {
    assert TrimLeft(s) == s;
    assert TrimRight(s) == s;
  }

  /** `strip` is idempotent. */
  lemma StripIdempotent(s: string)
    ensures Strip(Strip(s)) == Strip(s)
  {
    StripNothing(Strip(s));
  }

  /** A string is all whitespace exactly when it strips to the empty string:
      Python's `if not line.strip()` test for a blank line. */
  lemma StripEmpty(s: string)
    ensures Strip(s) == [] <==> AllSpace(s)
  {
    var i := Leading(s);
    if Strip(s) == [] {
      assert AllSpace(s[..i]) && AllSpace(s[i..]);
      assert s == s[..i] + s[i..];
    } else {
      assert s[i] == Strip(s)[0];
    }
  }

  // ---------------------------------------------------------------------
  // `str.split()` with no argument: the maximal runs of non-whitespace.

  /** The longest prefix of `s` without whitespace. */
  function WordPrefix(s: string): (w: string)
    ensures w <= s && NoSpace(w)
    ensures |w| < |s| ==> IsSpace(s[|w|])
    ensures s != [] && !IsSpace(s[0]) ==> w != []
  {
    if s == [] || IsSpace(s[0]) then [] else [s[0]] + WordPrefix(s[1..])
  }

  /** `s.split()`: skip whitespace, take a word, repeat. */
  function Words(s: string): (ws: seq<string>)
    ensures forall k | 0 <= k < |ws| :: ws[k] != [] && NoSpace(ws[k])
    decreases |s|
  {
    if s == [] then
      []
    else if IsSpace(s[0]) then
      Words(s[1..])
    else
      var w := WordPrefix(s);
      [w] + Words(s[|w|..])
  }

  /** `len(s.split())` */
  function WordCount(s: string): nat {
    |Words(s)|
  }

  /** The words joined by single spaces, `" ".join(ws)`. */
  function JoinWords(ws: seq<string>): string {
    if ws == [] then [] else if |ws| == 1 then ws[0] else ws[0] + " " + JoinWords(ws[1..])
  }

  lemma {:induction false} WordPrefixOf(w: string, rest: string)
    requires NoSpace(w)
    requires rest != [] ==> IsSpace(rest[0])
    ensures WordPrefix(w + rest) == w
  {
    if w == [] {
      assert w + rest == rest;
    } else {
      assert (w + rest)[1..] == w[1..] + rest;
      WordPrefixOf(w[1..], rest);
      assert [w[0]] + w[1..] == w;
    }
  }

  /** A word followed by whitespace (or nothing) is the first word. */
  lemma WordsOfWord(w: string, rest: string)
    requires w != [] && NoSpace(w)
    requires rest != [] ==> IsSpace(rest[0])
    ensures Words(w + rest) == [w] + Words(rest)
  {
    var s := w + rest;
    assert s[0] == w[0];
    WordPrefixOf(w, rest);
    assert s[|w|..] == rest;
  }

  /** Leading whitespace does not change the words. */
  lemma WordsAfterSpace(t: string)
    ensures Words(" " + t) == Words(t)
  {
    assert (" " + t)[1..] == t;
  }

  /** One more word in front of a joined list adds it in front of the words. */
  lemma WordsJoinCons(w: string, tail: seq<string>)
    requires w != [] && NoSpace(w) && tail != []
    ensures Words(JoinWords([w] + tail)) == [w] + Words(JoinWords(tail))
  {
    var t := JoinWords(tail);
    assert ([w] + tail)[1..] == tail;
    assert JoinWords([w] + tail) == w + (" " + t);
    WordsOfWord(w, " " + t);
    WordsAfterSpace(t);
  }

  /** A lone word is its own only word. */
  lemma WordsOfLone(w: string)
    requires w != [] && NoSpace(w)
    ensures Words(w) == [w]
  {
    WordsOfWord(w, []);
    assert w + [] == w;
  }

  /** Splitting words that were joined by single spaces gives them back:
      `" ".join(ws).split() == ws` for non-empty, whitespace-free words. */
  lemma {:induction false} WordsJoinWords(ws: seq<string>)
    requires forall k | 0 <= k < |ws| :: ws[k] != [] && NoSpace(ws[k])
    ensures Words(JoinWords(ws)) == ws
  {
    if ws == [] {
    } else if |ws| == 1 {
      WordsOfLone(ws[0]);
      assert ws == [ws[0]];
    } else {
      assert ws == [ws[0]] + ws[1..];
      WordsJoinCons(ws[0], ws[1..]);
      WordsJoinWords(ws[1..]);
    }
  }

  /** `split()` as a scanner over the characters, the way CPython walks
      the string: a non-whitespace character extends the word being read,
      a whitespace character ends it, and the end of the text ends the
      last one.  `word` is the word being read, `done` the words before. */
  function Scanned(s: string, word: string, done: seq<string>): seq<string>
    decreases |s|
  {
    if s == [] then
      done + (if word == [] then [] else [word])
    else if IsSpace(s[0]) then
      Scanned(s[1..], [], done + (if word == [] then [] else [word]))
    else
      Scanned(s[1..], word + [s[0]], done)
  }

  /** Scanning the rest of the text after part of a word splits that word
      and the rest as `Words` does. */
  lemma {:induction false} ScannedFrom(s: string, word: string, done: seq<string>)
    requires NoSpace(word)
    ensures Scanned(s, word, done) == done + Words(word + s)
    decreases |s|
  {
    if s == [] {
      assert word + s == word;
      if word != [] { WordsOfLone(word); } else { assert done + [] == done; }
    } else if IsSpace(s[0]) {
      var ended := if word == [] then [] else [word];
      assert Scanned(s, word, done) == Scanned(s[1..], [], done + ended);
      ScannedFrom(s[1..], [], done + ended);
      assert [] + s[1..] == s[1..];
      WordsAfterWord(s, word);
      AppendAssoc(done, ended, Words(s[1..]));
    } else {
      assert Scanned(s, word, done) == Scanned(s[1..], word + [s[0]], done);
      ScannedFrom(s[1..], word + [s[0]], done);
      assert (word + [s[0]]) + s[1..] == word + s;
    }
  }

  /** A whitespace character ends the word before it. */
  lemma WordsAfterWord(s: string, word: string)
    requires s != [] && IsSpace(s[0]) && NoSpace(word)
    ensures Words(word + s) == (if word == [] then [] else [word]) + Words(s[1..])
  {
    if word == [] {
      assert word + s == s;
    } else {
      WordsOfWord(word, s);
    }
  }

  /** `Words` is exactly what the scanner reads: no word is lost, none is
      invented, and the order is kept. */
  lemma WordsAreScanned(s: string)
    ensures Words(s) == Scanned(s, [], [])
    ensures WordCount(s) == |Scanned(s, [], [])|
  {
    ScannedFrom(s, [], []);
    assert [] + s == s;
  }

  // ---------------------------------------------------------------------
  // `str.split(sep)` and `str.split(sep, 1)`.

  /** `sep.join(parts)` */
  function Join(parts: seq<string>, sep: char): string
    requires |parts| >= 1
  {
    if |parts| == 1 then parts[0] else parts[0] + [sep] + Join(parts[1..], sep)
  }

  /** `s.split(sep)` for a one-character separator: never empty, no part
      holds the separator, and joining the parts back gives `s`. */
  function SplitOn(s: string, sep: char): (parts: seq<string>)
    ensures |parts| >= 1
    ensures forall k | 0 <= k < |parts| :: sep !in parts[k]
    ensures Join(parts, sep) == s
  {
    if s == [] then
      [""]
    else
      var rest := SplitOn(s[1..], sep);
      if s[0] == sep then
        [""] + rest
      else
        var parts := [[s[0]] + rest[0]] + rest[1..];
        assert parts[1..] == rest[1..];
        parts
  }

  /** The converse of `SplitOn`'s contract: any separator-free parts are what
      splitting their join gives back. */
  lemma {:induction false} SplitJoin(parts: seq<string>, sep: char)
    requires |parts| >= 1
    requires forall k | 0 <= k < |parts| :: sep !in parts[k]
    ensures SplitOn(Join(parts, sep), sep) == parts
  {
    if |parts| == 1 {
      SplitPlain(parts[0], sep);
    } else {
      SplitJoin(parts[1..], sep);
      SplitPrefixed(parts[0], Join(parts[1..], sep), sep);
      assert parts == [parts[0]] + parts[1..];
    }
  }

  lemma {:induction false} SplitPlain(s: string, sep: char)
    requires sep !in s
    ensures SplitOn(s, sep) == [s]
  {
    if s != [] {
      SplitPlain(s[1..], sep);
      assert [s[0]] + s[1..] == s;
    }
  }

  /** Splitting `a + sep + b`, where `a` holds no separator, gives `a`
      followed by the parts of `b`. */
  lemma {:induction false} SplitPrefixed(a: string, b: string, sep: char)
    requires sep !in a
    ensures SplitOn(a + [sep] + b, sep) == [a] + SplitOn(b, sep)
  {
    if a == [] {
      assert [sep] + b == a + [sep] + b;
      assert ([sep] + b)[1..] == b;
    } else {
      assert (a + [sep] + b)[1..] == a[1..] + [sep] + b;
      SplitPrefixed(a[1..], b, sep);
      assert [a[0]] + a[1..] == a;
    }
  }

  /** The first part of a split is the text before the first separator. */
  lemma {:induction false} SplitFirstPart(s: string, sep: char)
    ensures SplitOn(s, sep)[0] <= s
    ensures |SplitOn(s, sep)| > 1 ==> |SplitOn(s, sep)[0]| < |s| && s[|SplitOn(s, sep)[0]|] == sep
  {
    var parts := SplitOn(s, sep);
    if |parts| > 1 {
      assert s == parts[0] + [sep] + Join(parts[1..], sep);
    } else {
      assert s == parts[0];
    }
  }

  /** `s.split(sep, 1)` when `sep in s`: the text before the first separator
      and everything after it. */
  function SplitFirst(s: string, sep: char): (r: (string, string))
    requires sep in s
    ensures r.0 + [sep] + r.1 == s
    ensures sep !in r.0
  {
    if s[0] == sep then
      ("", s[1..])
    else
      var r := SplitFirst(s[1..], sep);
      ([s[0]] + r.0, r.1)
  }

  /** `s.split(sep, 1)` splits at the same place as `s.split(sep)`. */
  lemma SplitFirstAgrees(s: string, sep: char)
    requires sep in s
    ensures SplitOn(s, sep) == [SplitFirst(s, sep).0] + SplitOn(SplitFirst(s, sep).1, sep)
  {
    var r := SplitFirst(s, sep);
    SplitPrefixed(r.0, r.1, sep);
  }

  /** `split(sep, 1)` of `a + sep + b`, where `a` holds no separator, is
      `(a, b)`. */
  lemma {:induction false} SplitFirstOf(a: string, b: string, sep: char)
    requires sep !in a
    ensures sep in a + [sep] + b && SplitFirst(a + [sep] + b, sep) == (a, b)
    decreases |a|
  {
    var s := a + [sep] + b;
    assert s[|a|] == sep;
    if a == [] {
      assert s == [sep] + b;
      assert s[1..] == b;
    } else {
      assert s[0] == a[0];
      assert s[1..] == a[1..] + [sep] + b;
      SplitFirstOf(a[1..], b, sep);
      assert [a[0]] + a[1..] == a;
    }
  }

  /** One leading space before a string with nothing to strip strips
      away. */
  lemma StripSpaceBefore(s: string)
    requires Stripped(s)
    ensures Strip([' '] + s) == s
  {
    var t := [' '] + s;
    assert t[1..] == s;
    assert TrimLeft(s) == s;
    assert TrimLeft(t) == s;
    assert TrimRight(s) == s;
  }

  // Laws of sequence concatenation, stated once for the proofs that need
  // them spelled out.

  lemma AppendAssoc<T>(a: seq<T>, b: seq<T>, c: seq<T>)
    ensures a + (b + c) == (a + b) + c
  {
  }

  lemma AppendNil<T>(a: seq<T>)
    ensures a + [] == a
  {
  }
}
