/** The parts of Python's `str` and `os.path` semantics that the modelled code relies on:
    `sep.join`, `str.split(sep)`, `str.split()`, `str.strip()`, `str.lower()`, `str.endswith`,
    floor division and `os.path.join`. */
module Strings {

  /** Python's `str.isspace()` for one character (the characters `str.split()` and
      `str.strip()` treat as whitespace). */
  predicate IsSpace(c: char) {
    || c == ' '
    || '\t' <= c <= '\r'
    || '\U{1C}' <= c <= '\U{1F}'
    || c == '\U{85}' || c == '\U{A0}' || c == '\U{1680}'
    || '\U{2000}' <= c <= '\U{200A}'
    || c == '\U{2028}' || c == '\U{2029}' || c == '\U{202F}' || c == '\U{205F}' || c == '\U{3000}'
  }

  /** `sep.join(parts)`. */
  function Join(parts: seq<string>, sep: string): string {
    if |parts| == 0 then ""
    else if |parts| == 1 then parts[0]
    else parts[0] + sep + Join(parts[1..], sep)
  }

  /** Joining one more part at the end adds the separator and that part. */
  lemma {:induction false} JoinSnoc(parts: seq<string>, p: string, sep: string)
    requires parts != []
    ensures Join(parts + [p], sep) == Join(parts, sep) + sep + p
  {
    if |parts| == 1 {
      assert parts + [p] == [parts[0], p];
      assert Join([p], sep) == p;
    } else {
      assert (parts + [p])[1..] == parts[1..] + [p];
      JoinSnoc(parts[1..], p, sep);
    }
  }

  /** `s.split(sep)` for a one-character separator: the pieces between separators,
      empty pieces included, so there is always at least one piece. */
  function Split(s: string, sep: char): (r: seq<string>)
    ensures |r| >= 1
    ensures forall i :: 0 <= i < |r| ==> sep !in r[i]
  {
    if s == [] then [""]
    else
      var rest := Split(s[1..], sep);
      if s[0] == sep then [""] + rest
      else [[s[0]] + rest[0]] + rest[1..]
  }

  /** `s.split(sep)` has one piece more than `s` has separators. */
  lemma {:induction false} SplitCount(s: string, sep: char)
    ensures |Split(s, sep)| == multiset(s)[sep] + 1
  {
    if s != [] {
      assert s == [s[0]] + s[1..];
      SplitCount(s[1..], sep);
    }
  }

  /** `sep.join(s.split(sep)) == s`: splitting loses nothing. */
  lemma {:induction false} SplitJoinRoundTrip(s: string, sep: char)
    ensures Join(Split(s, sep), [sep]) == s
  {
    if s != [] {
      var rest := Split(s[1..], sep);
      SplitJoinRoundTrip(s[1..], sep);
      var r := Split(s, sep);
      if s[0] == sep {
        assert r == [""] + rest;
        if |rest| > 1 { assert r[1..] == rest; }
        assert Join(r, [sep]) == [sep] + Join(rest, [sep]);
      } else {
        assert r == [[s[0]] + rest[0]] + rest[1..];
        if |rest| > 1 { assert r[1..] == rest[1..]; }
        assert Join(r, [sep]) == [s[0]] + Join(rest, [sep]);
      }
      assert s == [s[0]] + s[1..];
    }
  }

  /** The characters of `s` that are not whitespace, in order. */
  function NonSpace(s: string): string {
    if s == [] then [] else (if IsSpace(s[0]) then [] else [s[0]]) + NonSpace(s[1..])
  }

  /** The concatenation of a list of strings. */
  function Concat(parts: seq<string>): string {
    if parts == [] then [] else parts[0] + Concat(parts[1..])
  }

  /** Length of the maximal non-whitespace prefix of `s`. */
  function WordLength(s: string): (n: nat)
    ensures n <= |s|
    ensures forall i :: 0 <= i < n ==> !IsSpace(s[i])
    ensures n < |s| ==> IsSpace(s[n])
  {
    if s == [] || IsSpace(s[0]) then 0 else 1 + WordLength(s[1..])
  }

  /** Length of the maximal whitespace prefix of `s`. */
  function SpaceLength(s: string): (n: nat)
    ensures n <= |s|
    ensures forall i :: 0 <= i < n ==> IsSpace(s[i])
    ensures n < |s| ==> !IsSpace(s[n])
  {
    if s != [] && IsSpace(s[0]) then 1 + SpaceLength(s[1..]) else 0
  }

  lemma {:induction false} NonSpaceAppend(a: string, b: string)
    ensures NonSpace(a + b) == NonSpace(a) + NonSpace(b)
  {
    if a != [] {
      assert (a + b)[1..] == a[1..] + b;
      NonSpaceAppend(a[1..], b);
    } else {
      assert a + b == b;
    }
  }

  lemma {:induction false} NonSpaceOfSpaces(s: string)
    requires forall i :: 0 <= i < |s| ==> IsSpace(s[i])
    ensures NonSpace(s) == []
  {
    if s != [] { NonSpaceOfSpaces(s[1..]); }
  }

  lemma {:induction false} NonSpaceOfWord(s: string)
    requires forall i :: 0 <= i < |s| ==> !IsSpace(s[i])
    ensures NonSpace(s) == s
  {
    if s != [] { NonSpaceOfWord(s[1..]); }
  }

  /** A non-empty run of non-whitespace characters. */
  predicate IsWord(w: string) {
    w != [] && forall j :: 0 <= j < |w| ==> !IsSpace(w[j])
  }

  /** `s.split()`: the maximal runs of non-whitespace characters, in order. */
  function SplitWhitespace(s: string): (r: seq<string>)
    ensures forall i :: 0 <= i < |r| ==> IsWord(r[i])
    decreases |s|
  {
    var t := s[SpaceLength(s)..];
    if t == [] then []
    else
      var n := WordLength(t);
      assert IsWord(t[..n]);
      [t[..n]] + SplitWhitespace(t[n..])
  }

  /** A single word without whitespace splits into just itself. */
  lemma SplitWhitespaceOfWord(w: string)
    requires w != [] && forall i :: 0 <= i < |w| ==> !IsSpace(w[i])
    ensures SplitWhitespace(w) == [w]
  {
    assert SpaceLength(w) == 0;
    assert WordLength(w) == |w|;
    assert w[0..] == w && w[..|w|] == w;
    assert SplitWhitespace(w[|w|..]) == [];
  }

  /** The words of `s.split()` put back together are exactly the non-whitespace
      characters of `s`: nothing is lost, reordered or invented. */
  lemma {:induction false} SplitWhitespaceKeepsText(s: string)
    ensures Concat(SplitWhitespace(s)) == NonSpace(s)
    decreases |s|
  {
    var t := s[SpaceLength(s)..];
    NonSpaceAfterLead(s);
    if t != [] {
      var n := WordLength(t);
      NonSpaceAfterWord(t);
      SplitWhitespaceKeepsText(t[n..]);
      var r := SplitWhitespace(s);
      assert r == [t[..n]] + SplitWhitespace(t[n..]);
      assert r[1..] == SplitWhitespace(t[n..]);
    }
  }

  /** Non-empty parts laid end to end give at least one character per part, and
      nothing at all only when there are no parts. */
  lemma {:induction false} ConcatOfWords(parts: seq<string>)
    requires forall i :: 0 <= i < |parts| ==> parts[i] != []
    ensures |Concat(parts)| >= |parts|
    ensures Concat(parts) == [] <==> parts == []
  {
    if parts != [] {
      ConcatOfWords(parts[1..]);
    }
  }

  /** Every character of `g` is whitespace (the empty string included). */
  predicate AllSpace(g: string) {
    forall j :: 0 <= j < |g| ==> IsSpace(g[j])
  }

  /** `gaps[0] + words[0] + gaps[1] + ... + words[n-1] + gaps[n]`. */
  function Interleave(gaps: seq<string>, words: seq<string>): string
    requires |gaps| == |words| + 1
  {
    if words == [] then gaps[0] else gaps[0] + words[0] + Interleave(gaps[1..], words[1..])
  }

  /** The whitespace runs around the words of `s.split()`: the one before the first
      word, those between words, and the one after the last word. */
  function Gaps(s: string): (g: seq<string>)
    decreases |s|
  {
    var lead := SpaceLength(s);
    var t := s[lead..];
    if t == [] then [s]
    else [s[..lead]] + Gaps(t[WordLength(t)..])
  }

  /** `s.split()` cuts `s` at its whitespace and nowhere else: the words, put back
      between the whitespace runs they were cut from, give `s` again; every run is
      whitespace; and the runs between two words are not empty, so no word could be
      longer. Together these fix the words as the maximal non-whitespace runs. */
  lemma SplitWhitespaceSeparates(s: string)
    ensures |Gaps(s)| == |SplitWhitespace(s)| + 1
    ensures forall i :: 0 <= i < |Gaps(s)| ==> AllSpace(Gaps(s)[i])
    ensures forall i :: 0 < i < |SplitWhitespace(s)| ==> Gaps(s)[i] != []
    ensures Interleave(Gaps(s), SplitWhitespace(s)) == s
  {
    GapsLength(s);
    GapsAreSpace(s);
    GapsBetweenWords(s);
    GapsRebuild(s);
  }

  /** The first word of `s`, empty when there is none. */
  function FirstWord(s: string): string {
    var t := s[SpaceLength(s)..];
    t[..WordLength(t)]
  }

  /** The text after the leading whitespace run and the first word. */
  function Rest(s: string): string {
    var t := s[SpaceLength(s)..];
    t[WordLength(t)..]
  }

  /** A text is its leading whitespace run, its first word and the rest. */
  lemma RestParts(s: string)
    ensures s == s[..SpaceLength(s)] + FirstWord(s) + Rest(s)
  {
    var lead := SpaceLength(s);
    var n := WordLength(s[lead..]);
    assert FirstWord(s) == s[lead..lead + n] && Rest(s) == s[lead + n..];
    CutTwice(s, lead, lead + n);
  }

  /** Cutting a sequence at two places and joining the three pieces gives it back. */
  lemma CutTwice<T>(s: seq<T>, i: nat, j: nat)
    requires i <= j <= |s|
    ensures s == s[..i] + s[i..j] + s[j..]
  {
    assert s == s[..i] + s[i..];
    assert s[i..] == s[i..j] + s[j..];
  }

  /** On a text with a word in it, `split()` gives the first word, then the words of
      the rest. */
  lemma RestWords(s: string)
    requires s[SpaceLength(s)..] != []
    ensures SplitWhitespace(s) == [FirstWord(s)] + SplitWhitespace(Rest(s))
  {
  }

  /** On a text with a word in it, the gaps are the leading run, then the gaps of the
      rest; the rest is shorter and empty or starts with whitespace. */
  lemma RestGaps(s: string)
    requires s[SpaceLength(s)..] != []
    ensures Gaps(s) == [s[..SpaceLength(s)]] + Gaps(Rest(s))
    ensures |Rest(s)| < |s|
    ensures Rest(s) != [] ==> IsSpace(Rest(s)[0])
  {
  }

  /** One step of `split()` on a text with a word in it: the leading whitespace run,
      the first word, and the rest, which is empty or starts with whitespace. */
  lemma SplitStep(s: string) returns (g: string, w: string, u: string)
    requires s[SpaceLength(s)..] != []
    ensures s == g + w + u && |u| < |s|
    ensures SplitWhitespace(s) == [w] + SplitWhitespace(u)
    ensures Gaps(s) == [g] + Gaps(u)
    ensures AllSpace(g)
    ensures u != [] ==> IsSpace(u[0])
  {
    g, w, u := s[..SpaceLength(s)], FirstWord(s), Rest(s);
    RestParts(s);
    RestWords(s);
    RestGaps(s);
  }

  lemma {:induction false} GapsLength(s: string)
    ensures |Gaps(s)| == |SplitWhitespace(s)| + 1
    decreases |s|
  {
    if s[SpaceLength(s)..] != [] {
      var g, w, u := SplitStep(s);
      GapsLength(u);
    }
  }

  lemma GapsAreSpace(s: string)
    ensures forall i :: 0 <= i < |Gaps(s)| ==> AllSpace(Gaps(s)[i])
  {
    forall i | 0 <= i < |Gaps(s)| ensures AllSpace(Gaps(s)[i]) {
      GapIsSpace(s, i);
    }
  }

  /** Each gap is whitespace. */
  lemma {:induction false} GapIsSpace(s: string, i: nat)
    requires i < |Gaps(s)|
    ensures AllSpace(Gaps(s)[i])
    decreases |s|
  {
    if i == 0 {
      LeadGap(s);
    } else {
      GapsOfBlank(s);
      var u := GapStep(s);
      assert Gaps(s)[i] == Gaps(u)[i - 1];
      GapIsSpace(u, i - 1);
    }
  }

  /** The first gap is the leading whitespace run. */
  lemma LeadGap(s: string)
    ensures Gaps(s)[0] == s[..SpaceLength(s)]
  {
  }

  lemma GapsBetweenWords(s: string)
    ensures forall i :: 0 < i < |Gaps(s)| - 1 ==> Gaps(s)[i] != []
  {
    forall i | 0 < i < |Gaps(s)| - 1 ensures Gaps(s)[i] != [] {
      GapBetweenWords(s, i);
    }
  }

  /** A gap with a word on each side is not empty. */
  lemma {:induction false} GapBetweenWords(s: string, i: nat)
    requires 0 < i < |Gaps(s)| - 1
    ensures Gaps(s)[i] != []
    decreases |s|
  {
    GapsOfBlank(s);
    var u := GapStep(s);
    assert Gaps(s)[i] == Gaps(u)[i - 1];
    if i == 1 {
      GapsOfEmpty();
      FirstGap(u);
    } else {
      GapBetweenWords(u, i - 1);
    }
  }

  /** Past the first word, the gaps are those of the rest of the text, which is empty
      or starts with whitespace. */
  lemma GapStep(s: string) returns (u: string)
    requires s[SpaceLength(s)..] != []
    ensures |u| < |s| && Gaps(s)[1..] == Gaps(u)
    ensures u != [] ==> IsSpace(u[0])
  {
    u := Rest(s);
    RestGaps(s);
  }

  /** A text without a word has a single gap: itself. */
  lemma GapsOfBlank(s: string)
    ensures s[SpaceLength(s)..] == [] ==> Gaps(s) == [s]
  {
  }

  /** The empty text has one, empty, gap. */
  lemma GapsOfEmpty()
    ensures Gaps([]) == [[]]
  {
  }

  /** The first gap is the leading whitespace run, so it is not empty when the text
      starts with whitespace. */
  lemma FirstGap(s: string)
    requires s != [] && IsSpace(s[0])
    ensures Gaps(s)[0] != []
  {
    assert SpaceLength(s) >= 1;
  }

  lemma {:induction false} GapsRebuild(s: string)
    requires |Gaps(s)| == |SplitWhitespace(s)| + 1
    ensures Interleave(Gaps(s), SplitWhitespace(s)) == s
    decreases |s|
  {
    if s[SpaceLength(s)..] != [] {
      var g, w, u := SplitStep(s);
      GapsLength(u);
      GapsRebuild(u);
      assert Gaps(s)[1..] == Gaps(u) && SplitWhitespace(s)[1..] == SplitWhitespace(u);
    } else {
      assert s[..SpaceLength(s)] == s;
      assert SplitWhitespace(s) == [];
    }
  }

  /** Leading whitespace contributes nothing to `NonSpace`. */
  lemma NonSpaceAfterLead(s: string)
    ensures NonSpace(s) == NonSpace(s[SpaceLength(s)..])
  {
    var lead := SpaceLength(s);
    assert s == s[..lead] + s[lead..];
    NonSpaceAppend(s[..lead], s[lead..]);
    NonSpaceOfSpaces(s[..lead]);
  }

  /** A leading word is kept whole by `NonSpace`. */
  lemma NonSpaceAfterWord(t: string)
    ensures NonSpace(t) == t[..WordLength(t)] + NonSpace(t[WordLength(t)..])
  {
    var n := WordLength(t);
    assert t == t[..n] + t[n..];
    NonSpaceAppend(t[..n], t[n..]);
    NonSpaceOfWord(t[..n]);
  }

  /** Length of the maximal whitespace suffix of `s`. */
  function TrailingSpaceLength(s: string): (n: nat)
    ensures n <= |s|
    ensures forall i :: |s| - n <= i < |s| ==> IsSpace(s[i])
    ensures n < |s| ==> !IsSpace(s[|s| - n - 1])
  {
    if s != [] && IsSpace(s[|s| - 1]) then 1 + TrailingSpaceLength(s[..|s| - 1]) else 0
  }

  /** `s.strip()`: leading and trailing whitespace removed. */
  function Strip(s: string): string {
    var t := s[SpaceLength(s)..];
    t[..|t| - TrailingSpaceLength(t)]
  }

  /** Text that neither starts nor ends with whitespace is its own `strip()`. */
  lemma StripUnchanged(s: string)
    requires s == [] || (!IsSpace(s[0]) && !IsSpace(s[|s| - 1]))
    ensures Strip(s) == s
  {
    if s != [] {
      assert SpaceLength(s) == 0;
      assert s[0..] == s;
      assert TrailingSpaceLength(s) == 0;
    }
  }

  /** `str.lower()` on ASCII letters; other characters are kept. */
  function LowerChar(c: char): char {
    if 'A' <= c <= 'Z' then (c as int + 32) as char else c
  }

  function Lower(s: string): (r: string)
    ensures |r| == |s|
    ensures forall i :: 0 <= i < |s| ==> r[i] == LowerChar(s[i])
  {
    seq(|s|, i requires 0 <= i < |s| => LowerChar(s[i]))
  }

  /** `s.endswith(suffix)`. */
  predicate EndsWith(s: string, suffix: string) {
    |suffix| <= |s| && s[|s| - |suffix|..] == suffix
  }

  /** Python `a // b` (rounds toward negative infinity), for `b != 0`. */
  function FloorDiv(a: int, b: int): (q: int)
    requires b != 0
    ensures b > 0 ==> q * b <= a < q * b + b
    ensures b < 0 ==> q * b + b < a <= q * b
  {
    if b > 0 then a / b else (-a) / (-b)
  }

  /** `os.path.join(a, b)` (POSIX): an absolute `b` replaces `a`; otherwise one `/` is
      put between them unless `a` is empty or already ends with one. */
  function PathJoin(a: string, b: string): string {
    if |b| > 0 && b[0] == '/' then b
    else if a == [] || a[|a| - 1] == '/' then a + b
    else a + "/" + b
  }
}
