/**
 * Characters and strings as Python's `str` methods and the `re` module's character
 * classes see them: `str.isspace` (which is also `\s` and what `strip()` removes),
 * `\w` word characters, `\d` digits, `str.lower`, `in` on strings, `str.split()`,
 * and the `re.sub(r'\s+', ' ', s).strip()` idiom.
 */
module Text {

  /** `str.isspace()`: every character Python counts as whitespace. */
  predicate IsSpace(c: char) {
    || c == ' '
    || ('\t' <= c <= '\r')
    || ('\U{1C}' <= c <= '\U{1F}')
    || c == '\U{85}' || c == '\U{A0}' || c == '\U{1680}'
    || ('\U{2000}' <= c <= '\U{200A}')
    || c == '\U{2028}' || c == '\U{2029}' || c == '\U{202F}' || c == '\U{205F}'
    || c == '\U{3000}'
  }

  /** `\d`, restricted to the ASCII digits. */
  predicate IsDigit(c: char) {
    '0' <= c <= '9'
  }

  /** Every character is a digit. */
  predicate AllDigits(s: string) {
    forall k | 0 <= k < |s| :: IsDigit(s[k])
  }

  /** No character is a digit. */
  predicate NoDigits(s: string) {
    forall k | 0 <= k < |s| :: !IsDigit(s[k])
  }

  /** `\w`: letters, digits and `_`, for ASCII, Latin-1, Hangul and CJK ideographs. */
  predicate IsWordChar(c: char) {
    || IsDigit(c) || ('a' <= c <= 'z') || ('A' <= c <= 'Z') || c == '_'
    || c == '\U{AA}' || c == '\U{B2}' || c == '\U{B3}' || c == '\U{B5}' || c == '\U{B9}'
    || c == '\U{BA}' || ('\U{BC}' <= c <= '\U{BE}')
    || ('\U{C0}' <= c <= '\U{D6}') || ('\U{D8}' <= c <= '\U{F6}') || ('\U{F8}' <= c <= '\U{FF}')
    || ('\U{1100}' <= c <= '\U{11FF}')   // Hangul Jamo
    || ('\U{3131}' <= c <= '\U{318E}')   // Hangul compatibility Jamo
    || ('\U{4E00}' <= c <= '\U{9FFF}')   // CJK unified ideographs
    || ('\U{AC00}' <= c <= '\U{D7A3}')   // Hangul syllables
  }

  /** `str.lower()` on one character, for ASCII and Latin-1 capitals. */
  function LowerChar(c: char): char {
    if 'A' <= c <= 'Z' then (c as int + 32) as char
    else if '\U{C0}' <= c <= '\U{DE}' && c != '\U{D7}' then (c as int + 32) as char
    else c
  }

  predicate IsLower(c: char) {
    LowerChar(c) == c
  }

  lemma LowerCharFacts(c: char)
    ensures IsLower(LowerChar(c))
    ensures IsWordChar(LowerChar(c)) == IsWordChar(c)
    ensures IsSpace(LowerChar(c)) == IsSpace(c)
  {
  }

  /** `s.lower()` */
  function Lower(s: string): (r: string)
    ensures |r| == |s|
    ensures forall i | 0 <= i < |s| :: r[i] == LowerChar(s[i])
  {
    seq(|s|, i requires 0 <= i < |s| => LowerChar(s[i]))
  }

  predicate AllLower(s: string) {
    forall i | 0 <= i < |s| :: IsLower(s[i])
  }

  lemma LowerIsLower(s: string)
    ensures AllLower(Lower(s))
  {
    forall i | 0 <= i < |s| ensures IsLower(Lower(s)[i]) {
      LowerCharFacts(s[i]);
    }
  }

  /** `needle in hay` for strings; the empty string is in every string. */
  predicate Contains(hay: string, needle: string) {
    exists i | 0 <= i <= |hay| :: needle <= hay[i..]
  }

  /** The leading run of whitespace of `s` removed. */
  function DropSpaces(s: string): (r: string)
    ensures |r| <= |s| && r == s[|s| - |r|..]
    ensures r == [] || !IsSpace(r[0])
  {
    if s != [] && IsSpace(s[0]) then DropSpaces(s[1..]) else s
  }

  /** The trailing run of whitespace of `s` removed. */
  function DropTrailingSpaces(s: string): (r: string)
    ensures |r| <= |s| && r == s[..|r|]
    ensures r == [] || !IsSpace(r[|r| - 1])
  {
    if s != [] && IsSpace(s[|s| - 1]) then DropTrailingSpaces(s[..|s| - 1]) else s
  }

  /** Only whitespace is dropped from the front. */
  lemma {:induction false} DropSpacesDropsSpaces(s: string)
    ensures forall k | 0 <= k < |s| - |DropSpaces(s)| :: IsSpace(s[k])
    decreases |s|
  {
    if s != [] && IsSpace(s[0]) {
      DropSpacesDropsSpaces(s[1..]);
      assert forall k | 1 <= k < |s| - |DropSpaces(s)| :: s[k] == s[1..][k - 1];
    }
  }

  /** Only whitespace is dropped from the back. */
  lemma {:induction false} DropTrailingDropsSpaces(s: string)
    ensures forall k | |DropTrailingSpaces(s)| <= k < |s| :: IsSpace(s[k])
    decreases |s|
  {
    if s != [] && IsSpace(s[|s| - 1]) {
      DropTrailingDropsSpaces(s[..|s| - 1]);
      assert forall k | 0 <= k < |s| - 1 :: s[k] == s[..|s| - 1][k];
    }
  }

  /** `s.strip()` */
  function Strip(s: string): string {
    DropTrailingSpaces(DropSpaces(s))
  }

  /** `re.sub(r'\s+', ' ', s)`: every maximal run of whitespace becomes one space. */
  function CollapseSpaces(s: string): string
    decreases |s|
  {
    if s == [] then []
    else if IsSpace(s[0]) then [' '] + CollapseSpaces(DropSpaces(s))
    else [s[0]] + CollapseSpaces(s[1..])
  }

  /** `re.sub(r'\s+', ' ', s).strip()` */
  function Squeeze(s: string): string {
    Strip(CollapseSpaces(s))
  }

  /** No two whitespace characters side by side. */
  predicate SingleSpaced(s: string) {
    forall i | 0 <= i < |s| - 1 :: !(IsSpace(s[i]) && IsSpace(s[i + 1]))
  }

  /** Single-spaced, and no whitespace at either end. */
  predicate Tidy(s: string) {
    SingleSpaced(s) && (s != [] ==> !IsSpace(s[0]) && !IsSpace(s[|s| - 1]))
  }

  /** Every character of `r` is a character of `s` or a plain space. */
  predicate CharsFrom(r: string, s: string) {
    forall c | c in r :: c in s || c == ' '
  }

  lemma {:induction false} CollapseSpacesFacts(s: string)
    ensures SingleSpaced(CollapseSpaces(s))
    ensures |CollapseSpaces(s)| <= |s|
    ensures CharsFrom(CollapseSpaces(s), s)
    ensures CollapseSpaces(s) == [] || IsSpace(CollapseSpaces(s)[0]) == IsSpace(s[0])
    decreases |s|
  {
    if s == [] {
    } else if IsSpace(s[0]) {
      var t := DropSpaces(s);
      CollapseSpacesFacts(t);
      assert CollapseSpaces(t) == [] || !IsSpace(CollapseSpaces(t)[0]);
      var r := CollapseSpaces(s);
      assert r == [' '] + CollapseSpaces(t);
      forall c | c in r ensures c in s || c == ' ' {
        if c != ' ' {
          assert c in CollapseSpaces(t);
          assert c in t;
        }
      }
    } else {
      CollapseSpacesFacts(s[1..]);
      var r := CollapseSpaces(s);
      assert r == [s[0]] + CollapseSpaces(s[1..]);
      forall c | c in r ensures c in s || c == ' ' {
        if c != s[0] {
          assert c in CollapseSpaces(s[1..]);
        }
      }
    }
  }

  lemma StripFacts(s: string)
    ensures |Strip(s)| <= |s|
    ensures forall c | c in Strip(s) :: c in s
    ensures SingleSpaced(s) ==> Tidy(Strip(s))
  {
    StripKeepsChars(s);
    if SingleSpaced(s) {
      StripTidies(s);
    }
  }

  lemma StripKeepsChars(s: string)
    ensures forall c | c in Strip(s) :: c in s
  {
    var d := DropSpaces(s);
    var r := DropTrailingSpaces(d);
    assert Strip(s) == r;
    SuffixFacts(s, d);
    PrefixFacts(d, r);
  }

  lemma StripTidies(s: string)
    requires SingleSpaced(s)
    ensures Tidy(Strip(s))
  {
    var d := DropSpaces(s);
    var r := DropTrailingSpaces(d);
    assert Strip(s) == r;
    SuffixFacts(s, d);
    PrefixFacts(d, r);
    TrimmedEnds(d);
  }

  /** A suffix keeps the characters and the single spacing of the whole. */
  lemma SuffixFacts(s: string, d: string)
    requires |d| <= |s| && d == s[|s| - |d|..]
    ensures forall c | c in d :: c in s
    ensures SingleSpaced(s) ==> SingleSpaced(d)
  {
    var k := |s| - |d|;
    forall i | 0 <= i < |d| ensures d[i] == s[k + i] && d[i] in s {
    }
  }

  /** A prefix keeps the characters and the single spacing of the whole. */
  lemma PrefixFacts(d: string, r: string)
    requires |r| <= |d| && r == d[..|r|]
    ensures forall c | c in r :: c in d
    ensures SingleSpaced(d) ==> SingleSpaced(r)
  {
    forall i | 0 <= i < |r| ensures r[i] == d[i] && r[i] in d {
    }
  }

  /** Dropping trailing whitespace from a text that does not start with it leaves no whitespace at either end. */
  lemma TrimmedEnds(d: string)
    requires d == [] || !IsSpace(d[0])
    ensures var r := DropTrailingSpaces(d); r != [] ==> !IsSpace(r[0]) && !IsSpace(r[|r| - 1])
  {
    var r := DropTrailingSpaces(d);
    if r != [] {
      assert r[0] == d[0];
    }
  }

  /** What `re.sub(r'\s+', ' ', s).strip()` promises: tidy, never longer, no new characters but spaces. */
  lemma SqueezeFacts(s: string)
    ensures Tidy(Squeeze(s))
    ensures |Squeeze(s)| <= |s|
    ensures CharsFrom(Squeeze(s), s)
  {
    CollapseSpacesFacts(s);
    StripFacts(CollapseSpaces(s));
  }

  /** `s.split()`: the maximal runs of non-whitespace characters, in order. */
  function Split(s: string): (words: seq<string>)
    ensures AllWords(words)
    decreases |s|
  {
    var t := DropSpaces(s);
    if t == [] then []
    else
      var n := WordLength(t);
      WordPrefix(t, n);
      ConsWord(t[..n], Split(t[n..]));
      [t[..n]] + Split(t[n..])
  }

  predicate NoSpaces(w: string) {
    forall k | 0 <= k < |w| :: !IsSpace(w[k])
  }

  /** Every element is a non-empty run of non-whitespace characters. */
  predicate AllWords(words: seq<string>) {
    forall i | 0 <= i < |words| :: words[i] != [] && NoSpaces(words[i])
  }

  lemma WordPrefix(t: string, n: nat)
    requires n <= |t| && forall k | 0 <= k < n :: !IsSpace(t[k])
    ensures NoSpaces(t[..n])
  {
    forall k | 0 <= k < n ensures !IsSpace(t[..n][k]) {
      assert t[..n][k] == t[k];
    }
  }

  lemma ConsWord(w: string, rest: seq<string>)
    requires w != [] && NoSpaces(w) && AllWords(rest)
    ensures AllWords([w] + rest)
  {
    forall i | 0 <= i < |[w] + rest| ensures ([w] + rest)[i] != [] && NoSpaces(([w] + rest)[i]) {
      if i > 0 {
        assert ([w] + rest)[i] == rest[i - 1];
      }
    }
  }

  function WordLength(s: string): (n: nat)
    ensures n <= |s|
    ensures forall k | 0 <= k < n :: !IsSpace(s[k])
    ensures n < |s| ==> IsSpace(s[n])
    ensures s != [] && !IsSpace(s[0]) ==> n > 0
  {
    if s == [] || IsSpace(s[0]) then 0 else 1 + WordLength(s[1..])
  }

  /** `" ".join(words)` */
  function JoinWords(words: seq<string>): string {
    if words == [] then []
    else if |words| == 1 then words[0]
    else words[0] + [' '] + JoinWords(words[1..])
  }

  /**
   * The words of `s`, joined by single spaces, are `s` with every run of whitespace turned
   * into one space and the ends stripped: `" ".join(s.split()) == re.sub(r'\s+', ' ', s).strip()`.
   */
  lemma {:induction false} SplitJoin(s: string)
    ensures JoinWords(Split(s)) == Squeeze(s)
    decreases |s|
  {
    var t := DropSpaces(s);
    SqueezeDropSpaces(s);
    if t != [] {
      var n := WordLength(t);
      var rest := t[n..];
      SplitJoin(rest);
      assert Split(s) == [t[..n]] + Split(rest);
      assert Split(rest) == [] <==> DropSpaces(rest) == [];
      SqueezeWord(t, n);
      JoinWord(t[..n], rest, Split(rest));
    }
  }

  /** One step of `SplitJoin`: a word `w`, then the words `ws` of the text `rest` after it. */
  lemma JoinWord(w: string, rest: string, ws: seq<string>)
    requires w != [] && !IsSpace(w[0]) && !IsSpace(w[|w| - 1])
    requires rest == [] || IsSpace(rest[0])
    requires JoinWords(ws) == Squeeze(rest) && (ws == [] <==> DropSpaces(rest) == [])
    ensures JoinWords([w] + ws) == Strip(w + CollapseSpaces(rest))
  {
    if DropSpaces(rest) == [] {
      JoinWordLast(w, rest, ws);
    } else {
      JoinWordThen(w, rest, ws);
    }
  }

  /** The collapse copies the word at the front of `t`, which has no whitespace at either end. */
  lemma SqueezeWord(t: string, n: nat)
    requires 0 < n <= |t| && forall k | 0 <= k < n :: !IsSpace(t[k])
    ensures Squeeze(t) == Strip(t[..n] + CollapseSpaces(t[n..]))
    ensures !IsSpace(t[..n][0]) && !IsSpace(t[..n][n - 1])
  {
    CollapseWord(t, n);
    assert t[..n][0] == t[0] && t[..n][n - 1] == t[n - 1];
  }

  lemma JoinWordLast(w: string, rest: string, ws: seq<string>)
    requires w != [] && !IsSpace(w[0]) && !IsSpace(w[|w| - 1])
    requires DropSpaces(rest) == [] && ws == []
    ensures JoinWords([w] + ws) == Strip(w + CollapseSpaces(rest))
  {
    assert JoinWords([w] + ws) == w by {
      assert [w] + ws == [w];
    }
    CollapseBlank(rest);
    StripBare(w);
    if rest == [] {
      assert w + CollapseSpaces(rest) == w;
    } else {
      assert w + CollapseSpaces(rest) == w + [' '];
    }
  }

  /** Whitespace alone collapses to at most one space. */
  lemma CollapseBlank(rest: string)
    requires DropSpaces(rest) == []
    ensures CollapseSpaces(rest) == (if rest == [] then [] else [' '])
  {
    if rest != [] {
      assert CollapseSpaces(rest) == [' '] + CollapseSpaces([]);
    }
  }

  lemma JoinWordThen(w: string, rest: string, ws: seq<string>)
    requires w != [] && !IsSpace(w[0]) && rest != [] && IsSpace(rest[0])
    requires DropSpaces(rest) != []
    requires JoinWords(ws) == Squeeze(rest) && ws != []
    ensures JoinWords([w] + ws) == Strip(w + CollapseSpaces(rest))
  {
    JoinCons(w, ws);
    SqueezeDropSpaces(rest);
    StripWordSpace(w, rest);
  }

  lemma JoinCons(w: string, ws: seq<string>)
    requires ws != []
    ensures JoinWords([w] + ws) == w + [' '] + JoinWords(ws)
  {
    assert ([w] + ws)[1..] == ws;
  }

  /** A word, then whitespace and more: the word, one space, and the rest squeezed. */
  lemma StripWordSpace(w: string, rest: string)
    requires w != [] && !IsSpace(w[0]) && rest != [] && IsSpace(rest[0])
    requires DropSpaces(rest) != []
    ensures Strip(w + CollapseSpaces(rest)) == w + [' '] + Squeeze(DropSpaces(rest))
  {
    var c := CollapseSpaces(DropSpaces(rest));
    CollapseHeadSpace(rest);
    CollapseSpacesFacts(DropSpaces(rest));
    ConcatAssoc(w, [' '], c);
    assert (w + [' '])[0] == w[0];
    StripWordThen(w + [' '], c);
  }

  lemma {:induction false} SqueezeDropSpaces(s: string)
    ensures Squeeze(DropSpaces(s)) == Squeeze(s)
  {
    if s != [] && IsSpace(s[0]) {
      var c := CollapseSpaces(DropSpaces(s));
      assert CollapseSpaces(s) == [' '] + c;
      DropSpacesCons(c);
    }
  }

  lemma DropSpacesCons(c: string)
    ensures DropSpaces([' '] + c) == DropSpaces(c)
  {
    assert ([' '] + c)[1..] == c;
  }

  /** A run of `n` non-whitespace characters at the front is copied by the collapse. */
  lemma {:induction false} CollapseWord(t: string, n: nat)
    requires n <= |t| && forall k | 0 <= k < n :: !IsSpace(t[k])
    ensures CollapseSpaces(t) == t[..n] + CollapseSpaces(t[n..])
    decreases n
  {
    if n > 0 {
      NoSpaceTail(t, n);
      CollapseWord(t[1..], n - 1);
      assert t[1..][n - 1..] == t[n..];
      CollapseHeadWord(t);
      PrefixStep(t, n, CollapseSpaces(t[n..]));
    }
  }

  lemma NoSpaceTail(t: string, n: nat)
    requires 0 < n <= |t| && forall k | 0 <= k < n :: !IsSpace(t[k])
    ensures !IsSpace(t[0]) && forall k | 0 <= k < n - 1 :: !IsSpace(t[1..][k])
  {
    assert forall k | 0 <= k < n - 1 :: t[1..][k] == t[k + 1];
  }

  /** Taking a first element off and the next `n - 1` after it is taking `n`. */
  lemma PrefixStep(t: string, n: nat, y: string)
    requires 0 < n <= |t|
    ensures [t[0]] + (t[1..][..n - 1] + y) == t[..n] + y
  {
    assert t[..n] == [t[0]] + t[1..][..n - 1];
    ConcatAssoc([t[0]], t[1..][..n - 1], y);
  }

  /** A non-empty text without whitespace at either end is left as it is by `strip()`. */
  lemma StripBare(w: string)
    requires w != [] && !IsSpace(w[0]) && !IsSpace(w[|w| - 1])
    ensures Strip(w) == w && Strip(w + [' ']) == w
  {
    assert DropSpaces(w + [' ']) == w + [' '];
    assert (w + [' '])[..|w|] == w;
  }

  /** `strip()` of a text starting with a word: only the tail's trailing whitespace goes. */
  lemma StripWordThen(a: string, c: string)
    requires a != [] && !IsSpace(a[0]) && c != [] && !IsSpace(c[0])
    ensures Strip(a + c) == a + Strip(c)
  {
    assert DropSpaces(a + c) == a + c;
    assert DropSpaces(c) == c;
    DropTrailingDropsSpaces(c);
    assert DropTrailingSpaces(c) != [];
    DropTrailingAppend(a, c);
  }

  /** Trailing whitespace of `a + b` comes from `b` alone when `b` has something else. */
  lemma {:induction false} DropTrailingAppend(a: string, b: string)
    requires DropTrailingSpaces(b) != []
    ensures DropTrailingSpaces(a + b) == a + DropTrailingSpaces(b)
    decreases |b|
  {
    if b != [] && IsSpace(b[|b| - 1]) {
      assert (a + b)[..|a + b| - 1] == a + b[..|b| - 1];
      DropTrailingAppend(a, b[..|b| - 1]);
    }
  }

  /** A trailing space survives the leading-whitespace drop only when something else does. */
  lemma {:induction false} DropSpacesAppendSpace(w: string)
    ensures DropSpaces(w + [' ']) == if DropSpaces(w) == [] then [] else DropSpaces(w) + [' ']
    decreases |w|
  {
    var s := w + [' '];
    if w == [] {
      assert DropSpaces(s) == DropSpaces(s[1..]);
      assert s[1..] == [];
    } else {
      assert s[0] == w[0] && s[1..] == w[1..] + [' '];
      if IsSpace(w[0]) {
        DropSpacesAppendSpace(w[1..]);
      }
    }
  }

  /** A trailing space either extends the last run of whitespace or becomes one of its own. */
  lemma {:induction false} CollapseAppendSpace(w: string)
    ensures CollapseSpaces(w + [' ']) == CollapseSpaces(w) || CollapseSpaces(w + [' ']) == CollapseSpaces(w) + [' ']
    decreases |w|
  {
    var s := w + [' '];
    DropSpacesAppendSpace(w);
    if w == [] {
      CollapseHeadSpace(s);
    } else if IsSpace(w[0]) {
      var d := DropSpaces(w);
      assert s[0] == w[0];
      CollapseHeadSpace(w);
      CollapseHeadSpace(s);
      if d != [] {
        CollapseAppendSpace(d);
        ConcatAssoc([' '], CollapseSpaces(d), [' ']);
      }
    } else {
      assert s[0] == w[0] && s[1..] == w[1..] + [' '];
      CollapseHeadWord(w);
      CollapseHeadWord(s);
      CollapseAppendSpace(w[1..]);
      ConcatAssoc([w[0]], CollapseSpaces(w[1..]), [' ']);
    }
  }

  lemma CollapseHeadSpace(s: string)
    requires s != [] && IsSpace(s[0])
    ensures CollapseSpaces(s) == [' '] + CollapseSpaces(DropSpaces(s))
  {
  }

  lemma CollapseHeadWord(s: string)
    requires s != [] && !IsSpace(s[0])
    ensures CollapseSpaces(s) == [s[0]] + CollapseSpaces(s[1..])
  {
  }

  lemma ConcatAssoc(h: string, x: string, y: string)
    ensures h + (x + y) == (h + x) + y
  {
  }

  lemma TailOfConcat(a: string, b: string)
    requires a != []
    ensures (a + b)[0] == a[0] && (a + b)[1..] == a[1..] + b
  {
  }

  /** `strip()` does not see a trailing space. */
  lemma StripAppendSpace(w: string)
    ensures Strip(w + [' ']) == Strip(w)
  {
    DropSpacesAppendSpace(w);
    var d := DropSpaces(w);
    if d != [] {
      assert (d + [' '])[..|d|] == d;
    }
  }

  /** Collapsing and stripping does not see a trailing space. */
  lemma SqueezeAppendSpace(w: string)
    ensures Squeeze(w + [' ']) == Squeeze(w)
  {
    CollapseAppendSpace(w);
    StripAppendSpace(CollapseSpaces(w));
  }

  /** `set(s.split())` */
  function WordSet(s: string): set<string> {
    set w | w in Split(s)
  }
}
