/**
 * The regular expressions that the title cleaner deletes with `re.sub(pattern, '', s)`,
 * as a closed set of shapes, and the left-to-right substitution scan of `re.sub`:
 * a match is looked for at each position of the ORIGINAL string; a match is dropped
 * and scanning resumes after it, otherwise one character is kept. The output is
 * never rescanned.
 */
module Patterns {
  import opened Text
  import opened Wrappers

  datatype Pattern =
    | Word(w: string)                // \bw\b, ignoring case
    | Quantity(units: seq<string>)   // \d+\s*(u1|u2|...)\b, ignoring case
    | Times                          // x\s*\d+, ignoring case
    | Group(open: char, close: char) // \( [^)]* \)  with ( and ) given

  /** `\b` at position `k` of `s`. */
  predicate Boundary(s: string, k: nat)
    requires k <= |s|
  {
    (k > 0 && IsWordChar(s[k - 1])) != (k < |s| && IsWordChar(s[k]))
  }

  /** `s[i..]` starts with `lit`, comparing as the IGNORECASE flag does. */
  predicate LiteralAt(s: string, i: nat, lit: string)
    requires i <= |s|
  {
    i + |lit| <= |s| && forall k | 0 <= k < |lit| :: LowerChar(s[i + k]) == lit[k]
  }

  /** End of the run of characters satisfying `IsDigit` that starts at `i`. */
  function DigitsEnd(s: string, i: nat): (e: nat)
    requires i <= |s|
    ensures i <= e <= |s|
    ensures forall k | i <= k < e :: IsDigit(s[k])
    ensures e < |s| ==> !IsDigit(s[e])
    decreases |s| - i
  {
    if i < |s| && IsDigit(s[i]) then DigitsEnd(s, i + 1) else i
  }

  /** End of the run of whitespace that starts at `i`. */
  function SpacesEnd(s: string, i: nat): (e: nat)
    requires i <= |s|
    ensures i <= e <= |s|
    ensures forall k | i <= k < e :: IsSpace(s[k])
    ensures e < |s| ==> !IsSpace(s[e])
    decreases |s| - i
  {
    if i < |s| && IsSpace(s[i]) then SpacesEnd(s, i + 1) else i
  }

  /** The first alternative of `units`, tried in order, that matches at `p` and is followed by `\b`. */
  function UnitEnd(s: string, p: nat, units: seq<string>): (r: Option<nat>)
    requires p <= |s|
    ensures r.Some? ==> p < r.value <= |s|
  {
    if units == [] then None
    else if units[0] != [] && LiteralAt(s, p, units[0]) && Boundary(s, p + |units[0]|) then
      Some(p + |units[0]|)
    else UnitEnd(s, p, units[1..])
  }

  /** Index of the first `c` in `s[i..]`. */
  function Find(s: string, c: char, i: nat): (r: Option<nat>)
    requires i <= |s|
    ensures r.Some? ==> i <= r.value < |s| && s[r.value] == c
    ensures r.Some? ==> forall k | i <= k < r.value :: s[k] != c
    ensures r.None? ==> forall k | i <= k < |s| :: s[k] != c
    decreases |s| - i
  {
    if i == |s| then None else if s[i] == c then Some(i) else Find(s, c, i + 1)
  }

  /**
   * Where a match of `p` that starts at `i` ends, if there is one. Greedy `\d+` and `\s*`
   * need no backtracking here: giving back a digit or a space leaves a digit or a space
   * where a unit (or a digit after `x`) would have to start.
   */
  function MatchAt(p: Pattern, s: string, i: nat): (r: Option<nat>)
    requires i < |s|
    ensures r.Some? ==> i < r.value <= |s|
  {
    match p
    case Word(w) =>
      if w != [] && Boundary(s, i) && LiteralAt(s, i, w) && Boundary(s, i + |w|) then Some(i + |w|)
      else None
    case Quantity(units) =>
      var d := DigitsEnd(s, i);
      if d == i then None else UnitEnd(s, SpacesEnd(s, d), units)
    case Times =>
      if LowerChar(s[i]) != 'x' then None
      else
        var sp := SpacesEnd(s, i + 1);
        if sp < |s| && IsDigit(s[sp]) then Some(DigitsEnd(s, sp)) else None
    case Group(open, close) =>
      if s[i] != open then None
      else match Find(s, close, i + 1)
        case Some(k) => Some(k + 1)
        case None => None
  }

  /** `re.sub(p, '', s[i..])`, scanning the whole of `s` so that `\b` sees the character before `i`. */
  function DeleteFrom(p: Pattern, s: string, i: nat): string
    requires i <= |s|
    decreases |s| - i
  {
    if i == |s| then []
    else match MatchAt(p, s, i)
      case Some(j) => DeleteFrom(p, s, j)
      case None => [s[i]] + DeleteFrom(p, s, i + 1)
  }

  /** `re.sub(p, '', s)` */
  function Delete(p: Pattern, s: string): string {
    DeleteFrom(p, s, 0)
  }

  /** Deleting keeps a sub-multiset of the characters: never longer, no new characters. */
  lemma {:induction false} DeleteFromShrinks(p: Pattern, s: string, i: nat)
    requires i <= |s|
    ensures multiset(DeleteFrom(p, s, i)) <= multiset(s[i..])
    ensures |DeleteFrom(p, s, i)| <= |s| - i
    decreases |s| - i
  {
    if i < |s| {
      var m := MatchAt(p, s, i);
      if m.Some? {
        DeleteFromShrinks(p, s, m.value);
        SkipShrinks(s, i, m.value, DeleteFrom(p, s, m.value));
      } else {
        DeleteFromShrinks(p, s, i + 1);
        KeepShrinks(s, i, DeleteFrom(p, s, i + 1));
      }
    }
  }

  lemma SkipShrinks(s: string, i: nat, j: nat, rest: string)
    requires i < j <= |s|
    requires multiset(rest) <= multiset(s[j..]) && |rest| <= |s| - j
    ensures multiset(rest) <= multiset(s[i..]) && |rest| <= |s| - i
  {
    assert s[i..] == s[i..j] + s[j..];
  }

  lemma KeepShrinks(s: string, i: nat, rest: string)
    requires i < |s|
    requires multiset(rest) <= multiset(s[i + 1..]) && |rest| <= |s| - (i + 1)
    ensures multiset([s[i]] + rest) <= multiset(s[i..]) && |[s[i]] + rest| <= |s| - i
  {
    assert s[i..] == [s[i]] + s[i + 1..];
  }

  lemma DeleteShrinks(p: Pattern, s: string)
    ensures |Delete(p, s)| <= |s|
    ensures forall c | c in Delete(p, s) :: c in s
  {
    DeleteFromShrinks(p, s, 0);
    assert s[0..] == s;
    forall c | c in Delete(p, s) ensures c in s {
      assert c in multiset(Delete(p, s));
    }
  }

  // ---------------------------------------------------------------------------
  // Groups: after `re.sub(r'\([^)]*\)', '', s)` no `(` is followed anywhere by `)`.

  /** No `open` character is followed, anywhere later, by a `close` character. */
  predicate NoCloseAfterOpen(s: string, open: char, close: char) {
    forall a, b | 0 <= a < b < |s| :: !(s[a] == open && s[b] == close)
  }

  lemma AbsentFrom(s: string, i: nat, c: char)
    requires i <= |s| && forall k | i <= k < |s| :: s[k] != c
    ensures c !in multiset(s[i..])
  {
    forall x | x in s[i..] ensures x != c {
      var k :| 0 <= k < |s[i..]| && s[i..][k] == x;
      assert s[i + k] == x;
    }
  }

  lemma ConsNoCloseAfterOpen(c: char, t: string, open: char, close: char)
    requires NoCloseAfterOpen(t, open, close)
    requires c == open ==> close !in t
    ensures NoCloseAfterOpen([c] + t, open, close)
  {
    var u := [c] + t;
    forall a, b | 0 <= a < b < |u| ensures !(u[a] == open && u[b] == close) {
      if a == 0 {
        assert u[b] == t[b - 1];
      } else {
        assert u[a] == t[a - 1] && u[b] == t[b - 1];
      }
    }
  }

  lemma {:induction false} DeleteGroupFromClean(s: string, i: nat, open: char, close: char)
    requires i <= |s|
    ensures NoCloseAfterOpen(DeleteFrom(Group(open, close), s, i), open, close)
    decreases |s| - i
  {
    if i < |s| {
      var g := Group(open, close);
      if MatchAt(g, s, i).Some? {
        SkipAt(g, s, i);
        DeleteGroupFromClean(s, MatchAt(g, s, i).value, open, close);
      } else {
        KeepAt(g, s, i);
        DeleteGroupFromClean(s, i + 1, open, close);
        if s[i] == open {
          UnclosedOpen(s, i, open, close);
        }
        ConsNoCloseAfterOpen(s[i], DeleteFrom(g, s, i + 1), open, close);
      }
    }
  }

  /** An `open` where the group does not match has no `close` after it, so none survives the rest. */
  lemma UnclosedOpen(s: string, i: nat, open: char, close: char)
    requires i < |s| && s[i] == open && MatchAt(Group(open, close), s, i).None?
    ensures close !in DeleteFrom(Group(open, close), s, i + 1)
  {
    DeleteFromShrinks(Group(open, close), s, i + 1);
    assert Find(s, close, i + 1).None?;
    AbsentFrom(s, i + 1, close);
  }

  /** The group deletion leaves no `open` that a later `close` could pair with. */
  lemma DeleteGroupClean(s: string, open: char, close: char)
    ensures NoCloseAfterOpen(Delete(Group(open, close), s), open, close)
  {
    DeleteGroupFromClean(s, 0, open, close);
  }

  /** No `open` at or after index `i` of `s` is followed by a `close`. */
  predicate CleanFrom(s: string, i: nat, open: char, close: char) {
    forall a, b | i <= a < b < |s| :: !(s[a] == open && s[b] == close)
  }

  lemma {:induction false} DeleteFromKeepsNoCloseAfterOpen(p: Pattern, s: string, i: nat, open: char, close: char)
    requires i <= |s|
    requires CleanFrom(s, i, open, close)
    ensures NoCloseAfterOpen(DeleteFrom(p, s, i), open, close)
    decreases |s| - i
  {
    if i < |s| {
      var m := MatchAt(p, s, i);
      if m.Some? {
        SkipAt(p, s, i);
        DeleteFromKeepsNoCloseAfterOpen(p, s, m.value, open, close);
      } else {
        CleanFromHead(s, i, open, close);
        DeleteFromKeepsNoCloseAfterOpen(p, s, i + 1, open, close);
        KeepClean(p, s, i, open, close);
      }
    }
  }

  lemma CleanFromHead(s: string, i: nat, open: char, close: char)
    requires i < |s| && CleanFrom(s, i, open, close)
    ensures CleanFrom(s, i + 1, open, close)
  {
  }

  /** A kept character cannot pair with anything the rest of the deletion keeps. */
  lemma KeepClean(p: Pattern, s: string, i: nat, open: char, close: char)
    requires i < |s| && MatchAt(p, s, i).None? && CleanFrom(s, i, open, close)
    requires NoCloseAfterOpen(DeleteFrom(p, s, i + 1), open, close)
    ensures NoCloseAfterOpen(DeleteFrom(p, s, i), open, close)
  {
    KeepAt(p, s, i);
    DeleteFromShrinks(p, s, i + 1);
    if s[i] == open {
      AbsentFrom(s, i + 1, close);
    }
    ConsNoCloseAfterOpen(s[i], DeleteFrom(p, s, i + 1), open, close);
  }

  /** Where the pattern matches, the matched text is skipped. */
  lemma SkipAt(p: Pattern, s: string, i: nat)
    requires i < |s| && MatchAt(p, s, i).Some?
    ensures i < MatchAt(p, s, i).value <= |s|
    ensures DeleteFrom(p, s, i) == DeleteFrom(p, s, MatchAt(p, s, i).value)
  {
  }

  /** Any later deletion keeps the property: it only drops characters. */
  lemma DeleteKeepsNoCloseAfterOpen(p: Pattern, s: string, open: char, close: char)
    requires NoCloseAfterOpen(s, open, close)
    ensures NoCloseAfterOpen(Delete(p, s), open, close)
  {
    DeleteFromKeepsNoCloseAfterOpen(p, s, 0, open, close);
  }

  lemma SliceKeepsNoCloseAfterOpen(s: string, a: nat, b: nat, open: char, close: char)
    requires a <= b <= |s| && NoCloseAfterOpen(s, open, close)
    ensures NoCloseAfterOpen(s[a..b], open, close)
  {
    forall x, y | 0 <= x < y < b - a ensures !(s[a..b][x] == open && s[a..b][y] == close) {
      assert s[a..b][x] == s[a + x] && s[a..b][y] == s[a + y];
    }
  }

  lemma {:induction false} CollapseKeepsNoCloseAfterOpen(s: string, open: char, close: char)
    requires !IsSpace(open) && !IsSpace(close)
    requires NoCloseAfterOpen(s, open, close)
    ensures NoCloseAfterOpen(CollapseSpaces(s), open, close)
    decreases |s|
  {
    if s != [] {
      if IsSpace(s[0]) {
        var t := DropSpaces(s);
        SliceKeepsNoCloseAfterOpen(s, |s| - |t|, |s|, open, close);
        CollapseKeepsNoCloseAfterOpen(t, open, close);
        ConsNoCloseAfterOpen(' ', CollapseSpaces(t), open, close);
      } else {
        SliceKeepsNoCloseAfterOpen(s, 1, |s|, open, close);
        CollapseKeepsNoCloseAfterOpen(s[1..], open, close);
        CollapseSpacesFacts(s[1..]);
        if s[0] == open {
          assert close !in s[1..] by {
            forall k | 0 <= k < |s[1..]| ensures s[1..][k] != close {
              assert s[1..][k] == s[k + 1];
            }
          }
        }
        ConsNoCloseAfterOpen(s[0], CollapseSpaces(s[1..]), open, close);
      }
    }
  }

  /** Tidying the whitespace of a string cannot put a `close` after an `open`. */
  lemma SqueezeKeepsNoCloseAfterOpen(s: string, open: char, close: char)
    requires !IsSpace(open) && !IsSpace(close)
    requires NoCloseAfterOpen(s, open, close)
    ensures NoCloseAfterOpen(Squeeze(s), open, close)
  {
    var c := CollapseSpaces(s);
    CollapseKeepsNoCloseAfterOpen(s, open, close);
    var d := DropSpaces(c);
    SliceKeepsNoCloseAfterOpen(c, |c| - |d|, |c|, open, close);
    var r := DropTrailingSpaces(d);
    SliceKeepsNoCloseAfterOpen(d, 0, |r|, open, close);
  }

  // ---------------------------------------------------------------------------
  // Whole words: after `re.sub(r'\bw\b', '', s)` no whole-word `w` is left, and
  // no other whole word appears that was not there before.

  predicate AllWordChars(w: string) {
    forall k | 0 <= k < |w| :: IsWordChar(w[k])
  }

  /**
   * `w` (ignoring case) stands at `k` in `t` as a whole word; `before` says whether the
   * character just before `t` is a word character.
   */
  predicate WholeWordAt(t: string, k: int, w: string, before: bool) {
    && 0 <= k && k + |w| <= |t|
    && LiteralAt(t, k, w)
    && (if k == 0 then !before else !IsWordChar(t[k - 1]))
    && (k + |w| == |t| || !IsWordChar(t[k + |w|]))
  }

  /** `re.search(r'\bw\b', t, re.IGNORECASE)` finds nothing, seen with `before` to the left of `t`. */
  predicate NoWholeWord(t: string, w: string, before: bool) {
    forall k | 0 <= k <= |t| :: !WholeWordAt(t, k, w, before)
  }

  predicate NoWholeWordFrom(s: string, i: nat, w: string) {
    forall k | i <= k <= |s| :: !WholeWordAt(s, k, w, false)
  }

  function WordBefore(s: string, i: nat): bool
    requires i <= |s|
  {
    i > 0 && IsWordChar(s[i - 1])
  }

  lemma LiteralStartsWithWordChar(t: string, k: nat, w: string)
    requires k <= |t| && LiteralAt(t, k, w) && AllWordChars(w) && w != []
    ensures forall j | k <= j < k + |w| :: IsWordChar(t[j])
  {
    forall j | k <= j < k + |w| ensures IsWordChar(t[j]) {
      LowerCharFacts(t[j]);
      assert LowerChar(t[j]) == w[j - k];
    }
  }

  /** A word match of an all-word-character `w` at `i` is exactly a whole-word occurrence there. */
  lemma WordMatchIsWholeWord(w: string, s: string, i: nat)
    requires i < |s| && AllWordChars(w) && w != []
    ensures MatchAt(Word(w), s, i).Some? <==> WholeWordAt(s, i, w, false)
  {
    if LiteralAt(s, i, w) {
      LiteralStartsWithWordChar(s, i, w);
    }
  }

  lemma ConsWholeWord(c: char, t: string, w: string, before: bool, k: int)
    requires 1 <= k
    ensures WholeWordAt([c] + t, k, w, before) <==> WholeWordAt(t, k - 1, w, IsWordChar(c))
  {
    var u := [c] + t;
    if k + |w| <= |u| {
      assert u[k..k + |w|] == t[k - 1..k - 1 + |w|];
      assert u[k - 1] == if k == 1 then c else t[k - 2];
      if k + |w| < |u| {
        assert u[k + |w|] == t[k - 1 + |w|];
      }
    }
  }

  lemma NonWordStartIgnoresBefore(t: string, w: string, b1: bool, b2: bool)
    requires NoWholeWord(t, w, b1) && AllWordChars(w) && w != []
    requires t == [] || !IsWordChar(t[0])
    ensures NoWholeWord(t, w, b2)
  {
    forall k | 0 <= k <= |t| ensures !WholeWordAt(t, k, w, b2) {
      if k == 0 && WholeWordAt(t, 0, w, b2) {
        LiteralStartsWithWordChar(t, 0, w);
        assert false;
      }
      assert k != 0 ==> (WholeWordAt(t, k, w, b2) <==> WholeWordAt(t, k, w, b1));
    }
  }

  /** Right after a word character, `\bw\b` cannot match where another word character stands. */
  lemma NoWordMatchInsideWord(w: string, s: string, i: nat)
    requires 0 < i < |s| && IsWordChar(s[i - 1]) && AllWordChars(w)
    ensures MatchAt(Word(w), s, i).None?
  {
    if w != [] && LiteralAt(s, i, w) {
      LiteralStartsWithWordChar(s, i, w);
    }
  }

  /** The first `n` characters of `t` (as many as there are) are word characters. */
  predicate WordRun(t: string, n: int) {
    forall j | 0 <= j < n && j < |t| :: IsWordChar(t[j])
  }

  /** `p` never matches right after a word character of `s`. */
  predicate NoMatchAfterWordChar(p: Pattern, s: string) {
    forall k | 0 < k < |s| && IsWordChar(s[k - 1]) :: MatchAt(p, s, k).None?
  }

  lemma WordNoMatchAfterWordChar(w: string, s: string)
    requires AllWordChars(w)
    ensures NoMatchAfterWordChar(Word(w), s)
  {
    forall k | 0 < k < |s| && IsWordChar(s[k - 1]) ensures MatchAt(Word(w), s, k).None? {
      NoWordMatchInsideWord(w, s, k);
    }
  }

  /** A run of word characters at the front of the output was copied unbroken from the input. */
  lemma {:induction false} KeptWordRun(p: Pattern, s: string, i: nat, e: nat)
    requires i <= e && i <= |s| && NoMatchAfterWordChar(p, s)
    requires e - i <= |DeleteFrom(p, s, i)|
    requires i < e ==> i < |s| && MatchAt(p, s, i).None?
    requires WordRun(DeleteFrom(p, s, i), e - i - 1)
    ensures e <= |s|
    ensures DeleteFrom(p, s, i) == s[i..e] + DeleteFrom(p, s, e)
    decreases e - i
  {
    if e == i + 1 {
      KeepOne(p, s, i);
    } else if i + 1 < e {
      KeptWordTail(p, s, i, e - i);
      KeptWordRun(p, s, i + 1, e);
      PrependRun(s, i, e, DeleteFrom(p, s, i + 1), DeleteFrom(p, s, e));
    }
  }

  lemma KeepOne(p: Pattern, s: string, i: nat)
    requires i < |s| && MatchAt(p, s, i).None?
    ensures DeleteFrom(p, s, i) == s[i..i + 1] + DeleteFrom(p, s, i + 1)
  {
    KeepAt(p, s, i);
    assert s[i..i + 1] == [s[i]];
  }

  /** Where nothing matches, the character is copied to the output. */
  lemma KeepAt(p: Pattern, s: string, i: nat)
    requires i < |s| && MatchAt(p, s, i).None?
    ensures DeleteFrom(p, s, i) == [s[i]] + DeleteFrom(p, s, i + 1)
  {
  }

  /** The run after the first kept word character meets the conditions of `KeptWordRun` again. */
  lemma KeptWordTail(p: Pattern, s: string, i: nat, m: nat)
    requires i < |s| && NoMatchAfterWordChar(p, s) && 1 < m
    requires m <= |DeleteFrom(p, s, i)|
    requires MatchAt(p, s, i).None?
    requires WordRun(DeleteFrom(p, s, i), m - 1)
    ensures DeleteFrom(p, s, i) == [s[i]] + DeleteFrom(p, s, i + 1)
    ensures i + 1 < |s| && MatchAt(p, s, i + 1).None?
    ensures m - 1 <= |DeleteFrom(p, s, i + 1)|
    ensures WordRun(DeleteFrom(p, s, i + 1), m - 2)
  {
    var out := DeleteFrom(p, s, i);
    var rest := DeleteFrom(p, s, i + 1);
    KeepAt(p, s, i);
    assert IsWordChar(s[i]) by { assert out[0] == s[i]; }
    DeleteFromShrinks(p, s, i + 1);
    forall j | 0 <= j < m - 2 && j < |rest| ensures IsWordChar(rest[j]) {
      assert rest[j] == out[j + 1];
    }
  }

  lemma PrependRun(s: string, i: nat, e: nat, rest: string, after: string)
    requires i < e <= |s|
    requires rest == s[i + 1..e] + after
    ensures [s[i]] + rest == s[i..e] + after
  {
    assert s[i..e] == [s[i]] + s[i + 1..e];
  }

  lemma {:induction false} DeleteWordFrom(w: string, v: string, s: string, i: nat)
    requires i <= |s|
    requires AllWordChars(w) && w != [] && AllWordChars(v) && v != []
    requires v == w || NoWholeWordFrom(s, i, v)
    ensures NoWholeWord(DeleteFrom(Word(w), s, i), v, WordBefore(s, i))
    decreases |s| - i
  {
    var out := DeleteFrom(Word(w), s, i);
    if i == |s| {
    } else {
      match MatchAt(Word(w), s, i)
      case Some(j) =>
        DeleteWordFrom(w, v, s, j);
        var rest := DeleteFrom(Word(w), s, j);
        if j < |s| {
          LiteralStartsWithWordChar(s, i, w);
          assert !IsWordChar(s[j]) by { assert Boundary(s, j); }
          assert MatchAt(Word(w), s, j).None? by {
            if LiteralAt(s, j, w) { LiteralStartsWithWordChar(s, j, w); }
          }
          assert rest[0] == s[j];
        }
        NonWordStartIgnoresBefore(rest, v, WordBefore(s, j), WordBefore(s, i));
      case None =>
        var rest := DeleteFrom(Word(w), s, i + 1);
        DeleteWordFrom(w, v, s, i + 1);
        assert out == [s[i]] + rest;
        assert WordBefore(s, i + 1) == IsWordChar(s[i]);
        forall k | 0 <= k <= |out| ensures !WholeWordAt(out, k, v, WordBefore(s, i)) {
          if k >= 1 {
            ConsWholeWord(s[i], rest, v, WordBefore(s, i), k);
          } else {
            NoWholeWordAtKeptStart(w, v, s, i);
          }
        }
    }
  }

  /** Where the scan keeps a character, no whole word `v` starts in the output unless it stood in `s`. */
  lemma NoWholeWordAtKeptStart(w: string, v: string, s: string, i: nat)
    requires i < |s| && MatchAt(Word(w), s, i).None?
    requires AllWordChars(w) && w != [] && AllWordChars(v) && v != []
    requires v == w || NoWholeWordFrom(s, i, v)
    ensures !WholeWordAt(DeleteFrom(Word(w), s, i), 0, v, WordBefore(s, i))
  {
    var out := DeleteFrom(Word(w), s, i);
    if WholeWordAt(out, 0, v, WordBefore(s, i)) {
      LiteralStartsWithWordChar(out, 0, v);
      KeptRunThenNext(w, s, i, i + |v|);
      WholeWordFromPrefix(out, s, i, v, DeleteFrom(Word(w), s, i + |v|));
      if v == w {
        WordMatchIsWholeWord(w, s, i);
      }
      assert false;
    }
  }

  /** A kept run of word characters is copied from `s`, and the output then goes on as `s` does. */
  lemma KeptRunThenNext(w: string, s: string, i: nat, e: nat)
    requires i < e && i < |s| && AllWordChars(w) && MatchAt(Word(w), s, i).None?
    requires e - i <= |DeleteFrom(Word(w), s, i)| && WordRun(DeleteFrom(Word(w), s, i), e - i)
    ensures e <= |s| && DeleteFrom(Word(w), s, i) == s[i..e] + DeleteFrom(Word(w), s, e)
    ensures e < |s| ==> DeleteFrom(Word(w), s, e) != [] && DeleteFrom(Word(w), s, e)[0] == s[e]
  {
    var out := DeleteFrom(Word(w), s, i);
    WordNoMatchAfterWordChar(w, s);
    KeptWordRun(Word(w), s, i, e);
    if e < |s| {
      assert IsWordChar(s[e - 1]) by { assert out[e - i - 1] == s[e - 1]; }
      NoWordMatchInsideWord(w, s, e);
      KeepAt(Word(w), s, e);
    }
  }

  /** A whole word at the front of `s[i..k] + after` stood whole in `s` when `after` goes on as `s` does. */
  lemma WholeWordFromPrefix(out: string, s: string, i: nat, v: string, after: string)
    requires i + |v| <= |s| && out == s[i..i + |v|] + after
    requires i + |v| < |s| ==> after != [] && after[0] == s[i + |v|]
    requires WholeWordAt(out, 0, v, WordBefore(s, i))
    ensures WholeWordAt(s, i, v, false)
  {
    forall j | 0 <= j < |v| ensures LowerChar(s[i + j]) == v[j] {
      assert out[j] == s[i + j];
    }
    if i + |v| < |s| {
      assert out[|v|] == s[i + |v|];
    }
  }

  /** After `re.sub(r'\bw\b', '', s, flags=re.IGNORECASE)` no whole-word `w` is left. */
  lemma DeleteWordRemovesIt(w: string, s: string)
    requires AllWordChars(w) && w != []
    ensures NoWholeWord(Delete(Word(w), s), w, false)
  {
    DeleteWordFrom(w, w, s, 0);
  }

  /** ... and it never makes another whole word `v` appear. */
  lemma DeleteWordKeepsOthersAbsent(w: string, v: string, s: string)
    requires AllWordChars(w) && w != [] && AllWordChars(v) && v != []
    requires NoWholeWord(s, v, false)
    ensures NoWholeWord(Delete(Word(w), s), v, false)
  {
    DeleteWordFrom(w, v, s, 0);
  }

  /** The words `ws` deleted one after the other, as a loop of `re.sub` calls does. */
  function DeleteWords(ws: seq<string>, s: string): string
    decreases |ws|
  {
    if ws == [] then s else DeleteWords(ws[1..], Delete(Word(ws[0]), s))
  }

  lemma {:induction false} DeleteWordsKeepsAbsent(ws: seq<string>, v: string, s: string)
    requires forall w | w in ws :: AllWordChars(w) && w != []
    requires AllWordChars(v) && v != [] && NoWholeWord(s, v, false)
    ensures NoWholeWord(DeleteWords(ws, s), v, false)
    decreases |ws|
  {
    if ws != [] {
      DeleteWordKeepsOthersAbsent(ws[0], v, s);
      DeleteWordsKeepsAbsent(ws[1..], v, Delete(Word(ws[0]), s));
    }
  }

  /** After deleting each of `ws` in turn, none of them is left as a whole word. */
  lemma {:induction false} DeleteWordsRemovesAll(ws: seq<string>, s: string)
    requires forall w | w in ws :: AllWordChars(w) && w != []
    ensures forall v | v in ws :: NoWholeWord(DeleteWords(ws, s), v, false)
    decreases |ws|
  {
    if ws != [] {
      var t := Delete(Word(ws[0]), s);
      DeleteWordRemovesIt(ws[0], s);
      DeleteWordsKeepsAbsent(ws[1..], ws[0], t);
      DeleteWordsRemovesAll(ws[1..], t);
      forall v | v in ws ensures NoWholeWord(DeleteWords(ws, s), v, false) {
        if v != ws[0] {
          assert v in ws[1..];
        }
      }
    }
  }

  lemma {:induction false} DeleteWordsShrinks(ws: seq<string>, s: string)
    ensures |DeleteWords(ws, s)| <= |s|
    ensures forall c | c in DeleteWords(ws, s) :: c in s
    decreases |ws|
  {
    if ws != [] {
      DeleteShrinks(Word(ws[0]), s);
      DeleteWordsShrinks(ws[1..], Delete(Word(ws[0]), s));
    }
  }

  // ---------------------------------------------------------------------------
  // Tokens at the end of a title: `re.sub` drops a trailing quantity or `x<n>` and keeps
  // everything before it when that part has no digit.

  /** A unit as the patterns spell it: non-empty, lower case, word characters only, starting with neither a digit nor whitespace. */
  predicate UnitWord(u: string) {
    && u != [] && !IsDigit(u[0]) && !IsSpace(u[0])
    && forall k | 0 <= k < |u| :: IsWordChar(u[k]) && LowerChar(u[k]) == u[k]
  }

  /** Where nothing matches from `i` up to `j`, the scan copies `s[i..j]`. */
  lemma {:induction false} KeptRange(p: Pattern, s: string, i: nat, j: nat)
    requires i <= j <= |s| && NoMatchIn(p, s, i, j)
    ensures DeleteFrom(p, s, i) == s[i..j] + DeleteFrom(p, s, j)
    decreases j - i
  {
    if i < j {
      KeepAt(p, s, i);
      KeptRange(p, s, i + 1, j);
      PrependRun(s, i, j, DeleteFrom(p, s, i + 1), DeleteFrom(p, s, j));
    }
  }

  /** `p` matches nowhere from `i` up to `j`. */
  predicate NoMatchIn(p: Pattern, s: string, i: nat, j: nat)
    requires j <= |s|
  {
    forall k | i <= k < j :: MatchAt(p, s, k).None?
  }

  /** A quantity needs a digit where it starts. */
  lemma QuantityNeedsDigit(units: seq<string>, s: string, k: nat)
    requires k < |s| && !IsDigit(s[k])
    ensures MatchAt(Quantity(units), s, k).None?
  {
  }

  /** `x\s*\d+` needs a digit after the `x` and the whitespace. */
  lemma TimesNeedsDigit(s: string, k: nat)
    requires k < |s| && forall j | k < j < |s| :: !IsDigit(s[j])
    ensures MatchAt(Times, s, k).None?
  {
  }

  /** Neither a quantity nor `x<n>` can match in a text without digits: the deletion keeps it. */
  lemma DeleteDigitFree(p: Pattern, s: string)
    requires p.Quantity? || p.Times?
    requires NoDigits(s)
    ensures Delete(p, s) == s
  {
    forall k | 0 <= k < |s| ensures MatchAt(p, s, k).None? {
      if p.Quantity? {
        QuantityNeedsDigit(p.units, s, k);
      } else {
        TimesNeedsDigit(s, k);
      }
    }
    KeptRange(p, s, 0, |s|);
    assert s[0..|s|] == s;
  }

  /** No unit can start at the very end of the text. */
  lemma {:induction false} UnitEndAtEnd(s: string, units: seq<string>)
    ensures UnitEnd(s, |s|, units).None?
    decreases |units|
  {
    if units != [] {
      UnitEndAtEnd(s, units[1..]);
    }
  }

  /** No alternative of `units` starts with the (lowered) character at `p`: no unit matches there. */
  lemma {:induction false} UnitEndNone(s: string, p: nat, units: seq<string>)
    requires p < |s|
    requires forall i | 0 <= i < |units| :: units[i] == [] || units[i][0] != LowerChar(s[p])
    ensures UnitEnd(s, p, units).None?
    decreases |units|
  {
    if units != [] {
      assert units[0] == [] || !LiteralAt(s, p, units[0]);
      UnitEndNone(s, p, units[1..]);
    }
  }

  /**
   * A unit of `units` that fills the text from `p` to its end is matched, whichever
   * alternative comes first: a shorter one would end between two word characters, where
   * `\b` fails.
   */
  lemma {:induction false} UnitEndWhole(s: string, p: nat, units: seq<string>, u: string)
    requires p <= |s| && u in units && u != [] && p + |u| == |s| && LiteralAt(s, p, u)
    requires forall j | p <= j < |s| :: IsWordChar(s[j])
    ensures UnitEnd(s, p, units) == Some(|s|)
    decreases |units|
  {
    var e := p + |units[0]|;
    assert Boundary(s, |s|);
    if units[0] != [] && LiteralAt(s, p, units[0]) && Boundary(s, e) {
      BoundaryInWord(s, p, e);
    } else {
      assert units[0] != u;
      assert u in units[1..];
      UnitEndWhole(s, p, units[1..], u);
    }
  }

  /** Inside a run of word characters that goes to the end of `s`, `\b` holds only at the end. */
  lemma BoundaryInWord(s: string, p: nat, e: nat)
    requires p < e <= |s| && forall j | p <= j < |s| :: IsWordChar(s[j])
    ensures Boundary(s, e) ==> e == |s|
  {
  }

  /** The unit `u` written at `p`, as `LiteralAt` sees it. */
  lemma UnitLiteral(s: string, p: nat, u: string)
    requires UnitWord(u) && p + |u| == |s| && s[p..] == u
    ensures LiteralAt(s, p, u)
    ensures forall j | p <= j < |s| :: IsWordChar(s[j])
  {
    forall k | 0 <= k < |u| ensures s[p + k] == u[k] {
      assert s[p..][k] == s[p + k];
    }
  }

  /** `t`, a space, the digits `d` and the unit `u`, laid out by position. */
  lemma QuantityLayout(t: string, d: string, u: string)
    ensures var s := t + [' '] + d + u;
      && |s| == |t| + 1 + |d| + |u|
      && (forall k | 0 <= k < |t| :: s[k] == t[k])
      && s[|t|] == ' '
      && (forall k | 0 <= k < |d| :: s[|t| + 1 + k] == d[k])
      && s[|t| + 1 + |d|..] == u
      && s[..|t| + 1] == t + [' ']
  {
  }

  /**
   * `re.sub(r'\d+\s*(u1|u2|...)\b', '', t + ' ' + d + u)`, for a digit-free `t`, digits `d`
   * and a unit `u` of the pattern: the quantity goes, the text before it stays.
   */
  lemma QuantityDropsTail(units: seq<string>, t: string, d: string, u: string)
    requires NoDigits(t) && d != [] && AllDigits(d) && UnitWord(u) && u in units
    ensures Delete(Quantity(units), t + [' '] + d + u) == t + [' ']
  {
    var s := t + [' '] + d + u;
    var q := Quantity(units);
    var a := |t| + 1;
    var p := a + |d|;
    QuantityLayout(t, d, u);
    forall k | 0 <= k < a ensures MatchAt(q, s, k).None? {
      QuantityNeedsDigit(units, s, k);
    }
    KeptRange(q, s, 0, a);
    QuantityAtEnd(units, s, a, p, u);
  }

  /** Digits from `a` to `p`, then the unit `u` of `units` up to the end: a match that runs to the end. */
  lemma QuantityAtEnd(units: seq<string>, s: string, a: nat, p: nat, u: string)
    requires a < p && p + |u| == |s| && forall j | a <= j < p :: IsDigit(s[j])
    requires UnitWord(u) && u in units && s[p..] == u
    ensures MatchAt(Quantity(units), s, a) == Some(|s|)
  {
    assert s[p] == u[0] by {
      assert s[p..][0] == s[p];
    }
    assert DigitsEnd(s, a) == p;
    assert SpacesEnd(s, p) == p;
    UnitLiteral(s, p, u);
    UnitEndWhole(s, p, units, u);
  }

  /**
   * The same text, when no alternative of `units` starts with the unit's first character
   * and the unit has no digit: the quantity pattern finds nothing and keeps it all.
   */
  lemma QuantityKeepsOtherUnit(units: seq<string>, t: string, d: string, u: string)
    requires NoDigits(t) && d != [] && AllDigits(d) && UnitWord(u) && NoDigits(u)
    requires forall i | 0 <= i < |units| :: units[i] == [] || units[i][0] != u[0]
    ensures Delete(Quantity(units), t + [' '] + d + u) == t + [' '] + d + u
  {
    var s := t + [' '] + d + u;
    var q := Quantity(units);
    var a := |t| + 1;
    var p := a + |d|;
    QuantityLayout(t, d, u);
    forall k | 0 <= k < |s| ensures MatchAt(q, s, k).None? {
      if k < a || p <= k {
        assert k >= p ==> s[k] == u[k - p];
        QuantityNeedsDigit(units, s, k);
      } else {
        assert s[p] == u[0];
        assert DigitsEnd(s, k) == p;
        assert SpacesEnd(s, p) == p;
        UnitEndNone(s, p, units);
      }
    }
    KeptRange(q, s, 0, |s|);
    assert s[0..|s|] == s;
  }

  /** Before a non-space character at `a`, with no digit up to it, `x\s*\d+` cannot match. */
  lemma TimesNoMatchBefore(s: string, k: nat, a: nat)
    requires k < a < |s| && !IsSpace(s[a])
    requires forall j | k < j <= a :: !IsDigit(s[j])
    ensures MatchAt(Times, s, k).None?
  {
    var sp := SpacesEnd(s, k + 1);
    assert sp <= a;
  }

  /** `t`, a space, `x` and the digits `d`, laid out by position. */
  lemma TimesLayout(t: string, d: string)
    ensures var s := t + [' ', 'x'] + d;
      && |s| == |t| + 2 + |d|
      && (forall k | 0 <= k < |t| :: s[k] == t[k])
      && s[|t|] == ' ' && s[|t| + 1] == 'x'
      && (forall k | 0 <= k < |d| :: s[|t| + 2 + k] == d[k])
      && s[..|t| + 1] == t + [' ']
  {
  }

  /** `re.sub(r'x\s*\d+', '', t + ' x' + d)` for a digit-free `t` and digits `d`: the multiplier goes. */
  lemma TimesDropsTail(t: string, d: string)
    requires NoDigits(t) && d != [] && AllDigits(d)
    ensures Delete(Times, t + [' ', 'x'] + d) == t + [' ']
  {
    var s := t + [' ', 'x'] + d;
    var a := |t| + 1;
    TimesLayout(t, d);
    forall k | 0 <= k < a ensures MatchAt(Times, s, k).None? {
      TimesNoMatchBefore(s, k, a);
    }
    KeptRange(Times, s, 0, a);
    TimesAtEnd(s, a);
  }

  /** An `x` followed by nothing but digits, at least one, is a match that runs to the end. */
  lemma TimesAtEnd(s: string, a: nat)
    requires a + 1 < |s| && LowerChar(s[a]) == 'x'
    requires forall j | a < j < |s| :: IsDigit(s[j])
    ensures MatchAt(Times, s, a) == Some(|s|)
  {
    assert SpacesEnd(s, a + 1) == a + 1 by {
      assert IsDigit(s[a + 1]);
    }
  }

  /** The quantity patterns find nothing in `t + ' x' + d`: no unit follows the digits. */
  lemma QuantityKeepsTimes(units: seq<string>, t: string, d: string)
    requires NoDigits(t) && d != [] && AllDigits(d)
    ensures Delete(Quantity(units), t + [' ', 'x'] + d) == t + [' ', 'x'] + d
  {
    var s := t + [' ', 'x'] + d;
    var q := Quantity(units);
    TimesLayout(t, d);
    forall k | 0 <= k < |s| ensures MatchAt(q, s, k).None? {
      if k < |t| + 2 {
        QuantityNeedsDigit(units, s, k);
      } else {
        assert DigitsEnd(s, k) == |s|;
        assert SpacesEnd(s, |s|) == |s|;
        UnitEndAtEnd(s, units);
      }
    }
    KeptRange(q, s, 0, |s|);
    assert s[0..|s|] == s;
  }

  /** A trailing space, which is not `c`, changes no search for `c` in `t`. */
  lemma {:induction false} FindAppendSpace(t: string, c: char, i: nat)
    requires c != ' ' && i <= |t|
    ensures Find(t + [' '], c, i) == Find(t, c, i)
    decreases |t| - i
  {
    assert (t + [' '])[|t|] == ' ';
    if i < |t| {
      assert (t + [' '])[i] == t[i];
      FindAppendSpace(t, c, i + 1);
    }
  }

  /** A trailing space passes through the group deletion untouched when it is neither bracket. */
  lemma {:induction false} GroupAppendSpaceFrom(open: char, close: char, t: string, i: nat)
    requires open != ' ' && close != ' ' && i <= |t|
    ensures DeleteFrom(Group(open, close), t + [' '], i) == DeleteFrom(Group(open, close), t, i) + [' ']
    decreases |t| - i
  {
    var g := Group(open, close);
    var s := t + [' '];
    if i == |t| {
      assert s[i] == ' ';
      assert MatchAt(g, s, i).None?;
      KeepAt(g, s, i);
    } else {
      assert s[i] == t[i];
      if t[i] == open {
        FindAppendSpace(t, close, i + 1);
      }
      assert MatchAt(g, s, i) == MatchAt(g, t, i);
      match MatchAt(g, t, i)
      case Some(j) =>
        GroupAppendSpaceFrom(open, close, t, j);
      case None =>
        GroupAppendSpaceFrom(open, close, t, i + 1);
        KeepAt(g, s, i);
        KeepAt(g, t, i);
    }
  }

  lemma GroupAppendSpace(open: char, close: char, t: string)
    requires open != ' ' && close != ' '
    ensures Delete(Group(open, close), t + [' ']) == Delete(Group(open, close), t) + [' ']
  {
    GroupAppendSpaceFrom(open, close, t, 0);
  }

  /** Without an `open` character the group deletion keeps the text. */
  lemma GroupAbsent(open: char, close: char, t: string)
    requires open !in t
    ensures Delete(Group(open, close), t) == t
  {
    forall k | 0 <= k < |t| ensures MatchAt(Group(open, close), t, k).None? {
      assert t[k] in t;
    }
    KeptRange(Group(open, close), t, 0, |t|);
    assert t[0..|t|] == t;
  }
}
