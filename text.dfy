/** The few operations on Python `str` values that the refinement workflow
    and its input sanitisers rely on: substring search (`pat in s`),
    `str.replace`, `str.strip()` and deletion of every character of a
    regular-expression character class (`re.sub(r'[...]', '', s)`).
    Strings are sequences of Unicode code points, as in Python 3. */
module Text {

  /** Python's `str.isspace()` for a single code point: the ASCII controls
      0x09-0x0D and 0x1C-0x1F, the space, NEL, NO-BREAK SPACE and the
      Unicode space separators and line/paragraph separators. This is the
      set `str.strip()` without arguments removes. */
  predicate IsSpace(c: char)
  {
    || ('\U{9}' <= c <= '\U{D}')
    || ('\U{1C}' <= c <= '\U{20}')
    || c == '\U{85}' || c == '\U{A0}' || c == '\U{1680}'
    || ('\U{2000}' <= c <= '\U{200A}')
    || c == '\U{2028}' || c == '\U{2029}' || c == '\U{202F}' || c == '\U{205F}'
    || c == '\U{3000}'
  }

  /** `pat` occurs in `s` starting at index `i`. */
  ghost predicate OccursAt(s: string, pat: string, i: int)
  {
    0 <= i && i + |pat| <= |s| && s[i..i + |pat|] == pat
  }

  /** The reference meaning of Python's `pat in s`. */
  ghost predicate OccursIn(s: string, pat: string)
  {
    exists i :: OccursAt(s, pat, i)
  }

  /** Python's `pat in s` on strings, computed by trying each start position. */
  function Contains(s: string, pat: string): (r: bool)
    ensures r <==> OccursIn(s, pat)
    decreases |s|
  {
    if |pat| > |s| then
      assert forall i :: !OccursAt(s, pat, i);
      false
    else if s[..|pat|] == pat then
      assert OccursAt(s, pat, 0);
      true
    else
      OccursInTail(s, pat);
      Contains(s[1..], pat)
  }

  /** When `pat` is not a prefix of `s`, it occurs in `s` exactly when it
      occurs in `s` without its first character. */
  lemma OccursInTail(s: string, pat: string)
    requires |pat| <= |s| && s[..|pat|] != pat
    ensures OccursIn(s, pat) <==> OccursIn(s[1..], pat)
  {
    if OccursIn(s, pat) {
      var i :| OccursAt(s, pat, i);
      assert i != 0;
      assert s[1..][i - 1..i - 1 + |pat|] == s[i..i + |pat|];
      assert OccursAt(s[1..], pat, i - 1);
    }
    if OccursIn(s[1..], pat) {
      var j :| OccursAt(s[1..], pat, j);
      assert s[1..][j..j + |pat|] == s[j + 1..j + 1 + |pat|];
      assert OccursAt(s, pat, j + 1);
    }
  }

  /** Python's `s.replace(pat, rep)`: every leftmost, non-overlapping
      occurrence of `pat` is replaced by `rep`, scanning left to right. An
      empty `pat` matches before every character and at the end. */
  function Replace(s: string, pat: string, rep: string): string
    decreases |s|
  {
    if |pat| == 0 then
      if s == [] then rep else rep + [s[0]] + Replace(s[1..], pat, rep)
    else if |s| < |pat| then s
    else if s[..|pat|] == pat then rep + Replace(s[|pat|..], pat, rep)
    else [s[0]] + Replace(s[1..], pat, rep)
  }

  /** A text in which a non-empty `pat` does not occur is left unchanged. */
  lemma {:induction false} ReplaceWithoutOccurrence(s: string, pat: string, rep: string)
    requires |pat| > 0 && !OccursIn(s, pat)
    ensures Replace(s, pat, rep) == s
    decreases |s|
  {
    if |s| >= |pat| {
      assert !OccursAt(s, pat, 0);
      OccursInTail(s, pat);
      ReplaceWithoutOccurrence(s[1..], pat, rep);
      assert [s[0]] + s[1..] == s;
    }
  }

  /** Replacing every occurrence of a single character by a text without
      that character leaves none of it. */
  lemma {:induction false} ReplaceRemovesChar(s: string, c: char, rep: string)
    requires c !in rep
    ensures c !in Replace(s, [c], rep)
    decreases |s|
  {
    if s != [] {
      ReplaceRemovesChar(s[1..], c, rep);
    }
  }

  /** `Replace` introduces no character that neither the text nor the
      replacement contains. */
  lemma {:induction false} ReplaceKeepsAbsent(s: string, pat: string, rep: string, c: char)
    requires |pat| > 0 && c !in s && c !in rep
    ensures c !in Replace(s, pat, rep)
    decreases |s|
  {
    if |s| >= |pat| {
      if s[..|pat|] == pat {
        assert forall x :: x in s[|pat|..] ==> x in s;
        ReplaceKeepsAbsent(s[|pat|..], pat, rep, c);
      } else {
        assert forall x :: x in s[1..] ==> x in s;
        ReplaceKeepsAbsent(s[1..], pat, rep, c);
      }
    }
  }

  /** A prefix that cannot start an occurrence of `pat` passes through
      `Replace` untouched. */
  lemma {:induction false} ReplaceSkips(x: string, z: string, pat: string, rep: string)
    requires |pat| > 0 && pat[0] !in x
    ensures Replace(x + z, pat, rep) == x + Replace(z, pat, rep)
    decreases |x|
  {
    if x == [] {
      assert x + z == z;
    } else {
      assert pat[0] !in x[1..];
      ReplaceSkips(x[1..], z, pat, rep);
      ReplaceSkipsStep(x, z, pat, rep);
    }
  }

  /** The step of `ReplaceSkips`: if the rest of the prefix passes through,
      so does the whole prefix. */
  lemma ReplaceSkipsStep(x: string, z: string, pat: string, rep: string)
    requires |pat| > 0 && x != [] && x[0] != pat[0]
    requires Replace(x[1..] + z, pat, rep) == x[1..] + Replace(z, pat, rep)
    ensures Replace(x + z, pat, rep) == x + Replace(z, pat, rep)
  {
    assert x + z == [x[0]] + (x[1..] + z);
    ReplaceStep(x[0], x[1..] + z, pat, rep);
    assert [x[0]] + (x[1..] + Replace(z, pat, rep)) == x + Replace(z, pat, rep);
  }

  /** A character that cannot start an occurrence of `pat` is copied. */
  lemma ReplaceStep(c: char, w: string, pat: string, rep: string)
    requires |pat| > 0 && c != pat[0]
    ensures Replace([c] + w, pat, rep) == [c] + Replace(w, pat, rep)
  {
    var s := [c] + w;
    assert s[1..] == w;
    if |s| >= |pat| {
      assert s[..|pat|][0] == c;
    } else {
      assert Replace(w, pat, rep) == w;
    }
  }

  /** A front that is not an occurrence of `pat` keeps its first character. */
  lemma ReplaceMissesFront(s: string, pat: string, rep: string)
    requires |pat| > 0 && s != []
    requires |s| < |pat| || s[..|pat|] != pat
    ensures Replace(s, pat, rep) == [s[0]] + Replace(s[1..], pat, rep)
  {
    if |s| < |pat| {
      assert Replace(s[1..], pat, rep) == s[1..];
      assert [s[0]] + s[1..] == s;
    }
  }

  /** An occurrence of `pat` at the front is replaced by `rep`. */
  lemma ReplaceHits(z: string, pat: string, rep: string)
    requires |pat| > 0
    ensures Replace(pat + z, pat, rep) == rep + Replace(z, pat, rep)
  {
    assert (pat + z)[..|pat|] == pat;
    assert (pat + z)[|pat|..] == z;
  }

  /** A string that does not contain the first character of `pat` is left
      unchanged by `Replace`. */
  lemma ReplaceAbsent(s: string, pat: string, rep: string)
    requires |pat| > 0 && pat[0] !in s
    ensures Replace(s, pat, rep) == s
  {
    ReplaceSkips(s, [], pat, rep);
    assert s + [] == s;
  }

  /** Python's `s.lstrip()`: the suffix of `s` left after removing leading
      whitespace. */
  function TrimStart(s: string): (r: string)
    ensures |r| <= |s| && r == s[|s| - |r|..]
    ensures forall i :: 0 <= i < |s| - |r| ==> IsSpace(s[i])
    ensures r == [] || !IsSpace(r[0])
    decreases |s|
  {
    if s != [] && IsSpace(s[0]) then TrimStart(s[1..]) else s
  }

  /** Python's `s.rstrip()`: the prefix of `s` left after removing trailing
      whitespace. */
  function TrimEnd(s: string): (r: string)
    ensures |r| <= |s| && r == s[..|r|]
    ensures forall i :: |r| <= i < |s| ==> IsSpace(s[i])
    ensures r == [] || !IsSpace(r[|r| - 1])
    decreases |s|
  {
    if s != [] && IsSpace(s[|s| - 1]) then TrimEnd(s[..|s| - 1]) else s
  }

  /** Neither the first nor the last character is whitespace. */
  ghost predicate Stripped(s: string)
  {
    s == [] || (!IsSpace(s[0]) && !IsSpace(s[|s| - 1]))
  }

  /** `r` is the slice `s[a..a + |r|]` and everything outside it is
      whitespace. */
  ghost predicate SpaceMargins(s: string, r: string, a: int)
  {
    && 0 <= a <= a + |r| <= |s|
    && r == s[a..a + |r|]
    && (forall i :: 0 <= i < a ==> IsSpace(s[i]))
    && (forall i :: a + |r| <= i < |s| ==> IsSpace(s[i]))
  }

  /** Cutting a whitespace prefix off `s` and then a whitespace suffix off
      the rest leaves a slice of `s` with whitespace margins. */
  lemma MarginsCompose(s: string, left: string, r: string)
    requires |left| <= |s| && left == s[|s| - |left|..]
    requires forall i :: 0 <= i < |s| - |left| ==> IsSpace(s[i])
    requires |r| <= |left| && r == left[..|r|]
    requires forall i :: |r| <= i < |left| ==> IsSpace(left[i])
    ensures SpaceMargins(s, r, |s| - |left|)
  {
    var a := |s| - |left|;
    forall i | a + |r| <= i < |s| ensures IsSpace(s[i]) {
      assert s[i] == left[i - a];
    }
  }

  /** Python's `s.strip()`: `s` with its leading and trailing whitespace
      removed and nothing else changed. */
  function Strip(s: string): (r: string)
    ensures Stripped(r)
    ensures exists a :: SpaceMargins(s, r, a)
  {
    var left := TrimStart(s);
    var r := TrimEnd(left);
    MarginsCompose(s, left, r);
    assert r == [] || r[0] == left[0];
    r
  }

  /** Stripping a string without leading or trailing whitespace changes
      nothing; in particular `Strip` is idempotent. */
  lemma StripStripped(s: string)
    requires Stripped(s)
    ensures Strip(s) == s
  {
    assert TrimStart(s) == s;
  }

  /** Python's `re.sub(r'[...]', '', s)` for a character class `drop`: the
      characters of `s` that are not in the class, in their original order. */
  function RemoveAll(s: string, drop: char -> bool): (r: string)
    ensures forall i :: 0 <= i < |r| ==> !drop(r[i])
    ensures (forall i :: 0 <= i < |s| ==> !drop(s[i])) ==> r == s
    decreases |s|
  {
    if s == [] then []
    else if drop(s[0]) then RemoveAll(s[1..], drop)
    else [s[0]] + RemoveAll(s[1..], drop)
  }

  /** `RemoveAll` deletes exactly the characters of the class: every other
      character keeps its number of occurrences. */
  lemma {:induction false} RemoveAllCounts(s: string, drop: char -> bool, c: char)
    ensures multiset(RemoveAll(s, drop))[c] == if drop(c) then 0 else multiset(s)[c]
    decreases |s|
  {
    if s != [] {
      assert s == [s[0]] + s[1..];
      RemoveAllCounts(s[1..], drop, c);
    }
  }

  /** Deleting a character class distributes over concatenation. */
  lemma {:induction false} RemoveAllAppend(x: string, y: string, drop: char -> bool)
    ensures RemoveAll(x + y, drop) == RemoveAll(x, drop) + RemoveAll(y, drop)
    decreases |x|
  {
    if x == [] {
      assert x + y == y;
    } else {
      var s := x + y;
      assert s[0] == x[0];
      assert s[1..] == x[1..] + y;
      RemoveAllAppend(x[1..], y, drop);
      if drop(x[0]) {
        assert RemoveAll(s, drop) == RemoveAll(s[1..], drop);
        assert RemoveAll(x, drop) == RemoveAll(x[1..], drop);
      } else {
        assert RemoveAll(s, drop) == [x[0]] + RemoveAll(s[1..], drop);
        assert RemoveAll(x, drop) == [x[0]] + RemoveAll(x[1..], drop);
      }
    }
  }
}
