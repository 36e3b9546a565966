/** The three Python string operations the persona router is built from:
    `str.lower()`, `str.strip()` and the substring test `kw in text`.
    Strings are sequences of Unicode scalar values; Python's `str` can also hold lone
    surrogates (a JSON body may carry them), which a Dafny `char` cannot. */
module Text {

  /** Whitespace as Python's `str.isspace` defines it; `str.strip()` with no
      argument removes exactly these characters from both ends. */
  predicate IsSpace(c: char) {
    || '\t' <= c <= '\r'
    || '\U{1C}' <= c <= ' '
    || c == '\U{85}' || c == '\U{A0}' || c == '\U{1680}'
    || '\U{2000}' <= c <= '\U{200A}'
    || c == '\U{2028}' || c == '\U{2029}' || c == '\U{202F}' || c == '\U{205F}' || c == '\U{3000}'
  }

  predicate IsUpper(c: char) {
    'A' <= c <= 'Z'
  }

  /** No character of `s` is an upper-case letter. */
  predicate NoUpper(s: string) {
    forall i :: 0 <= i < |s| ==> !IsUpper(s[i])
  }

  predicate AllSpace(s: string) {
    forall i :: 0 <= i < |s| ==> IsSpace(s[i])
  }

  /** Lower-casing of one character (ASCII letters only). */
  function LowerChar(c: char): (r: char)
    ensures !IsUpper(r)
    ensures IsUpper(c) ==> r as int == c as int - 'A' as int + 'a' as int
    ensures IsSpace(r) == IsSpace(c)
    ensures !IsUpper(c) ==> r == c
  {
    if IsUpper(c) then (c as int - 'A' as int + 'a' as int) as char else c
  }

  /** `s.lower()`, restricted to ASCII letters. */
  function Lower(s: string): (r: string)
    ensures |r| == |s| && NoUpper(r)
    ensures forall i :: 0 <= i < |s| ==> r[i] == LowerChar(s[i])
  {
    seq(|s|, i requires 0 <= i < |s| => LowerChar(s[i]))
  }

  /** `s.lstrip()`: the longest suffix of `s` that does not start with whitespace. */
  function TrimStart(s: string): (r: string)
    ensures |r| <= |s| && r == s[|s| - |r|..]
    ensures AllSpace(s[..|s| - |r|])
    ensures r == [] || !IsSpace(r[0])
    decreases |s|
  {
    if |s| > 0 && IsSpace(s[0]) then
      var r := TrimStart(s[1..]);
      BlankPrefixExtends(s, r);
      r
    else s
  }

  /** `s.rstrip()`: the longest prefix of `s` that does not end with whitespace. */
  function TrimEnd(s: string): (r: string)
    ensures |r| <= |s| && r == s[..|r|]
    ensures AllSpace(s[|r|..])
    ensures r == [] || !IsSpace(r[|r| - 1])
    decreases |s|
  {
    if |s| > 0 && IsSpace(s[|s| - 1]) then
      var r := TrimEnd(s[..|s| - 1]);
      BlankSuffixExtends(s, r);
      r
    else s
  }

  /** A suffix of `s[1..]` behind a blank prefix is one of `s` when `s[0]` is blank. */
  lemma BlankPrefixExtends(s: string, r: string)
    requires |s| > 0 && IsSpace(s[0])
    requires |r| <= |s| - 1 && r == s[1..][|s| - 1 - |r|..] && AllSpace(s[1..][..|s| - 1 - |r|])
    ensures r == s[|s| - |r|..] && AllSpace(s[..|s| - |r|])
  {
    assert s[..|s| - |r|] == [s[0]] + s[1..][..|s| - 1 - |r|];
  }

  /** A prefix of `s[..|s| - 1]` before a blank suffix is one of `s` when `s`'s last
      character is blank. */
  lemma BlankSuffixExtends(s: string, r: string)
    requires |s| > 0 && IsSpace(s[|s| - 1])
    requires |r| <= |s| - 1 && r == s[..|s| - 1][..|r|] && AllSpace(s[..|s| - 1][|r|..])
    ensures r == s[..|r|] && AllSpace(s[|r|..])
  {
    assert s[|r|..] == s[..|s| - 1][|r|..] + [s[|s| - 1]];
  }

  /** `r` is `s` with the whitespace runs `s[..lo]` and `s[lo + |r|..]` cut off. */
  predicate Unpadded(s: string, lo: int, r: string) {
    && 0 <= lo <= |s| - |r|
    && s[lo..lo + |r|] == r
    && AllSpace(s[..lo])
    && AllSpace(s[lo + |r|..])
  }

  /** `s.strip()`. */
  function Strip(s: string): (r: string)
    ensures exists lo :: Unpadded(s, lo, r)
    ensures r == [] || (!IsSpace(r[0]) && !IsSpace(r[|r| - 1]))
  {
    TrimsUnpad(s);
    TrimEnd(TrimStart(s))
  }

  /** `lstrip` then `rstrip` cuts a whitespace run from each end and nothing else. */
  lemma TrimsUnpad(s: string)
    ensures Unpadded(s, |s| - |TrimStart(s)|, TrimEnd(TrimStart(s)))
  {
    UnpadOfParts(s, TrimStart(s), TrimEnd(TrimStart(s)));
  }

  /** Cutting a blank prefix, then a blank suffix of what is left, unpads `s`. */
  lemma UnpadOfParts(s: string, t: string, r: string)
    requires |t| <= |s| && t == s[|s| - |t|..] && AllSpace(s[..|s| - |t|])
    requires |r| <= |t| && r == t[..|r|] && AllSpace(t[|r|..])
    ensures Unpadded(s, |s| - |t|, r)
  {
    var lo := |s| - |t|;
    assert s[lo..lo + |r|] == s[lo..][..|r|];
    assert s[lo + |r|..] == t[|r|..];
  }

  /** The text the router inspects: `user_input.lower().strip()`. */
  function Normalize(s: string): (r: string)
    ensures NoUpper(r)
    ensures r == [] || (!IsSpace(r[0]) && !IsSpace(r[|r| - 1]))
    ensures |r| <= |s|
  {
    Strip(Lower(s))
  }

  /** `kw` occurs in `text` starting at index `i`. */
  predicate OccursAt(text: string, kw: string, i: int) {
    0 <= i <= |text| - |kw| && text[i..i + |kw|] == kw
  }

  /** Python's `kw in text` on strings. */
  predicate Contains(text: string, kw: string): (b: bool)
    ensures kw == [] ==> b
    ensures b ==> |kw| <= |text|
  {
    assert kw == [] ==> OccursAt(text, kw, 0);
    exists i | 0 <= i <= |text| - |kw| :: OccursAt(text, kw, i)
  }

  /** Python's `any(w in text for w in words)`. */
  predicate AnyIn(text: string, words: seq<string>): (b: bool)
    ensures words == [] ==> !b
    ensures |words| == 1 ==> (b <==> Contains(text, words[0]))
  {
    exists k | 0 <= k < |words| :: Contains(text, words[k])
  }

  // ---------------------------------------------------------------------------
  // Lemmas about lower-casing and stripping

  lemma LowerOfLowerCase(s: string)
    requires NoUpper(s)
    ensures Lower(s) == s
  {
  }

  lemma {:induction false} LowerAppend(a: string, b: string)
    ensures Lower(a + b) == Lower(a) + Lower(b)
  {
    assert |Lower(a + b)| == |Lower(a) + Lower(b)|;
    forall i | 0 <= i < |a + b| ensures Lower(a + b)[i] == (Lower(a) + Lower(b))[i] {
      if i < |a| {
        assert (a + b)[i] == a[i];
      } else {
        assert (a + b)[i] == b[i - |a|];
      }
    }
  }

  lemma LowerKeepsSpace(s: string)
    requires AllSpace(s)
    ensures Lower(s) == s
  {
  }

  /** Leading whitespace makes no difference to `lstrip`. */
  lemma {:induction false} TrimStartSkipsSpace(w: string, s: string)
    requires AllSpace(w)
    ensures TrimStart(w + s) == TrimStart(s)
    decreases |w|
  {
    if w != [] {
      assert (w + s)[1..] == w[1..] + s;
      TrimStartSkipsSpace(w[1..], s);
    } else {
      assert w + s == s;
    }
  }

  /** Trailing whitespace makes no difference to `rstrip`. */
  lemma {:induction false} TrimEndSkipsSpace(s: string, w: string)
    requires AllSpace(w)
    ensures TrimEnd(s + w) == TrimEnd(s)
    decreases |w|
  {
    if w != [] {
      assert (s + w)[..|s + w| - 1] == s + w[..|w| - 1];
      TrimEndSkipsSpace(s, w[..|w| - 1]);
    } else {
      assert s + w == s;
    }
  }

  /** `lstrip` keeps trailing text: `(s + w).lstrip() == s.lstrip() + w` unless `s` is blank. */
  lemma {:induction false} TrimStartAppend(s: string, w: string)
    requires !AllSpace(s)
    ensures TrimStart(s + w) == TrimStart(s) + w
    decreases |s|
  {
    if IsSpace(s[0]) {
      assert (s + w)[1..] == s[1..] + w;
      assert !AllSpace(s[1..]) by {
        var i :| 0 <= i < |s| && !IsSpace(s[i]);
        assert s[1..][i - 1] == s[i];
      }
      TrimStartAppend(s[1..], w);
    }
  }

  lemma {:induction false} TrimStartOfBlank(s: string)
    requires AllSpace(s)
    ensures TrimStart(s) == []
    decreases |s|
  {
    if s != [] {
      TrimStartOfBlank(s[1..]);
    }
  }

  /** Whitespace on either side of the text is invisible to `strip`. */
  lemma StripIgnoresPadding(w1: string, s: string, w2: string)
    requires AllSpace(w1) && AllSpace(w2)
    ensures Strip(w1 + s + w2) == Strip(s)
  {
    assert w1 + s + w2 == w1 + (s + w2);
    TrimStartSkipsSpace(w1, s + w2);
    TrimsIgnoreTrailingSpace(s, w2);
    assert Strip(w1 + s + w2) == TrimEnd(TrimStart(s + w2));
  }

  /** Trailing whitespace is invisible to `lstrip` followed by `rstrip`. */
  lemma TrimsIgnoreTrailingSpace(s: string, w: string)
    requires AllSpace(w)
    ensures TrimEnd(TrimStart(s + w)) == TrimEnd(TrimStart(s))
  {
    if AllSpace(s) {
      assert AllSpace(s + w);
      TrimStartOfBlank(s + w);
      TrimStartOfBlank(s);
    } else {
      TrimStartAppend(s, w);
      TrimEndSkipsSpace(TrimStart(s), w);
    }
  }

  /** A blank string strips to the empty string. */
  lemma StripOfBlank(s: string)
    requires AllSpace(s)
    ensures Strip(s) == []
  {
    TrimStartOfBlank(s);
  }

  /** Normalizing twice is normalizing once. */
  lemma NormalizeIdempotent(s: string)
    ensures Normalize(Normalize(s)) == Normalize(s)
  {
    LowerOfLowerCase(Normalize(s));
  }

  /** Whitespace around the text does not change its normal form:
      `(w1 + s + w2).lower().strip() == s.lower().strip()`. */
  lemma NormalizeIgnoresPadding(w1: string, s: string, w2: string)
    requires AllSpace(w1) && AllSpace(w2)
    ensures Normalize(w1 + s + w2) == Normalize(s)
  {
    LowerAppend(w1 + s, w2);
    LowerAppend(w1, s);
    LowerKeepsSpace(w1);
    LowerKeepsSpace(w2);
    StripIgnoresPadding(w1, Lower(s), w2);
  }

  /** Text without capitals or surrounding whitespace is its own normal form. */
  lemma NormalOfNormal(s: string)
    requires NoUpper(s)
    requires s == [] || (!IsSpace(s[0]) && !IsSpace(s[|s| - 1]))
    ensures Normalize(s) == s
  {
    LowerOfLowerCase(s);
  }

  /** Lower-casing the input first changes nothing. */
  lemma NormalizeIgnoresCase(s: string)
    ensures Normalize(Lower(s)) == Normalize(s)
  {
    LowerOfLowerCase(Lower(s));
  }

  // ---------------------------------------------------------------------------
  // Lemmas about substring containment

  /** An occurrence of `kw` carries every character of `kw` into `text`. */
  lemma {:induction false} OccursAtChars(text: string, kw: string, i: int, j: int)
    requires OccursAt(text, kw, i) && 0 <= j < |kw|
    ensures text[i + j] == kw[j]
  {
    assert text[i..i + |kw|][j] == text[i + j];
  }

  /** A keyword is not contained in a text that lacks one of its characters. */
  lemma AbsentChar(text: string, kw: string, c: char)
    requires c in kw && c !in text
    ensures !Contains(text, kw)
  {
    forall i | OccursAt(text, kw, i) ensures false {
    }
  }

  /** No keyword is contained in a text that lacks one of the keyword's characters.
      `absent[k]` names such a character for `words[k]`. */
  lemma NoneOccur(text: string, words: seq<string>, absent: seq<char>)
    requires |absent| == |words|
    requires forall k :: 0 <= k < |words| ==> absent[k] in words[k] && absent[k] !in text
    ensures !AnyIn(text, words)
  {
    forall k, i | 0 <= k < |words| && OccursAt(text, words[k], i) ensures false {
    }
  }

  /** An occurrence of `kw` that does not contain `sep` lies wholly on one side of it. */
  lemma {:induction false} SplitAtSeparator(a: string, sep: char, b: string, kw: string)
    requires sep !in kw
    requires Contains(a + [sep] + b, kw)
    ensures Contains(a, kw) || Contains(b, kw)
  {
    var t := a + [sep] + b;
    var i :| 0 <= i <= |t| - |kw| && OccursAt(t, kw, i);
    if i + |kw| <= |a| {
      assert t[i..i + |kw|] == a[i..i + |kw|];
      assert OccursAt(a, kw, i);
    } else if i > |a| {
      assert t[i..i + |kw|] == b[i - |a| - 1..i - |a| - 1 + |kw|];
      assert OccursAt(b, kw, i - |a| - 1);
    } else {
      OccursAtChars(t, kw, i, |a| - i);
      assert false;
    }
  }

  /** `any(w in text for w in words)` holds exactly when some member of `words` is
      `in` the text. */
  lemma AnyInByMembership(text: string, words: seq<string>)
    ensures AnyIn(text, words) <==> exists w :: w in words && Contains(text, w)
  {
    if AnyIn(text, words) {
      var k :| 0 <= k < |words| && Contains(text, words[k]);
      assert words[k] in words;
    }
  }

  /** A keyword is never contained in the empty string. */
  lemma EmptyContainsNothing(words: seq<string>)
    requires forall k :: 0 <= k < |words| ==> words[k] != []
    ensures !AnyIn([], words)
  {
  }
}
