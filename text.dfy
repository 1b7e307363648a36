/**
 * Character classes and the string library calls the pipeline relies on:
 * `str.isspace`/`\s`, `\w`, `str.strip`, `str.split` with one separator,
 * `str.join`, slicing to a prefix, substring search, and the
 * `re.findall(r'#(\w+)', s)` hashtag scan.
 */
module Text {
  import opened Wrappers

  /** Python's `str.isspace`, which is also the set `\s` matches in a str pattern. */
  predicate IsSpace(c: char) {
    || ('\t' <= c <= '\r')
    || ('\U{1C}' <= c <= '\U{1F}')
    || c == ' ' || c == '\U{85}' || c == '\U{A0}' || c == '\U{1680}'
    || ('\U{2000}' <= c <= '\U{200A}')
    || c == '\U{2028}' || c == '\U{2029}' || c == '\U{202F}' || c == '\U{205F}' || c == '\U{3000}'
  }

  /** `\w`, restricted to ASCII letters, digits and underscore. */
  predicate IsWordChar(c: char) {
    ('a' <= c <= 'z') || ('A' <= c <= 'Z') || ('0' <= c <= '9') || c == '_'
  }

  lemma WordCharIsNotSpace(c: char)
    requires IsWordChar(c)
    ensures !IsSpace(c)
  {
  }

  /** Every character of s[lo..hi] is white space. */
  predicate AllSpace(s: string, lo: int, hi: int) {
    0 <= lo <= hi <= |s| && forall k :: lo <= k < hi ==> IsSpace(s[k])
  }

  /** Every character of s[lo..hi] is a word character. */
  predicate AllWord(s: string, lo: int, hi: int) {
    0 <= lo <= hi <= |s| && forall k :: lo <= k < hi ==> IsWordChar(s[k])
  }

  /** The end of the longest run of white space starting at `from` (what a greedy `\s*` consumes). */
  function SkipSpace(s: string, from: nat): (p: nat)
    requires from <= |s|
    ensures AllSpace(s, from, p)
    ensures p == |s| || !IsSpace(s[p])
    decreases |s| - from
  {
    if from == |s| || !IsSpace(s[from]) then from else SkipSpace(s, from + 1)
  }

  /** The end of the longest run of word characters starting at `from` (what a greedy `\w*` consumes). */
  function SkipWord(s: string, from: nat): (p: nat)
    requires from <= |s|
    ensures AllWord(s, from, p)
    ensures p == |s| || !IsWordChar(s[p])
    decreases |s| - from
  {
    if from == |s| || !IsWordChar(s[from]) then from else SkipWord(s, from + 1)
  }

  /** The start of the longest run of white space that ends at `hi` and does not reach below `low`. */
  function SkipSpaceBack(s: string, low: nat, hi: nat): (e: nat)
    requires low <= hi <= |s|
    ensures low <= e && AllSpace(s, e, hi)
    ensures e == low || !IsSpace(s[e - 1])
    decreases hi
  {
    if hi == low || !IsSpace(s[hi - 1]) then hi else SkipSpaceBack(s, low, hi - 1)
  }

  /** A greedy run of white space is determined by where it starts: it ends at the first non-space. */
  lemma SpaceRunEnd(s: string, lo: int, hi: int)
    requires AllSpace(s, lo, hi) && (hi == |s| || !IsSpace(s[hi]))
    ensures SkipSpace(s, lo) == hi
  {
  }

  /** Likewise for a run of word characters. */
  lemma WordRunEnd(s: string, lo: int, hi: int)
    requires AllWord(s, lo, hi) && (hi == |s| || !IsWordChar(s[hi]))
    ensures SkipWord(s, lo) == hi
  {
  }

  predicate OccursAt(s: string, pat: string, k: int) {
    0 <= k && k + |pat| <= |s| && s[k..k + |pat|] == pat
  }

  /** An occurrence begins with the pattern's first character. */
  lemma OccursAtStart(s: string, pat: string, k: int)
    ensures OccursAt(s, pat, k) && |pat| > 0 ==> s[k] == pat[0]
  {
    if OccursAt(s, pat, k) && |pat| > 0 {
      assert s[k..k + |pat|][0] == s[k];
    }
  }

  /** `s.find(pat, from)`: the first occurrence of `pat` at or after `from`. */
  function IndexOf(s: string, pat: string, from: nat): (r: Option<nat>)
    ensures r.Some? ==> from <= r.value && OccursAt(s, pat, r.value)
    ensures r.Some? ==> forall k :: from <= k < r.value ==> !OccursAt(s, pat, k)
    ensures r.None? ==> forall k :: from <= k ==> !OccursAt(s, pat, k)
    decreases |s| - from
  {
    if from + |pat| > |s| then None
    else if s[from..from + |pat|] == pat then Some(from)
    else IndexOf(s, pat, from + 1)
  }

  /** `s.strip()`: drop leading and trailing white space. */
  function Strip(s: string): (r: string)
    ensures r == [] || (!IsSpace(r[0]) && !IsSpace(r[|r| - 1]))
    ensures exists a, b :: 0 <= a <= b <= |s| && r == s[a..b] && AllSpace(s, 0, a) && AllSpace(s, b, |s|)
  {
    var a := SkipSpace(s, 0);
    var b := SkipSpaceBack(s, a, |s|);
    assert AllSpace(s, b, |s|);
    s[a..b]
  }

  /** A string with no white space at either end is its own strip. */
  lemma StripStripped(s: string)
    requires s == [] || (!IsSpace(s[0]) && !IsSpace(s[|s| - 1]))
    ensures Strip(s) == s
  {
  }

  /** `s.strip()` is empty exactly when `s` is all white space. */
  lemma StripEmpty(s: string)
    ensures Strip(s) == [] <==> AllSpace(s, 0, |s|)
  {
  }

  /** `sep.join(parts)`. */
  function Join(parts: seq<string>, sep: string): string
  {
    if |parts| == 0 then ""
    else if |parts| == 1 then parts[0]
    else parts[0] + sep + Join(parts[1..], sep)
  }

  /** `s.split(sep)` for a one-character separator: the fields between separators, empty ones included. */
  function Split(s: string, sep: char): (parts: seq<string>)
    ensures |parts| >= 1
    ensures forall i :: 0 <= i < |parts| ==> sep !in parts[i]
    ensures Join(parts, [sep]) == s
    decreases |s|
  {
    if |s| == 0 then [""]
    else
      var rest := Split(s[1..], sep);
      if s[0] == sep then
        [""] + rest
      else
        JoinConsHead(s[0], rest, [sep]);
        [[s[0]] + rest[0]] + rest[1..]
  }

  lemma JoinConsHead(c: char, parts: seq<string>, sep: string)
    requires |parts| >= 1
    ensures Join([[c] + parts[0]] + parts[1..], sep) == [c] + Join(parts, sep)
  {
    var q := [[c] + parts[0]] + parts[1..];
    assert q[1..] == parts[1..];
  }

  /** The first field of a split is the text up to the first separator, or all of it. */
  lemma SplitHead(s: string, sep: char)
    ensures Split(s, sep)[0] <= s
    ensures |Split(s, sep)[0]| < |s| ==> s[|Split(s, sep)[0]|] == sep
    decreases |s|
  {
    if |s| > 0 && s[0] != sep {
      SplitHead(s[1..], sep);
    }
  }

  /** Splitting a join recovers the fields, when no field holds the separator. */
  lemma {:induction false} SplitJoin(parts: seq<string>, sep: char)
    requires |parts| >= 1
    requires forall i :: 0 <= i < |parts| ==> sep !in parts[i]
    ensures Split(Join(parts, [sep]), sep) == parts
    decreases |parts|, |parts[0]|
  {
    if |parts[0]| == 0 {
      if |parts| > 1 {
        var s := Join(parts, [sep]);
        assert s == [sep] + Join(parts[1..], [sep]);
        assert s[1..] == Join(parts[1..], [sep]);
        SplitJoin(parts[1..], sep);
        assert parts == [""] + parts[1..];
      }
    } else {
      var p0 := parts[0];
      var tailParts := [p0[1..]] + parts[1..];
      assert tailParts[1..] == parts[1..];
      JoinConsHead(p0[0], tailParts, [sep]);
      assert [p0[0]] + tailParts[0] == p0;
      assert [[p0[0]] + tailParts[0]] + tailParts[1..] == parts;
      var s := Join(parts, [sep]);
      assert s == [p0[0]] + Join(tailParts, [sep]);
      assert s[1..] == Join(tailParts, [sep]);
      assert forall i :: 0 <= i < |tailParts| ==> sep !in tailParts[i] by {
        forall i | 0 <= i < |tailParts| ensures sep !in tailParts[i] {
          if i == 0 { assert forall c :: c in p0[1..] ==> c in p0; } else { assert tailParts[i] == parts[i]; }
        }
      }
      SplitJoin(tailParts, sep);
    }
  }

  /** `s[:n]`. */
  function Take(s: string, n: nat): (r: string)
    ensures |r| == if |s| < n then |s| else n
    ensures r <= s
  {
    if |s| < n then s else s[..n]
  }

  /** `re.findall(r'#(\w+)', s)`: the word after each `#`, scanning left to right without overlap. */
  function Hashtags(s: string): (tags: seq<string>)
    ensures forall i :: 0 <= i < |tags| ==> IsWord(tags[i])
    ensures tags == [] <==> forall k :: 0 <= k < |s| - 1 ==> !(s[k] == '#' && IsWordChar(s[k + 1]))
    decreases |s|
  {
    if |s| < 2 then []
    else if s[0] == '#' && IsWordChar(s[1]) then
      var e := SkipWord(s, 1);
      assert forall c :: c in s[1..e] ==> IsWordChar(c);
      [s[1..e]] + Hashtags(s[e..])
    else
      var rest := Hashtags(s[1..]);
      assert forall k :: 1 <= k < |s| - 1 ==> s[k] == s[1..][k - 1] && s[k + 1] == s[1..][k];
      rest
  }

  /** A word `\w+` matches: non-empty, all word characters. */
  predicate IsWord(w: string) {
    |w| > 0 && forall c :: c in w ==> IsWordChar(c)
  }

  /** `"#w1 #w2 ... #wn"`. */
  function HashtagText(words: seq<string>): string {
    if words == [] then ""
    else if |words| == 1 then "#" + words[0]
    else "#" + words[0] + " " + HashtagText(words[1..])
  }

  /** A `#` and a whole word at the front give that word as the first capture. */
  lemma HashtagsCons(w: string, t: string)
    requires IsWord(w) && (t == [] || !IsWordChar(t[0]))
    ensures Hashtags("#" + w + t) == [w] + Hashtags(t)
  {
    var s := "#" + w + t;
    assert s[1..1 + |w|] == w && s[1 + |w|..] == t;
    assert AllWord(s, 1, 1 + |w|) by {
      forall k | 1 <= k < 1 + |w| ensures IsWordChar(s[k]) {
        assert s[k] == w[k - 1];
      }
    }
    if t != [] {
      assert s[1 + |w|] == t[0];
    }
    WordRunEnd(s, 1, 1 + |w|);
  }

  /** A leading blank is skipped. */
  lemma HashtagsAfterSpace(t: string)
    ensures Hashtags(" " + t) == Hashtags(t)
  {
    if |" " + t| >= 2 {
      assert (" " + t)[1..] == t;
    }
  }

  /** `re.findall(r'#(\w+)', ...)` gives back, in order, the words of a hashtag list. */
  lemma {:induction false} HashtagsOfText(words: seq<string>)
    requires forall i :: 0 <= i < |words| ==> IsWord(words[i])
    ensures Hashtags(HashtagText(words)) == words
    decreases |words|
  {
    if |words| == 1 {
      HashtagsCons(words[0], "");
      assert "#" + words[0] + "" == HashtagText(words);
    } else if |words| > 1 {
      var rest := HashtagText(words[1..]);
      HashtagsCons(words[0], " " + rest);
      assert "#" + words[0] + (" " + rest) == HashtagText(words);
      HashtagsAfterSpace(rest);
      HashtagsOfText(words[1..]);
    }
  }
}
