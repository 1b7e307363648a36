/**
 * Locating and repairing the JSON text inside a language-model reply
 * (task_prioritizer.py, lines 72-95 and 185-208):
 *   1. the body of the first fenced block, ```` ```(?:json)?\s*([\s\S]*?)\s*``` ````, stripped;
 *   2. otherwise the first array of objects, `\[\s*{[\s\S]*}\s*\]`;
 *   3. otherwise the whole reply.
 * The candidate is decoded strictly; if that fails, the repair pass
 * (every `'` becomes `"`, then `([{,])\s*(\w+)\s*:` becomes `\1"\2":`)
 * is applied and decoding is tried once more.
 */
module Extraction {
  import opened Wrappers
  import opened Text
  import opened JsonValue

  const Fence: string := "```"

  // ---------------------------------------------------------------------------
  // The fenced block
  // ---------------------------------------------------------------------------

  /** Positions of a match of the fence pattern: opening fence, group 1, closing fence. */
  datatype FenceMatch = FenceMatch(open: nat, bodyStart: nat, bodyEnd: nat, close: nat)

  /** `f` is a way the fence pattern can match `s`. */
  predicate IsFenceAt(s: string, f: FenceMatch) {
    && OccursAt(s, Fence, f.open)
    && OccursAt(s, Fence, f.close)
    && f.open + 3 <= f.bodyStart <= f.bodyEnd <= f.close
    && (AllSpace(s, f.open + 3, f.bodyStart) || (OccursAt(s, "json", f.open + 3) && AllSpace(s, f.open + 7, f.bodyStart)))
    && AllSpace(s, f.bodyEnd, f.close)
  }

  /**
   * The match `re.search` picks among those starting at `f.open`: the
   * optional `json` is taken when present, `\s*` is greedy, and the lazy
   * group stops before the first closing fence and gives its trailing
   * white space back to the second `\s*`.
   */
  predicate IsSearchFence(s: string, f: FenceMatch) {
    && IsFenceAt(s, f)
    && (OccursAt(s, "json", f.open + 3) ==> f.open + 7 <= f.bodyStart)
    && (f.bodyStart == |s| || !IsSpace(s[f.bodyStart]))
    && (forall k :: f.bodyStart <= k < f.close ==> !OccursAt(s, Fence, k))
    && (f.bodyEnd == f.bodyStart || !IsSpace(s[f.bodyEnd - 1]))
  }

  /** `re.search` with the fence pattern: the leftmost match, taken as described above. */
  function FindFence(s: string): (r: Option<FenceMatch>)
    ensures r.Some? ==> IsSearchFence(s, r.value)
    ensures r.Some? ==> forall f :: IsFenceAt(s, f) ==> r.value.open <= f.open
    ensures r.None? ==> forall f :: !IsFenceAt(s, f)
  {
    match IndexOf(s, Fence, 0)
    case None => None
    case Some(i) =>
      var q := if OccursAt(s, "json", i + 3) then i + 7 else i + 3;
      var p := SkipSpace(s, q);
      NoFenceInOpening(s, i, q, p);
      match IndexOf(s, Fence, p)
      case None => None
      case Some(c) =>
        var e := SkipSpaceBack(s, p, c);
        FenceFound(s, i, q, p, e, c);
        Some(FenceMatch(i, p, e, c))
  }

  /** The first fence, the skipped opening, the next fence and the trimmed end make the match `re.search` picks. */
  lemma FenceFound(s: string, i: nat, q: nat, p: nat, e: nat, c: nat)
    requires OccursAt(s, Fence, i) && OccursAt(s, Fence, c)
    requires q == (if OccursAt(s, "json", i + 3) then i + 7 else i + 3)
    requires q <= |s| && p == SkipSpace(s, q)
    requires p <= c && e == SkipSpaceBack(s, p, c)
    requires forall k :: p <= k < c ==> !OccursAt(s, Fence, k)
    ensures IsSearchFence(s, FenceMatch(i, p, e, c))
  {
  }

  /** Between the opening fence and the start of the body there is only `json` and white space, so no backtick. */
  lemma NoFenceInOpening(s: string, i: nat, q: nat, p: nat)
    requires OccursAt(s, Fence, i)
    requires q == (if OccursAt(s, "json", i + 3) then i + 7 else i + 3)
    requires q <= |s| && p == SkipSpace(s, q)
    ensures forall k :: i + 3 <= k < p ==> !OccursAt(s, Fence, k)
    ensures forall f :: IsFenceAt(s, f) && i <= f.open ==> p <= f.close
  {
    forall k | i + 3 <= k < p ensures s[k] != '`' {
      if k < q {
        assert s[i + 3..i + 7] == "json";
        assert s[k] == s[i + 3..i + 7][k - (i + 3)];
      } else {
        assert IsSpace(s[k]);
      }
    }
    forall k | i + 3 <= k < p ensures !OccursAt(s, Fence, k) {
      OccursAtStart(s, Fence, k);
    }
    forall f | IsFenceAt(s, f) && i <= f.open ensures p <= f.close {
      OccursAtStart(s, Fence, f.close);
    }
  }

  // ---------------------------------------------------------------------------
  // The bare array of objects
  // ---------------------------------------------------------------------------

  /** Positions of a match of `\[\s*{[\s\S]*}\s*\]`: the `[`, the `{`, the `}`, and one past the `]`. */
  datatype ArrayMatch = ArrayMatch(open: nat, brace: nat, closeBrace: nat, end: nat)

  /** `a` is a way the array pattern can match `s`. */
  predicate IsArrayAt(s: string, a: ArrayMatch) {
    && a.open < a.brace < a.closeBrace < a.end <= |s|
    && s[a.open] == '[' && AllSpace(s, a.open + 1, a.brace) && s[a.brace] == '{'
    && s[a.closeBrace] == '}' && AllSpace(s, a.closeBrace + 1, a.end - 1) && s[a.end - 1] == ']'
  }

  /** A `}` followed, after white space, by `]`. */
  predicate CloserAt(s: string, m: int) {
    0 <= m < |s| && s[m] == '}' && SkipSpace(s, m + 1) < |s| && s[SkipSpace(s, m + 1)] == ']'
  }

  /** A `[` followed, after white space, by a `{` that lies before `limit`. */
  predicate OpenerAt(s: string, i: int, limit: int) {
    0 <= i < |s| && s[i] == '[' && SkipSpace(s, i + 1) < |s| && SkipSpace(s, i + 1) < limit && s[SkipSpace(s, i + 1)] == '{'
  }

  /** The last closer below `hi`. */
  function LastCloser(s: string, hi: nat): (r: Option<nat>)
    requires hi <= |s|
    ensures r.Some? ==> r.value < hi && CloserAt(s, r.value) && forall k :: r.value < k < hi ==> !CloserAt(s, k)
    ensures r.None? ==> forall k :: 0 <= k < hi ==> !CloserAt(s, k)
    decreases hi
  {
    if hi == 0 then None
    else if CloserAt(s, hi - 1) then Some(hi - 1)
    else LastCloser(s, hi - 1)
  }

  /** The first opener at or after `from` whose `{` lies before `limit`. */
  function FirstOpener(s: string, from: nat, limit: nat): (r: Option<nat>)
    ensures r.Some? ==> from <= r.value && OpenerAt(s, r.value, limit) && forall k :: from <= k < r.value ==> !OpenerAt(s, k, limit)
    ensures r.None? ==> forall k :: from <= k ==> !OpenerAt(s, k, limit)
    decreases |s| - from
  {
    if from >= |s| then None
    else if OpenerAt(s, from, limit) then Some(from)
    else FirstOpener(s, from + 1, limit)
  }

  /** Every match decomposes into an opener and a closer. */
  lemma ArrayMatchParts(s: string, a: ArrayMatch)
    requires IsArrayAt(s, a)
    ensures SkipSpace(s, a.open + 1) == a.brace
    ensures SkipSpace(s, a.closeBrace + 1) == a.end - 1
    ensures CloserAt(s, a.closeBrace) && OpenerAt(s, a.open, a.closeBrace)
  {
    SpaceRunEnd(s, a.open + 1, a.brace);
    SpaceRunEnd(s, a.closeBrace + 1, a.end - 1);
  }

  /**
   * `re.search` with the array pattern: the leftmost match, and of the
   * matches there the longest, since `[\s\S]*` is greedy.
   */
  function FindArray(s: string): (r: Option<ArrayMatch>)
    ensures r.Some? ==> IsArrayAt(s, r.value)
    ensures r.Some? ==> forall a :: IsArrayAt(s, a) ==> r.value.open <= a.open && (a.open == r.value.open ==> a.end <= r.value.end)
    ensures r.None? ==> forall a :: !IsArrayAt(s, a)
  {
    match LastCloser(s, |s|)
    case None =>
      NoCloserNoArray(s);
      None
    case Some(m) =>
      match FirstOpener(s, 0, m)
      case None =>
        NoOpenerNoArray(s, m);
        None
      case Some(i) =>
        var r := ArrayMatch(i, SkipSpace(s, i + 1), m, SkipSpace(s, m + 1) + 1);
        ArrayFound(s, m, r);
        Some(r)
  }

  lemma NoCloserNoArray(s: string)
    requires forall k :: 0 <= k < |s| ==> !CloserAt(s, k)
    ensures forall a :: !IsArrayAt(s, a)
  {
    forall a | IsArrayAt(s, a) ensures false { ArrayMatchParts(s, a); }
  }

  lemma NoOpenerNoArray(s: string, m: nat)
    requires m < |s| && forall k :: m < k < |s| ==> !CloserAt(s, k)
    requires forall k :: 0 <= k ==> !OpenerAt(s, k, m)
    ensures forall a :: !IsArrayAt(s, a)
  {
    forall a | IsArrayAt(s, a) ensures false {
      ArrayMatchParts(s, a);
      assert OpenerAt(s, a.open, m);
    }
  }

  /** The first opener before the last closer, spanning to that closer, is the leftmost and longest match. */
  lemma ArrayFound(s: string, m: nat, r: ArrayMatch)
    requires CloserAt(s, m) && forall k :: m < k < |s| ==> !CloserAt(s, k)
    requires OpenerAt(s, r.open, m) && forall k :: 0 <= k < r.open ==> !OpenerAt(s, k, m)
    requires r == ArrayMatch(r.open, SkipSpace(s, r.open + 1), m, SkipSpace(s, m + 1) + 1)
    ensures IsArrayAt(s, r)
    ensures forall a :: IsArrayAt(s, a) ==> r.open <= a.open && (a.open == r.open ==> a.end <= r.end)
  {
    forall a | IsArrayAt(s, a) ensures r.open <= a.open && (a.open == r.open ==> a.end <= r.end) {
      ArrayMatchParts(s, a);
      assert OpenerAt(s, a.open, m);
      if a.closeBrace < m {
        assert s[m] != ']' && !IsSpace(s[m]);
      }
    }
  }

  // ---------------------------------------------------------------------------
  // The candidate text
  // ---------------------------------------------------------------------------

  /**
   * The text handed to the decoder (task_prioritizer.py, lines 72-80): the
   * fenced body (which the pattern already trimmed, so `.strip()` removes
   * nothing), else the array match, else the whole reply.
   */
  function Candidate(reply: string): (c: string)
    ensures FindFence(reply).Some? ==> c == reply[FindFence(reply).value.bodyStart..FindFence(reply).value.bodyEnd]
    ensures (forall f :: !IsFenceAt(reply, f)) && FindArray(reply).Some? ==>
      c == reply[FindArray(reply).value.open..FindArray(reply).value.end]
    ensures (forall f :: !IsFenceAt(reply, f)) && (forall a :: !IsArrayAt(reply, a)) ==> c == reply
  {
    match FindFence(reply)
    case Some(f) =>
      FencedBodyTrimmed(reply, f);
      Strip(reply[f.bodyStart..f.bodyEnd])
    case None =>
      match FindArray(reply)
      case Some(a) => reply[a.open..a.end]
      case None => reply
  }

  /** The group the fence pattern captures has no white space at either end. */
  lemma FencedBodyTrimmed(reply: string, f: FenceMatch)
    requires IsSearchFence(reply, f)
    ensures Strip(reply[f.bodyStart..f.bodyEnd]) == reply[f.bodyStart..f.bodyEnd]
  {
    var body := reply[f.bodyStart..f.bodyEnd];
    if body != [] {
      assert body[0] == reply[f.bodyStart];
      assert body[|body| - 1] == reply[f.bodyEnd - 1];
    }
    StripStripped(body);
  }

  // ---------------------------------------------------------------------------
  // The repair pass
  // ---------------------------------------------------------------------------

  /** `s.replace("'", '"')`. */
  function ReplaceQuotes(s: string): (r: string)
    ensures |r| == |s|
    ensures forall k :: 0 <= k < |s| ==> r[k] == (if s[k] == '\'' then '"' else s[k])
    ensures '\'' !in r
  {
    if s == [] then []
    else [if s[0] == '\'' then '"' else s[0]] + ReplaceQuotes(s[1..])
  }

  /** Where `([{,])\s*(\w+)\s*:` matches at a position: the word and the colon. */
  datatype KeyMatch = KeyMatch(wordStart: nat, wordEnd: nat, colon: nat)

  /** `k` is a way the key pattern can match `s` starting at `i`. */
  predicate IsKeyAt(s: string, i: int, k: KeyMatch) {
    && 0 <= i < |s| && (s[i] == '{' || s[i] == ',')
    && i + 1 <= k.wordStart < k.wordEnd <= k.colon < |s|
    && AllSpace(s, i + 1, k.wordStart) && AllWord(s, k.wordStart, k.wordEnd)
    && AllSpace(s, k.wordEnd, k.colon) && s[k.colon] == ':'
  }

  /** The match of the key pattern at `i`, if any; there is at most one. */
  function KeyAt(s: string, i: nat): (r: Option<KeyMatch>)
    requires i < |s|
    ensures r.Some? ==> IsKeyAt(s, i, r.value) && forall k :: IsKeyAt(s, i, k) ==> k == r.value
    ensures r.None? ==> forall k :: !IsKeyAt(s, i, k)
  {
    if !(s[i] == '{' || s[i] == ',') then None
    else
      var a := SkipSpace(s, i + 1);
      var b := SkipWord(s, a);
      var c := if b < |s| then SkipSpace(s, b) else b;
      assert forall k :: IsKeyAt(s, i, k) ==> k == KeyMatch(a, b, c) by {
        forall k | IsKeyAt(s, i, k) ensures k == KeyMatch(a, b, c) {
          WordCharIsNotSpace(s[k.wordStart]);
          SpaceRunEnd(s, i + 1, k.wordStart);
          assert !IsWordChar(s[k.wordEnd]) by {
            if k.wordEnd < k.colon { assert IsSpace(s[k.wordEnd]); }
          }
          WordRunEnd(s, k.wordStart, k.wordEnd);
          SpaceRunEnd(s, k.wordEnd, k.colon);
        }
      }
      if a < b && c < |s| && s[c] == ':' then Some(KeyMatch(a, b, c)) else None
  }

  /** What the substitution writes for position `i`: `\1"\2":` at a match, else the character itself. */
  function Emitted(s: string, i: nat): (r: string)
    requires i < |s|
    ensures '\'' !in s ==> '\'' !in r
  {
    match KeyAt(s, i)
    case Some(k) =>
      assert forall c :: c in s[k.wordStart..k.wordEnd] ==> c in s;
      [s[i]] + "\"" + s[k.wordStart..k.wordEnd] + "\":"
    case None => [s[i]]
  }

  /** Where the scan resumes after position `i`: past the colon of a match, else the next character. */
  function Resume(s: string, i: nat): (j: nat)
    requires i < |s|
    ensures i < j <= |s|
  {
    match KeyAt(s, i)
    case Some(k) => k.colon + 1
    case None => i + 1
  }

  /** `re.sub(r'([{,])\s*(\w+)\s*:', r'\1"\2":', s[i:])`: left to right, without overlap. */
  function QuoteKeysFrom(s: string, i: nat): string
    requires i <= |s|
    decreases |s| - i
  {
    if i == |s| then [] else Emitted(s, i) + QuoteKeysFrom(s, Resume(s, i))
  }

  /** There is a bare key somewhere in s[i..]. */
  ghost predicate HasBareKey(s: string, i: int) {
    exists j, k :: i <= j < |s| && IsKeyAt(s, j, k)
  }

  /** With no bare key to quote the key rewrite leaves its input unchanged. */
  lemma {:induction false} QuoteKeysNoKey(s: string, i: nat)
    requires i <= |s| && !HasBareKey(s, i)
    ensures QuoteKeysFrom(s, i) == s[i..]
    decreases |s| - i
  {
    if i < |s| {
      assert KeyAt(s, i).None?;
      QuoteKeysNoKey(s, i + 1);
      assert s[i..] == [s[i]] + s[i + 1..];
    }
  }

  /** The key rewrite only adds double quotes and colons: it never introduces a single quote. */
  lemma {:induction false} QuoteKeysNoSingleQuote(s: string, i: nat)
    requires i <= |s| && '\'' !in s
    ensures '\'' !in QuoteKeysFrom(s, i)
    decreases |s| - i
  {
    if i < |s| {
      QuoteKeysNoSingleQuote(s, Resume(s, i));
    }
  }

  /** The repair pass of task_prioritizer.py, lines 87-88. */
  function Repair(content: string): string {
    QuoteKeysFrom(ReplaceQuotes(content), 0)
  }

  /** Repaired text holds no single quote. */
  lemma RepairRemovesSingleQuotes(content: string)
    ensures '\'' !in Repair(content)
  {
    QuoteKeysNoSingleQuote(ReplaceQuotes(content), 0);
  }

  /** At a match the key rewrite writes the delimiter and the quoted key with its colon, and resumes after the colon. */
  lemma QuoteKeysAtKey(s: string, i: nat, k: KeyMatch)
    requires IsKeyAt(s, i, k)
    ensures QuoteKeysFrom(s, i) == [s[i]] + "\"" + s[k.wordStart..k.wordEnd] + "\":" + QuoteKeysFrom(s, k.colon + 1)
  {
    KeyStep(s, i, k);
  }

  lemma KeyStep(s: string, i: nat, k: KeyMatch)
    requires IsKeyAt(s, i, k)
    ensures Emitted(s, i) == [s[i]] + "\"" + s[k.wordStart..k.wordEnd] + "\":" && Resume(s, i) == k.colon + 1
  {
    assert KeyAt(s, i) == Some(k);
  }

  /** A suffix without `{` or `,` holds no match of the key pattern. */
  lemma NoDelimiterNoKey(s: string, i: nat)
    requires i <= |s| && '{' !in s[i..] && ',' !in s[i..]
    ensures !HasBareKey(s, i)
  {
    forall j, k | i <= j < |s| ensures !IsKeyAt(s, j, k) {
      assert s[j] == s[i..][j - i];
    }
  }

  /**
   * The repair pass turns a one-member Python-style dict with a bare key and
   * a single-quoted value into JSON: `{w: 'x'}` becomes `{"w": "x"}`.
   */
  lemma RepairBareKey(w: string, x: string)
    requires IsWord(w) && '\'' !in x && '"' !in x && '{' !in x && ',' !in x
    ensures Repair("{" + w + ": '" + x + "'}") == "{\"" + w + "\": \"" + x + "\"}"
  {
    var s := BareKeyQuotesReplaced(w, x);
    BareKeyQuoted(w, s, " \"" + x + "\"}");
    BareKeyJoined(w, x);
  }

  lemma BareKeyJoined(w: string, x: string)
    ensures "{\"" + w + "\":" + " \"" + x + "\"}" == "{\"" + w + "\": \"" + x + "\"}"
  {
  }

  /** The first step of `RepairBareKey`: the single quotes become double quotes. */
  lemma BareKeyQuotesReplaced(w: string, x: string) returns (s: string)
    requires IsWord(w) && '\'' !in x
    ensures s == "{" + w + ":" + " \"" + x + "\"}"
    ensures ReplaceQuotes("{" + w + ": '" + x + "'}") == s
  {
    s := "{" + w + ":" + " \"" + x + "\"}";
    var c := "{" + w + ": '" + x + "'}";
    var r := ReplaceQuotes(c);
    assert |c| == |s| == |w| + |x| + 6;
    forall k | 0 <= k < |c| ensures r[k] == s[k] {
      if 1 <= k < 1 + |w| {
        assert c[k] == w[k - 1] && s[k] == w[k - 1];
        assert !IsWordChar('\'');
      } else if 4 + |w| <= k < 4 + |w| + |x| {
        assert c[k] == x[k - 4 - |w|] && s[k] == x[k - 4 - |w|];
      }
    }
  }

  /** The second step of `RepairBareKey`: the key is quoted and the rest copied. */
  lemma BareKeyQuoted(w: string, s: string, rest: string)
    requires IsWord(w) && '{' !in rest && ',' !in rest && s == "{" + w + ":" + rest
    ensures QuoteKeysFrom(s, 0) == "{\"" + w + "\":" + rest
  {
    var m := BareKeyMatch(w, s, rest);
    QuoteKeysAtKey(s, 0, m);
    BareKeyRest(w, s, rest);
  }

  lemma BareKeyMatch(w: string, s: string, rest: string) returns (m: KeyMatch)
    requires IsWord(w) && s == "{" + w + ":" + rest
    ensures IsKeyAt(s, 0, m) && m.colon == 1 + |w|
    ensures [s[0]] + "\"" + s[m.wordStart..m.wordEnd] + "\":" == "{\"" + w + "\":"
  {
    m := KeyMatch(1, 1 + |w|, 1 + |w|);
    assert s[1 + |w|] == ':';
    forall k | 1 <= k < 1 + |w| ensures IsWordChar(s[k]) {
      assert s[k] == w[k - 1];
    }
    assert s[1..1 + |w|] == w;
  }

  lemma BareKeyRest(w: string, s: string, rest: string)
    requires '{' !in rest && ',' !in rest && s == "{" + w + ":" + rest
    ensures QuoteKeysFrom(s, 2 + |w|) == rest
  {
    assert s[2 + |w|..] == rest;
    NoDelimiterNoKey(s, 2 + |w|);
    QuoteKeysNoKey(s, 2 + |w|);
  }

  /** Text with no `'` and no bare-word key is left unchanged by the repair pass. */
  lemma RepairUnchanged(content: string)
    requires '\'' !in content && !HasBareKey(content, 0)
    ensures Repair(content) == content
  {
    assert ReplaceQuotes(content) == content;
    QuoteKeysNoKey(content, 0);
  }

  // ---------------------------------------------------------------------------
  // Decoding
  // ---------------------------------------------------------------------------

  /** The message of the `ValueError` raised when the retry fails too (line 94, without the debug details). */
  function ParseFailure(decodeError: string, content: string): string {
    "JSON parsing failed: " + decodeError + "\nRaw content: " + Take(content, 100) + "..."
  }

  /** Decode the candidate; on failure decode its repair once; on failure again build the error. */
  function Extract(decode: Decoder, reply: string): (r: Result<Json, string>)
    ensures r.Success? ==> r == decode(Candidate(reply)) || r == decode(Repair(Candidate(reply)))
  {
    var content := Candidate(reply);
    match decode(content)
    case Success(v) => Success(v)
    case Failure(err) =>
      match decode(Repair(content))
      case Success(v) => Success(v)
      case Failure(_) => Failure(ParseFailure(err, content))
  }

  /**
   * The repaired retry is only used when the strict decode fails; its
   * value is the result when it decodes; the extraction fails exactly when
   * both decodes fail; and the retry only changes the outcome when there
   * was something to repair.
   */
  lemma ExtractOutcome(decode: Decoder, reply: string)
    ensures decode(Candidate(reply)).Success? ==> Extract(decode, reply) == decode(Candidate(reply))
    ensures var c := Candidate(reply);
      decode(c).Failure? && decode(Repair(c)).Success? ==> Extract(decode, reply) == decode(Repair(c))
    ensures var c := Candidate(reply);
      Extract(decode, reply).Failure? <==> decode(c).Failure? && decode(Repair(c)).Failure?
    ensures var c := Candidate(reply);
      '\'' !in c && !HasBareKey(c, 0) ==> (Extract(decode, reply).Success? <==> decode(c).Success?)
    ensures Extract(decode, reply).Failure? ==>
      decode(Candidate(reply)).Failure? &&
      Extract(decode, reply).error == ParseFailure(decode(Candidate(reply)).error, Candidate(reply))
  {
    var c := Candidate(reply);
    if '\'' !in c && !HasBareKey(c, 0) {
      RepairUnchanged(c);
    }
  }

  /** The failure message quotes at most the first 100 characters of the candidate. */
  lemma ParseFailureQuotesPrefix(decodeError: string, content: string)
    ensures var m := ParseFailure(decodeError, content);
      var q := Take(content, 100);
      m[|m| - 3 - |q|..|m| - 3] == q && q <= content && |q| <= 100
  {
  }
}
