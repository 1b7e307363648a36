/**
 * The task record and the per-field coercions applied to each decoded
 * task object (task_prioritizer.py, lines 17-22, 108-131 and 217-238).
 */
module Records {
  import opened Wrappers
  import opened Text
  import opened JsonValue

  /**
   * A `TaskItem`. The fields are whatever the decoded object held: a
   * TypedDict is not checked at run time, so description, due date and
   * importance are any JSON value, and a list of tags is kept as is.
   */
  datatype TaskRecord = TaskRecord(
    description: Json,
    dueDate: Json,
    tags: seq<Json>,
    importance: Json,
    priorityScore: real)

  /** `[tag.strip() for tag in s.split(",") if tag.strip()]`. */
  function CommaFields(s: string): (tags: seq<string>)
    ensures forall i :: 0 <= i < |tags| ==> tags[i] != "" && ',' !in tags[i]
    ensures forall i :: 0 <= i < |tags| ==> !IsSpace(tags[i][0]) && !IsSpace(tags[i][|tags[i]| - 1])
  {
    StrippedNonEmpty(Split(s, ','), ',')
  }

  /** The stripped fields that are not blank, in order. */
  function StrippedNonEmpty(parts: seq<string>, sep: char): (tags: seq<string>)
    requires forall i :: 0 <= i < |parts| ==> sep !in parts[i]
    ensures forall i :: 0 <= i < |tags| ==> tags[i] != "" && sep !in tags[i]
    ensures forall i :: 0 <= i < |tags| ==> !IsSpace(tags[i][0]) && !IsSpace(tags[i][|tags[i]| - 1])
    ensures |tags| <= |parts|
  {
    if parts == [] then []
    else
      var t := Strip(parts[0]);
      assert forall c :: c in t ==> c in parts[0];
      var rest := StrippedNonEmpty(parts[1..], sep);
      if t != "" then [t] + rest else rest
  }

  /** Comma fields of a join: the fields come back when each is non-empty, trimmed and comma-free. */
  lemma CommaFieldsJoin(tags: seq<string>)
    requires |tags| >= 1
    requires forall i :: 0 <= i < |tags| ==> tags[i] != "" && ',' !in tags[i]
    requires forall i :: 0 <= i < |tags| ==> !IsSpace(tags[i][0]) && !IsSpace(tags[i][|tags[i]| - 1])
    ensures CommaFields(Join(tags, ",")) == tags
  {
    SplitJoin(tags, ',');
    StrippedNonEmptyKeeps(tags, ',');
  }

  lemma {:induction false} StrippedNonEmptyKeeps(parts: seq<string>, sep: char)
    requires forall i :: 0 <= i < |parts| ==> parts[i] != "" && sep !in parts[i]
    requires forall i :: 0 <= i < |parts| ==> !IsSpace(parts[i][0]) && !IsSpace(parts[i][|parts[i]| - 1])
    ensures StrippedNonEmpty(parts, sep) == parts
  {
    if parts != [] {
      StripStripped(parts[0]);
      StrippedNonEmptyKeeps(parts[1..], sep);
    }
  }

  function AsStrings(xs: seq<string>): (r: seq<Json>)
    ensures |r| == |xs| && forall i :: 0 <= i < |xs| ==> r[i] == Str(xs[i])
  {
    seq(|xs|, i requires 0 <= i < |xs| => Str(xs[i]))
  }

  /**
   * Tag coercion in `parse_tasks` (lines 109-123): a list is kept; a
   * string with a comma becomes its non-blank comma fields; otherwise its
   * hashtags, if it has any; otherwise the string itself as the one tag;
   * any other value becomes no tags.
   */
  function ParseTags(v: Json): (tags: seq<Json>)
    ensures v.Arr? ==> tags == v.items
    ensures !v.Arr? && !v.Str? ==> tags == []
    ensures v.Str? && ',' in v.s ==> tags == PrioritizeTags(v)
    ensures v.Str? && ',' !in v.s ==> |tags| >= 1 && forall i :: 0 <= i < |tags| ==> tags[i].Str?
    ensures v.Str? && ',' !in v.s && (forall k :: 0 <= k < |v.s| - 1 ==> !(v.s[k] == '#' && IsWordChar(v.s[k + 1]))) ==>
      tags == [v]
    ensures v.Str? && ',' !in v.s && (exists k :: 0 <= k < |v.s| - 1 && v.s[k] == '#' && IsWordChar(v.s[k + 1])) ==>
      forall i :: 0 <= i < |tags| ==> IsWord(tags[i].s)
  {
    match v
    case Arr(items) => items
    case Str(s) =>
      if ',' in s then AsStrings(CommaFields(s))
      else
        var hashtags := Hashtags(s);
        if hashtags != [] then AsStrings(hashtags) else [Str(s)]
    case _ => []
  }

  /** Tag coercion in `prioritize_tasks` (lines 224-230): strings are only split on commas. */
  function PrioritizeTags(v: Json): (tags: seq<Json>)
    ensures v.Arr? ==> tags == v.items
    ensures !v.Arr? && !v.Str? ==> tags == []
    ensures v.Str? ==> forall i :: 0 <= i < |tags| ==>
      && tags[i].Str? && tags[i].s != "" && ',' !in tags[i].s
      && !IsSpace(tags[i].s[0]) && !IsSpace(tags[i].s[|tags[i].s| - 1])
  {
    match v
    case Arr(items) => items
    case Str(s) => AsStrings(CommaFields(s))
    case _ => []
  }

  /** A hashtag list is only made of `#`, blanks and word characters: it holds no comma. */
  lemma {:induction false} HashtagTextNoComma(words: seq<string>)
    requires forall i :: 0 <= i < |words| ==> IsWord(words[i])
    ensures ',' !in HashtagText(words)
    decreases |words|
  {
    if words != [] {
      assert !IsWordChar(',');
      if |words| > 1 {
        HashtagTextNoComma(words[1..]);
      }
    }
  }

  /** A tag string `"#w1 #w2 ..."` becomes its words, in order. */
  lemma ParseTagsHashtags(words: seq<string>)
    requires |words| >= 1 && forall i :: 0 <= i < |words| ==> IsWord(words[i])
    ensures ParseTags(Str(HashtagText(words))) == AsStrings(words)
  {
    HashtagTextNoComma(words);
    HashtagsOfText(words);
  }

  /** A comma-joined tag list given as a string comes back as the list (both nodes agree on it). */
  lemma CommaTagsRoundTrip(tags: seq<string>)
    requires |tags| >= 2
    requires forall i :: 0 <= i < |tags| ==> tags[i] != "" && ',' !in tags[i]
    requires forall i :: 0 <= i < |tags| ==> !IsSpace(tags[i][0]) && !IsSpace(tags[i][|tags[i]| - 1])
    ensures ParseTags(Str(Join(tags, ","))) == AsStrings(tags)
    ensures PrioritizeTags(Str(Join(tags, ","))) == AsStrings(tags)
  {
    CommaFieldsJoin(tags);
    var s := Join(tags, ",");
    assert s == tags[0] + "," + Join(tags[1..], ",");
    assert s[|tags[0]|] == ',';
  }

  /** Score used when `float(...)` raises `ValueError` or `TypeError` (line 221). */
  const DefaultScore: real := 5.0

  /** `float(v)` with the fallback of lines 218-221. */
  function CoerceScore(v: Json, floatOf: FloatParser): (score: real)
    ensures v.Int? ==> score == v.i as real
    ensures v.Float? ==> score == v.r
    ensures v.Bool? ==> score == (if v.b then 1.0 else 0.0)
    ensures v.Str? ==> score == (if floatOf(v.s).Some? then floatOf(v.s).value else DefaultScore)
    ensures v.Null? || v.Arr? || v.Obj? ==> score == DefaultScore
  {
    match v
    case Int(i) => i as real
    case Float(r) => r
    case Bool(b) => if b then 1.0 else 0.0
    case Str(s) => match floatOf(s) { case Some(r) => r case None => DefaultScore }
    case _ => DefaultScore
  }

  /** The record `parse_tasks` builds from one task object (lines 125-131). */
  function ParsedRecord(fields: seq<(string, Json)>): (t: TaskRecord)
    ensures t.importance == Str("") && t.priorityScore == 0.0
  {
    TaskRecord(
      Get(fields, "description", Str("")),
      Get(fields, "due_date", Str("")),
      ParseTags(Get(fields, "tags", Arr([]))),
      Str(""),
      0.0)
  }

  /** The record `prioritize_tasks` builds from one task object (lines 218-238). */
  function PrioritizedRecord(fields: seq<(string, Json)>, floatOf: FloatParser): (t: TaskRecord)
  {
    TaskRecord(
      Get(fields, "description", Str("")),
      Get(fields, "due_date", Str("")),
      PrioritizeTags(Get(fields, "tags", Arr([]))),
      Get(fields, "importance", Str("")),
      CoerceScore(Get(fields, "priority_score", Int(0)), floatOf))
  }

  /**
   * Both nodes read description and due date as `task.get(key, "")`, and
   * `prioritize_tasks` reads importance the same way: the value under the
   * first member with that key, or "" when there is none.
   */
  lemma RecordFieldsStored(fields: seq<(string, Json)>, floatOf: FloatParser)
    ensures var t := ParsedRecord(fields);
      Stored(fields, "description", Str(""), t.description) && Stored(fields, "due_date", Str(""), t.dueDate)
    ensures var t := PrioritizedRecord(fields, floatOf);
      && Stored(fields, "description", Str(""), t.description) && Stored(fields, "due_date", Str(""), t.dueDate)
      && Stored(fields, "importance", Str(""), t.importance)
  {
    GetFirst(fields, "description", Str(""));
    GetFirst(fields, "due_date", Str(""));
    GetFirst(fields, "importance", Str(""));
  }

  /**
   * The score of a built record: a missing score is 0, a number keeps its
   * value, a string is parsed, and a string `float` rejects (`ValueError`)
   * or a null, list or dict (`TypeError`) gives 5.0.
   */
  lemma PrioritizedRecordDefaults(fields: seq<(string, Json)>, floatOf: FloatParser)
    ensures var x := Get(fields, "priority_score", Int(0));
      var score := PrioritizedRecord(fields, floatOf).priorityScore;
      && ((forall i :: 0 <= i < |fields| ==> fields[i].0 != "priority_score") ==> score == 0.0)
      && (x.Int? ==> score == x.i as real)
      && (x.Float? ==> score == x.r)
      && (x.Bool? ==> score == if x.b then 1.0 else 0.0)
      && (x.Str? && floatOf(x.s).Some? ==> score == floatOf(x.s).value)
      && (x.Str? && floatOf(x.s).None? ==> score == DefaultScore)
      && (x.Null? || x.Arr? || x.Obj? ==> score == DefaultScore)
    ensures (forall i :: 0 <= i < |fields| ==> fields[i].0 != "importance") ==>
      PrioritizedRecord(fields, floatOf).importance == Str("")
    ensures (forall i :: 0 <= i < |fields| ==> fields[i].0 != "description") ==>
      PrioritizedRecord(fields, floatOf).description == Str("") && ParsedRecord(fields).description == Str("")
  {
  }
}
