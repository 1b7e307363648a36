/**
 * The analytics of supabase_client.py: the aggregation in `get_task_stats`
 * (lines 455-520) and the filter in `get_tasks_by_date` (lines 533-541),
 * over the task rows the database returned. The fetch is a parameter: the
 * rows, or the message of the exception it raised.
 */
module Analytics {
  import opened Wrappers
  import opened Text

  /** The `created_at` column as `task.get('created_at', '')` sees it: absent, NULL, or a timestamp text. */
  datatype Stamp = NoStamp | NullStamp | Stamp(text: string)

  /** A row of the `tasks` table, as far as the statistics read it. */
  datatype StoredTask = StoredTask(
    id: string,
    description: string,
    dueDate: Option<string>,
    importance: Option<string>,
    completed: bool,
    createdAt: Stamp)

  // ---------------------------------------------------------------------------
  // Counts (lines 460-470)
  // ---------------------------------------------------------------------------

  function CountCompleted(tasks: seq<StoredTask>): (n: nat)
    ensures n <= |tasks|
    ensures n == 0 <==> forall i :: 0 <= i < |tasks| ==> !tasks[i].completed
    ensures n == |tasks| <==> forall i :: 0 <= i < |tasks| ==> tasks[i].completed
  {
    if tasks == [] then 0
    else CountCompleted(tasks[..|tasks| - 1]) + (if tasks[|tasks| - 1].completed then 1 else 0)
  }

  /** How many rows have exactly this `importance`; a NULL matches no level. */
  function CountImportance(tasks: seq<StoredTask>, level: string): (n: nat)
    ensures n <= |tasks|
    ensures n == 0 <==> forall i :: 0 <= i < |tasks| ==> tasks[i].importance != Some(level)
  {
    if tasks == [] then 0
    else CountImportance(tasks[..|tasks| - 1], level) + (if tasks[|tasks| - 1].importance == Some(level) then 1 else 0)
  }

  /** A row has at most one level, so the three buckets together never exceed the rows. */
  lemma {:induction false} ImportanceCountsBounded(tasks: seq<StoredTask>)
    ensures CountImportance(tasks, "High") + CountImportance(tasks, "Medium") + CountImportance(tasks, "Low") <= |tasks|
  {
    if tasks != [] {
      ImportanceCountsBounded(tasks[..|tasks| - 1]);
    }
  }

  /** `completion_rate`, in exact arithmetic: a percentage, 0 when there are no rows. */
  function CompletionRate(completed: nat, total: nat): (rate: real)
    ensures completed <= total ==> 0.0 <= rate <= 100.0
    ensures total == 0 ==> rate == 0.0
    ensures total > 0 ==> rate * (total as real) == 100.0 * (completed as real)
  {
    if total > 0 then (completed as real / total as real) * 100.0 else 0.0
  }

  // ---------------------------------------------------------------------------
  // Due dates (lines 473-479 and 538)
  // ---------------------------------------------------------------------------

  /** `[task for task in tasks if task.get('due_date') == d]`: the rows due on `d`, in their order. */
  function TasksDueOn(tasks: seq<StoredTask>, d: string): (r: seq<StoredTask>)
    ensures |r| <= |tasks|
    ensures forall i :: 0 <= i < |r| ==> r[i].dueDate == Some(d)
  {
    if tasks == [] then []
    else
      var last := tasks[|tasks| - 1];
      TasksDueOn(tasks[..|tasks| - 1], d) + (if last.dueDate == Some(d) then [last] else [])
  }

  /** The filter keeps every row due on `d`, as often as it occurs, and no other row. */
  lemma {:induction false} TasksDueOnExactly(tasks: seq<StoredTask>, d: string)
    ensures forall t :: multiset(TasksDueOn(tasks, d))[t] == if t.dueDate == Some(d) then multiset(tasks)[t] else 0
  {
    if tasks != [] {
      var last := tasks[|tasks| - 1];
      assert tasks == tasks[..|tasks| - 1] + [last];
      TasksDueOnExactly(tasks[..|tasks| - 1], d);
    }
  }

  /** The filter keeps order: filtering a concatenation concatenates the filtered parts. */
  lemma {:induction false} TasksDueOnAppend(a: seq<StoredTask>, b: seq<StoredTask>, d: string)
    ensures TasksDueOn(a + b, d) == TasksDueOn(a, d) + TasksDueOn(b, d)
    decreases |b|
  {
    if b == [] {
      assert a + b == a;
    } else {
      var last := b[|b| - 1];
      var front := b[..|b| - 1];
      var h := if last.dueDate == Some(d) then [last] else [];
      assert (a + b)[..|a + b| - 1] == a + front;
      assert (a + b)[|a + b| - 1] == last;
      TasksDueOnAppend(a, front, d);
      calc {
        TasksDueOn(a + b, d);
        TasksDueOn(a + front, d) + h;
        (TasksDueOn(a, d) + TasksDueOn(front, d)) + h;
        TasksDueOn(a, d) + (TasksDueOn(front, d) + h);
        TasksDueOn(a, d) + TasksDueOn(b, d);
      }
    }
  }

  lemma TasksDueOnNone(tasks: seq<StoredTask>, d: string)
    requires forall i :: 0 <= i < |tasks| ==> tasks[i].dueDate != Some(d)
    ensures TasksDueOn(tasks, d) == []
  {
  }

  /** `get_tasks_by_date` (lines 533-541): the filter, or no rows when the fetch raised. */
  function GetTasksByDate(fetched: Result<seq<StoredTask>, string>, d: string): (r: seq<StoredTask>)
    ensures fetched.Failure? ==> r == []
    ensures fetched.Success? ==> forall t :: t in r <==> t in fetched.value && t.dueDate == Some(d)
  {
    match fetched
    case Failure(_) => []
    case Success(tasks) =>
      TasksDueOnExactly(tasks, d);
      assert forall t :: t in TasksDueOn(tasks, d) <==> t in multiset(TasksDueOn(tasks, d));
      TasksDueOn(tasks, d)
  }

  /** The keys of `tasks_by_date`: every due date that is set and non-empty. */
  function DueDates(tasks: seq<StoredTask>): (ds: set<string>)
    ensures forall d :: d in ds <==> d != "" && exists i :: 0 <= i < |tasks| && tasks[i].dueDate == Some(d)
  {
    if tasks == [] then {}
    else
      var last := tasks[|tasks| - 1];
      var front := tasks[..|tasks| - 1];
      assert forall i :: 0 <= i < |front| ==> front[i] == tasks[i];
      DueDates(front) + (if last.dueDate.Some? && last.dueDate.value != "" then {last.dueDate.value} else {})
  }

  // ---------------------------------------------------------------------------
  // Creation dates (lines 483-491)
  // ---------------------------------------------------------------------------

  /** The text before the first `T`, or all of it. */
  function DateKey(s: string): string {
    if s == [] || s[0] == 'T' then "" else [s[0]] + DateKey(s[1..])
  }

  /** The key is a prefix of the stamp, holds no `T`, and stops at the first `T`. */
  lemma {:induction false} DateKeyPrefix(s: string)
    ensures DateKey(s) <= s && 'T' !in DateKey(s)
    ensures |DateKey(s)| < |s| ==> s[|DateKey(s)|] == 'T'
  {
    if s != [] && s[0] != 'T' {
      DateKeyPrefix(s[1..]);
    }
  }

  /** `DateKey` is `created_at.split('T')[0]`. */
  lemma {:induction false} DateKeyIsSplitHead(s: string)
    ensures DateKey(s) == Split(s, 'T')[0]
  {
    if s != [] && s[0] != 'T' {
      DateKeyIsSplitHead(s[1..]);
    }
  }

  /** The key a row is tallied under; an absent column gives the empty key, which is skipped. */
  function CreationKey(stamp: Stamp): string {
    match stamp
    case Stamp(s) => DateKey(s)
    case _ => ""
  }

  /** A NULL `created_at` makes `.split` raise, which ends in the fallback. */
  predicate HasNullStamp(tasks: seq<StoredTask>) {
    exists i :: 0 <= i < |tasks| && tasks[i].createdAt.NullStamp?
  }

  /** What the tally reads from one row: its creation key and whether it is completed. */
  datatype Mark = Mark(key: string, completed: bool)

  function MarkOf(t: StoredTask): Mark {
    Mark(CreationKey(t.createdAt), t.completed)
  }

  function Marks(tasks: seq<StoredTask>): (ms: seq<Mark>)
    ensures |ms| == |tasks| && forall i :: 0 <= i < |tasks| ==> ms[i] == MarkOf(tasks[i])
  {
    seq(|tasks|, i requires 0 <= i < |tasks| => MarkOf(tasks[i]))
  }

  /** The rows tallied under `key`. */
  function CreatedOn(ms: seq<Mark>, key: string): (n: nat)
    ensures n <= |ms|
  {
    if ms == [] then 0
    else CreatedOn(ms[..|ms| - 1], key) + (if ms[|ms| - 1].key == key then 1 else 0)
  }

  /** The completed rows tallied under `key`: never more than all rows under it. */
  function CompletedOn(ms: seq<Mark>, key: string): (n: nat)
    ensures n <= CreatedOn(ms, key)
  {
    if ms == [] then 0
    else
      var last := ms[|ms| - 1];
      CompletedOn(ms[..|ms| - 1], key) + (if last.key == key && last.completed then 1 else 0)
  }

  /** The keys of `completion_by_date`: every non-empty creation key. */
  function CreationDates(ms: seq<Mark>): set<string> {
    if ms == [] then {}
    else
      var key := ms[|ms| - 1].key;
      CreationDates(ms[..|ms| - 1]) + (if key != "" then {key} else {})
  }

  lemma {:induction false} CreationDatesMembers(ms: seq<Mark>)
    ensures forall k :: k in CreationDates(ms) <==> k != "" && exists i :: 0 <= i < |ms| && ms[i].key == k
  {
    if ms != [] {
      var front := ms[..|ms| - 1];
      CreationDatesMembers(front);
      assert forall i :: 0 <= i < |front| ==> front[i] == ms[i];
    }
  }

  /** The rows with a non-empty creation key: the rows the tally counts. */
  function KeyedCount(ms: seq<Mark>): (n: nat)
    ensures n <= |ms|
  {
    if ms == [] then 0
    else KeyedCount(ms[..|ms| - 1]) + (if ms[|ms| - 1].key != "" then 1 else 0)
  }

  // ---------------------------------------------------------------------------
  // `sorted` on strings: code-point order
  // ---------------------------------------------------------------------------

  /** Python's `<` on `str`: the first differing character decides, and a proper prefix comes first. */
  predicate StrLess(a: string, b: string)
    decreases |a|
  {
    if b == [] then false
    else if a == [] then true
    else a[0] < b[0] || (a[0] == b[0] && StrLess(a[1..], b[1..]))
  }

  lemma StrLessIrreflexive(a: string)
    ensures !StrLess(a, a)
  {
  }

  lemma StrLessTrans(a: string, b: string, c: string)
    requires StrLess(a, b) && StrLess(b, c)
    ensures StrLess(a, c)
    decreases |a|
  {
    if a != [] && b != [] && c != [] && a[0] == b[0] && b[0] == c[0] {
      StrLessTrans(a[1..], b[1..], c[1..]);
    }
  }

  lemma StrLessTotal(a: string, b: string)
    ensures a == b || StrLess(a, b) || StrLess(b, a)
    decreases |a|
  {
    if a != [] && b != [] && a[0] == b[0] {
      StrLessTotal(a[1..], b[1..]);
      if a[1..] == b[1..] {
        assert a == [a[0]] + a[1..] && b == [b[0]] + b[1..];
      }
    }
  }

  /** Each date comes strictly before the next. */
  predicate Ascending(s: seq<string>) {
    forall i :: 0 <= i < |s| - 1 ==> StrLess(s[i], s[i + 1])
  }

  predicate Distinct(s: seq<string>) {
    forall i, j :: 0 <= i < j < |s| ==> s[i] != s[j]
  }

  /** Strictly ascending neighbours make the whole sequence strictly ascending, hence duplicate-free. */
  lemma AscendingPairwise(s: seq<string>, i: int, j: int)
    requires Ascending(s) && 0 <= i < j < |s|
    ensures StrLess(s[i], s[j]) && s[i] != s[j]
    decreases j - i
  {
    if j > i + 1 {
      AscendingPairwise(s, i, j - 1);
      StrLessTrans(s[i], s[j - 1], s[j]);
    }
    if s[i] == s[j] {
      StrLessIrreflexive(s[i]);
    }
  }

  function InsertDate(x: string, s: seq<string>): (r: seq<string>)
    requires Ascending(s) && x !in s
    ensures Ascending(r) && multiset(r) == multiset(s) + multiset{x}
    ensures |r| == |s| + 1 && (s == [] || r[0] == x || r[0] == s[0])
  {
    if s == [] then [x]
    else if StrLess(x, s[0]) then [x] + s
    else
      StrLessTotal(x, s[0]);
      var rest := InsertDate(x, s[1..]);
      assert s == [s[0]] + s[1..];
      [s[0]] + rest
  }

  /** `sorted(keys)` for keys that are pairwise different, as a dict's are. */
  function SortDates(keys: seq<string>): (r: seq<string>)
    requires Distinct(keys)
    ensures Ascending(r) && multiset(r) == multiset(keys)
  {
    if keys == [] then []
    else
      DistinctTail(keys);
      var rest := SortDates(keys[1..]);
      assert keys[0] !in multiset(rest);
      InsertDate(keys[0], rest)
  }

  lemma DistinctTail(keys: seq<string>)
    requires Distinct(keys) && keys != []
    ensures Distinct(keys[1..]) && keys[0] !in keys[1..]
    ensures multiset(keys) == multiset(keys[1..]) + multiset{keys[0]}
  {
    assert keys[0] !in keys[1..] by {
      forall k | 0 <= k < |keys[1..]| ensures keys[1..][k] != keys[0] {
        assert keys[1..][k] == keys[k + 1];
      }
    }
    assert keys == [keys[0]] + keys[1..];
  }

  lemma SameMembers(a: seq<string>, b: seq<string>)
    requires multiset(a) == multiset(b)
    ensures forall k :: k in a <==> k in b
  {
    forall k ensures k in a <==> k in b {
      assert k in a <==> k in multiset(a);
      assert k in b <==> k in multiset(b);
    }
  }

  function Sum(xs: seq<nat>): nat {
    if xs == [] then 0 else xs[0] + Sum(xs[1..])
  }

  // ---------------------------------------------------------------------------
  // The statistics
  // ---------------------------------------------------------------------------

  datatype ImportanceCounts = ImportanceCounts(high: nat, medium: nat, low: nat)

  /** `completion_data`: parallel lists for charting. */
  datatype CompletionData = CompletionData(dates: seq<string>, total: seq<nat>, completed: seq<nat>)

  datatype Stats = Stats(
    totalTasks: nat,
    completedTasks: nat,
    openTasks: int,
    completionRate: real,
    importanceCounts: ImportanceCounts,
    tasksByDate: map<string, seq<StoredTask>>,
    completionData: CompletionData)

  /** The value returned when anything raises (lines 510-520). */
  const ZeroStats: Stats :=
    Stats(0, 0, 0, 0.0, ImportanceCounts(0, 0, 0), map[], CompletionData([], [], []))

  /** What the `try` block of `get_task_stats` promises about the rows it read. */
  ghost predicate IsStatsOf(s: Stats, tasks: seq<StoredTask>) {
    var cd := s.completionData;
    var marks := Marks(tasks);
    && s.totalTasks == |tasks|
    && s.completedTasks == CountCompleted(tasks)
    && s.openTasks == s.totalTasks - s.completedTasks
    && s.completionRate == CompletionRate(s.completedTasks, s.totalTasks)
    && s.importanceCounts == ImportanceCounts(
         CountImportance(tasks, "High"), CountImportance(tasks, "Medium"), CountImportance(tasks, "Low"))
    && s.tasksByDate.Keys == DueDates(tasks)
    && (forall d :: d in s.tasksByDate ==> s.tasksByDate[d] == TasksDueOn(tasks, d))
    && Ascending(cd.dates)
    && (forall k :: k in cd.dates <==> k in CreationDates(marks))
    && |cd.total| == |cd.dates| && |cd.completed| == |cd.dates|
    && (forall i :: 0 <= i < |cd.dates| ==>
          cd.total[i] == CreatedOn(marks, cd.dates[i]) && cd.completed[i] == CompletedOn(marks, cd.dates[i]))
  }


  /** One row's contribution to `tasks_by_date`: lines 475-479 for one `task`. */
  function FileRow(m: map<string, seq<StoredTask>>, t: StoredTask): map<string, seq<StoredTask>> {
    if t.dueDate.Some? && t.dueDate.value != "" then
      var d := t.dueDate.value;
      m[d := (if d in m then m[d] else []) + [t]]
    else m
  }

  /** The filter and the keys over one more row. */
  lemma DueStep(tasks: seq<StoredTask>, i: int)
    requires 0 <= i < |tasks|
    ensures forall d ::
      TasksDueOn(tasks[..i + 1], d) == TasksDueOn(tasks[..i], d) + (if tasks[i].dueDate == Some(d) then [tasks[i]] else [])
    ensures DueDates(tasks[..i + 1])
      == DueDates(tasks[..i]) + (if tasks[i].dueDate.Some? && tasks[i].dueDate.value != "" then {tasks[i].dueDate.value} else {})
  {
    assert tasks[..i + 1][..i] == tasks[..i];
  }

  /** Filing a row adds its due date to the keys, when it is set and non-empty. */
  lemma FileRowKeys(m: map<string, seq<StoredTask>>, t: StoredTask)
    ensures FileRow(m, t).Keys == m.Keys + (if t.dueDate.Some? && t.dueDate.value != "" then {t.dueDate.value} else {})
  {
  }

  /** Filing a row appends it to its own bucket and to no other. */
  lemma FileRowValues(m: map<string, seq<StoredTask>>, t: StoredTask)
    requires "" !in m
    ensures forall d :: d in FileRow(m, t) ==>
      FileRow(m, t)[d] == (if d in m then m[d] else []) + (if t.dueDate == Some(d) then [t] else [])
  {
  }

  /** A non-empty date that is not yet a key has no rows due on it. */
  lemma UnfiledEmpty(tasks: seq<StoredTask>, d: string)
    requires d != "" && d !in DueDates(tasks)
    ensures TasksDueOn(tasks, d) == []
  {
    TasksDueOnNone(tasks, d);
  }

  /** Filing one more row keeps the bucket keys equal to the due dates of the longer prefix. */
  lemma FileRowKeepsKeys(tasks: seq<StoredTask>, i: int, m: map<string, seq<StoredTask>>)
    requires 0 <= i < |tasks| && m.Keys == DueDates(tasks[..i])
    ensures FileRow(m, tasks[i]).Keys == DueDates(tasks[..i + 1])
  {
    DueStep(tasks, i);
    FileRowKeys(m, tasks[i]);
  }

  /** Filing one more row keeps the buckets equal to the filter over the longer prefix. */
  lemma FileRowKeeps(tasks: seq<StoredTask>, i: int, m: map<string, seq<StoredTask>>)
    requires 0 <= i < |tasks|
    requires m.Keys == DueDates(tasks[..i]) && forall d :: d in m ==> m[d] == TasksDueOn(tasks[..i], d)
    ensures FileRow(m, tasks[i]).Keys == DueDates(tasks[..i + 1])
    ensures forall d :: d in FileRow(m, tasks[i]) ==> FileRow(m, tasks[i])[d] == TasksDueOn(tasks[..i + 1], d)
  {
    FileRowKeepsKeys(tasks, i, m);
    DueStep(tasks, i);
    assert "" !in m;
    FileRowValues(m, tasks[i]);
    forall d | d in FileRow(m, tasks[i]) && d !in m ensures TasksDueOn(tasks[..i], d) == [] {
      UnfiledEmpty(tasks[..i], d);
    }
  }

  /** The body of the loop of lines 474-479, for one row: create the bucket when new, then append. */
  method FileTask(byDate: map<string, seq<StoredTask>>, t: StoredTask) returns (byDate': map<string, seq<StoredTask>>)
    ensures byDate' == FileRow(byDate, t)
  {
    byDate' := byDate;
    var due := t.dueDate;
    if due.Some? && due.value != "" {
      var d := due.value;
      if d !in byDate' {
        byDate' := byDate'[d := []];
      }
      byDate' := byDate'[d := byDate'[d] + [t]];
    }
  }

  /** The loop of lines 473-479: one bucket per non-empty due date, rows in input order. */
  method GroupByDueDate(tasks: seq<StoredTask>) returns (byDate: map<string, seq<StoredTask>>)
    ensures byDate.Keys == DueDates(tasks)
    ensures forall d :: d in byDate ==> byDate[d] == TasksDueOn(tasks, d)
  {
    byDate := map[];
    for i := 0 to |tasks|
      invariant byDate.Keys == DueDates(tasks[..i])
      invariant forall d :: d in byDate ==> byDate[d] == TasksDueOn(tasks[..i], d)
    {
      FileRowKeeps(tasks, i, byDate);
      byDate := FileTask(byDate, tasks[i]);
    }
    assert tasks[..|tasks|] == tasks;
  }

  // ---------------------------------------------------------------------------
  // The creation tally (lines 483-491)
  // ---------------------------------------------------------------------------

  /** One row's contribution to `completion_by_date`: lines 485-491 for one `task`. */
  function AddRow(m: map<string, (nat, nat)>, e: Mark): map<string, (nat, nat)> {
    if e.key == "" then m
    else
      var c := if e.key in m then m[e.key] else (0, 0);
      m[e.key := (c.0 + 1, if e.completed then c.1 + 1 else c.1)]
  }

  /** `completion_by_date` after the rows `ms` (lines 483-491), as a function of the rows. */
  function TallyOf(ms: seq<Mark>): map<string, (nat, nat)> {
    if ms == [] then map[] else AddRow(TallyOf(ms[..|ms| - 1]), ms[|ms| - 1])
  }

  /** A row's key joins the key order when it is new. */
  function NoteKey(ks: seq<string>, e: Mark): seq<string> {
    if e.key == "" || e.key in ks then ks else ks + [e.key]
  }

  /** The keys of `TallyOf(ms)` in the order they were inserted: the order `.keys()` yields them. */
  function FirstSeen(ms: seq<Mark>): seq<string> {
    if ms == [] then [] else NoteKey(FirstSeen(ms[..|ms| - 1]), ms[|ms| - 1])
  }

  /** One more row extends the tally and the key order by that row alone. */
  lemma TallyExtends(ms: seq<Mark>, i: int)
    requires 0 <= i < |ms|
    ensures TallyOf(ms[..i + 1]) == AddRow(TallyOf(ms[..i]), ms[i])
    ensures FirstSeen(ms[..i + 1]) == NoteKey(FirstSeen(ms[..i]), ms[i])
    ensures forall k :: k in FirstSeen(ms[..i]) <==> k in TallyOf(ms[..i])
  {
    assert ms[..i + 1][..i] == ms[..i];
    FirstSeenKeys(ms[..i]);
  }

  /** The tally has an entry for every non-empty creation key and for nothing else. */
  lemma {:induction false} TallyOfKeys(ms: seq<Mark>)
    ensures TallyOf(ms).Keys == CreationDates(ms) && "" !in TallyOf(ms)
  {
    if ms != [] {
      TallyOfKeys(ms[..|ms| - 1]);
    }
  }

  /** A key the tally has no entry for has no rows yet. */
  lemma {:induction false} TallyOfAbsent(ms: seq<Mark>, k: string)
    requires k != "" && k !in TallyOf(ms)
    ensures CreatedOn(ms, k) == 0
  {
    if ms != [] {
      TallyOfAbsent(ms[..|ms| - 1], k);
    }
  }

  /** The entry for `k` holds the rows and the completed rows created on `k`. */
  lemma {:induction false} TallyOfValue(ms: seq<Mark>, k: string)
    requires k != "" && k in TallyOf(ms)
    ensures TallyOf(ms)[k] == (CreatedOn(ms, k), CompletedOn(ms, k))
  {
    var front := ms[..|ms| - 1];
    if k in TallyOf(front) {
      TallyOfValue(front, k);
    } else {
      TallyOfAbsent(front, k);
    }
  }

  /** Each key is listed once, and exactly the keys of the tally are listed. */
  lemma {:induction false} FirstSeenKeys(ms: seq<Mark>)
    ensures Distinct(FirstSeen(ms))
    ensures forall k :: k in FirstSeen(ms) <==> k in TallyOf(ms)
  {
    if ms != [] {
      FirstSeenKeys(ms[..|ms| - 1]);
    }
  }

  /** The body of the loop of lines 484-491, for one row: create the entry when new, then count. */
  method CountRow(tally: map<string, (nat, nat)>, keys: seq<string>, t: StoredTask)
    returns (tally': map<string, (nat, nat)>, keys': seq<string>)
    requires forall k :: k in keys <==> k in tally
    ensures tally' == AddRow(tally, MarkOf(t)) && keys' == NoteKey(keys, MarkOf(t))
  {
    tally', keys' := tally, keys;
    var key := CreationKey(t.createdAt);
    if key != "" {
      if key !in tally' {
        tally' := tally'[key := (0, 0)];
        keys' := keys' + [key];
      }
      var c := tally'[key];
      assert c == if key in tally then tally[key] else (0, 0);
      tally' := tally'[key := (c.0 + 1, if t.completed then c.1 + 1 else c.1)];
    }
  }

  /**
   * The loop of lines 483-491: per creation key, the rows and the completed
   * rows, with the keys in the order they were first seen. A NULL stamp
   * raises; `failed` reports it.
   */
  method TallyByCreation(tasks: seq<StoredTask>) returns (failed: bool, tally: map<string, (nat, nat)>, keys: seq<string>)
    ensures failed <==> HasNullStamp(tasks)
    ensures !failed ==> tally == TallyOf(Marks(tasks)) && keys == FirstSeen(Marks(tasks))
  {
    tally := map[];
    keys := [];
    ghost var marks := Marks(tasks);
    var i := 0;
    while i < |tasks| && !tasks[i].createdAt.NullStamp?
      invariant 0 <= i <= |tasks|
      invariant forall j :: 0 <= j < i ==> !tasks[j].createdAt.NullStamp?
      invariant tally == TallyOf(marks[..i]) && keys == FirstSeen(marks[..i])
    {
      TallyExtends(marks, i);
      assert marks[i] == MarkOf(tasks[i]);
      tally, keys := CountRow(tally, keys, tasks[i]);
      i := i + 1;
    }
    failed := i < |tasks|;
    if !failed {
      assert marks[..i] == marks;
    }
  }

  /** `completion_data` (lines 494-499): the keys sorted, and their two counts in the same order. */
  function Chart(tally: map<string, (nat, nat)>, keys: seq<string>): (cd: CompletionData)
    requires Distinct(keys) && forall k :: k in keys <==> k in tally
    ensures Ascending(cd.dates) && forall k :: k in cd.dates <==> k in tally
    ensures |cd.total| == |cd.dates| && |cd.completed| == |cd.dates|
    ensures forall i :: 0 <= i < |cd.dates| ==>
      cd.dates[i] in tally && cd.total[i] == tally[cd.dates[i]].0 && cd.completed[i] == tally[cd.dates[i]].1
  {
    var dates := SortDates(keys);
    SameMembers(dates, keys);
    CompletionData(
      dates,
      seq(|dates|, j requires 0 <= j < |dates| => tally[dates[j]].0),
      seq(|dates|, j requires 0 <= j < |dates| => tally[dates[j]].1))
  }

  /**
   * `get_task_stats` (lines 445-520): the counts are generator sums; the two
   * groupings are loops that update dictionaries; any exception gives
   * `ZeroStats`.
   */
  method GetTaskStats(fetched: Result<seq<StoredTask>, string>) returns (stats: Stats)
    ensures fetched.Failure? ==> stats == ZeroStats
    ensures fetched.Success? && HasNullStamp(fetched.value) ==> stats == ZeroStats
    ensures fetched.Success? && !HasNullStamp(fetched.value) ==> IsStatsOf(stats, fetched.value)
  {
    if fetched.Failure? {
      return ZeroStats;
    }
    var tasks := fetched.value;
    var total := |tasks|;
    var completed := CountCompleted(tasks);
    var open := total - completed;
    var rate := CompletionRate(completed, total);
    var importance := ImportanceCounts(
      CountImportance(tasks, "High"), CountImportance(tasks, "Medium"), CountImportance(tasks, "Low"));
    var byDate := GroupByDueDate(tasks);
    var failed, tally, keys := TallyByCreation(tasks);
    if failed {
      return ZeroStats;
    }
    var marks := Marks(tasks);
    TallyOfKeys(marks);
    FirstSeenKeys(marks);
    forall k | k in tally ensures tally[k] == (CreatedOn(marks, k), CompletedOn(marks, k)) {
      TallyOfValue(marks, k);
    }
    var chart := Chart(tally, keys);
    stats := Stats(total, completed, open, rate, importance, byDate, chart);
  }

  // ---------------------------------------------------------------------------
  // What the statistics guarantee
  // ---------------------------------------------------------------------------

  function Tallied(ms: seq<Mark>, ds: seq<string>): nat {
    if ds == [] then 0 else CreatedOn(ms, ds[0]) + Tallied(ms, ds[1..])
  }

  function Occurrences(k: string, ds: seq<string>): nat {
    if ds == [] then 0 else (if ds[0] == k then 1 else 0) + Occurrences(k, ds[1..])
  }

  lemma {:induction false} OccurrencesDistinct(k: string, ds: seq<string>)
    requires Distinct(ds)
    ensures Occurrences(k, ds) == if k in ds then 1 else 0
  {
    if ds != [] {
      assert Distinct(ds[1..]) by {
        forall i, j | 0 <= i < j < |ds[1..]| ensures ds[1..][i] != ds[1..][j] {
          assert ds[1..][i] == ds[i + 1] && ds[1..][j] == ds[j + 1];
        }
      }
      OccurrencesDistinct(k, ds[1..]);
      if ds[0] == k {
        assert k !in ds[1..] by {
          forall i | 0 <= i < |ds[1..]| ensures ds[1..][i] != k {
            assert ds[1..][i] == ds[i + 1];
          }
        }
      }
      assert k in ds <==> ds[0] == k || k in ds[1..] by {
        assert ds == [ds[0]] + ds[1..];
      }
    }
  }

  lemma {:induction false} TalliedEmpty(ds: seq<string>)
    ensures Tallied([], ds) == 0
  {
    if ds != [] {
      TalliedEmpty(ds[1..]);
    }
  }

  lemma {:induction false} TalliedStep(ms: seq<Mark>, ds: seq<string>)
    requires ms != []
    ensures Tallied(ms, ds) == Tallied(ms[..|ms| - 1], ds) + Occurrences(ms[|ms| - 1].key, ds)
  {
    if ds != [] {
      TalliedStep(ms, ds[1..]);
    }
  }

  /** Every row with a non-empty creation key is counted under exactly one of the keys. */
  lemma {:induction false} TalliedCountsKeyed(ms: seq<Mark>, ds: seq<string>)
    requires Distinct(ds) && "" !in ds
    requires forall k :: k in CreationDates(ms) ==> k in ds
    ensures Tallied(ms, ds) == KeyedCount(ms)
  {
    if ms == [] {
      TalliedEmpty(ds);
    } else {
      var front := ms[..|ms| - 1];
      var key := ms[|ms| - 1].key;
      TalliedStep(ms, ds);
      OccurrencesDistinct(key, ds);
      assert forall k :: k in CreationDates(front) ==> k in CreationDates(ms);
      TalliedCountsKeyed(front, ds);
      if key != "" {
        assert key in CreationDates(ms);
      }
    }
  }

  lemma {:induction false} SumTallies(ms: seq<Mark>, ds: seq<string>, total: seq<nat>)
    requires |total| == |ds| && forall i :: 0 <= i < |ds| ==> total[i] == CreatedOn(ms, ds[i])
    ensures Sum(total) == Tallied(ms, ds)
  {
    if ds != [] {
      SumTallies(ms, ds[1..], total[1..]);
    }
  }

  /** The promises of `get_task_stats` that hold of every result it computes (lines 460-499). */
  lemma StatsConsistent(s: Stats, tasks: seq<StoredTask>)
    requires IsStatsOf(s, tasks)
    ensures s.completedTasks <= s.totalTasks && s.openTasks >= 0
    ensures 0.0 <= s.completionRate <= 100.0
    ensures s.importanceCounts.high + s.importanceCounts.medium + s.importanceCounts.low <= s.totalTasks
    ensures forall i, j :: 0 <= i < j < |s.completionData.dates| ==>
      StrLess(s.completionData.dates[i], s.completionData.dates[j]) && s.completionData.dates[i] != s.completionData.dates[j]
    ensures forall i :: 0 <= i < |s.completionData.dates| ==> s.completionData.completed[i] <= s.completionData.total[i]
    ensures Sum(s.completionData.total) == KeyedCount(Marks(tasks))
  {
    ImportanceCountsBounded(tasks);
    CreationDatesMembers(Marks(tasks));
    var cd := s.completionData;
    forall i, j | 0 <= i < j < |cd.dates|
      ensures StrLess(cd.dates[i], cd.dates[j]) && cd.dates[i] != cd.dates[j]
    {
      AscendingPairwise(cd.dates, i, j);
    }
    SumTallies(Marks(tasks), cd.dates, cd.total);
    TalliedCountsKeyed(Marks(tasks), cd.dates);
  }

  /** A row with a non-empty due date lies in its own bucket and in no other (lines 473-479). */
  lemma BucketsPartitionDueRows(s: Stats, tasks: seq<StoredTask>, i: int)
    requires IsStatsOf(s, tasks) && 0 <= i < |tasks|
    ensures tasks[i].dueDate.Some? && tasks[i].dueDate.value != "" ==>
      tasks[i].dueDate.value in s.tasksByDate && tasks[i] in s.tasksByDate[tasks[i].dueDate.value]
    ensures forall d :: d in s.tasksByDate && tasks[i] in s.tasksByDate[d] ==> tasks[i].dueDate == Some(d)
  {
    var t := tasks[i];
    assert t in multiset(tasks);
    forall d | true ensures forall u :: multiset(TasksDueOn(tasks, d))[u] == if u.dueDate == Some(d) then multiset(tasks)[u] else 0 {
      TasksDueOnExactly(tasks, d);
    }
    if t.dueDate.Some? && t.dueDate.value != "" {
      var d := t.dueDate.value;
      assert d in DueDates(tasks);
      assert multiset(TasksDueOn(tasks, d))[t] > 0;
    }
    forall d | d in s.tasksByDate && t in s.tasksByDate[d] ensures t.dueDate == Some(d) {
      assert t in multiset(TasksDueOn(tasks, d));
    }
  }
}
