/**
 * The task-prioritization state machine of task_prioritizer.py: the
 * pipeline state, the four nodes, the router, the fixed graph and the
 * walk that runs it. The language model is a parameter: each node hands
 * it a `Request` and gets back the reply text or the exception it raised.
 */
module Pipeline {
  import opened Wrappers
  import opened Text
  import opened JsonValue
  import opened Extraction
  import opened Records
  import opened Sorting

  const TasksParsed: string := "tasks_parsed"
  const TasksPrioritized: string := "tasks_prioritized"
  const OutputFormatted: string := "output_formatted"

  const NoTasksProvided: string := "No tasks provided."
  const NoTasksToPrioritize: string := "No tasks to prioritize."
  const ErrorBanner: string := "The following errors occurred:\n"

  /** `TaskPrioritizerState` (lines 25-31). */
  datatype State = State(
    tasks: seq<TaskRecord>,
    prioritizedTasks: seq<TaskRecord>,
    userInput: string,
    currentStep: string,
    errors: seq<string>,
    output: string)

  /** The state a run starts from (lines 328-335). */
  function InitialState(userInput: string): State {
    State([], [], userInput, "", [], "")
  }

  /** What a node asks the language model for; the prompt wording around it is not modelled. */
  datatype Request =
    | ParseRequest(userInput: string)
    | PrioritizeRequest(tasks: seq<TaskRecord>)
    | FormatRequest(prioritizedTasks: seq<TaskRecord>)

  /** `llm.invoke`: the reply's content, or the message of the exception it raised. */
  type Model = Request -> Result<string, string>

  function AppendError(st: State, msg: string): State {
    st.(errors := st.errors + [msg])
  }

  function ParseFailed(msg: string): string { "Failed to parse tasks: " + msg }
  function PrioritizeFailed(msg: string): string { "Failed to prioritize tasks: " + msg }
  function NotAList(v: Json): string { "Expected a list of tasks, got " + TypeName(v) }
  function NotADict(v: Json): string { "Expected dictionary for task, got " + TypeName(v) }

  /** items[k] is the first element that is not an object: the one the loop raises on. */
  predicate FirstNonObjectAt(items: seq<Json>, k: int) {
    0 <= k < |items| && !items[k].Obj? && forall j :: 0 <= j < k ==> items[j].Obj?
  }

  // ---------------------------------------------------------------------------
  // Nodes
  // ---------------------------------------------------------------------------

  /** What the `try` block of `parse_tasks` (lines 61-140) leaves in the state, given the extraction result. */
  ghost predicate ParseTasksDone(st: State, extracted: Result<Json, string>, st': State) {
    match extracted
    case Failure(m) => st' == AppendError(st, ParseFailed(m))
    case Success(v) =>
      if !v.Arr? then st' == AppendError(st, ParseFailed(NotAList(v)))
      else if exists k :: 0 <= k < |v.items| && !v.items[k].Obj? then
        exists k :: FirstNonObjectAt(v.items, k) && st' == AppendError(st, ParseFailed(NotADict(v.items[k])))
      else
        && st' == st.(tasks := st'.tasks, currentStep := TasksParsed)
        && |st'.tasks| == |v.items|
        && forall k :: 0 <= k < |v.items| ==> st'.tasks[k] == ParsedRecord(v.items[k].fields)
  }

  /** The loop of lines 102-133: one record per object, stopping at the first item that is not one. */
  method ParseItems(items: seq<Json>) returns (r: Result<seq<TaskRecord>, Json>)
    ensures r.Failure? ==> exists k :: FirstNonObjectAt(items, k) && r.error == items[k]
    ensures r.Success? ==> forall k :: 0 <= k < |items| ==> items[k].Obj?
    ensures r.Success? ==> |r.value| == |items|
    ensures r.Success? ==> forall k :: 0 <= k < |items| ==> r.value[k] == ParsedRecord(items[k].fields)
  {
    var parsed: seq<TaskRecord> := [];
    for i := 0 to |items|
      invariant forall k :: 0 <= k < i ==> items[k].Obj?
      invariant |parsed| == i
      invariant forall k :: 0 <= k < i ==> parsed[k] == ParsedRecord(items[k].fields)
    {
      var task := items[i];
      if !task.Obj? {
        assert FirstNonObjectAt(items, i);
        return Failure(task);
      }
      var record := ParseRecord(task.fields);
      parsed := parsed + [record];
    }
    return Success(parsed);
  }

  /** The body of that loop for one object (lines 125-132). */
  method ParseRecord(fields: seq<(string, Json)>) returns (record: TaskRecord)
    ensures record == ParsedRecord(fields)
  {
    record := ParsedRecord(fields);
  }

  /** The `try` block of `parse_tasks` (lines 61-140), from the extraction result on. */
  method ParseExtracted(st: State, extracted: Result<Json, string>) returns (st': State)
    ensures ParseTasksDone(st, extracted, st')
  {
    if extracted.Failure? {
      return AppendError(st, ParseFailed(extracted.error));
    }
    var data := extracted.value;
    if !data.Arr? {
      return AppendError(st, ParseFailed(NotAList(data)));
    }
    var parsed := ParseItems(data.items);
    if parsed.Failure? {
      return AppendError(st, ParseFailed(NotADict(parsed.error)));
    }
    return st.(tasks := parsed.value, currentStep := TasksParsed);
  }

  /**
   * `parse_tasks` (lines 37-142). An empty input only records an error. The
   * model call sits outside the `try`, so its failure escapes the node.
   */
  method ParseTasks(st: State, llm: Model, decode: Decoder) returns (r: Result<State, string>)
    ensures st.userInput == "" ==> r == Success(AppendError(st, NoTasksProvided))
    ensures st.userInput != "" ==> (r.Failure? <==> llm(ParseRequest(st.userInput)).Failure?)
    ensures st.userInput != "" && r.Failure? ==> r.error == llm(ParseRequest(st.userInput)).error
    ensures st.userInput != "" && r.Success? ==>
      ParseTasksDone(st, Extract(decode, llm(ParseRequest(st.userInput)).value), r.value)
  {
    if st.userInput == "" {
      return Success(AppendError(st, NoTasksProvided));
    }
    var response := llm(ParseRequest(st.userInput));
    if response.Failure? {
      return Failure(response.error);
    }
    var next := ParseExtracted(st, Extract(decode, response.value));
    return Success(next);
  }

  /** The records `prioritize_tasks` builds, one per object, before sorting. */
  ghost function Prioritized(items: seq<Json>, floatOf: FloatParser): (built: seq<TaskRecord>)
    requires forall k :: 0 <= k < |items| ==> items[k].Obj?
    ensures |built| == |items|
    ensures forall k :: 0 <= k < |items| ==> built[k] == PrioritizedRecord(items[k].fields, floatOf)
  {
    seq(|items|, k requires 0 <= k < |items| => PrioritizedRecord(items[k].fields, floatOf))
  }

  /** `sorted` is the stable descending sort of `built`, as `.sort(..., reverse=True)` leaves it. */
  ghost predicate StablySortedFrom(sorted: seq<TaskRecord>, built: seq<TaskRecord>) {
    NonIncreasing(sorted) && multiset(sorted) == multiset(built) && SameTies(sorted, built)
  }

  /** What the `try` block of `prioritize_tasks` (lines 173-250) leaves in the state, given the extraction result. */
  ghost predicate PrioritizeTasksDone(st: State, extracted: Result<Json, string>, floatOf: FloatParser, st': State) {
    match extracted
    case Failure(m) => st' == AppendError(st, PrioritizeFailed(m))
    case Success(v) =>
      match Elements(v)
      case Failure(m) => st' == AppendError(st, PrioritizeFailed(m))
      case Success(items) =>
        if exists k :: 0 <= k < |items| && !items[k].Obj? then
          exists k :: FirstNonObjectAt(items, k) && st' == AppendError(st, PrioritizeFailed(NotADict(items[k])))
        else
          && st' == st.(prioritizedTasks := st'.prioritizedTasks, currentStep := TasksPrioritized)
          && StablySortedFrom(st'.prioritizedTasks, Prioritized(items, floatOf))
  }

  /**
   * `prioritize_tasks` (lines 145-252). The decoded value is iterated
   * without checking that it is a list; each object becomes a record,
   * and the records are sorted in place by descending score.
   */
  method PrioritizeTasks(st: State, llm: Model, decode: Decoder, floatOf: FloatParser) returns (r: Result<State, string>)
    ensures st.tasks == [] ==> r == Success(AppendError(st, NoTasksToPrioritize))
    ensures st.tasks != [] ==> (r.Failure? <==> llm(PrioritizeRequest(st.tasks)).Failure?)
    ensures st.tasks != [] && r.Failure? ==> r.error == llm(PrioritizeRequest(st.tasks)).error
    ensures st.tasks != [] && r.Success? ==>
      PrioritizeTasksDone(st, Extract(decode, llm(PrioritizeRequest(st.tasks)).value), floatOf, r.value)
  {
    if st.tasks == [] {
      return Success(AppendError(st, NoTasksToPrioritize));
    }
    var response := llm(PrioritizeRequest(st.tasks));
    if response.Failure? {
      return Failure(response.error);
    }
    var next := PrioritizeExtracted(st, Extract(decode, response.value), floatOf);
    return Success(next);
  }

  /** The `try` block of `prioritize_tasks` (lines 173-250), from the extraction result on. */
  method PrioritizeExtracted(st: State, extracted: Result<Json, string>, floatOf: FloatParser) returns (st': State)
    ensures PrioritizeTasksDone(st, extracted, floatOf, st')
  {
    if extracted.Failure? {
      return AppendError(st, PrioritizeFailed(extracted.error));
    }
    var elements := Elements(extracted.value);
    if elements.Failure? {
      return AppendError(st, PrioritizeFailed(elements.error));
    }
    var items := elements.value;
    var built := BuildRecords(items, floatOf);
    if built.Failure? {
      return AppendError(st, PrioritizeFailed(NotADict(built.error)));
    }
    var a := new TaskRecord[|built.value|](k requires 0 <= k < |built.value| => built.value[k]);
    assert a[..] == built.value;
    SortByScore(a);
    return st.(prioritizedTasks := a[..], currentStep := TasksPrioritized);
  }

  /** The loop of lines 211-239: one record per object, with defaults, before sorting. */
  method BuildRecords(items: seq<Json>, floatOf: FloatParser) returns (r: Result<seq<TaskRecord>, Json>)
    ensures r.Failure? ==> exists k :: FirstNonObjectAt(items, k) && r.error == items[k]
    ensures r.Success? ==> (forall k :: 0 <= k < |items| ==> items[k].Obj?) && r.value == Prioritized(items, floatOf)
  {
    var built: seq<TaskRecord> := [];
    for i := 0 to |items|
      invariant forall k :: 0 <= k < i ==> items[k].Obj?
      invariant built == Prioritized(items[..i], floatOf)
    {
      var task := items[i];
      if !task.Obj? {
        assert FirstNonObjectAt(items, i);
        return Failure(task);
      }
      var record := BuildRecord(task.fields, floatOf);
      PrioritizedStep(items, i, floatOf);
      built := built + [record];
    }
    assert items[..|items|] == items;
    return Success(built);
  }

  /** The body of that loop for one object (lines 217-238). */
  method BuildRecord(fields: seq<(string, Json)>, floatOf: FloatParser) returns (record: TaskRecord)
    ensures record == PrioritizedRecord(fields, floatOf)
  {
    var score := CoerceScore(Get(fields, "priority_score", Int(0)), floatOf);
    var tags := PrioritizeTags(Get(fields, "tags", Arr([])));
    record := TaskRecord(
      Get(fields, "description", Str("")),
      Get(fields, "due_date", Str("")),
      tags,
      Get(fields, "importance", Str("")),
      score);
  }

  lemma PrioritizedStep(items: seq<Json>, i: nat, floatOf: FloatParser)
    requires i < |items| && forall k :: 0 <= k <= i ==> items[k].Obj?
    ensures Prioritized(items[..i + 1], floatOf) == Prioritized(items[..i], floatOf) + [PrioritizedRecord(items[i].fields, floatOf)]
  {
    assert items[..i + 1][..i] == items[..i];
  }

  /** `format_output` (lines 255-275): the reply becomes the output, verbatim. */
  function FormatOutput(st: State, llm: Model): (r: Result<State, string>)
    ensures r.Failure? <==> llm(FormatRequest(st.prioritizedTasks)).Failure?
    ensures r.Success? ==>
      r.value == st.(output := llm(FormatRequest(st.prioritizedTasks)).value, currentStep := OutputFormatted)
  {
    match llm(FormatRequest(st.prioritizedTasks))
    case Failure(e) => Failure(e)
    case Success(reply) => Success(st.(output := reply, currentStep := OutputFormatted))
  }

  /** `handle_errors` (lines 293-299): the banner, then every error, one per line, in the order recorded. */
  function HandleErrors(st: State): (st': State)
    ensures st' == st.(output := st'.output)
    ensures |st'.output| >= |ErrorBanner| && st'.output[..|ErrorBanner|] == ErrorBanner
  {
    st.(output := ErrorBanner + Join(st.errors, "\n"))
  }

  /** When no error spans several lines, the lines after the banner are exactly the errors. */
  lemma HandleErrorsListsErrors(st: State)
    requires |st.errors| >= 1
    requires forall i :: 0 <= i < |st.errors| ==> '\n' !in st.errors[i]
    ensures Split(HandleErrors(st).output[|ErrorBanner|..], '\n') == st.errors
  {
    var out := HandleErrors(st).output;
    assert out[|ErrorBanner|..] == Join(st.errors, "\n");
    SplitJoin(st.errors, '\n');
  }

  // ---------------------------------------------------------------------------
  // Router and graph
  // ---------------------------------------------------------------------------

  /** The nodes of the graph (lines 307-310), and END. */
  datatype Node = ParseTasksNode | PrioritizeTasksNode | FormatOutputNode | HandleErrorsNode | EndNode

  /** `router` (lines 278-290): errors first, then the step just completed. */
  function Router(st: State): (next: Node)
    ensures next == HandleErrorsNode <==> st.errors != []
    ensures next == PrioritizeTasksNode <==> st.errors == [] && st.currentStep == TasksParsed
    ensures next == FormatOutputNode <==> st.errors == [] && st.currentStep == TasksPrioritized
    ensures next == EndNode <==> st.errors == [] && st.currentStep != TasksParsed && st.currentStep != TasksPrioritized
    ensures next != ParseTasksNode
  {
    if st.errors != [] then HandleErrorsNode
    else if st.currentStep == TasksParsed then PrioritizeTasksNode
    else if st.currentStep == TasksPrioritized then FormatOutputNode
    else EndNode
  }

  /** The entry point (line 313). */
  const Entry: Node := ParseTasksNode

  /** The edges (lines 314-317): the router after parsing and prioritizing, END after the two terminal nodes. */
  function Successor(n: Node, st: State): (next: Node)
    ensures n == ParseTasksNode || n == PrioritizeTasksNode ==> next == Router(st)
    ensures n == FormatOutputNode || n == HandleErrorsNode || n == EndNode ==> next == EndNode
  {
    match n
    case ParseTasksNode => Router(st)
    case PrioritizeTasksNode => Router(st)
    case _ => EndNode
  }

  // ---------------------------------------------------------------------------
  // The walk
  // ---------------------------------------------------------------------------

  /** One element of the stream: the node that ran and the state it returned. */
  datatype Step = Step(node: Node, state: State)

  function Nodes(steps: seq<Step>): (ns: seq<Node>)
    ensures |ns| == |steps| && forall i :: 0 <= i < |steps| ==> ns[i] == steps[i].node
  {
    seq(|steps|, i requires 0 <= i < |steps| => steps[i].node)
  }

  /** The paths through the graph that a run can take. */
  predicate IsRunPath(ns: seq<Node>) {
    || ns == [ParseTasksNode, HandleErrorsNode]
    || ns == [ParseTasksNode, PrioritizeTasksNode, HandleErrorsNode]
    || ns == [ParseTasksNode, PrioritizeTasksNode, FormatOutputNode]
  }

  /** A terminal node after parsing, or after parsing and prioritizing, ends a run path. */
  lemma RunPathEnds(ns: seq<Node>, n: Node)
    requires n == HandleErrorsNode ==> ns == [ParseTasksNode] || ns == [ParseTasksNode, PrioritizeTasksNode]
    requires n == FormatOutputNode ==> ns == [ParseTasksNode, PrioritizeTasksNode]
    requires n == HandleErrorsNode || n == FormatOutputNode
    ensures IsRunPath(ns + [n])
  {
  }

  /** The steps follow the graph's edges from the entry point. */
  ghost predicate FollowsGraph(steps: seq<Step>) {
    && |steps| >= 1
    && steps[0].node == Entry
    && forall i :: 0 <= i < |steps| - 1 ==> steps[i + 1].node == Successor(steps[i].node, steps[i].state)
  }

  /**
   * Each step's state is what its node returned: the first node ran on the
   * initial state, every later one on the state its predecessor returned.
   */
  ghost predicate RanNodes(steps: seq<Step>, userInput: string, llm: Model, decode: Decoder, floatOf: FloatParser) {
    && |steps| >= 1
    && NodeResult(steps[0].node, InitialState(userInput), llm, decode, floatOf, steps[0].state)
    && forall i :: 0 <= i < |steps| - 1 ==>
      NodeResult(steps[i + 1].node, steps[i].state, llm, decode, floatOf, steps[i + 1].state)
  }

  /** Appending the result of running the next node on the last state keeps the steps run ones. */
  lemma RanNodesExtend(steps: seq<Step>, userInput: string, llm: Model, decode: Decoder, floatOf: FloatParser, st: State, step: Step)
    requires steps == [] ==> st == InitialState(userInput)
    requires steps != [] ==> RanNodes(steps, userInput, llm, decode, floatOf) && st == steps[|steps| - 1].state
    requires NodeResult(step.node, st, llm, decode, floatOf, step.state)
    ensures RanNodes(steps + [step], userInput, llm, decode, floatOf)
  {
    var all := steps + [step];
    assert all[|all| - 1] == step;
    forall i | 0 <= i < |all| - 1
      ensures NodeResult(all[i + 1].node, all[i].state, llm, decode, floatOf, all[i + 1].state)
    {
      if i + 1 < |steps| {
        assert all[i] == steps[i] && all[i + 1] == steps[i + 1];
      }
    }
  }

  function Rank(n: Node): nat {
    match n
    case ParseTasksNode => 3
    case PrioritizeTasksNode => 2
    case FormatOutputNode => 1
    case HandleErrorsNode => 1
    case EndNode => 0
  }

  /** The facts about one `parse_tasks` step the walk relies on. */
  lemma ParseTasksDoneShape(st: State, extracted: Result<Json, string>, st': State)
    requires ParseTasksDone(st, extracted, st')
    ensures st'.userInput == st.userInput && st'.prioritizedTasks == st.prioritizedTasks && st'.output == st.output
    ensures || (st'.errors == st.errors && st'.currentStep == TasksParsed)
            || (&& |st'.errors| == |st.errors| + 1 && st'.errors[..|st.errors|] == st.errors
                && st'.tasks == st.tasks && st'.currentStep == st.currentStep
                && ParseFailed("") <= st'.errors[|st.errors|])
  {
    match extracted
    case Failure(m) =>
      assert st'.errors == st.errors + [ParseFailed(m)];
    case Success(v) =>
      if !v.Arr? {
        assert st'.errors == st.errors + [ParseFailed(NotAList(v))];
      } else if exists k :: 0 <= k < |v.items| && !v.items[k].Obj? {
        var k :| FirstNonObjectAt(v.items, k) && st' == AppendError(st, ParseFailed(NotADict(v.items[k])));
        assert st'.errors == st.errors + [ParseFailed(NotADict(v.items[k]))];
      }
  }

  /** The facts about one `prioritize_tasks` step the walk relies on. */
  lemma PrioritizeTasksDoneShape(st: State, extracted: Result<Json, string>, floatOf: FloatParser, st': State)
    requires PrioritizeTasksDone(st, extracted, floatOf, st')
    ensures st'.userInput == st.userInput && st'.tasks == st.tasks && st'.output == st.output
    ensures || (st'.errors == st.errors && st'.currentStep == TasksPrioritized && NonIncreasing(st'.prioritizedTasks))
            || (&& |st'.errors| == |st.errors| + 1 && st'.errors[..|st.errors|] == st.errors
                && st'.prioritizedTasks == st.prioritizedTasks && st'.currentStep == st.currentStep
                && PrioritizeFailed("") <= st'.errors[|st.errors|])
  {
    match extracted
    case Failure(m) =>
      assert st'.errors == st.errors + [PrioritizeFailed(m)];
    case Success(v) =>
      match Elements(v)
      case Failure(m) =>
        assert st'.errors == st.errors + [PrioritizeFailed(m)];
      case Success(items) =>
        if exists k :: 0 <= k < |items| && !items[k].Obj? {
          var k :| FirstNonObjectAt(items, k) && st' == AppendError(st, PrioritizeFailed(NotADict(items[k])));
          assert st'.errors == st.errors + [PrioritizeFailed(NotADict(items[k]))];
        }
  }

  /**
   * `next` is what running `node` on `st` returns when the model call does
   * not raise: what each of the four node functions (lines 37-299) leaves
   * in the state. END runs nothing.
   */
  ghost predicate NodeResult(node: Node, st: State, llm: Model, decode: Decoder, floatOf: FloatParser, next: State) {
    match node
    case ParseTasksNode =>
      if st.userInput == "" then next == AppendError(st, NoTasksProvided)
      else
        && llm(ParseRequest(st.userInput)).Success?
        && ParseTasksDone(st, Extract(decode, llm(ParseRequest(st.userInput)).value), next)
    case PrioritizeTasksNode =>
      if st.tasks == [] then next == AppendError(st, NoTasksToPrioritize)
      else
        && llm(PrioritizeRequest(st.tasks)).Success?
        && PrioritizeTasksDone(st, Extract(decode, llm(PrioritizeRequest(st.tasks)).value), floatOf, next)
    case FormatOutputNode => FormatOutput(st, llm) == Success(next)
    case HandleErrorsNode => next == HandleErrors(st)
    case EndNode => false
  }

  /** One node run by the executor: the node's update of the state, or the model failure it lets escape. */
  method RunNode(node: Node, st: State, llm: Model, decode: Decoder, floatOf: FloatParser) returns (r: Result<State, string>)
    requires node != EndNode
    ensures r.Failure? ==> node != HandleErrorsNode && exists q :: llm(q).Failure? && r.error == llm(q).error
    ensures r.Success? ==> NodeResult(node, st, llm, decode, floatOf, r.value)
    ensures r.Success? ==> r.value.userInput == st.userInput
    ensures r.Success? && (node == ParseTasksNode || node == PrioritizeTasksNode) ==>
      r.value.errors == st.errors || (|r.value.errors| == |st.errors| + 1 && r.value.errors[..|st.errors|] == st.errors)
    ensures node == ParseTasksNode && st.userInput == "" ==> r.Success? && r.value.errors == st.errors + [NoTasksProvided]
    ensures r.Success? && node == ParseTasksNode && r.value.errors == st.errors ==> r.value.currentStep == TasksParsed
    ensures r.Success? && node == PrioritizeTasksNode && r.value.errors == st.errors ==>
      r.value.currentStep == TasksPrioritized && NonIncreasing(r.value.prioritizedTasks)
    ensures r.Success? && node == FormatOutputNode ==>
      && r.value.errors == st.errors && r.value.currentStep == OutputFormatted
      && r.value.prioritizedTasks == st.prioritizedTasks
      && llm(FormatRequest(r.value.prioritizedTasks)) == Success(r.value.output)
    ensures node == HandleErrorsNode ==> r == Success(HandleErrors(st))
  {
    match node {
      case ParseTasksNode =>
        r := ParseTasks(st, llm, decode);
        if st.userInput != "" {
          if r.Failure? {
            assert llm(ParseRequest(st.userInput)).Failure?;
          } else {
            ParseTasksDoneShape(st, Extract(decode, llm(ParseRequest(st.userInput)).value), r.value);
          }
        }
      case PrioritizeTasksNode =>
        r := PrioritizeTasks(st, llm, decode, floatOf);
        if st.tasks != [] {
          if r.Failure? {
            assert llm(PrioritizeRequest(st.tasks)).Failure?;
          } else {
            PrioritizeTasksDoneShape(st, Extract(decode, llm(PrioritizeRequest(st.tasks)).value), floatOf, r.value);
          }
        }
      case FormatOutputNode =>
        r := FormatOutput(st, llm);
        if r.Failure? {
          assert llm(FormatRequest(st.prioritizedTasks)).Failure?;
        }
      case HandleErrorsNode =>
        r := Success(HandleErrors(st));
    }
  }

  /**
   * Where the walk stands before running `node` on `st`, having collected
   * `outputs`: the steps so far follow the graph and ran their nodes, and
   * the state carries what the nodes already run established.
   */
  ghost predicate Walking(outputs: seq<Step>, node: Node, st: State, userInput: string, llm: Model, decode: Decoder, floatOf: FloatParser) {
    && (node == ParseTasksNode <==> outputs == [])
    && (node == ParseTasksNode ==> st == InitialState(userInput))
    && (outputs != [] ==> FollowsGraph(outputs) && st == outputs[|outputs| - 1].state)
    && (outputs != [] ==> RanNodes(outputs, userInput, llm, decode, floatOf))
    && (outputs != [] ==> node == Successor(outputs[|outputs| - 1].node, st))
    && st.userInput == userInput
    && (node == PrioritizeTasksNode ==> Nodes(outputs) == [ParseTasksNode] && st.errors == [] && st.currentStep == TasksParsed)
    && (node == FormatOutputNode ==>
          Nodes(outputs) == [ParseTasksNode, PrioritizeTasksNode] && st.errors == [] && NonIncreasing(st.prioritizedTasks))
    && (node == HandleErrorsNode ==>
          (Nodes(outputs) == [ParseTasksNode] || Nodes(outputs) == [ParseTasksNode, PrioritizeTasksNode]) && |st.errors| == 1)
    && (node == EndNode ==> IsRunPath(Nodes(outputs)))
    && (node == EndNode && outputs[|outputs| - 1].node == HandleErrorsNode ==>
          |st.errors| == 1 && st.output == ErrorBanner + st.errors[0])
    && (node == EndNode && outputs[|outputs| - 1].node == FormatOutputNode ==>
          && st.errors == [] && st.currentStep == OutputFormatted
          && llm(FormatRequest(st.prioritizedTasks)) == Success(st.output) && NonIncreasing(st.prioritizedTasks))
    && (userInput == "" && outputs != [] ==> st.errors == [NoTasksProvided])
    && (userInput == "" && node == HandleErrorsNode ==> Nodes(outputs) == [ParseTasksNode])
    && (userInput == "" && node == EndNode ==> Nodes(outputs) == [ParseTasksNode, HandleErrorsNode])
    && (userInput == "" ==> node != PrioritizeTasksNode && node != FormatOutputNode)
  }

  /** Appending a step extends the node sequence by its node. */
  lemma NodesAppend(steps: seq<Step>, step: Step)
    ensures Nodes(steps + [step]) == Nodes(steps) + [step.node]
  {
  }

  /** Running `parse_tasks` on the initial state keeps the walk on its paths. */
  lemma WalkFromParse(st: State, next: State, userInput: string, llm: Model, decode: Decoder, floatOf: FloatParser)
    requires Walking([], ParseTasksNode, st, userInput, llm, decode, floatOf)
    requires NodeResult(ParseTasksNode, st, llm, decode, floatOf, next)
    requires next.userInput == st.userInput
    requires next.errors == st.errors || |next.errors| == |st.errors| + 1
    requires st.userInput == "" ==> next.errors == st.errors + [NoTasksProvided]
    requires next.errors == st.errors ==> next.currentStep == TasksParsed
    ensures Walking([Step(ParseTasksNode, next)], Successor(ParseTasksNode, next), next, userInput, llm, decode, floatOf)
  {
    RanNodesExtend([], userInput, llm, decode, floatOf, st, Step(ParseTasksNode, next));
  }

  /** Running `prioritize_tasks` after a clean parse keeps the walk on its paths. */
  lemma WalkFromPrioritize(outputs: seq<Step>, st: State, next: State, userInput: string, llm: Model, decode: Decoder, floatOf: FloatParser)
    requires Walking(outputs, PrioritizeTasksNode, st, userInput, llm, decode, floatOf)
    requires NodeResult(PrioritizeTasksNode, st, llm, decode, floatOf, next)
    requires next.userInput == st.userInput
    requires next.errors == st.errors || |next.errors| == |st.errors| + 1
    requires next.errors == st.errors ==> next.currentStep == TasksPrioritized && NonIncreasing(next.prioritizedTasks)
    ensures Walking(outputs + [Step(PrioritizeTasksNode, next)], Successor(PrioritizeTasksNode, next), next, userInput, llm, decode, floatOf)
  {
    RanNodesExtend(outputs, userInput, llm, decode, floatOf, st, Step(PrioritizeTasksNode, next));
    NodesAppend(outputs, Step(PrioritizeTasksNode, next));
    var all := outputs + [Step(PrioritizeTasksNode, next)];
    assert all[|all| - 1] == Step(PrioritizeTasksNode, next);
    assert |outputs| == 1 && all[0] == outputs[0];
  }

  /** Running a terminal node ends the walk on one of its paths. */
  lemma WalkFromTerminal(outputs: seq<Step>, node: Node, st: State, next: State, userInput: string, llm: Model, decode: Decoder, floatOf: FloatParser)
    requires node == FormatOutputNode || node == HandleErrorsNode
    requires Walking(outputs, node, st, userInput, llm, decode, floatOf)
    requires NodeResult(node, st, llm, decode, floatOf, next)
    requires next.userInput == st.userInput
    requires node == FormatOutputNode ==>
      && next.errors == st.errors && next.currentStep == OutputFormatted
      && next.prioritizedTasks == st.prioritizedTasks
      && llm(FormatRequest(next.prioritizedTasks)) == Success(next.output)
    requires node == HandleErrorsNode ==> next == HandleErrors(st)
    ensures Walking(outputs + [Step(node, next)], EndNode, next, userInput, llm, decode, floatOf)
  {
    RanNodesExtend(outputs, userInput, llm, decode, floatOf, st, Step(node, next));
    NodesAppend(outputs, Step(node, next));
    RunPathEnds(Nodes(outputs), node);
    var all := outputs + [Step(node, next)];
    assert all[|all| - 1] == Step(node, next);
    assert FollowsGraph(all) by {
      assert all[|outputs| - 1] == outputs[|outputs| - 1];
      forall i | 0 <= i < |all| - 1
        ensures all[i + 1].node == Successor(all[i].node, all[i].state)
      {
        if i + 1 < |outputs| {
          assert all[i] == outputs[i] && all[i + 1] == outputs[i + 1];
        }
      }
    }
    if node == HandleErrorsNode {
      assert next.output == ErrorBanner + Join(st.errors, "\n");
      assert st.errors == [st.errors[0]];
    }
  }

  /** One step of the walk: running a node keeps the walk on its paths and moves down the graph. */
  lemma WalkStep(outputs: seq<Step>, node: Node, st: State, next: State, userInput: string, llm: Model, decode: Decoder, floatOf: FloatParser)
    requires node != EndNode
    requires Walking(outputs, node, st, userInput, llm, decode, floatOf)
    requires NodeResult(node, st, llm, decode, floatOf, next)
    requires next.userInput == st.userInput
    requires node == ParseTasksNode || node == PrioritizeTasksNode ==>
      next.errors == st.errors || (|next.errors| == |st.errors| + 1 && next.errors[..|st.errors|] == st.errors)
    requires node == ParseTasksNode && st.userInput == "" ==> next.errors == st.errors + [NoTasksProvided]
    requires node == ParseTasksNode && next.errors == st.errors ==> next.currentStep == TasksParsed
    requires node == PrioritizeTasksNode && next.errors == st.errors ==>
      next.currentStep == TasksPrioritized && NonIncreasing(next.prioritizedTasks)
    requires node == FormatOutputNode ==>
      && next.errors == st.errors && next.currentStep == OutputFormatted
      && next.prioritizedTasks == st.prioritizedTasks
      && llm(FormatRequest(next.prioritizedTasks)) == Success(next.output)
    requires node == HandleErrorsNode ==> next == HandleErrors(st)
    ensures Walking(outputs + [Step(node, next)], Successor(node, next), next, userInput, llm, decode, floatOf)
    ensures Rank(Successor(node, next)) < Rank(node)
  {
    match node
    case ParseTasksNode => WalkFromParse(st, next, userInput, llm, decode, floatOf);
    case PrioritizeTasksNode => WalkFromPrioritize(outputs, st, next, userInput, llm, decode, floatOf);
    case _ => WalkFromTerminal(outputs, node, st, next, userInput, llm, decode, floatOf);
  }

  /** What a finished walk has established about its steps. */
  lemma WalkEnded(outputs: seq<Step>, st: State, userInput: string, llm: Model, decode: Decoder, floatOf: FloatParser)
    requires Walking(outputs, EndNode, st, userInput, llm, decode, floatOf)
    ensures FollowsGraph(outputs) && IsRunPath(Nodes(outputs))
    ensures RanNodes(outputs, userInput, llm, decode, floatOf)
    ensures Successor(outputs[|outputs| - 1].node, outputs[|outputs| - 1].state) == EndNode
    ensures var last := outputs[|outputs| - 1];
      && last.state.userInput == userInput
      && (last.node == HandleErrorsNode <==> last.state.errors != [])
      && (last.node == HandleErrorsNode ==> |last.state.errors| == 1 && last.state.output == ErrorBanner + last.state.errors[0])
      && (last.node == FormatOutputNode ==>
            && last.state.currentStep == OutputFormatted
            && llm(FormatRequest(last.state.prioritizedTasks)) == Success(last.state.output)
            && NonIncreasing(last.state.prioritizedTasks))
    ensures userInput == "" ==>
      && Nodes(outputs) == [ParseTasksNode, HandleErrorsNode]
      && outputs[1].state.errors == [NoTasksProvided]
      && outputs[1].state.output == ErrorBanner + NoTasksProvided
  {
    var ns := Nodes(outputs);
    assert ns[|ns| - 1] == outputs[|outputs| - 1].node;
  }

  /**
   * `run_task_prioritizer` (lines 323-346) with LangGraph's executor made
   * explicit: start at `parse_tasks`, run the node, collect its step,
   * follow the edge, stop at END. A model failure escapes the run.
   */
  method RunTaskPrioritizer(userInput: string, llm: Model, decode: Decoder, floatOf: FloatParser)
    returns (r: Result<seq<Step>, string>)
    ensures r.Failure? ==> exists q :: llm(q).Failure? && r.error == llm(q).error
    ensures r.Success? ==> FollowsGraph(r.value) && IsRunPath(Nodes(r.value))
    ensures r.Success? ==> RanNodes(r.value, userInput, llm, decode, floatOf)
    ensures r.Success? ==> Successor(r.value[|r.value| - 1].node, r.value[|r.value| - 1].state) == EndNode
    ensures r.Success? ==> var last := r.value[|r.value| - 1];
      && last.state.userInput == userInput
      && (last.node == HandleErrorsNode <==> last.state.errors != [])
      && (last.node == HandleErrorsNode ==> |last.state.errors| == 1 && last.state.output == ErrorBanner + last.state.errors[0])
      && (last.node == FormatOutputNode ==>
            && last.state.currentStep == OutputFormatted
            && llm(FormatRequest(last.state.prioritizedTasks)) == Success(last.state.output)
            && NonIncreasing(last.state.prioritizedTasks))
    ensures userInput == "" ==>
      && r.Success?
      && Nodes(r.value) == [ParseTasksNode, HandleErrorsNode]
      && r.value[1].state.errors == [NoTasksProvided]
      && r.value[1].state.output == ErrorBanner + NoTasksProvided
  {
    var outputs: seq<Step> := [];
    var node := Entry;
    var st := InitialState(userInput);
    while node != EndNode
      invariant Walking(outputs, node, st, userInput, llm, decode, floatOf)
      decreases Rank(node)
    {
      var res := RunNode(node, st, llm, decode, floatOf);
      if res.Failure? {
        return Failure(res.error);
      }
      var next := res.value;
      WalkStep(outputs, node, st, next, userInput, llm, decode, floatOf);
      outputs := outputs + [Step(node, next)];
      st := next;
      node := Successor(node, st);
    }
    WalkEnded(outputs, st, userInput, llm, decode, floatOf);
    return Success(outputs);
  }
}
