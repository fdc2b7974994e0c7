/** The memo-refinement workflow of the daily-agent module: the state record
    threaded through the graph, the way the graph executor merges a node's
    partial update into it, the three nodes, the routing rule after Reflect,
    and the execution of the graph Planning -> Reflect -> (Generate | Planning)
    -> END, both as a function (the specification) and as a driver loop.

    The language model is an oracle. A free-form chat call is answered by
    `chat(n, messages)`, where `n` numbers the chat calls of one run from 0
    (so repeated calls with the same prompt may get different answers); the
    structured call is answered by `structured(messages)`. Either may fail
    with `ModelCallError`. */
module AgentGraph {
  import opened Text

  /** The marker phrase ("sufficient") the Reflect prompt asks the model to
      answer with, and which the routing rule looks for. */
  const SENTINEL: string := "충분함"

  /** The iteration count at which Reflect short-circuits and the routing
      rule forces Generate. */
  const RETRY_CEILING: int := 3

  datatype Option<T> = None | Some(value: T)

  /** The structured report: its two active fields. */
  datatype FinalReport = FinalReport(title: string, refinedText: string)

  /** `AgentState`. `refinedNote` is `None` while the key is absent. */
  datatype AgentState = AgentState(
    userRequest: string,
    researchPlan: string,
    reflectionFeedback: string,
    refinedNote: Option<FinalReport>,
    iterationCount: int)

  /** A node's return value: the keys it sets, each optional. */
  datatype Update = Update(
    researchPlan: Option<string>,
    reflectionFeedback: Option<string>,
    refinedNote: Option<FinalReport>,
    iterationCount: Option<int>)

  /** The fixed texts the prompts are built from. */
  datatype Fixed = SystemPersona | TaskPlanning | MemoHeader | ReflectInstruction | PlanLabel | SourceLabel

  /** A piece of a message: a fixed text, or text taken from the state. */
  datatype Segment = FixedText(fixed: Fixed) | Input(text: string)

  /** A chat message, kept as the pieces its text is concatenated from;
      `Content` gives the text itself. */
  datatype Message = SystemMessage(parts: seq<Segment>) | HumanMessage(parts: seq<Segment>)

  datatype Reply<T> = Answer(value: T) | ModelCallError

  /** A node's update together with the number of the next chat call. */
  datatype NodeOutput = NodeOutput(update: Update, nextCall: nat)

  datatype Node = Planning | Reflect | Generate | End

  datatype Route = ToGenerate | Retry

  /** `AsWritten` is the program as it stands. `CountedReflect` is the
      evidently intended design in which every Reflect evaluation that asks
      the model adds 1 to the iteration count, so that the ceiling can fire. */
  datatype Variant = AsWritten | CountedReflect

  /** One executed node and the state right after its update was merged. */
  datatype Visit = Visit(node: Node, after: AgentState)

  /** How a run ended: reached END with a final state and the number of the
      next chat call; a model call failed; or the step budget ran out. */
  datatype RunEnd = Completed(final: AgentState, nextCall: nat) | Aborted | StepLimit

  datatype RunResult = RunResult(trace: seq<Visit>, end: RunEnd)

  /** The state both entry points pass to the graph: the request, empty plan
      and feedback, no report, count 0. */
  function InitialState(request: string): (s: AgentState)
    ensures s.userRequest == request && s.iterationCount == 0 && s.refinedNote == None
  {
    AgentState(request, "", "", None, 0)
  }

  /** The executor's merge: a key present in the update overwrites the
      state's value, except `iteration_count`, whose reducer is addition. */
  function Merge(s: AgentState, u: Update): AgentState
  {
    AgentState(
      s.userRequest,
      if u.researchPlan.Some? then u.researchPlan.value else s.researchPlan,
      if u.reflectionFeedback.Some? then u.reflectionFeedback.value else s.reflectionFeedback,
      if u.refinedNote.Some? then u.refinedNote else s.refinedNote,
      s.iterationCount + (if u.iterationCount.Some? then u.iterationCount.value else 0))
  }

  /** What a merge does to each field: the request is never touched, the
      count is summed (the `operator.add` reducer), and every other field
      takes the update's value when the update has the key and keeps the
      state's value when it does not. */
  lemma MergeSemantics(s: AgentState, u: Update)
    ensures Merge(s, u).userRequest == s.userRequest
    ensures Merge(s, u).iterationCount == s.iterationCount + (if u.iterationCount.Some? then u.iterationCount.value else 0)
    ensures u.researchPlan.Some? ==> Merge(s, u).researchPlan == u.researchPlan.value
    ensures u.reflectionFeedback.Some? ==> Merge(s, u).reflectionFeedback == u.reflectionFeedback.value
    ensures u.refinedNote.Some? ==> Merge(s, u).refinedNote == u.refinedNote
    ensures u.researchPlan.None? ==> Merge(s, u).researchPlan == s.researchPlan
    ensures u.reflectionFeedback.None? ==> Merge(s, u).reflectionFeedback == s.reflectionFeedback
    ensures u.refinedNote.None? ==> Merge(s, u).refinedNote == s.refinedNote
  {
  }

  /** The fixed prompt texts, as the source writes them. */
  function Wording(f: Fixed): string
  {
    match f
    case SystemPersona =>
      "너는 파편화된 모든 종류의 데이터를 분석하여 논리적인 리포트로 변환하는 '범용 지식 정리 전문가'야.\n"
      + "1. 입력된 텍스트의 주제를 최우선으로 파악한다.\n"
      + "2. 단어 나열식, 불완전한 문장들을 문맥에 맞는 자연스러운 서술형 문장으로 복원한다.\n"
      + "3. 정보의 누락 없이 가독성 있는 섹션으로 구분하여 정리한다."
    case TaskPlanning =>
      "메모를 분석하여 핵심 주제를 식별하고 각 항목을 논리적으로 그룹화하여 문장으로 복원할 계획을 세워줘."
    case MemoHeader => "\n\n[입력 메모]\n"
    case ReflectInstruction =>
      "작성된 계획이 원본 메모의 모든 정보를 포함하는지 확인해. 충분하면 '충분함'을 답해줘."
    case PlanLabel => "\n\n계획: "
    case SourceLabel => "\n원본: "
  }

  function Piece(g: Segment): string
  {
    match g
    case FixedText(f) => Wording(f)
    case Input(t) => t
  }

  /** The text of a sequence of pieces: their concatenation. */
  function Render(parts: seq<Segment>): string
  {
    if parts == [] then [] else Piece(parts[0]) + Render(parts[1..])
  }

  /** The text a message carries. */
  function Content(m: Message): string
  {
    Render(m.parts)
  }

  /** The Plan prompt: the persona as a system message, then the planning
      instruction followed by the memo. */
  function PlanningMessages(request: string): seq<Message>
  {
    [SystemMessage([FixedText(SystemPersona)]),
     HumanMessage([FixedText(TaskPlanning), FixedText(MemoHeader), Input(request)])]
  }

  /** The Reflect prompt: the instruction, the current plan and the memo. */
  function ReflectMessages(plan: string, request: string): seq<Message>
  {
    [HumanMessage([FixedText(ReflectInstruction), FixedText(PlanLabel), Input(plan), FixedText(SourceLabel), Input(request)])]
  }

  /** The Generate prompt: the memo alone, without the persona or any
      instruction. */
  function GenerateMessages(request: string): (m: seq<Message>)
    ensures |m| == 1 && m[0].HumanMessage? && Content(m[0]) == request
  {
    assert Render([Input(request)]) == request + [];
    [HumanMessage([Input(request)])]
  }

  /** `planning_node`: asks for a plan and stores the reply as the plan. */
  function PlanningNode(s: AgentState, chat: (nat, seq<Message>) -> Reply<string>, k: nat): (r: Reply<NodeOutput>)
    ensures r.ModelCallError? <==> chat(k, PlanningMessages(s.userRequest)).ModelCallError?
    ensures r.Answer? ==> r.value.nextCall == k + 1
    ensures r.Answer? ==>
      Merge(s, r.value.update) == s.(researchPlan := chat(k, PlanningMessages(s.userRequest)).value)
  {
    match chat(k, PlanningMessages(s.userRequest))
    case ModelCallError => ModelCallError
    case Answer(text) => Answer(NodeOutput(Update(Some(text), None, None, None), k + 1))
  }

  /** `reflect_node`: at or above the ceiling it answers the sentinel itself
      without a model call; otherwise the model's reply becomes the feedback. */
  function ReflectNode(s: AgentState, chat: (nat, seq<Message>) -> Reply<string>, k: nat, v: Variant): (r: Reply<NodeOutput>)
    ensures s.iterationCount >= RETRY_CEILING ==>
      r.Answer? && r.value.nextCall == k && Merge(s, r.value.update) == s.(reflectionFeedback := SENTINEL)
    ensures s.iterationCount < RETRY_CEILING ==>
      (r.ModelCallError? <==> chat(k, ReflectMessages(s.researchPlan, s.userRequest)).ModelCallError?)
    ensures s.iterationCount < RETRY_CEILING && r.Answer? ==>
      && r.value.nextCall == k + 1
      && Merge(s, r.value.update) == s.(
           reflectionFeedback := chat(k, ReflectMessages(s.researchPlan, s.userRequest)).value,
           iterationCount := s.iterationCount + (if v == CountedReflect then 1 else 0))
  {
    if s.iterationCount >= RETRY_CEILING then
      Answer(NodeOutput(Update(None, Some(SENTINEL), None, None), k))
    else
      match chat(k, ReflectMessages(s.researchPlan, s.userRequest))
      case ModelCallError => ModelCallError
      case Answer(text) =>
        Answer(NodeOutput(Update(None, Some(text), None, if v == CountedReflect then Some(1) else None), k + 1))
  }

  /** `generate_report_node`: the structured reply becomes the report and the
      count is increased by 1; no chat call is made. */
  function GenerateNode(s: AgentState, structured: seq<Message> -> Reply<FinalReport>, k: nat): (r: Reply<NodeOutput>)
    ensures r.ModelCallError? <==> structured(GenerateMessages(s.userRequest)).ModelCallError?
    ensures r.Answer? ==> r.value.nextCall == k
    ensures r.Answer? ==>
      Merge(s, r.value.update) == s.(
        refinedNote := Some(structured(GenerateMessages(s.userRequest)).value),
        iterationCount := s.iterationCount + 1)
  {
    match structured(GenerateMessages(s.userRequest))
    case ModelCallError => ModelCallError
    case Answer(report) => Answer(NodeOutput(Update(None, None, Some(report), Some(1)), k))
  }

  /** `decide_next_step`: Generate when the feedback contains the sentinel
      anywhere, or the count has reached the ceiling; retry otherwise. */
  function DecideNextStep(s: AgentState): (r: Route)
    ensures r == ToGenerate <==>
      OccursIn(s.reflectionFeedback, SENTINEL) || s.iterationCount >= RETRY_CEILING
  {
    if Contains(s.reflectionFeedback, SENTINEL) || s.iterationCount >= RETRY_CEILING then ToGenerate else Retry
  }

  /** The graph's edges, evaluated on the state after the node's update. */
  function Successor(node: Node, s: AgentState): Node
  {
    match node
    case Planning => Reflect
    case Reflect => if DecideNextStep(s) == ToGenerate then Generate else Planning
    case Generate => End
    case End => End
  }

  /** The wiring: Planning is followed by Reflect; Reflect by Generate when
      the feedback contains the sentinel or the count reached the ceiling,
      by Planning otherwise; Generate by END. */
  lemma SuccessorFollowsWiring(node: Node, s: AgentState)
    ensures node == Planning ==> Successor(node, s) == Reflect
    ensures node == Reflect ==>
      Successor(node, s) == if OccursIn(s.reflectionFeedback, SENTINEL) || s.iterationCount >= RETRY_CEILING
                            then Generate else Planning
    ensures node == Generate || node == End ==> Successor(node, s) == End
  {
  }

  function RunNode(
    node: Node, s: AgentState, k: nat,
    chat: (nat, seq<Message>) -> Reply<string>,
    structured: seq<Message> -> Reply<FinalReport>,
    v: Variant): Reply<NodeOutput>
    requires node != End
  {
    match node
    case Planning => PlanningNode(s, chat, k)
    case Reflect => ReflectNode(s, chat, k, v)
    case Generate => GenerateNode(s, structured, k)
  }

  /** Executes the graph from `node` in state `s`, with `k` the number of the
      next chat call and at most `fuel` node executions; running out of fuel
      stands for the graph library's recursion limit. */
  function Exec(
    node: Node, s: AgentState, k: nat, fuel: nat,
    chat: (nat, seq<Message>) -> Reply<string>,
    structured: seq<Message> -> Reply<FinalReport>,
    v: Variant): RunResult
    decreases fuel, 1
  {
    if node == End then RunResult([], Completed(s, k))
    else if fuel == 0 then RunResult([], StepLimit)
    else Continue(node, s, RunNode(node, s, k, chat, structured, v), fuel - 1, chat, structured, v)
  }

  /** The rest of a run once `node` has produced `out` in state `s`: a
      failed model call aborts the run; otherwise the update is merged, the
      visit recorded and the run goes on along the edge with `fuel` steps. */
  function Continue(
    node: Node, s: AgentState, out: Reply<NodeOutput>, fuel: nat,
    chat: (nat, seq<Message>) -> Reply<string>,
    structured: seq<Message> -> Reply<FinalReport>,
    v: Variant): RunResult
    decreases fuel, 2
  {
    match out
    case ModelCallError => RunResult([], Aborted)
    case Answer(o) =>
      var next := Merge(s, o.update);
      var rest := Exec(Successor(node, next), next, o.nextCall, fuel, chat, structured, v);
      RunResult([Visit(node, next)] + rest.trace, rest.end)
  }

  /** One step of a run: the node runs, its update is merged, and the rest
      of the run continues from the successor with one step less. */
  lemma ExecStep(
    node: Node, s: AgentState, k: nat, fuel: nat,
    chat: (nat, seq<Message>) -> Reply<string>,
    structured: seq<Message> -> Reply<FinalReport>, v: Variant)
    requires node != End && fuel > 0 && RunNode(node, s, k, chat, structured, v).Answer?
    ensures var out := RunNode(node, s, k, chat, structured, v).value;
      var next := Merge(s, out.update);
      var rest := Exec(Successor(node, next), next, out.nextCall, fuel - 1, chat, structured, v);
      && Exec(node, s, k, fuel, chat, structured, v).trace == [Visit(node, next)] + rest.trace
      && Exec(node, s, k, fuel, chat, structured, v).end == rest.end
  {
  }

  /** `app_graph.invoke` on the initial state built from `request`. */
  function Invoke(
    request: string, fuel: nat,
    chat: (nat, seq<Message>) -> Reply<string>,
    structured: seq<Message> -> Reply<FinalReport>,
    v: Variant): RunResult
  {
    Exec(Planning, InitialState(request), 0, fuel, chat, structured, v)
  }

  /** The graph executor as a loop over a mutable state: run the current
      node, merge its update, follow the edge, until END or the budget is
      spent. It computes exactly the run `Exec` specifies. */
  method RunGraph(
    init: AgentState, fuel: nat,
    chat: (nat, seq<Message>) -> Reply<string>,
    structured: seq<Message> -> Reply<FinalReport>,
    v: Variant) returns (r: RunResult)
    ensures r == Exec(Planning, init, 0, fuel, chat, structured, v)
  {
    var node: Node, state: AgentState, k: nat, left: nat := Planning, init, 0, fuel;
    var trace: seq<Visit> := [];
    while node != End && left > 0
      invariant left <= fuel
      invariant Exec(Planning, init, 0, fuel, chat, structured, v)
        == var rest := Exec(node, state, k, left, chat, structured, v);
           RunResult(trace + rest.trace, rest.end)
      decreases left
    {
      var out := RunNode(node, state, k, chat, structured, v);
      if out.Answer? {
        ExecStep(node, state, k, left, chat, structured, v);
      }
      if out.ModelCallError? {
        assert Exec(node, state, k, left, chat, structured, v) == RunResult([], Aborted);
        assert trace + [] == trace;
        return RunResult(trace, Aborted);
      }
      var next := Merge(state, out.value.update);
      trace := trace + [Visit(node, next)];
      node, state, k, left := Successor(node, next), next, out.value.nextCall, left - 1;
    }
    assert trace + [] == trace;
    if node == End {
      r := RunResult(trace, Completed(state, k));
    } else {
      r := RunResult(trace, StepLimit);
    }
  }
}
