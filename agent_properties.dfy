/** What the refinement workflow guarantees, and what it does not: the shape
    of every completed run, which node may touch which field, where the
    report comes from, and what the iteration ceiling does (nothing, as
    written) and would do (bound the run, once Reflect is counted). */
module AgentProperties {
  import opened Text
  import opened AgentGraph

  /** The nodes a trace visited, in order. */
  function Nodes(trace: seq<Visit>): (ns: seq<Node>)
    ensures |ns| == |trace| && forall i :: 0 <= i < |trace| ==> ns[i] == trace[i].node
  {
    if trace == [] then [] else [trace[0].node] + Nodes(trace[1..])
  }

  /** The run shapes the graph's edges allow when they end at END: from
      Planning, Planning then the Reflect shape; from Reflect, Reflect then
      either Generate alone or the Planning shape. Read as a grammar, a run
      from Planning is Plan Reflect (Plan Reflect)* Generate. */
  ghost predicate CyclesThenGenerate(ns: seq<Node>, first: Node)
    decreases |ns|
  {
    && |ns| >= 2
    && ns[0] == first
    && if first == Planning then CyclesThenGenerate(ns[1..], Reflect)
       else first == Reflect && (ns[1..] == [Generate] || CyclesThenGenerate(ns[1..], Planning))
  }

  /** The same shape spelled out: odd length at least 3, Plan and Reflect
      alternating, and a single Generate, at the end. */
  lemma {:induction false} CyclesThenGenerateExplicit(ns: seq<Node>, first: Node)
    requires CyclesThenGenerate(ns, first)
    ensures first == Planning ==> |ns| >= 3 && |ns| % 2 == 1
    ensures first == Reflect ==> |ns| % 2 == 0
    ensures ns[|ns| - 1] == Generate
    ensures forall i :: 0 <= i < |ns| - 1 ==>
      ns[i] == (if (i % 2 == 0) == (first == Planning) then Planning else Reflect)
    decreases |ns|
  {
    var tail := ns[1..];
    if first == Planning {
      CyclesThenGenerateExplicit(tail, Reflect);
    } else if tail != [Generate] {
      CyclesThenGenerateExplicit(tail, Planning);
    }
    forall i | 1 <= i < |ns| - 1
      ensures ns[i] == (if (i % 2 == 0) == (first == Planning) then Planning else Reflect)
    {
      assert ns[i] == tail[i - 1];
    }
  }

  /** Executing Generate: the report is the structured answer to the memo
      alone, the count goes up by one, and the run ends right after. */
  lemma GenerateStep(
    s: AgentState, k: nat, fuel: nat,
    chat: (nat, seq<Message>) -> Reply<string>,
    structured: seq<Message> -> Reply<FinalReport>, v: Variant)
    ensures var r := Exec(Generate, s, k, fuel, chat, structured, v);
      r.end.Completed? ==>
        && structured(GenerateMessages(s.userRequest)).Answer?
        && r.end.final == s.(refinedNote := Some(structured(GenerateMessages(s.userRequest)).value),
                             iterationCount := s.iterationCount + 1)
        && r.trace == [Visit(Generate, r.end.final)]
        && r.end.nextCall == k
  {
    if fuel > 0 && structured(GenerateMessages(s.userRequest)).Answer? {
      var out := GenerateNode(s, structured, k);
      var next := Merge(s, out.value.update);
      assert Exec(End, next, k, fuel - 1, chat, structured, v) == RunResult([], Completed(next, k));
    }
  }

  /** Along any run the edges of the graph are followed: the run starts
      at `node`, and each visited node is the successor of the one before,
      evaluated on the state that node left. */
  lemma {:induction false} RunFollowsGraph(
    node: Node, s: AgentState, k: nat, fuel: nat,
    chat: (nat, seq<Message>) -> Reply<string>,
    structured: seq<Message> -> Reply<FinalReport>, v: Variant)
    requires node != End
    ensures var r := Exec(node, s, k, fuel, chat, structured, v);
      && (|r.trace| > 0 ==> r.trace[0].node == node)
      && (forall i :: 0 <= i < |r.trace| - 1 ==> r.trace[i + 1].node == Successor(r.trace[i].node, r.trace[i].after))
    decreases fuel
  {
    var r := Exec(node, s, k, fuel, chat, structured, v);
    if fuel > 0 {
      var out := RunNode(node, s, k, chat, structured, v);
      if out.Answer? {
        var next := Merge(s, out.value.update);
        var succ := Successor(node, next);
        var rest := Exec(succ, next, out.value.nextCall, fuel - 1, chat, structured, v);
        ExecStep(node, s, k, fuel, chat, structured, v);
        if succ != End {
          RunFollowsGraph(succ, next, out.value.nextCall, fuel - 1, chat, structured, v);
          assert var rr := Exec(succ, next, out.value.nextCall, fuel - 1, chat, structured, v);
            && (|rr.trace| > 0 ==> rr.trace[0].node == succ)
            && (forall j :: 0 <= j < |rr.trace| - 1 ==> rr.trace[j + 1].node == Successor(rr.trace[j].node, rr.trace[j].after));
          assert r.trace[0] == Visit(node, next);
          forall i | 0 <= i < |r.trace| - 1
            ensures r.trace[i + 1].node == Successor(r.trace[i].node, r.trace[i].after)
          {
            assert r.trace[i + 1] == rest.trace[i];
            if i > 0 { assert r.trace[i] == rest.trace[i - 1]; }
          }
        }
      }
    }
  }

  /** No node changes `user_request`: every visited state carries the
      request the run started with. */
  lemma {:induction false} RequestNeverChanges(
    node: Node, s: AgentState, k: nat, fuel: nat,
    chat: (nat, seq<Message>) -> Reply<string>,
    structured: seq<Message> -> Reply<FinalReport>, v: Variant)
    requires node != End
    ensures var r := Exec(node, s, k, fuel, chat, structured, v);
      forall i :: 0 <= i < |r.trace| ==> r.trace[i].after.userRequest == s.userRequest
    decreases fuel
  {
    var r := Exec(node, s, k, fuel, chat, structured, v);
    if fuel > 0 {
      var out := RunNode(node, s, k, chat, structured, v);
      if out.Answer? {
        var next := Merge(s, out.value.update);
        var succ := Successor(node, next);
        var rest := Exec(succ, next, out.value.nextCall, fuel - 1, chat, structured, v);
        ExecStep(node, s, k, fuel, chat, structured, v);
        if succ != End {
          RequestNeverChanges(succ, next, out.value.nextCall, fuel - 1, chat, structured, v);
          assert var rr := Exec(succ, next, out.value.nextCall, fuel - 1, chat, structured, v);
            forall j :: 0 <= j < |rr.trace| ==> rr.trace[j].after.userRequest == next.userRequest;
          assert r.trace[0] == Visit(node, next);
          forall i | 1 <= i < |r.trace| ensures r.trace[i].after.userRequest == s.userRequest {
            assert r.trace[i] == rest.trace[i - 1];
          }
        }
      }
    }
  }

  /** A completed run ends with Generate, and its final state is the state
      that Generate left. */
  lemma {:induction false} CompletedEndsWithGenerate(
    node: Node, s: AgentState, k: nat, fuel: nat,
    chat: (nat, seq<Message>) -> Reply<string>,
    structured: seq<Message> -> Reply<FinalReport>, v: Variant)
    requires node != End
    ensures var r := Exec(node, s, k, fuel, chat, structured, v);
      r.end.Completed? ==>
        |r.trace| > 0 && r.trace[|r.trace| - 1].node == Generate && r.trace[|r.trace| - 1].after == r.end.final
    decreases fuel
  {
    var r := Exec(node, s, k, fuel, chat, structured, v);
    if fuel > 0 {
      var out := RunNode(node, s, k, chat, structured, v);
      if out.Answer? {
        var next := Merge(s, out.value.update);
        var succ := Successor(node, next);
        var rest := Exec(succ, next, out.value.nextCall, fuel - 1, chat, structured, v);
        ExecStep(node, s, k, fuel, chat, structured, v);
        if succ == End {
          assert node == Generate;
        } else {
          CompletedEndsWithGenerate(succ, next, out.value.nextCall, fuel - 1, chat, structured, v);
          assert r.end.Completed? ==> r.trace[|r.trace| - 1] == rest.trace[|rest.trace| - 1];
        }
      }
    }
  }

  /** Only Generate sets the report: starting without a report, a visited
      state has a report exactly when it is the state after Generate. */
  lemma {:induction false} ReportOnlyFromGenerate(
    node: Node, s: AgentState, k: nat, fuel: nat,
    chat: (nat, seq<Message>) -> Reply<string>,
    structured: seq<Message> -> Reply<FinalReport>, v: Variant)
    requires node != End && s.refinedNote == None
    ensures var r := Exec(node, s, k, fuel, chat, structured, v);
      forall i :: 0 <= i < |r.trace| ==> (r.trace[i].after.refinedNote.Some? <==> r.trace[i].node == Generate)
    decreases fuel
  {
    var r := Exec(node, s, k, fuel, chat, structured, v);
    if fuel > 0 {
      var out := RunNode(node, s, k, chat, structured, v);
      if out.Answer? {
        var next := Merge(s, out.value.update);
        var succ := Successor(node, next);
        var rest := Exec(succ, next, out.value.nextCall, fuel - 1, chat, structured, v);
        ExecStep(node, s, k, fuel, chat, structured, v);
        if succ == End {
          assert node == Generate && next.refinedNote.Some?;
          assert rest.trace == [] && r.trace == [Visit(node, next)];
        } else {
          assert node != Generate && next.refinedNote == None;
          ReportOnlyFromGenerate(succ, next, out.value.nextCall, fuel - 1, chat, structured, v);
          assert var rr := Exec(succ, next, out.value.nextCall, fuel - 1, chat, structured, v);
            forall j :: 0 <= j < |rr.trace| ==> (rr.trace[j].after.refinedNote.Some? <==> rr.trace[j].node == Generate);
          assert r.trace[0] == Visit(node, next);
          forall i | 1 <= i < |r.trace|
            ensures r.trace[i].after.refinedNote.Some? <==> r.trace[i].node == Generate
          {
            assert r.trace[i] == rest.trace[i - 1];
          }
        }
      }
    }
  }

  /** Generate is visited at most once, as the last node of a run. */
  lemma {:induction false} GenerateIsLast(
    node: Node, s: AgentState, k: nat, fuel: nat,
    chat: (nat, seq<Message>) -> Reply<string>,
    structured: seq<Message> -> Reply<FinalReport>, v: Variant)
    requires node != End
    ensures var r := Exec(node, s, k, fuel, chat, structured, v);
      forall i :: 0 <= i < |r.trace| && r.trace[i].node == Generate ==> i == |r.trace| - 1
    decreases fuel
  {
    var r := Exec(node, s, k, fuel, chat, structured, v);
    if fuel > 0 {
      var out := RunNode(node, s, k, chat, structured, v);
      if out.Answer? {
        var next := Merge(s, out.value.update);
        var succ := Successor(node, next);
        var rest := Exec(succ, next, out.value.nextCall, fuel - 1, chat, structured, v);
        ExecStep(node, s, k, fuel, chat, structured, v);
        if succ == End {
          assert rest.trace == [];
        } else {
          assert node != Generate;
          GenerateIsLast(succ, next, out.value.nextCall, fuel - 1, chat, structured, v);
          assert var rr := Exec(succ, next, out.value.nextCall, fuel - 1, chat, structured, v);
            forall j :: 0 <= j < |rr.trace| && rr.trace[j].node == Generate ==> j == |rr.trace| - 1;
          assert r.trace[0] == Visit(node, next);
          forall i | 1 <= i < |r.trace| && r.trace[i].node == Generate
            ensures i == |r.trace| - 1
          {
            assert r.trace[i] == rest.trace[i - 1];
          }
        }
      }
    }
  }

  /** As written, Plan and Reflect leave the count alone: every state of a
      run has the starting count, plus one after Generate. */
  lemma {:induction false} OnlyGenerateCounts(
    node: Node, s: AgentState, k: nat, fuel: nat,
    chat: (nat, seq<Message>) -> Reply<string>,
    structured: seq<Message> -> Reply<FinalReport>)
    requires node != End
    ensures var r := Exec(node, s, k, fuel, chat, structured, AsWritten);
      forall i :: 0 <= i < |r.trace| ==>
        r.trace[i].after.iterationCount == s.iterationCount + (if r.trace[i].node == Generate then 1 else 0)
    decreases fuel
  {
    var r := Exec(node, s, k, fuel, chat, structured, AsWritten);
    if fuel > 0 {
      var out := RunNode(node, s, k, chat, structured, AsWritten);
      if out.Answer? {
        var next := Merge(s, out.value.update);
        var succ := Successor(node, next);
        var rest := Exec(succ, next, out.value.nextCall, fuel - 1, chat, structured, AsWritten);
        ExecStep(node, s, k, fuel, chat, structured, AsWritten);
        if succ == End {
          assert node == Generate && next.iterationCount == s.iterationCount + 1;
          assert rest.trace == [] && r.trace == [Visit(node, next)];
        } else {
          assert node != Generate && next.iterationCount == s.iterationCount;
          OnlyGenerateCounts(succ, next, out.value.nextCall, fuel - 1, chat, structured);
          assert var rr := Exec(succ, next, out.value.nextCall, fuel - 1, chat, structured, AsWritten);
            forall j :: 0 <= j < |rr.trace| ==>
              rr.trace[j].after.iterationCount == next.iterationCount + (if rr.trace[j].node == Generate then 1 else 0);
          assert r.trace[0] == Visit(node, next);
          forall i | 1 <= i < |r.trace|
            ensures r.trace[i].after.iterationCount
              == s.iterationCount + (if r.trace[i].node == Generate then 1 else 0)
          {
            assert r.trace[i] == rest.trace[i - 1];
          }
        }
      }
    }
  }

  /** Whatever the plans and the feedback, a completed run's report is the
      structured model's answer to the memo alone. */
  lemma {:induction false} ReportComesFromRequest(
    node: Node, s: AgentState, k: nat, fuel: nat,
    chat: (nat, seq<Message>) -> Reply<string>,
    structured: seq<Message> -> Reply<FinalReport>, v: Variant)
    requires node != End
    ensures var r := Exec(node, s, k, fuel, chat, structured, v);
      r.end.Completed? ==>
        && structured(GenerateMessages(s.userRequest)).Answer?
        && r.end.final.refinedNote == Some(structured(GenerateMessages(s.userRequest)).value)
        && r.end.final.userRequest == s.userRequest
    decreases fuel
  {
    if fuel > 0 {
      var out := RunNode(node, s, k, chat, structured, v);
      if out.Answer? {
        var next := Merge(s, out.value.update);
        var succ := Successor(node, next);
        ExecStep(node, s, k, fuel, chat, structured, v);
        if succ == End {
          assert node == Generate;
        } else {
          ReportComesFromRequest(succ, next, out.value.nextCall, fuel - 1, chat, structured, v);
        }
      }
    }
  }

  /** Two completed runs on the same memo produce the same report, even with
      different chat answers, budgets, starting plans or feedback. */
  lemma ReportDependsOnlyOnRequest(
    s1: AgentState, s2: AgentState, fuel1: nat, fuel2: nat,
    chat1: (nat, seq<Message>) -> Reply<string>,
    chat2: (nat, seq<Message>) -> Reply<string>,
    structured: seq<Message> -> Reply<FinalReport>, v1: Variant, v2: Variant)
    requires s1.userRequest == s2.userRequest
    requires Exec(Planning, s1, 0, fuel1, chat1, structured, v1).end.Completed?
    requires Exec(Planning, s2, 0, fuel2, chat2, structured, v2).end.Completed?
    ensures Exec(Planning, s1, 0, fuel1, chat1, structured, v1).end.final.refinedNote
         == Exec(Planning, s2, 0, fuel2, chat2, structured, v2).end.final.refinedNote
  {
    ReportComesFromRequest(Planning, s1, 0, fuel1, chat1, structured, v1);
    ReportComesFromRequest(Planning, s2, 0, fuel2, chat2, structured, v2);
  }

  /** Leaving the loop as written: Reflect, below the ceiling, asked the
      model, whose answer contained the sentinel, and Generate follows. */
  lemma ReflectExit(
    s: AgentState, k: nat, fuel: nat,
    chat: (nat, seq<Message>) -> Reply<string>,
    structured: seq<Message> -> Reply<FinalReport>)
    requires s.iterationCount == 0
    requires fuel > 0 && RunNode(Reflect, s, k, chat, structured, AsWritten).Answer?
    requires Successor(Reflect, Merge(s, RunNode(Reflect, s, k, chat, structured, AsWritten).value.update)) == Generate
    ensures var r := Exec(Reflect, s, k, fuel, chat, structured, AsWritten);
      r.end.Completed? ==>
        && Nodes(r.trace) == [Reflect, Generate]
        && r.end.nextCall == k + 1
        && OccursIn(r.end.final.reflectionFeedback, SENTINEL)
        && chat(k, ReflectMessages(r.end.final.researchPlan, r.end.final.userRequest))
             == Answer(r.end.final.reflectionFeedback)
  {
    var out := RunNode(Reflect, s, k, chat, structured, AsWritten);
    var next := Merge(s, out.value.update);
    assert out.value.nextCall == k + 1;
    assert next == s.(reflectionFeedback := chat(k, ReflectMessages(s.researchPlan, s.userRequest)).value);
    assert OccursIn(next.reflectionFeedback, SENTINEL);
    var rest := Exec(Generate, next, k + 1, fuel - 1, chat, structured, AsWritten);
    GenerateStep(next, k + 1, fuel - 1, chat, structured, AsWritten);
    assert Exec(Reflect, s, k, fuel, chat, structured, AsWritten).trace == [Visit(Reflect, next)] + rest.trace;
  }

  /** The Plan/Reflect loop as written, from count 0: a completed run has
      the Plan/Reflect/Generate shape, and every node before Generate made
      exactly one chat call, so the ceiling short-circuit of Reflect never
      ran. */
  lemma {:induction false} AsWrittenLoopShape(
    node: Node, s: AgentState, k: nat, fuel: nat,
    chat: (nat, seq<Message>) -> Reply<string>,
    structured: seq<Message> -> Reply<FinalReport>)
    requires node == Planning || node == Reflect
    requires s.iterationCount == 0
    ensures var r := Exec(node, s, k, fuel, chat, structured, AsWritten);
      r.end.Completed? ==>
        && CyclesThenGenerate(Nodes(r.trace), node)
        && r.end.nextCall == k + |r.trace| - 1
    decreases fuel
  {
    var r := Exec(node, s, k, fuel, chat, structured, AsWritten);
    if fuel > 0 {
      var out := RunNode(node, s, k, chat, structured, AsWritten);
      if out.Answer? {
        var next := Merge(s, out.value.update);
        var succ := Successor(node, next);
        if succ == Generate {
          assert node == Reflect;
          ReflectExit(s, k, fuel, chat, structured);
        } else {
          var rest := Exec(succ, next, k + 1, fuel - 1, chat, structured, AsWritten);
          ExecStep(node, s, k, fuel, chat, structured, AsWritten);
          assert next.iterationCount == 0 && out.value.nextCall == k + 1;
          AsWrittenLoopShape(succ, next, k + 1, fuel - 1, chat, structured);
          assert Nodes(r.trace) == [node] + Nodes(rest.trace);
        }
      }
    }
  }

  /** As written, from count 0 a completed run left the loop only because
      the model's answer to the last Reflect contained the sentinel: the
      final feedback is that answer, given to the last chat call. */
  lemma {:induction false} AsWrittenLoopExit(
    node: Node, s: AgentState, k: nat, fuel: nat,
    chat: (nat, seq<Message>) -> Reply<string>,
    structured: seq<Message> -> Reply<FinalReport>)
    requires node == Planning || node == Reflect
    requires s.iterationCount == 0
    ensures var r := Exec(node, s, k, fuel, chat, structured, AsWritten);
      r.end.Completed? ==>
        && OccursIn(r.end.final.reflectionFeedback, SENTINEL)
        && r.end.nextCall >= 1
        && chat(r.end.nextCall - 1, ReflectMessages(r.end.final.researchPlan, r.end.final.userRequest))
             == Answer(r.end.final.reflectionFeedback)
    decreases fuel
  {
    var r := Exec(node, s, k, fuel, chat, structured, AsWritten);
    if fuel > 0 {
      var out := RunNode(node, s, k, chat, structured, AsWritten);
      if out.Answer? {
        var next := Merge(s, out.value.update);
        var succ := Successor(node, next);
        if succ == Generate {
          assert node == Reflect;
          ReflectExit(s, k, fuel, chat, structured);
        } else {
          assert r.end == Exec(succ, next, k + 1, fuel - 1, chat, structured, AsWritten).end;
          assert next.iterationCount == 0;
          AsWrittenLoopExit(succ, next, k + 1, fuel - 1, chat, structured);
        }
      }
    }
  }

  /** Both entry points start the graph at count 0 without a report, so
      every completed run is Plan Reflect (Plan Reflect)* Generate, the
      count is 0 in every state before Generate and 1 after it, the report
      appears only with Generate and is the structured answer to the memo,
      and the last Reflect answer contained the sentinel. */
  lemma AsWrittenRun(
    request: string, fuel: nat,
    chat: (nat, seq<Message>) -> Reply<string>,
    structured: seq<Message> -> Reply<FinalReport>)
    ensures var r := Invoke(request, fuel, chat, structured, AsWritten);
      r.end.Completed? ==>
        && CyclesThenGenerate(Nodes(r.trace), Planning)
        && (forall i :: 0 <= i < |r.trace| - 1 ==>
              r.trace[i].after.iterationCount == 0 && r.trace[i].after.refinedNote == None)
        && r.end.final.iterationCount == 1
        && structured(GenerateMessages(request)).Answer?
        && r.end.final.refinedNote == Some(structured(GenerateMessages(request)).value)
        && r.end.nextCall == |r.trace| - 1
        && OccursIn(r.end.final.reflectionFeedback, SENTINEL)
  {
    var s := InitialState(request);
    var r := Invoke(request, fuel, chat, structured, AsWritten);
    AsWrittenLoopShape(Planning, s, 0, fuel, chat, structured);
    AsWrittenLoopExit(Planning, s, 0, fuel, chat, structured);
    ReportComesFromRequest(Planning, s, 0, fuel, chat, structured, AsWritten);
    CompletedEndsWithGenerate(Planning, s, 0, fuel, chat, structured, AsWritten);
    ReportOnlyFromGenerate(Planning, s, 0, fuel, chat, structured, AsWritten);
    GenerateIsLast(Planning, s, 0, fuel, chat, structured, AsWritten);
    OnlyGenerateCounts(Planning, s, 0, fuel, chat, structured);
    if r.end.Completed? {
      forall i | 0 <= i < |r.trace| - 1
        ensures r.trace[i].after.iterationCount == 0 && r.trace[i].after.refinedNote == None
      {
        assert r.trace[i].node != Generate;
      }
    }
  }

  /** As written, if the model never answers with the sentinel the ceiling
      never fires: Plan and Reflect alternate until the step budget is used
      up, and no report is produced, whatever the budget. */
  lemma {:induction false} AsWrittenWithoutSentinelExhaustsBudget(
    node: Node, s: AgentState, k: nat, fuel: nat,
    chat: (nat, seq<Message>) -> Reply<string>,
    structured: seq<Message> -> Reply<FinalReport>)
    requires node == Planning || node == Reflect
    requires s.iterationCount == 0
    requires forall j, m :: chat(j, m).Answer? && !OccursIn(chat(j, m).value, SENTINEL)
    ensures var r := Exec(node, s, k, fuel, chat, structured, AsWritten);
      r.end == StepLimit && |r.trace| == fuel
    decreases fuel
  {
    if fuel > 0 {
      var out := RunNode(node, s, k, chat, structured, AsWritten);
      var next := Merge(s, out.value.update);
      assert next.iterationCount == 0;
      if node == Reflect {
        assert !OccursIn(next.reflectionFeedback, SENTINEL);
      }
      AsWrittenWithoutSentinelExhaustsBudget(Successor(node, next), next, out.value.nextCall, fuel - 1, chat, structured);
    }
  }

  /** The same, from the entry point: a memo whose reflections never say
      "sufficient" gets no report, only the step-limit failure. */
  lemma AsWrittenNeverReportsWithoutSentinel(
    request: string, fuel: nat,
    chat: (nat, seq<Message>) -> Reply<string>,
    structured: seq<Message> -> Reply<FinalReport>)
    requires forall j, m :: chat(j, m).Answer? && !OccursIn(chat(j, m).value, SENTINEL)
    ensures Invoke(request, fuel, chat, structured, AsWritten).end == StepLimit
  {
    AsWrittenWithoutSentinelExhaustsBudget(Planning, InitialState(request), 0, fuel, chat, structured);
  }

  /** The number of node executions the counted design can need from `node`
      with count `count`: each counted Reflect brings the ceiling closer. */
  function StepBound(node: Node, count: int): (b: nat)
    ensures node == Planning && count == 0 ==> b == 7
    ensures node == Planning && count <= 0 ==> b >= 7
  {
    var reflectBound := if count >= RETRY_CEILING - 1 then 2 else 2 * (RETRY_CEILING - count);
    if node == Planning then 1 + reflectBound else reflectBound
  }

  /** With Reflect counted, every run from Plan or Reflect ends (at END or
      on a model failure) within `StepBound` node executions. */
  lemma {:induction false} CountedReflectBounded(
    node: Node, s: AgentState, k: nat, fuel: nat,
    chat: (nat, seq<Message>) -> Reply<string>,
    structured: seq<Message> -> Reply<FinalReport>)
    requires node == Planning || node == Reflect
    requires fuel >= StepBound(node, s.iterationCount)
    ensures var r := Exec(node, s, k, fuel, chat, structured, CountedReflect);
      r.end != StepLimit && |r.trace| <= StepBound(node, s.iterationCount)
    decreases fuel
  {
    var out := RunNode(node, s, k, chat, structured, CountedReflect);
    if out.Answer? {
      var next := Merge(s, out.value.update);
      var succ := Successor(node, next);
      ExecStep(node, s, k, fuel, chat, structured, CountedReflect);
      if succ == Generate {
        if RunNode(Generate, next, out.value.nextCall, chat, structured, CountedReflect).Answer? {
          ExecStep(Generate, next, out.value.nextCall, fuel - 1, chat, structured, CountedReflect);
        }
      } else if node == Planning {
        assert succ == Reflect && next.iterationCount == s.iterationCount;
        CountedReflectBounded(Reflect, next, out.value.nextCall, fuel - 1, chat, structured);
      } else {
        assert succ == Planning && s.iterationCount < RETRY_CEILING - 1;
        assert next.iterationCount == s.iterationCount + 1;
        CountedReflectBounded(Planning, next, out.value.nextCall, fuel - 1, chat, structured);
      }
    }
  }

  /** From the entry point, with Reflect counted, a budget of 7 node
      executions (three Plan/Reflect cycles and Generate) always suffices. */
  lemma CountedReflectTerminates(
    request: string, fuel: nat,
    chat: (nat, seq<Message>) -> Reply<string>,
    structured: seq<Message> -> Reply<FinalReport>)
    requires fuel >= 7
    ensures Invoke(request, fuel, chat, structured, CountedReflect).end != StepLimit
    ensures |Invoke(request, fuel, chat, structured, CountedReflect).trace| <= 7
  {
    CountedReflectBounded(Planning, InitialState(request), 0, fuel, chat, structured);
  }

  /** A Reflect whose feedback contains the sentinel is followed directly by
      Generate; one without it, below the ceiling, by another Plan. The
      substring test means "불충분함" ("insufficient") also counts as the
      sentinel. */
  lemma SentinelRouting(
    node: Node, s: AgentState, k: nat, fuel: nat,
    chat: (nat, seq<Message>) -> Reply<string>,
    structured: seq<Message> -> Reply<FinalReport>, v: Variant, i: nat)
    requires node != End
    requires i + 1 < |Exec(node, s, k, fuel, chat, structured, v).trace|
    requires Exec(node, s, k, fuel, chat, structured, v).trace[i].node == Reflect
    ensures var after := Exec(node, s, k, fuel, chat, structured, v).trace[i].after;
      Exec(node, s, k, fuel, chat, structured, v).trace[i + 1].node
        == if OccursIn(after.reflectionFeedback, SENTINEL) || after.iterationCount >= RETRY_CEILING
           then Generate else Planning
  {
    RunFollowsGraph(node, s, k, fuel, chat, structured, v);
  }

  /** "불충분함" contains "충분함". */
  lemma InsufficientContainsSentinel(feedback: string)
    requires feedback == "불충분함"
    ensures OccursIn(feedback, SENTINEL)
  {
    assert OccursAt(feedback, SENTINEL, 1);
  }
}
