/** Where a chain of completed tasks leads: the stages of a continuation map, and the
    documented default pipeline. */
module Pipeline {
  import opened Base
  import opened Chaining

  const DEFAULT_POLICY := Policy(
    map["codegen" := "testing", "testing" := "review", "review" := "deploy", "repair" := "testing"], 8)

  /** From a task of type `head`, completions lead through `stages` and no further. */
  predicate LeadsThrough(continuation: map<string, string>, head: string, stages: seq<string>)
    decreases |stages|
  {
    if stages == [] then head !in continuation
    else
      && head in continuation && continuation[head] == stages[0] && '.' !in stages[0]
      && LeadsThrough(continuation, stages[0], stages[1..])
  }

  /** The tasks generated when a task and then each continuation of it completes, with these
      ids for the generated tasks. */
  function Continuations(policy: Policy, t: Task, ids: seq<string>): seq<Task>
    decreases |ids|
  {
    if ids == [] then []
    else
      match Followup(policy, Report(t, true, ids[0]))
      case None => []
      case Some(child) => [child] + Continuations(policy, child, ids[1..])
  }

  /** A generated type's head is the stage it was generated for. */
  lemma {:induction false} HeadOfGenerated(stage: string)
    requires '.' !in stage
    ensures Head(stage + ".auto") == stage
  {
    if stage == [] {
      assert stage + ".auto" == ".auto";
    } else {
      assert (stage + ".auto")[1..] == stage[1..] + ".auto";
      HeadOfGenerated(stage[1..]);
      assert stage == [stage[0]] + stage[1..];
    }
  }

  /** The continuation of one completed task. */
  lemma OneStage(policy: Policy, t: Task, id: string, stages: seq<string>)
    requires LeadsThrough(policy.continuation, Head(t.taskType), stages)
    ensures var child := Followup(policy, Report(t, true, id));
            && (child.Some? <==> stages != [] && MetaOf(t).depth < policy.maxDepth)
            && (child.Some? ==>
                  && child.value.id == id && child.value.taskType == stages[0] + ".auto"
                  && Head(child.value.taskType) == stages[0] && MetaOf(child.value).depth == MetaOf(t).depth + 1)
  {
    if stages != [] {
      HeadOfGenerated(stages[0]);
    }
  }

  /** If every task completes, the generated tasks are one per remaining stage, in order, cut
      off only by the depth bound. */
  lemma {:induction false} PipelineFollows(policy: Policy, t: Task, ids: seq<string>, stages: seq<string>)
    requires LeadsThrough(policy.continuation, Head(t.taskType), stages) && |ids| >= |stages|
    ensures var tasks := Continuations(policy, t, ids);
            && |tasks| == Min(|stages|, Max(0, policy.maxDepth - MetaOf(t).depth))
            && forall i :: 0 <= i < |tasks| ==> tasks[i].taskType == stages[i] + ".auto" && tasks[i].id == ids[i]
    decreases |ids|
  {
    if ids != [] {
      OneStage(policy, t, ids[0], stages);
      var child := Followup(policy, Report(t, true, ids[0]));
      if child.Some? {
        PipelineFollows(policy, child.value, ids[1..], stages[1..]);
      }
    }
  }

  /** Under the default policy nothing is generated deeper than 8. */
  lemma DefaultDepth(r: Report)
    ensures Followup(DEFAULT_POLICY, r).Some? ==> 0 < MetaOf(Followup(DEFAULT_POLICY, r).value).depth - MetaOf(r.task).depth
                                                  && MetaOf(Followup(DEFAULT_POLICY, r).value).depth <= 8
    ensures Head(r.task.taskType) == "codegen" && r.completed && MetaOf(r.task).depth < 8 ==> Followup(DEFAULT_POLICY, r).Some?
  {
    FollowupMetaIfAny(DEFAULT_POLICY, r);
  }

  lemma FollowupMetaIfAny(policy: Policy, r: Report)
    ensures Followup(policy, r).Some? ==>
              MetaOf(Followup(policy, r).value).depth == MetaOf(r.task).depth + 1
              && MetaOf(Followup(policy, r).value).depth <= policy.maxDepth
  {
    if Followup(policy, r).Some? {
      FollowupMeta(policy, r);
    }
  }

  /** The documented pipeline: generated code is tested, reviewed and deployed; a repair is
      tested and then follows the same way; deploy is terminal. */
  lemma DefaultStages()
    ensures LeadsThrough(DEFAULT_POLICY.continuation, "codegen", ["testing", "review", "deploy"])
    ensures LeadsThrough(DEFAULT_POLICY.continuation, "repair", ["testing", "review", "deploy"])
    ensures LeadsThrough(DEFAULT_POLICY.continuation, "deploy", [])
  {
    var m := DEFAULT_POLICY.continuation;
    assert LeadsThrough(m, "deploy", []);
    assert LeadsThrough(m, "review", ["deploy"]) by {
      assert ["deploy"][1..] == [];
    }
    assert LeadsThrough(m, "testing", ["review", "deploy"]) by {
      assert ["review", "deploy"][1..] == ["deploy"];
    }
    assert ["testing", "review", "deploy"][1..] == ["review", "deploy"];
  }
}
