/** The agent turn loop: the transcript one run leaves, and runs that share a
    session. */
module AgentLoop {
  import opened Options

  const DEFAULT_STEPS := 8

  datatype ToolCall = ToolCall(id: string, name: string, argumentsDecode: bool)

  datatype Message =
    | User(id: string, content: string)
    | Assistant(id: string, content: string, calls: seq<ToolCall>)
    | Tool(id: string, callID: string, name: string, output: string, error: string)

  /** What the model returned; calls may come on the turn or on the message. */
  datatype ModelTurn = ModelTurn(id: string, content: string, messageCalls: seq<ToolCall>, toolCalls: seq<ToolCall>)

  datatype Reply = Turn(turn: ModelTurn) | Nothing | Error

  /** One tool execution: the context before and after it, and its result. */
  datatype Execution = Execution(cancelledBefore: bool, cancelledAfter: bool, output: string, error: string, messageID: string)

  /** What the outside world does during one step. */
  datatype StepInput = StepInput(
    cancelled: bool, formatFails: bool, reply: Reply, cancelledOnError: bool,
    messageID: string, callIDs: seq<string>, executions: seq<Execution>)

  datatype Outcome = Completed | Interrupted | Failed

  datatype RunResult = RunResult(messages: seq<Message>, outcome: Outcome, modelCalls: nat)

  // ----- one run, as a function of what the world does -----

  /** Inputs beyond those listed: nothing happens, and the context is cancelled. */
  function ExecutionAt(executions: seq<Execution>, i: nat): Execution
  {
    if i < |executions| then executions[i] else Execution(false, false, "", "", "")
  }

  function IDAt(ids: seq<string>, i: nat): string { if i < |ids| then ids[i] else "" }

  /** Steps count from 1. */
  function InputAt(script: seq<StepInput>, step: nat): StepInput
  {
    if 0 < step <= |script| then script[step - 1] else StepInput(true, false, Nothing, false, "", [], [])
  }

  function Named(c: ToolCall, fallback: string): ToolCall { if c.id == "" then c.(id := fallback) else c }

  function TurnCalls(t: ModelTurn): seq<ToolCall> { if t.toolCalls == [] then t.messageCalls else t.toolCalls }

  function NamedCalls(calls: seq<ToolCall>, ids: seq<string>): seq<ToolCall>
  {
    seq(|calls|, i requires 0 <= i < |calls| => Named(calls[i], IDAt(ids, i)))
  }

  function Response(c: ToolCall, e: Execution): Message
  {
    Tool(e.messageID, c.id, c.name, if c.argumentsDecode then e.output else "", if c.argumentsDecode then e.error else "invalid tool arguments")
  }

  /** Tool messages for calls i onwards, and whether the run was cut short. */
  function ToolRun(calls: seq<ToolCall>, executions: seq<Execution>, i: nat): (seq<Message>, bool)
    requires i <= |calls|
    decreases |calls| - i
  {
    if i == |calls| then ([], false)
    else
      var e := ExecutionAt(executions, i);
      if e.cancelledBefore || e.cancelledAfter then ([], true)
      else
        var (rest, cut) := ToolRun(calls, executions, i + 1);
        ([Response(calls[i], e)] + rest, cut)
  }

  function Ended(outcome: Outcome, modelCalls: nat): RunResult { RunResult([], outcome, modelCalls) }

  function Then(messages: seq<Message>, modelCalls: nat, r: RunResult): RunResult
  {
    RunResult(messages + r.messages, r.outcome, modelCalls + r.modelCalls)
  }

  /** One step either ends the run or appends a whole block. */
  datatype StepResult = Ends(result: RunResult) | GoesOn(block: seq<Message>)

  function OnTurn(s: StepInput, t: ModelTurn, shouldStop: ModelTurn -> bool): StepResult
  {
    var calls := NamedCalls(TurnCalls(t), s.callIDs);
    var id := if t.id == "" then s.messageID else t.id;
    if shouldStop(t.(toolCalls := calls)) then Ends(RunResult([Assistant(id, t.content, [])], Completed, 1))
    else
      var (tools, cut) := ToolRun(calls, s.executions, 0);
      var block := [Assistant(id, t.content, calls)] + tools;
      if cut then Ends(RunResult(block, Interrupted, 1)) else GoesOn(block)
  }

  function Step(s: StepInput, shouldStop: ModelTurn -> bool): StepResult
  {
    var onError := if s.cancelledOnError then Interrupted else Failed;
    if s.cancelled then Ends(Ended(Interrupted, 0))
    else if s.formatFails then Ends(Ended(onError, 0))
    else match s.reply
         case Error => Ends(Ended(onError, 1))
         case Nothing => Ends(Ended(Failed, 1))
         case Turn(t) => OnTurn(s, t, shouldStop)
  }

  /** Steps `step` to `maxSteps`; `atLimit` is the policy's closing message. */
  function Steps(script: seq<StepInput>, shouldStop: ModelTurn -> bool, step: nat, maxSteps: nat, atLimit: Message): RunResult
    decreases maxSteps + 1 - step
  {
    if step > maxSteps then RunResult([atLimit], Completed, 0)
    else match Step(InputAt(script, step), shouldStop)
         case Ends(r) => r
         case GoesOn(block) => Then(block, 1, Steps(script, shouldStop, step + 1, maxSteps, atLimit))
  }

  function MaxSteps(policy: int): nat { if policy <= 0 then DEFAULT_STEPS else policy }

  // ----- the grammar -----

  ghost predicate Responds(tools: seq<Message>, calls: seq<ToolCall>)
  {
    |tools| <= |calls| && forall i :: 0 <= i < |tools| ==> tools[i].Tool? && tools[i].callID == calls[i].id && tools[i].name == calls[i].name
  }

  /** Blocks of one assistant message with calls and one tool message per call
      in order, then one assistant message without calls. */
  ghost predicate Body(ms: seq<Message>)
  {
    && ms != [] && ms[0].Assistant?
    && if ms[0].calls == [] then |ms| == 1
       else
         var k := |ms[0].calls|;
         |ms| > k && Responds(ms[1..k + 1], ms[0].calls) && Body(ms[k + 1..])
  }

  ghost predicate Transcript(ms: seq<Message>) { ms != [] && ms[0].User? && Body(ms[1..]) }

  /** A body cut short: whole blocks, then perhaps part of one. */
  ghost predicate PartialBody(ms: seq<Message>)
  {
    ms == [] ||
    (&& ms[0].Assistant? && ms[0].calls != []
     && var k := |ms[0].calls|;
        if |ms| <= k then Responds(ms[1..], ms[0].calls) else Responds(ms[1..k + 1], ms[0].calls) && PartialBody(ms[k + 1..]))
  }

  /** Every model turn without calls ends the run, as both harnesses decide. */
  ghost predicate StopsWithoutCalls(shouldStop: ModelTurn -> bool)
  {
    forall t: ModelTurn :: TurnCalls(t) == [] ==> shouldStop(t)
  }

  lemma {:induction false} ToolRunResponds(calls: seq<ToolCall>, executions: seq<Execution>, i: nat)
    requires i <= |calls|
    ensures var (tools, cut) := ToolRun(calls, executions, i);
            Responds(tools, calls[i..]) && (!cut ==> |tools| == |calls| - i) && (cut ==> |tools| < |calls| - i)
    decreases |calls| - i
  {
    if i < |calls| {
      ToolRunResponds(calls, executions, i + 1);
      assert calls[i..][1..] == calls[i + 1..];
      var (rest, cut) := ToolRun(calls, executions, i + 1);
      assert forall j :: 1 <= j < |[Response(calls[i], ExecutionAt(executions, i))] + rest| ==> calls[i..][j] == calls[i + 1..][j - 1];
    }
  }

  lemma BlockThenBody(a: Message, tools: seq<Message>, rest: seq<Message>)
    requires a.Assistant? && a.calls != [] && |tools| == |a.calls| && Responds(tools, a.calls)
    ensures Body([a] + tools + rest) <==> Body(rest)
    ensures PartialBody([a] + tools + rest) <==> PartialBody(rest)
  {
    var ms := [a] + tools + rest;
    assert ms[1..|tools| + 1] == tools && ms[|tools| + 1..] == rest;
  }

  ghost predicate WholeBlock(block: seq<Message>)
  {
    block != [] && block[0].Assistant? && block[0].calls != [] && |block| == |block[0].calls| + 1 && Responds(block[1..], block[0].calls)
  }

  ghost predicate FollowsGrammar(r: RunResult) { if r.outcome == Completed then Body(r.messages) else PartialBody(r.messages) }

  lemma TurnFollowsGrammar(s: StepInput, t: ModelTurn, shouldStop: ModelTurn -> bool)
    requires StopsWithoutCalls(shouldStop)
    ensures match OnTurn(s, t, shouldStop) case Ends(r) => FollowsGrammar(r) case GoesOn(block) => WholeBlock(block)
  {
    var calls := NamedCalls(TurnCalls(t), s.callIDs);
    assert calls == [] ==> TurnCalls(t.(toolCalls := calls)) == [];
    if !shouldStop(t.(toolCalls := calls)) {
      var (tools, cut) := ToolRun(calls, s.executions, 0);
      ToolRunResponds(calls, s.executions, 0);
      assert calls[0..] == calls;
      var a := Assistant(if t.id == "" then s.messageID else t.id, t.content, calls);
      assert ([a] + tools)[1..] == tools;
    }
  }

  lemma WholeBlockThenBody(block: seq<Message>, rest: seq<Message>)
    requires WholeBlock(block)
    ensures Body(block + rest) <==> Body(rest)
    ensures PartialBody(block + rest) <==> PartialBody(rest)
  {
    assert block + rest == [block[0]] + block[1..] + rest;
    BlockThenBody(block[0], block[1..], rest);
  }

  /** A run's messages: a whole body when it completes, a cut-short one when it
      is interrupted or fails. */
  lemma {:induction false} StepsFollowGrammar(script: seq<StepInput>, shouldStop: ModelTurn -> bool, step: nat, maxSteps: nat, atLimit: Message)
    requires StopsWithoutCalls(shouldStop) && atLimit.Assistant? && atLimit.calls == []
    ensures FollowsGrammar(Steps(script, shouldStop, step, maxSteps, atLimit))
    decreases maxSteps + 1 - step
  {
    if step <= maxSteps {
      var s := InputAt(script, step);
      if s.reply.Turn? { TurnFollowsGrammar(s, s.reply.turn, shouldStop); }
      if Step(s, shouldStop).GoesOn? {
        StepsFollowGrammar(script, shouldStop, step + 1, maxSteps, atLimit);
        WholeBlockThenBody(Step(s, shouldStop).block, Steps(script, shouldStop, step + 1, maxSteps, atLimit).messages);
      }
    }
  }

  lemma {:induction false} ModelCallsBounded(script: seq<StepInput>, shouldStop: ModelTurn -> bool, step: nat, maxSteps: nat, atLimit: Message)
    ensures Steps(script, shouldStop, step, maxSteps, atLimit).modelCalls <= if step <= maxSteps then maxSteps + 1 - step else 0
    decreases maxSteps + 1 - step
  {
    if step <= maxSteps { ModelCallsBounded(script, shouldStop, step + 1, maxSteps, atLimit); }
  }

  // ----- a cut-short body is a prefix of a whole one -----

  function Filler(calls: seq<ToolCall>, from: nat): seq<Message>
    requires from <= |calls|
  {
    seq(|calls| - from, i requires 0 <= i < |calls| - from => Tool("", calls[from + i].id, calls[from + i].name, "", ""))
  }

  /** One way the run could have gone on. */
  function Continuation(ms: seq<Message>): seq<Message>
  {
    if ms == [] || !ms[0].Assistant? then [Assistant("", "", [])]
    else
      var k := |ms[0].calls|;
      if |ms| <= k then Filler(ms[0].calls, |ms| - 1) + [Assistant("", "", [])] else Continuation(ms[k + 1..])
  }

  lemma FillerResponds(tools: seq<Message>, calls: seq<ToolCall>)
    requires Responds(tools, calls)
    ensures Responds(tools + Filler(calls, |tools|), calls) && |tools + Filler(calls, |tools|)| == |calls|
  {
  }

  lemma PartialBlockExtends(a: Message, tools: seq<Message>, filler: seq<Message>, last: seq<Message>)
    requires a.Assistant? && a.calls != [] && Responds(tools + filler, a.calls) && |tools + filler| == |a.calls| && Body(last)
    ensures Body([a] + tools + (filler + last))
  {
    BlockThenBody(a, tools + filler, last);
    assert [a] + tools + (filler + last) == [a] + (tools + filler) + last;
  }

  lemma ShortBodyExtends(a: Message, tools: seq<Message>)
    requires a.Assistant? && a.calls != [] && |tools| < |a.calls| && Responds(tools, a.calls)
    ensures Body([a] + tools + Continuation([a] + tools))
  {
    var last := [Assistant("", "", [])];
    FillerResponds(tools, a.calls);
    assert Body(last);
    PartialBlockExtends(a, tools, Filler(a.calls, |tools|), last);
  }

  lemma ContinuationSkipsBlock(block: seq<Message>, rest: seq<Message>)
    requires WholeBlock(block)
    ensures Continuation(block + rest) == Continuation(rest)
  {
    assert (block + rest)[|block|..] == rest;
  }

  lemma LongBodyExtends(block: seq<Message>, rest: seq<Message>, more: seq<Message>)
    requires WholeBlock(block) && Body(rest + more)
    ensures Body(block + rest + more)
  {
    assert block + rest + more == block + (rest + more);
    WholeBlockThenBody(block, rest + more);
  }

  lemma {:induction false} PartialBodyExtends(ms: seq<Message>)
    requires PartialBody(ms)
    ensures Body(ms + Continuation(ms))
    decreases |ms|
  {
    if ms != [] {
      var k := |ms[0].calls|;
      if |ms| <= k {
        assert ms == [ms[0]] + ms[1..];
        ShortBodyExtends(ms[0], ms[1..]);
      } else {
        assert ms == ms[..k + 1] + ms[k + 1..] && ms[..k + 1][1..] == ms[1..k + 1];
        PartialBodyExtends(ms[k + 1..]);
        ContinuationSkipsBlock(ms[..k + 1], ms[k + 1..]);
        LongBodyExtends(ms[..k + 1], ms[k + 1..], Continuation(ms[k + 1..]));
      }
    }
  }

  lemma TranscriptIsUserThenBody(user: Message, ms: seq<Message>)
    requires user.User?
    ensures Transcript([user] + ms) <==> Body(ms)
  {
    assert ([user] + ms)[1..] == ms;
  }

  /** The grammar of a run that begins with the user's message: complete when
      it completes; otherwise a proper prefix of a complete transcript. */
  lemma RunFollowsGrammar(user: Message, script: seq<StepInput>, shouldStop: ModelTurn -> bool, maxSteps: nat, atLimit: Message)
    requires user.User? && StopsWithoutCalls(shouldStop) && atLimit.Assistant? && atLimit.calls == []
    ensures var r := Steps(script, shouldStop, 1, maxSteps, atLimit);
            && (r.outcome == Completed ==> Transcript([user] + r.messages))
            && (r.outcome != Completed ==> Transcript([user] + (r.messages + Continuation(r.messages))) && Continuation(r.messages) != [])
            && r.modelCalls <= maxSteps
  {
    var r := Steps(script, shouldStop, 1, maxSteps, atLimit);
    StepsFollowGrammar(script, shouldStop, 1, maxSteps, atLimit);
    ModelCallsBounded(script, shouldStop, 1, maxSteps, atLimit);
    TranscriptIsUserThenBody(user, r.messages);
    TranscriptIsUserThenBody(user, r.messages + Continuation(r.messages));
    if r.outcome != Completed {
      PartialBodyExtends(r.messages);
      ContinuationNotEmpty(r.messages);
    }
  }

  lemma {:induction false} ContinuationNotEmpty(ms: seq<Message>)
    ensures Continuation(ms) != []
    decreases |ms|
  {
    if ms != [] && ms[0].Assistant? && |ms| > |ms[0].calls| { ContinuationNotEmpty(ms[|ms[0].calls| + 1..]); }
  }

  /** A one-step world that answers with `t`. */
  function Answering(t: ModelTurn): seq<StepInput> { [StepInput(false, false, Turn(t), false, "", [], [])] }

  /** The grammar needs exactly that: a harness that goes on after a turn
      without calls leaves a transcript outside the grammar. */
  lemma GrammarIffStopsWithoutCalls(shouldStop: ModelTurn -> bool, atLimit: Message)
    requires atLimit.Assistant? && atLimit.calls == []
    ensures (forall script, maxSteps :: Steps(script, shouldStop, 1, maxSteps, atLimit).outcome == Completed
                                        ==> Body(Steps(script, shouldStop, 1, maxSteps, atLimit).messages))
       <==> StopsWithoutCalls(shouldStop)
  {
    if t :| TurnCalls(t) == [] && !shouldStop(t) {
      GoingOnBreaksGrammar(shouldStop, t, atLimit);
    } else {
      forall script, maxSteps | Steps(script, shouldStop, 1, maxSteps, atLimit).outcome == Completed
        ensures Body(Steps(script, shouldStop, 1, maxSteps, atLimit).messages)
      {
        StepsFollowGrammar(script, shouldStop, 1, maxSteps, atLimit);
      }
    }
  }

  lemma GoingOnBreaksGrammar(shouldStop: ModelTurn -> bool, t: ModelTurn, atLimit: Message)
    requires TurnCalls(t) == [] && !shouldStop(t) && atLimit.Assistant?
    ensures var r := Steps(Answering(t), shouldStop, 1, 1, atLimit);
            r.outcome == Completed && !Body(r.messages)
  {
    assert t.(toolCalls := NamedCalls([], [])) == t;
    assert Steps(Answering(t), shouldStop, 2, 1, atLimit) == RunResult([atLimit], Completed, 0);
  }

  // ----- what a run appends, and how it ends -----

  /** The calls of a turn are those on the turn, or else those on its message,
      each with its own ID or, without one, the next new ID. */
  ghost predicate AreCallsOf(t: ModelTurn, ids: seq<string>, calls: seq<ToolCall>)
  {
    var given := if t.toolCalls != [] then t.toolCalls else t.messageCalls;
    |calls| == |given| && forall i :: 0 <= i < |given| ==>
      calls[i] == ToolCall(if given[i].id != "" then given[i].id else if i < |ids| then ids[i] else "", given[i].name, given[i].argumentsDecode)
  }

  /** Message j answers call j with what its execution returned, or with an
      error if its arguments did not decode. */
  ghost predicate Answers(m: Message, c: ToolCall, e: Execution)
  {
    && m.Tool? && m.id == e.messageID && m.callID == c.id && m.name == c.name
    && (c.argumentsDecode ==> m.output == e.output && m.error == e.error)
    && (!c.argumentsDecode ==> m.output == "" && m.error == "invalid tool arguments")
  }

  ghost predicate Cancels(e: Execution) { e.cancelledBefore || e.cancelledAfter }

  lemma {:induction false} ToolRunCut(calls: seq<ToolCall>, executions: seq<Execution>, i: nat)
    requires i <= |calls|
    ensures var (tools, cut) := ToolRun(calls, executions, i);
            && i + |tools| <= |calls|
            && (cut <==> i + |tools| < |calls|) && (cut ==> Cancels(ExecutionAt(executions, i + |tools|)))
    decreases |calls| - i
  {
    if i < |calls| && !Cancels(ExecutionAt(executions, i)) { ToolRunCut(calls, executions, i + 1); }
  }

  lemma {:induction false} ToolRunAnswers(calls: seq<ToolCall>, executions: seq<Execution>, i: nat, k: nat)
    requires i <= k < |calls| && k < i + |ToolRun(calls, executions, i).0|
    ensures Answers(ToolRun(calls, executions, i).0[k - i], calls[k], ExecutionAt(executions, k))
    decreases k - i
  {
    if i < k { ToolRunAnswers(calls, executions, i + 1, k); }
  }

  /** What a model turn appends: the model's text under its ID; without calls
      and as the end of the run when the harness stops; otherwise with its calls
      and one answer per call, as far as no cancellation is seen. */
  lemma TurnAppends(s: StepInput, t: ModelTurn, shouldStop: ModelTurn -> bool)
    ensures exists calls :: AreCallsOf(t, s.callIDs, calls) && TurnEndsOrGoesOn(s, t, shouldStop, calls)
  {
    var calls := NamedCalls(TurnCalls(t), s.callIDs);
    assert AreCallsOf(t, s.callIDs, calls);
    assert TurnEndsOrGoesOn(s, t, shouldStop, calls) by {
      BlockAnswers(Assistant(if t.id != "" then t.id else s.messageID, t.content, calls), s.executions);
    }
  }

  lemma BlockAnswers(a: Message, executions: seq<Execution>)
    requires a.Assistant?
    ensures var (tools, cut) := ToolRun(a.calls, executions, 0);
            TurnBlock(if cut then Ends(RunResult([a] + tools, Interrupted, 1)) else GoesOn([a] + tools), a, executions)
  {
    ToolRunCut(a.calls, executions, 0);
    var (tools, cut) := ToolRun(a.calls, executions, 0);
    forall j | 0 <= j < |tools| ensures Answers(tools[j], a.calls[j], ExecutionAt(executions, j)) {
      ToolRunAnswers(a.calls, executions, 0, j);
    }
    assert ([a] + tools)[1..] == tools;
  }

  ghost predicate TurnEndsOrGoesOn(s: StepInput, t: ModelTurn, shouldStop: ModelTurn -> bool, calls: seq<ToolCall>)
  {
    var id := if t.id != "" then t.id else s.messageID;
    if shouldStop(t.(toolCalls := calls))
    then OnTurn(s, t, shouldStop) == Ends(RunResult([Assistant(id, t.content, [])], Completed, 1))
    else TurnBlock(OnTurn(s, t, shouldStop), Assistant(id, t.content, calls), s.executions)
  }

  ghost predicate TurnBlock(r: StepResult, a: Message, executions: seq<Execution>)
    requires a.Assistant?
  {
    var block := if r.Ends? then r.result.messages else r.block;
    && block != [] && block[0] == a && |block| <= |a.calls| + 1
    && (forall j :: 0 <= j < |block| - 1 ==> Answers(block[1..][j], a.calls[j], ExecutionAt(executions, j)))
    && (r.GoesOn? ==> |block| == |a.calls| + 1)
    && (r.Ends? ==> r.result == RunResult(block, Interrupted, 1) && |block| <= |a.calls| && Cancels(ExecutionAt(executions, |block| - 1)))
  }

  /** Nothing is cancelled or fails in this step. */
  ghost predicate Smooth(s: StepInput)
  {
    !s.cancelled && !s.formatFails && s.reply.Turn? && forall i :: 0 <= i < |s.executions| ==> !Cancels(s.executions[i])
  }

  ghost predicate Stops(s: StepInput, shouldStop: ModelTurn -> bool)
    requires s.reply.Turn?
  {
    shouldStop(s.reply.turn.(toolCalls := NamedCalls(TurnCalls(s.reply.turn), s.callIDs)))
  }

  lemma SmoothStep(s: StepInput, shouldStop: ModelTurn -> bool)
    requires Smooth(s)
    ensures var t := s.reply.turn;
            if Stops(s, shouldStop)
            then Step(s, shouldStop) == Ends(RunResult([Assistant(if t.id != "" then t.id else s.messageID, t.content, [])], Completed, 1))
            else Step(s, shouldStop).GoesOn?
  {
    ToolRunCut(NamedCalls(TurnCalls(s.reply.turn), s.callIDs), s.executions, 0);
  }

  /** A run in which nothing is cancelled or fails completes: with the model's
      text at the first turn the harness stops on, after that many model calls. */
  lemma {:induction false} CompletesAtFirstStop(script: seq<StepInput>, shouldStop: ModelTurn -> bool, step: nat, k: nat, maxSteps: nat, atLimit: Message)
    requires 0 < step <= k <= maxSteps && k <= |script|
    requires forall i :: step - 1 <= i < k ==> Smooth(script[i]) && (Stops(script[i], shouldStop) ==> i == k - 1)
    requires Smooth(script[k - 1]) && Stops(script[k - 1], shouldStop)
    ensures var r, t := Steps(script, shouldStop, step, maxSteps, atLimit), script[k - 1].reply.turn;
            && r.outcome == Completed && r.modelCalls == k + 1 - step && r.messages != []
            && r.messages[|r.messages| - 1] == Assistant(if t.id != "" then t.id else script[k - 1].messageID, t.content, [])
    decreases k - step
  {
    SmoothStep(script[step - 1], shouldStop);
    if step < k { CompletesAtFirstStop(script, shouldStop, step + 1, k, maxSteps, atLimit); }
  }

  /** Or with the policy's closing message after maxSteps model calls. */
  lemma {:induction false} CompletesAtLimit(script: seq<StepInput>, shouldStop: ModelTurn -> bool, step: nat, maxSteps: nat, atLimit: Message)
    requires 0 < step <= maxSteps + 1 && maxSteps <= |script|
    requires forall i :: step - 1 <= i < maxSteps ==> Smooth(script[i]) && !Stops(script[i], shouldStop)
    ensures var r := Steps(script, shouldStop, step, maxSteps, atLimit);
            r.outcome == Completed && r.modelCalls == maxSteps + 1 - step && r.messages != [] && r.messages[|r.messages| - 1] == atLimit
    decreases maxSteps + 1 - step
  {
    if step <= maxSteps {
      SmoothStep(script[step - 1], shouldStop);
      CompletesAtLimit(script, shouldStop, step + 1, maxSteps, atLimit);
    }
  }

  ghost predicate SeesCancellation(s: StepInput)
  {
    s.cancelled || s.cancelledOnError || exists i :: 0 <= i < |s.executions| && Cancels(s.executions[i])
  }

  /** A run is interrupted only when it sees a cancellation, and fails only when
      formatting or the model fails and no cancellation is seen with it. */
  lemma {:induction false} EndsForCause(script: seq<StepInput>, shouldStop: ModelTurn -> bool, step: nat, maxSteps: nat, atLimit: Message)
    requires step > 0
    ensures var r := Steps(script, shouldStop, step, maxSteps, atLimit);
            && (r.outcome == Interrupted ==> exists i :: step <= i <= maxSteps && SeesCancellation(InputAt(script, i)))
            && (r.outcome == Failed ==>
                  exists i :: step <= i <= maxSteps && (InputAt(script, i).formatFails || !InputAt(script, i).reply.Turn?) && !InputAt(script, i).cancelled)
    decreases maxSteps + 1 - step
  {
    if step <= maxSteps {
      var s := InputAt(script, step);
      if Step(s, shouldStop).GoesOn? {
        EndsForCause(script, shouldStop, step + 1, maxSteps, atLimit);
      } else {
        if s.reply.Turn? && !s.cancelled && !s.formatFails { CutMeansCancelled(s, s.reply.turn, shouldStop); }
        assert step <= step <= maxSteps;
      }
    }
  }

  lemma CutMeansCancelled(s: StepInput, t: ModelTurn, shouldStop: ModelTurn -> bool)
    ensures OnTurn(s, t, shouldStop).Ends? && OnTurn(s, t, shouldStop).result.outcome == Interrupted ==> SeesCancellation(s)
    ensures OnTurn(s, t, shouldStop).Ends? ==> OnTurn(s, t, shouldStop).result.outcome != Failed
  {
    var calls := NamedCalls(TurnCalls(t), s.callIDs);
    ToolRunCut(calls, s.executions, 0);
    var (tools, cut) := ToolRun(calls, s.executions, 0);
    if cut { assert |tools| < |s.executions| && Cancels(s.executions[|tools|]); }
  }

  /** A missing step limit is 8. */
  lemma DefaultSteps(policy: int)
    ensures MaxSteps(policy) == if policy > 0 then policy else 8
  {
  }

  // ----- the loop itself -----

  predicate Contains(s: string, part: string)
  {
    part <= s || (s != [] && Contains(s[1..], part))
  }

  lemma {:induction false} ContainsIffPart(s: string, part: string)
    ensures Contains(s, part) <==> exists i: nat :: i <= |s| && part <= s[i..]
  {
    if part <= s {
      assert part <= s[0..];
    } else if s != [] {
      ContainsIffPart(s[1..], part);
      if i: nat :| i <= |s[1..]| && part <= s[1..][i..] { assert s[1..][i..] == s[i + 1..]; }
      if i: nat :| i <= |s| && part <= s[i..] {
        assert s[0..] == s;
        assert s[i..] == s[1..][i - 1..];
      }
    }
  }

  /** A session that has an interruption message never gets another. */
  lemma InterruptedOnce(ms: seq<Message>, m: Message, again: Message)
    requires m.Assistant? && Contains(m.content, "interrupted")
    ensures WithInterruption(WithInterruption(ms, m), again) == WithInterruption(ms, m)
    ensures (exists i :: 0 <= i < |WithInterruption(ms, m)| && IsInterruption(WithInterruption(ms, m)[i]))
  {
    if !exists i :: 0 <= i < |ms| && IsInterruption(ms[i]) { assert IsInterruption((ms + [m])[|ms|]); }
  }

  predicate IsInterruption(m: Message) { m.Assistant? && Contains(m.content, "interrupted") }

  /** The session keeps one interruption message at most. */
  function WithInterruption(ms: seq<Message>, m: Message): seq<Message>
  {
    if exists i :: 0 <= i < |ms| && IsInterruption(ms[i]) then ms else ms + [m]
  }

  class Conversation {
    const id: string
    var messages: seq<Message>
    var active: bool

    constructor (id: string)
      ensures this.id == id && messages == [] && !active
    {
      this.id := id;
      messages, active := [], false;
    }

    method BeginTurn(text: string, messageID: string) returns (ok: bool)
      modifies this
      ensures ok == !old(active) && active
      ensures messages == if ok then old(messages) + [User(messageID, text)] else old(messages)
    {
      if active { return false; }
      active := true;
      messages := messages + [User(messageID, text)];
      ok := true;
    }

    method AppendMessage(m: Message)
      modifies this`messages
      ensures messages == old(messages) + [m]
    {
      messages := messages + [m];
    }

    method Finish() returns (wasActive: bool)
      modifies this`active
      ensures wasActive == old(active) && !active
    {
      wasActive := active;
      active := false;
    }

    method RecordInterrupted(m: Message)
      modifies this`messages
      ensures messages == WithInterruption(old(messages), m)
      ensures messages == old(messages) ||
              (messages == old(messages) + [m] && forall i :: 0 <= i < |old(messages)| ==> !IsInterruption(old(messages)[i]))
    {
      var i := |messages|;
      while i > 0
        invariant 0 <= i <= |messages| && messages == old(messages)
        invariant forall j :: i <= j < |messages| ==> !IsInterruption(messages[j])
      {
        i := i - 1;
        if IsInterruption(messages[i]) { return; }
      }
      messages := messages + [m];
    }
  }

  method NameCalls(calls: seq<ToolCall>, ids: seq<string>) returns (named: seq<ToolCall>)
    ensures named == NamedCalls(calls, ids)
  {
    named := calls;
    for i := 0 to |calls|
      invariant |named| == |calls|
      invariant forall j :: 0 <= j < i ==> named[j] == Named(calls[j], IDAt(ids, j))
      invariant forall j :: i <= j < |calls| ==> named[j] == calls[j]
    {
      if named[i].id == "" { named := named[i := named[i].(id := IDAt(ids, i))]; }
    }
  }

  lemma AppendAssoc(a: seq<Message>, b: seq<Message>, c: seq<Message>)
    ensures a + b + c == a + (b + c)
  {
  }

  /** The inner loop: one tool message per call until cut short. */
  method ExecuteCalls(conversation: Conversation, calls: seq<ToolCall>, executions: seq<Execution>) returns (cut: bool)
    modifies conversation`messages
    ensures conversation.messages == old(conversation.messages) + ToolRun(calls, executions, 0).0
    ensures cut == ToolRun(calls, executions, 0).1
  {
    ghost var all := old(conversation.messages) + ToolRun(calls, executions, 0).0;
    for i := 0 to |calls|
      invariant conversation.messages + ToolRun(calls, executions, i).0 == all
      invariant ToolRun(calls, executions, i).1 == ToolRun(calls, executions, 0).1
    {
      var e := ExecutionAt(executions, i);
      if e.cancelledBefore { return true; }
      if e.cancelledAfter { return true; }
      AppendAssoc(conversation.messages, [Response(calls[i], e)], ToolRun(calls, executions, i + 1).0);
      conversation.AppendMessage(Response(calls[i], e));
    }
    cut := false;
  }

  /** What a model turn leads to; None means the run goes on. */
  method RunTurn(conversation: Conversation, s: StepInput, t: ModelTurn, shouldStop: ModelTurn -> bool) returns (ended: Option<Outcome>)
    modifies conversation`messages
    ensures match OnTurn(s, t, shouldStop)
            case Ends(r) => ended == Some(r.outcome) && conversation.messages == old(conversation.messages) + r.messages
            case GoesOn(block) => ended == None && conversation.messages == old(conversation.messages) + block
  {
    var calls := NameCalls(TurnCalls(t), s.callIDs);
    var id := if t.id == "" then s.messageID else t.id;
    if shouldStop(t.(toolCalls := calls)) {
      conversation.AppendMessage(Assistant(id, t.content, []));
      return Some(Completed);
    }
    AppendAssoc(conversation.messages, [Assistant(id, t.content, calls)], ToolRun(calls, s.executions, 0).0);
    conversation.AppendMessage(Assistant(id, t.content, calls));
    var cut := ExecuteCalls(conversation, calls, s.executions);
    return if cut then Some(Interrupted) else None;
  }

  lemma TurnUsesOneCall(s: StepInput, t: ModelTurn, shouldStop: ModelTurn -> bool)
    ensures OnTurn(s, t, shouldStop).Ends? ==> OnTurn(s, t, shouldStop).result.modelCalls == 1
  {
  }

  /** One turn of the outer loop; None means go on. */
  method RunStep(conversation: Conversation, s: StepInput, shouldStop: ModelTurn -> bool) returns (ended: Option<Outcome>, modelCalls: nat)
    modifies conversation`messages
    ensures match Step(s, shouldStop)
            case Ends(r) => ended == Some(r.outcome) && modelCalls == r.modelCalls && conversation.messages == old(conversation.messages) + r.messages
            case GoesOn(block) => ended == None && modelCalls == 1 && conversation.messages == old(conversation.messages) + block
  {
    if s.cancelled { return Some(Interrupted), 0; }
    if s.formatFails { return Some(if s.cancelledOnError then Interrupted else Failed), 0; }
    match s.reply
    case Error => return Some(if s.cancelledOnError then Interrupted else Failed), 1;
    case Nothing => return Some(Failed), 1;
    case Turn(t) =>
      TurnUsesOneCall(s, t, shouldStop);
      ended := RunTurn(conversation, s, t, shouldStop);
      modelCalls := 1;
  }

  /** The outer loop. */
  method RunSteps(conversation: Conversation, script: seq<StepInput>, shouldStop: ModelTurn -> bool, maxSteps: nat, atLimit: Message)
    returns (outcome: Outcome, modelCalls: nat)
    modifies conversation`messages
    ensures var r := Steps(script, shouldStop, 1, maxSteps, atLimit);
            outcome == r.outcome && modelCalls == r.modelCalls && conversation.messages == old(conversation.messages) + r.messages
  {
    modelCalls := 0;
    ghost var all := Steps(script, shouldStop, 1, maxSteps, atLimit);
    ghost var rest := all;
    ghost var end := conversation.messages + all.messages;
    var step := 1;
    while step <= maxSteps
      invariant step <= maxSteps + 1 && rest == Steps(script, shouldStop, step, maxSteps, atLimit)
      invariant rest.outcome == all.outcome && modelCalls + rest.modelCalls == all.modelCalls
      invariant conversation.messages + rest.messages == end
    {
      ghost var before := conversation.messages;
      ghost var now := Step(InputAt(script, step), shouldStop);
      var ended, used := RunStep(conversation, InputAt(script, step), shouldStop);
      modelCalls := modelCalls + used;
      if ended.Some? { return ended.value, modelCalls; }
      step := step + 1;
      rest := Steps(script, shouldStop, step, maxSteps, atLimit);
      AppendAssoc(before, now.block, rest.messages);
    }
    conversation.AppendMessage(atLimit);
    outcome := Completed;
  }

  /** What one run leaves in the session. */
  function AfterRun(before: seq<Message>, user: Message, r: RunResult, interruption: Message): seq<Message>
  {
    var ms := before + [user] + r.messages;
    if r.outcome == Interrupted then WithInterruption(ms, interruption) else ms
  }

  class TurnLoop {
    var active: map<string, nat>

    constructor ()
      ensures active == map[]
    {
      active := map[];
    }

    /** None means refused: the session is being processed. */
    method Run(conversation: Conversation, text: string, messageID: string, script: seq<StepInput>, shouldStop: ModelTurn -> bool,
               policySteps: int, atLimit: Message, interruption: Message, token: nat) returns (outcome: Option<Outcome>, modelCalls: nat)
      modifies this, conversation
      ensures outcome == None <==> conversation.id in old(active) || old(conversation.active)
      ensures active == old(active) && conversation.active == (outcome == None && old(conversation.active))
      ensures var r := Steps(script, shouldStop, 1, MaxSteps(policySteps), atLimit);
              if outcome == None then conversation.messages == old(conversation.messages)
              else && outcome == Some(r.outcome) && modelCalls == r.modelCalls
                   && conversation.messages == AfterRun(old(conversation.messages), User(messageID, text), r, interruption)
      ensures outcome != None ==>
                var all := old(conversation.messages) + [User(messageID, text)] + Steps(script, shouldStop, 1, MaxSteps(policySteps), atLimit).messages;
                var recorded := exists i :: 0 <= i < |all| && all[i].Assistant? && Contains(all[i].content, "interrupted");
                conversation.messages == if outcome == Some(Interrupted) && !recorded then all + [interruption] else all
    {
      if conversation.id in active { return None, 0; }
      var ok := conversation.BeginTurn(text, messageID);
      if !ok { return None, 0; }
      active := active[conversation.id := token];
      var ended;
      ended, modelCalls := RunSteps(conversation, script, shouldStop, MaxSteps(policySteps), atLimit);
      if ended == Interrupted { conversation.RecordInterrupted(interruption); }
      if conversation.id in active && active[conversation.id] == token { active := active - {conversation.id}; }
      var _ := conversation.Finish();
      outcome := Some(ended);
    }
  }
}
