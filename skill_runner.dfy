/** `SkillRunner`: one conversation with the model about one skill. The caller's turns go
    into the input queue as messages carrying the skill context; the consumer loop reads
    the session's events, streams text to the caller, runs the skill's script when the
    model asks for it and settles the caller's promise at the end of the turn. Each method
    is proved to follow the transition of the same name in TurnProtocol. */
module Runner {
  import opened Wrappers
  import opened Text
  import opened SkillTypes
  import opened Directives
  import opened InputQueues
  import opened TurnProtocol

  /** The texts of outgoing messages, in order. */
  function RenderAll(skill: SkillContent, os: seq<Outgoing>): (ms: seq<string>)
    ensures |ms| == |os| && forall i :: 0 <= i < |os| ==> ms[i] == Render(skill, os[i])
  {
    if os == [] then [] else [Render(skill, os[0])] + RenderAll(skill, os[1..])
  }

  class SkillRunner {
    const skill: SkillContent
    const sessionId: string
    /** `detectScriptExecutionRequest`, held as a function value so the consumer loop's
        contract can name it. */
    const detect: string -> Option<string>
    const input: InputQueue
    /** `fullResponse`, the consumer loop's text buffer for the current model turn. */
    var buffer: string
    var history: seq<Entry>
    /** `turnPromise`. */
    var turn: Option<PendingTurn>
    /** `isInitialized`. */
    var initialized: bool
    /** Whether the consumer loop is running. */
    var consuming: bool
    var nextTurn: TurnId
    /** The messages handed to `inputQueue.add`, the texts handed to `onChunk`, and the
        calls of promise callbacks, in order. */
    ghost var posted: seq<Outgoing>
    ghost var chunks: seq<string>
    ghost var settlements: seq<Settlement>

    /** What the consumer loop calls out to. */
    ghost function Calls(runScript: string -> ScriptResult): Runtime
      reads this
    {
      Runtime(detect, runScript, sessionId)
    }

    ghost function State(): Core
      reads this
    {
      Core(buffer, history, turn, posted, chunks, settlements, initialized, consuming, nextTurn)
    }

    /** The queue is well formed, and no caller promise has been settled twice. */
    ghost predicate Valid()
      reads this, input
    {
      input.Valid() && SettlementsOrdered(State())
    }

    constructor (skill: SkillContent, sessionId: string)
      ensures Valid() && fresh(input)
      ensures this.skill == skill && this.sessionId == sessionId
      ensures detect == DetectScriptExecutionRequest
      ensures State() == Initial
      ensures !input.closed && input.accepted == []
    {
      this.skill := skill;
      this.sessionId := sessionId;
      detect := DetectScriptExecutionRequest;
      input := new InputQueue();
      buffer := "";
      history := [];
      turn := None;
      initialized := false;
      consuming := false;
      nextTurn := 0;
      posted := [];
      chunks := [];
      settlements := [];
      new;
      InitialOrdered();
    }

    /** `inputQueue.add(message)`, logged. */
    method Post(o: Outgoing)
      requires input.Valid()
      modifies this, input
      ensures input.Valid()
      ensures posted == old(posted) + [o]
      ensures input.closed == old(input.closed)
      ensures input.accepted == old(input.accepted) + if old(input.closed) then [] else RenderAll(skill, [o])
      ensures input.Contents() == Added(old(input.Contents()), Render(skill, o))
      ensures buffer == old(buffer) && history == old(history) && turn == old(turn)
      ensures chunks == old(chunks) && settlements == old(settlements)
      ensures initialized == old(initialized) && consuming == old(consuming) && nextTurn == old(nextTurn)
    {
      var message := Render(skill, o);
      input.Add(message);
      assert RenderAll(skill, [o]) == [message];
      posted := posted + [o];
    }

    /** A streamed text delta. */
    method OnDelta(t: string)
      modifies this
      ensures State() == AfterDelta(old(State()), t)
    {
      buffer := buffer + t;
      if turn.Some? && turn.value.options.hasOnChunk {
        var hasScriptMarker := Contains(buffer, ExecuteOpen);
        if !hasScriptMarker {
          chunks := chunks + [t];
        }
      }
    }

    /** A complete assistant message: the first text block fills an empty buffer. */
    method OnAssistant(blocks: seq<ContentBlock>)
      modifies this
      ensures State() == old(State()).(buffer := AbsorbBlocks(old(buffer), blocks))
    {
      var full := buffer;
      var i := 0;
      while i < |blocks|
        invariant 0 <= i <= |blocks|
        invariant AbsorbBlocks(full, blocks[i..]) == AbsorbBlocks(buffer, blocks)
      {
        assert blocks[i..][1..] == blocks[i + 1..];
        var block := blocks[i];
        if block.TextBlock? && full == "" {
          full := block.text;
        }
        i := i + 1;
      }
      buffer := full;
    }

    /** The pending caller, if any, is rejected and the slot cleared. */
    method Reject(reason: string)
      modifies this
      ensures State() == RejectPending(old(State()), reason)
    {
      if turn.Some? {
        settlements := settlements + [Rejected(turn.value.id, reason)];
        turn := None;
      }
    }

    /** A successful result: run the script the text asks for and send its result back,
        or end the turn. */
    method OnResult(runScript: string -> ScriptResult)
      requires input.Valid()
      modifies this, input
      ensures input.Valid() && input.closed == old(input.closed)
      ensures State() == AfterResult(old(State()), Calls(runScript))
      ensures input.accepted == old(input.accepted) + if old(input.closed) then [] else RenderAll(skill, posted[|old(posted)|..])
      ensures input.Contents() == AddedAll(old(input.Contents()), RenderAll(skill, posted[|old(posted)|..]))
    {
      var scriptRequest := detect(buffer);
      if scriptRequest.Some? && scriptRequest.value != "" {
        history := history + [Entry(Assistant, buffer)];
        var scriptResult := runScript(scriptRequest.value);
        Post(ScriptOutcome(scriptResult));
        buffer := "";
        assert posted[|old(posted)|..] == [ScriptOutcome(scriptResult)];
      } else {
        if buffer != "" {
          history := history + [Entry(Assistant, buffer)];
        }
        if turn.Some? {
          settlements := settlements + [Resolved(turn.value.id, ExecuteResult(Succeeded, buffer, false, sessionId, history))];
          turn := None;
        }
        buffer := "";
        assert posted[|old(posted)|..] == [];
      }
    }

    /** One pass of the consumer loop (the body of `for await`). */
    method Handle(ev: Event, runScript: string -> ScriptResult)
      requires Valid() && consuming
      modifies this, input
      ensures Valid() && input.closed == old(input.closed)
      ensures State() == AfterEvent(old(State()), ev, Calls(runScript))
      ensures input.accepted == old(input.accepted) + if old(input.closed) then [] else RenderAll(skill, posted[|old(posted)|..])
      ensures input.Contents() == AddedAll(old(input.Contents()), RenderAll(skill, posted[|old(posted)|..]))
    {
      ghost var rt := Calls(runScript);
      ghost var before := State();
      match ev {
        case SystemMessage =>
        case Unhandled =>
        case TextDelta(t) =>
          OnDelta(t);
          assert AfterEvent(before, ev, rt) == AfterDelta(before, t);
        case AssistantMessage(blocks) =>
          OnAssistant(blocks);
        case ResultSuccess =>
          OnResult(runScript);
          assert AfterEvent(before, ev, rt) == AfterResult(before, rt);
        case ResultError(error) =>
          Reject(ErrorReason(error));
          assert AfterEvent(before, ev, rt) == RejectPending(before, ErrorReason(error));
        case StreamFailure(reason) =>
          Reject(reason);
          consuming := false;
      }
      if !ev.ResultSuccess? {
        assert posted[|old(posted)|..] == [];
        assert input.Contents() == old(input.Contents());
      }
      EventKeepsOrder(before, ev, rt);
    }

    /** The part of `execute` before the message is sent: the prompt joins the history,
        the consumer starts on the first call, and this call's promise becomes the pending
        one, replacing any other. */
    method BeginTurn(prompt: string, options: ExecuteOptions) returns (id: TurnId)
      requires SettlementsOrdered(State())
      modifies this
      ensures SettlementsOrdered(State())
      ensures State() == AfterExecute(old(State()), prompt, options).(posted := old(posted))
      ensures id == old(nextTurn)
    {
      ghost var before := State();
      history := history + [Entry(User, prompt)];
      id := nextTurn;
      nextTurn := nextTurn + 1;
      turn := Some(PendingTurn(id, options));
      if !initialized {
        initialized := true;
        consuming := true;
        buffer := "";
      }
      ExecuteKeepsOrder(before, prompt, options);
    }

    /** `execute` (and `continue`): records the prompt, starts the consumer on the first
        call, makes this call's promise the pending one and sends the prompt with the skill
        context. Returns the identity of this call's promise. */
    method Execute(prompt: string, options: ExecuteOptions) returns (id: TurnId)
      requires Valid()
      modifies this, input
      ensures Valid() && input.closed == old(input.closed)
      ensures State() == AfterExecute(old(State()), prompt, options)
      ensures id == old(nextTurn)
      ensures input.accepted == old(input.accepted) + if old(input.closed) then [] else RenderAll(skill, [WithContext(prompt)])
      ensures input.Contents() == Added(old(input.Contents()), Render(skill, WithContext(prompt)))
    {
      id := BeginTurn(prompt, options);
      Post(WithContext(prompt));
    }

    method Continue(prompt: string, options: ExecuteOptions) returns (id: TurnId)
      requires Valid()
      modifies this, input
      ensures Valid() && input.closed == old(input.closed)
      ensures State() == AfterExecute(old(State()), prompt, options)
      ensures id == old(nextTurn)
      ensures input.accepted == old(input.accepted) + if old(input.closed) then [] else RenderAll(skill, [WithContext(prompt)])
      ensures input.Contents() == Added(old(input.Contents()), Render(skill, WithContext(prompt)))
    {
      id := Execute(prompt, options);
    }

    /** A copy of the history. */
    method GetHistory() returns (h: seq<Entry>)
      ensures h == history
    {
      h := history;
    }

    /** `end`: closes the input queue (every blocked read gets null), leaving its items
        where they are, and stops the session. `end` itself settles nothing. */
    method End()
      requires Valid()
      modifies this, input
      ensures Valid()
      ensures State() == AfterEnd(old(State()))
      ensures input.closed && input.waiters == []
      ensures input.resolved == ResolvedWithNull(old(input.resolved), old(input.waiters))
      ensures input.accepted == old(input.accepted) && input.delivered == old(input.delivered)
      ensures input.queue == old(input.queue) && input.nextWaiter == old(input.nextWaiter)
    {
      input.Close();
      initialized := false;
      consuming := false;
    }
  }
}
