/** The skill runner's turn protocol as a function of its state: what one session event,
    one `execute` call and `end` do to the response buffer, the history, the pending turn,
    the messages handed to the input queue, the chunks handed to `onChunk` and the
    settlements of caller promises. The class in skill_runner.dfy is proved to follow it. */
module TurnProtocol {
  import opened Wrappers
  import opened Text
  import opened SkillTypes
  import opened Directives

  /** Identifies the promise returned by one `execute` call. */
  type TurnId = nat

  /** The `turnPromise` slot: whose promise is pending, and with which options. */
  datatype PendingTurn = PendingTurn(id: TurnId, options: ExecuteOptions)

  /** A message handed to the input queue, by what it is built from: the caller's text
      wrapped in the skill context, or a script's result. `Render` gives its text. */
  datatype Outgoing = WithContext(prompt: string) | ScriptOutcome(result: ScriptResult)

  function Render(skill: SkillContent, o: Outgoing): string {
    match o
    case WithContext(prompt) => BuildMessageWithSkillContext(skill, prompt)
    case ScriptOutcome(result) => BuildScriptResultMessage(result)
  }

  /** What the consumer loop calls out to: the directive detector, the script runner
      (running the skill's script is outside this model, so it is an oracle) and the
      session id put into results. The runner uses `DetectScriptExecutionRequest` as the
      detector; the protocol's own lemmas hold for any detector. */
  datatype Runtime = Runtime(detect: string -> Option<string>, runScript: string -> ScriptResult, sessionId: string)

  /** The runner's own wiring. */
  function Wired(runScript: string -> ScriptResult, sessionId: string): (rt: Runtime)
    ensures forall text :: rt.detect(text) == DetectScriptExecutionRequest(text)
  {
    Runtime(DetectScriptExecutionRequest, runScript, sessionId)
  }

  /** Whether the buffer asks for a script, as the loop decides it: a detected, non-empty
      directive. */
  predicate Acts(rt: Runtime, text: string) {
    rt.detect(text).Some? && rt.detect(text).value != ""
  }

  lemma WiredActsOnDirectives(runScript: string -> ScriptResult, sessionId: string, text: string)
    ensures Acts(Wired(runScript, sessionId), text) <==> HasDirective(text)
  {
  }

  /** A call of a caller promise's `resolve` or `reject`. */
  datatype Settlement = Resolved(turn: TurnId, result: ExecuteResult) | Rejected(turn: TurnId, reason: string)

  /** A content block of a complete assistant message. */
  datatype ContentBlock = TextBlock(text: string) | ToolUseBlock(name: string) | OtherBlock

  /** The session messages the consumer loop tells apart. `TextDelta` is a partial
      message carrying a `text_delta`; `Unhandled` is any other message (partial messages
      of other kinds, and message types none of the guards accept); `StreamFailure` is the
      stream throwing, which ends the loop. */
  datatype Event =
    | SystemMessage
    | TextDelta(text: string)
    | AssistantMessage(blocks: seq<ContentBlock>)
    | ResultSuccess
    | ResultError(error: Option<string>)
    | StreamFailure(reason: string)
    | Unhandled

  /** The runner's state. `posted`, `chunks` and `settlements` are logs of the calls made
      to `inputQueue.add`, `onChunk` and the promise callbacks. */
  datatype Core = Core(
    buffer: string,
    history: seq<Entry>,
    turn: Option<PendingTurn>,
    posted: seq<Outgoing>,
    chunks: seq<string>,
    settlements: seq<Settlement>,
    initialized: bool,
    consuming: bool,
    nextTurn: TurnId)

  /** A runner as constructed. */
  const Initial: Core := Core("", [], None, [], [], [], false, false, 0)

  // ---------------------------------------------------------------------------------
  // Streaming text

  /** Whether a delta is passed on: there is a pending turn with an `onChunk` callback and
      the buffer, with the delta appended, holds no complete opening marker. */
  predicate Forwards(c: Core, text: string) {
    c.turn.Some? && c.turn.value.options.hasOnChunk && !Contains(c.buffer + text, ExecuteOpen)
  }

  function Concat(ts: seq<string>): string {
    if ts == [] then "" else ts[0] + Concat(ts[1..])
  }

  function Deltas(ts: seq<string>): (evs: seq<Event>)
    ensures |evs| == |ts| && forall i :: 0 <= i < |ts| ==> evs[i] == TextDelta(ts[i])
  {
    if ts == [] then [] else [TextDelta(ts[0])] + Deltas(ts[1..])
  }

  /** Reference definition of what `onChunk` receives from a run of deltas starting from
      buffer `b`: the longest leading run of deltas after each of which the buffer still
      holds no opening marker. */
  function Forwarded(b: string, ts: seq<string>): (f: seq<string>)
    ensures |f| <= |ts| && f == ts[..|f|]
    decreases |ts|
  {
    if ts == [] || Contains(b + ts[0], ExecuteOpen) then [] else [ts[0]] + Forwarded(b + ts[0], ts[1..])
  }

  lemma ConcatCons(t: string, ts: seq<string>)
    ensures Concat([t] + ts) == t + Concat(ts)
  {
    assert ([t] + ts)[1..] == ts;
  }

  /** The forwarded text never completes the opening marker, and the first delta left out
      is the one that does. */
  lemma {:induction false} ForwardedStopsAtMarker(b: string, ts: seq<string>)
    requires !Contains(b, ExecuteOpen)
    ensures !Contains(b + Concat(Forwarded(b, ts)), ExecuteOpen)
    ensures var n := |Forwarded(b, ts)|; n < |ts| ==> Contains(b + Concat(ts[..n + 1]), ExecuteOpen)
    decreases |ts|
  {
    if ts == [] {
      assert b + Concat([]) == b;
    } else if Contains(b + ts[0], ExecuteOpen) {
      assert ts[..1] == [ts[0]] + [];
      ConcatCons(ts[0], []);
      assert b + Concat(ts[..1]) == b + ts[0];
      assert Forwarded(b, ts) == [];
      assert b + Concat([]) == b;
    } else {
      var rest := Forwarded(b + ts[0], ts[1..]);
      ForwardedStopsAtMarker(b + ts[0], ts[1..]);
      ConcatCons(ts[0], rest);
      assert b + Concat([ts[0]] + rest) == (b + ts[0]) + Concat(rest);
      var n := |rest|;
      if n < |ts| - 1 {
        assert ts[..n + 2] == [ts[0]] + ts[1..][..n + 1];
        ConcatCons(ts[0], ts[1..][..n + 1]);
        assert b + Concat(ts[..n + 2]) == (b + ts[0]) + Concat(ts[1..][..n + 1]);
      }
    }
  }

  // ---------------------------------------------------------------------------------
  // Complete assistant messages

  /** One block of a complete assistant message: a text block fills an empty buffer. */
  function AbsorbBlock(buffer: string, block: ContentBlock): string {
    if block.TextBlock? && buffer == "" then block.text else buffer
  }

  /** The blocks of a complete assistant message, in order. A complete message never
      replaces streamed text: a non-empty buffer stays, and an empty one takes the
      message's first non-empty text. */
  function AbsorbBlocks(buffer: string, blocks: seq<ContentBlock>): (r: string)
    ensures r == if buffer != "" then buffer else FirstText(blocks)
    decreases |blocks|
  {
    if blocks == [] then buffer else AbsorbBlocks(AbsorbBlock(buffer, blocks[0]), blocks[1..])
  }

  /** The first non-empty text among the blocks, or "". */
  function FirstText(blocks: seq<ContentBlock>): string {
    if blocks == [] then ""
    else if blocks[0].TextBlock? && blocks[0].text != "" then blocks[0].text
    else FirstText(blocks[1..])
  }

  // ---------------------------------------------------------------------------------
  // One event

  /** `message.error?.message || 'Execution failed'`. */
  function ErrorReason(error: Option<string>): string {
    if error.Some? && error.value != "" then error.value else "Execution failed"
  }

  /** The pending turn, if any, rejected with `reason`, and the slot cleared: exactly one
      settlement is added when a turn is pending and none otherwise, and the transcript
      stays as it is. */
  function RejectPending(c: Core, reason: string): (r: Core)
    ensures r.turn.None?
    ensures c.settlements <= r.settlements
    ensures |r.settlements| == |c.settlements| + (if c.turn.Some? then 1 else 0)
    ensures c.turn.Some? ==> r.settlements[|c.settlements|] == Rejected(c.turn.value.id, reason)
    ensures r.history == c.history && r.buffer == c.buffer && r.posted == c.posted && r.chunks == c.chunks
  {
    if c.turn.Some? then
      c.(settlements := c.settlements + [Rejected(c.turn.value.id, reason)], turn := None)
    else c
  }

  /** A streamed text delta: the text joins the buffer and reaches `onChunk` when
      `Forwards` says so. */
  function AfterDelta(c: Core, t: string): (r: Core)
    ensures r.buffer == c.buffer + t
    ensures c.chunks <= r.chunks && |r.chunks| <= |c.chunks| + 1
    ensures |r.chunks| > |c.chunks| ==>
              r.chunks[|c.chunks|] == t && Streams(c) && !Contains(r.buffer, ExecuteOpen)
    ensures r.history == c.history && r.turn == c.turn && r.settlements == c.settlements
            && r.posted == c.posted
  {
    c.(buffer := c.buffer + t, chunks := if Forwards(c, t) then c.chunks + [t] else c.chunks)
  }

  /** A successful result: with a directive, the text joins the history, the script's
      result is sent back and the turn stays open; without, the turn ends with the text as
      its reply. Either way the buffer is emptied. */
  function AfterResult(c: Core, rt: Runtime): (r: Core)
    ensures r.buffer == "" && r.chunks == c.chunks
    ensures c.history <= r.history && |r.history| <= |c.history| + 1
    ensures Acts(rt, c.buffer) ==>
              r.turn == c.turn && r.settlements == c.settlements && |r.posted| == |c.posted| + 1
    ensures !Acts(rt, c.buffer) ==>
              && r.turn.None? && r.posted == c.posted && c.settlements <= r.settlements
              && |r.settlements| == |c.settlements| + (if c.turn.Some? then 1 else 0)
  {
    if Acts(rt, c.buffer) then
      var directive := rt.detect(c.buffer).value;
      c.(history := c.history + [Entry(Assistant, c.buffer)],
         posted := c.posted + [ScriptOutcome(rt.runScript(directive))],
         buffer := "")
    else
      var history := if c.buffer != "" then c.history + [Entry(Assistant, c.buffer)] else c.history;
      var settled :=
        if c.turn.Some? then
          c.settlements + [Resolved(c.turn.value.id, ExecuteResult(Succeeded, c.buffer, false, rt.sessionId, history))]
        else c.settlements;
      c.(history := history, settlements := settled, turn := None, buffer := "")
  }

  /** One pass of the consumer loop's body. */
  function AfterEvent(c: Core, ev: Event, rt: Runtime): (r: Core)
    ensures c.history <= r.history && c.settlements <= r.settlements
    ensures c.posted <= r.posted && c.chunks <= r.chunks
    ensures r.nextTurn == c.nextTurn
  {
    match ev
    case SystemMessage => c
    case Unhandled => c
    case TextDelta(t) => AfterDelta(c, t)
    case AssistantMessage(blocks) => c.(buffer := AbsorbBlocks(c.buffer, blocks))
    case ResultSuccess => AfterResult(c, rt)
    case ResultError(error) => RejectPending(c, ErrorReason(error))
    case StreamFailure(reason) => RejectPending(c, reason).(consuming := false)
  }

  /** A sequence of events, in arrival order. */
  function Run(c: Core, evs: seq<Event>, rt: Runtime): Core
    decreases |evs|
  {
    if evs == [] then c else Run(AfterEvent(c, evs[0], rt), evs[1..], rt)
  }

  // ---------------------------------------------------------------------------------
  // Caller-side transitions

  /** `execute` (and `continue`): the caller's text joins the history first; the consumer
      is started on the first call (a fresh, empty buffer); the turn slot takes the new
      promise, replacing any pending one without settling it; the message with the skill
      context goes to the input queue. */
  function AfterExecute(c: Core, prompt: string, options: ExecuteOptions): (r: Core)
    ensures r.history == c.history + [Entry(User, prompt)]
    ensures r.turn == Some(PendingTurn(c.nextTurn, options)) && r.nextTurn == c.nextTurn + 1
    ensures r.settlements == c.settlements
    ensures r.posted == c.posted + [WithContext(prompt)]
    ensures r.initialized && (c.initialized ==> r.consuming == c.consuming && r.buffer == c.buffer)
    ensures !c.initialized ==> r.consuming && r.buffer == ""
  {
    var c1 := c.(history := c.history + [Entry(User, prompt)],
                 turn := Some(PendingTurn(c.nextTurn, options)),
                 nextTurn := c.nextTurn + 1,
                 posted := c.posted + [WithContext(prompt)]);
    if c.initialized then c1 else c1.(initialized := true, consuming := true, buffer := "")
  }

  /** `end`: the session stops and settles nothing; a pending turn stays pending.
      (Closing the input queue is the queue's own transition.) */
  function AfterEnd(c: Core): (r: Core)
    ensures !r.initialized && !r.consuming
    ensures r.turn == c.turn && r.settlements == c.settlements && r.history == c.history
  {
    c.(initialized := false, consuming := false)
  }

  // ---------------------------------------------------------------------------------
  // Whole sessions: the caller's calls and the session's events interleaved

  /** What can happen next to a runner: an event reaches the consumer loop, the caller
      calls `execute`/`continue`, or the caller calls `end`. */
  datatype Action = Deliver(ev: Event) | Execute(prompt: string, options: ExecuteOptions) | EndSession

  /** Events reach the runner only while its consumer loop is running. */
  function Step(c: Core, a: Action, rt: Runtime): Core {
    match a
    case Deliver(ev) => if c.consuming then AfterEvent(c, ev, rt) else c
    case Execute(prompt, options) => AfterExecute(c, prompt, options)
    case EndSession => AfterEnd(c)
  }

  /** A session: the actions in order. The history, the outgoing messages and the
      settlements are only ever appended to, and turn identities are never reused. */
  function Trace(c: Core, actions: seq<Action>, rt: Runtime): (r: Core)
    ensures c.history <= r.history && c.posted <= r.posted && c.settlements <= r.settlements
    ensures c.nextTurn <= r.nextTurn
    decreases |actions|
  {
    if actions == [] then c
    else Trace(Step(c, actions[0], rt), actions[1..], rt)
  }

  /** Whether the pending turn streams its text to an `onChunk` callback. */
  predicate Streams(c: Core) {
    c.turn.Some? && c.turn.value.options.hasOnChunk
  }

  // ---------------------------------------------------------------------------------
  // Streaming: what reaches onChunk

  /** Once the buffer holds the opening marker, no later delta is forwarded. */
  lemma ForwardedAfterMarker(b: string, ts: seq<string>)
    requires Contains(b, ExecuteOpen)
    ensures Forwarded(b, ts) == []
  {
    if ts != [] {
      ContainsExtend(b, ts[0], ExecuteOpen);
    }
  }

  /** One delta: its text joins the buffer, and it reaches `onChunk` exactly when
      `Forwards` says so. */
  lemma DeltaStep(c: Core, t: string, rt: Runtime)
    ensures AfterEvent(c, TextDelta(t), rt)
         == c.(buffer := c.buffer + t, chunks := if Forwards(c, t) then c.chunks + [t] else c.chunks)
  {
  }

  lemma RunDeltasUnfold(c: Core, ts: seq<string>, rt: Runtime)
    requires ts != []
    ensures Run(c, Deltas(ts), rt)
         == Run(c.(buffer := c.buffer + ts[0], chunks := if Forwards(c, ts[0]) then c.chunks + [ts[0]] else c.chunks),
                Deltas(ts[1..]), rt)
  {
    assert Deltas(ts)[1..] == Deltas(ts[1..]);
    DeltaStep(c, ts[0], rt);
  }

  /** The chunk log after one more delta, in terms of `Forwarded`. */
  lemma ForwardedStep(c: Core, ts: seq<string>)
    requires ts != []
    ensures var c1 := c.(buffer := c.buffer + ts[0], chunks := if Forwards(c, ts[0]) then c.chunks + [ts[0]] else c.chunks);
            ((if Streams(c1) then c1.chunks + Forwarded(c1.buffer, ts[1..]) else c1.chunks)
             == (if Streams(c) then c.chunks + Forwarded(c.buffer, ts) else c.chunks))
  {
    if Streams(c) && Contains(c.buffer + ts[0], ExecuteOpen) {
      ForwardedAfterMarker(c.buffer + ts[0], ts[1..]);
    }
  }

  /** Reference definition of a run of deltas: their text appended to the buffer and,
      when the turn streams, the deltas of `Forwarded` appended to the chunk log. */
  function AfterDeltas(c: Core, ts: seq<string>): Core {
    c.(buffer := c.buffer + Concat(ts),
       chunks := if Streams(c) then c.chunks + Forwarded(c.buffer, ts) else c.chunks)
  }

  lemma AfterDeltasStep(c: Core, ts: seq<string>)
    requires ts != []
    ensures var c1 := c.(buffer := c.buffer + ts[0], chunks := if Forwards(c, ts[0]) then c.chunks + [ts[0]] else c.chunks);
            AfterDeltas(c1, ts[1..]) == AfterDeltas(c, ts)
  {
    var c1 := c.(buffer := c.buffer + ts[0], chunks := if Forwards(c, ts[0]) then c.chunks + [ts[0]] else c.chunks);
    assert c1.buffer + Concat(ts[1..]) == c.buffer + Concat(ts);
    ForwardedStep(c, ts);
  }

  /** A run of deltas appends their text to the buffer and forwards to `onChunk` exactly
      the deltas of `Forwarded`; nothing else in the state changes. */
  lemma {:induction false} RunDeltas(c: Core, ts: seq<string>, rt: Runtime)
    ensures Run(c, Deltas(ts), rt) == AfterDeltas(c, ts)
    decreases |ts|
  {
    if ts == [] {
      assert c.buffer + Concat(ts) == c.buffer;
    } else {
      var c1 := c.(buffer := c.buffer + ts[0], chunks := if Forwards(c, ts[0]) then c.chunks + [ts[0]] else c.chunks);
      RunDeltasUnfold(c, ts, rt);
      RunDeltas(c1, ts[1..], rt);
      AfterDeltasStep(c, ts);
    }
  }

  /** Once a delta has been held back, every later delta of the turn is held back too. */
  lemma SuppressionSticks(c: Core, ts: seq<string>, rt: Runtime)
    requires Contains(c.buffer, ExecuteOpen)
    ensures Run(c, Deltas(ts), rt).chunks == c.chunks
  {
    RunDeltas(c, ts, rt);
    ForwardedAfterMarker(c.buffer, ts);
  }

  /** A delta holding only the start of the marker is still forwarded; the delta that
      completes the marker, and every one after it, is not. */
  lemma PartialMarkerForwarded(c: Core, rt: Runtime)
    requires Streams(c) && c.buffer == ""
    ensures Run(c, Deltas(["[EXEC", "UTE_SCRIPT]", " user_input"]), rt).chunks == c.chunks + ["[EXEC"]
  {
    RunDeltas(c, ["[EXEC", "UTE_SCRIPT]", " user_input"], rt);
    PartialMarkerChunks();
  }

  lemma PartialMarkerChunks()
    ensures Forwarded("", ["[EXEC", "UTE_SCRIPT]", " user_input"]) == ["[EXEC"]
  {
    var ts := ["[EXEC", "UTE_SCRIPT]", " user_input"];
    var b1 := "" + ts[0];
    assert !Contains(b1, ExecuteOpen) by {
      assert |b1| < |ExecuteOpen|;
    }
    assert Contains(b1 + ts[1..][0], ExecuteOpen) by {
      assert b1 + ts[1..][0] == ExecuteOpen;
      assert OccursAt(b1 + ts[1..][0], ExecuteOpen, 0);
    }
    assert Forwarded(b1, ts[1..]) == [];
  }

  // ---------------------------------------------------------------------------------
  // The end of a model turn

  /** A result whose text asks for a script: the text joins the history, the script's
      result is sent back, and the caller's turn stays pending. */
  lemma DirectiveKeepsTurn(c: Core, rt: Runtime)
    requires Acts(rt, c.buffer)
    ensures var d := rt.detect(c.buffer).value;
            var c' := AfterEvent(c, ResultSuccess, rt);
            && c'.history == c.history + [Entry(Assistant, c.buffer)]
            && c'.posted == c.posted + [ScriptOutcome(rt.runScript(d))]
            && c'.buffer == ""
            && c'.turn == c.turn && c'.settlements == c.settlements
  {
  }

  /** A result without a directive ends the turn: the text joins the history when it is
      non-empty, and the pending caller, if any, gets exactly that text and the history. */
  lemma PlainResultSettlesTurn(c: Core, rt: Runtime)
    requires !Acts(rt, c.buffer)
    ensures var c' := AfterEvent(c, ResultSuccess, rt);
            && (|c'.history| == |c.history| + 1 <==> c.buffer != "")
            && c.history <= c'.history
            && (c.buffer != "" ==> c'.history[|c.history|] == Entry(Assistant, c.buffer))
            && c'.settlements == c.settlements +
                 (if c.turn.Some? then [Resolved(c.turn.value.id, ExecuteResult(Succeeded, c.buffer, false, rt.sessionId, c'.history))] else [])
            && c'.turn.None? && c'.buffer == "" && c'.posted == c.posted
  {
  }

  /** A failed result, or a failure of the stream itself, rejects the pending caller, if
      any, and leaves the transcript alone. */
  lemma FailureRejectsTurn(c: Core, ev: Event, rt: Runtime)
    requires ev.ResultError? || ev.StreamFailure?
    ensures var c' := AfterEvent(c, ev, rt);
            && c'.history == c.history && c'.buffer == c.buffer && c'.posted == c.posted
            && c'.turn.None?
            && |c'.settlements| == |c.settlements| + (if c.turn.Some? then 1 else 0)
            && (c.turn.Some? ==> c'.settlements[|c.settlements|].Rejected?)
            && (ev.ResultError? && c.turn.Some? ==>
                  c'.settlements[|c.settlements|].reason != "")
  {
  }

  // ---------------------------------------------------------------------------------
  // Caller promises

  /** Settlements name turns in the order they were issued, each at most once, and the
      pending turn has not been settled. */
  ghost predicate SettlementsOrdered(c: Core) {
    && (forall i :: 0 <= i < |c.settlements| ==> c.settlements[i].turn < c.nextTurn)
    && (forall i, j :: 0 <= i < j < |c.settlements| ==> c.settlements[i].turn < c.settlements[j].turn)
    && (c.turn.Some? ==>
          && c.turn.value.id < c.nextTurn
          && forall i :: 0 <= i < |c.settlements| ==> c.settlements[i].turn < c.turn.value.id)
  }

  /** Settling the pending turn, and only it, keeps the order. */
  lemma SettleKeepsOrder(c: Core, s: Settlement)
    requires SettlementsOrdered(c) && c.turn.Some? && s.turn == c.turn.value.id
    ensures SettlementsOrdered(c.(settlements := c.settlements + [s], turn := None))
  {
  }

  lemma ResultKeepsOrder(c: Core, rt: Runtime)
    requires SettlementsOrdered(c)
    ensures SettlementsOrdered(AfterResult(c, rt))
  {
    if !Acts(rt, c.buffer) && c.turn.Some? {
      var history := if c.buffer != "" then c.history + [Entry(Assistant, c.buffer)] else c.history;
      SettleKeepsOrder(c.(history := history, buffer := ""),
                       Resolved(c.turn.value.id, ExecuteResult(Succeeded, c.buffer, false, rt.sessionId, history)));
    }
  }

  lemma RejectKeepsOrder(c: Core, reason: string)
    requires SettlementsOrdered(c)
    ensures SettlementsOrdered(RejectPending(c, reason))
  {
    if c.turn.Some? {
      SettleKeepsOrder(c, Rejected(c.turn.value.id, reason));
    }
  }

  lemma EventKeepsOrder(c: Core, ev: Event, rt: Runtime)
    requires SettlementsOrdered(c)
    ensures SettlementsOrdered(AfterEvent(c, ev, rt))
  {
    match ev
    case ResultSuccess => ResultKeepsOrder(c, rt);
    case ResultError(error) => RejectKeepsOrder(c, ErrorReason(error));
    case StreamFailure(reason) => RejectKeepsOrder(c, reason);
    case _ =>
  }

  lemma StepKeepsOrder(c: Core, a: Action, rt: Runtime)
    requires SettlementsOrdered(c)
    ensures SettlementsOrdered(Step(c, a, rt))
  {
    match a
    case Deliver(ev) => EventKeepsOrder(c, ev, rt);
    case Execute(prompt, options) => ExecuteKeepsOrder(c, prompt, options);
    case EndSession =>
  }

  /** A new `execute` issues a fresh turn identity. */
  lemma ExecuteKeepsOrder(c: Core, prompt: string, options: ExecuteOptions)
    requires SettlementsOrdered(c)
    ensures SettlementsOrdered(AfterExecute(c, prompt, options))
    ensures AfterExecute(c, prompt, options).turn == Some(PendingTurn(c.nextTurn, options))
  {
  }

  /** Along any session, no caller promise is settled twice: the settled turns are
      strictly increasing. */
  lemma {:induction false} TraceKeepsOrder(c: Core, actions: seq<Action>, rt: Runtime)
    requires SettlementsOrdered(c)
    ensures SettlementsOrdered(Trace(c, actions, rt))
    decreases |actions|
  {
    if actions != [] {
      StepKeepsOrder(c, actions[0], rt);
      TraceKeepsOrder(Step(c, actions[0], rt), actions[1..], rt);
    }
  }

  lemma InitialOrdered()
    ensures SettlementsOrdered(Initial)
  {
  }

  /** Settlements are only ever appended, and every one appended after a point names a
      turn issued after it or the turn pending then. */
  lemma {:induction false} TraceSettlesFrom(c: Core, actions: seq<Action>, k: TurnId, rt: Runtime)
    requires k <= c.nextTurn && (c.turn.Some? ==> k <= c.turn.value.id)
    ensures var c' := Trace(c, actions, rt);
            && c.settlements <= c'.settlements
            && forall i :: |c.settlements| <= i < |c'.settlements| ==> k <= c'.settlements[i].turn
    decreases |actions|
  {
    if actions != [] {
      var c1 := Step(c, actions[0], rt);
      TraceSettlesFrom(c1, actions[1..], k, rt);
    }
  }

  /** A second `execute` while a turn is pending replaces it without settling it, and the
      replaced caller is never settled afterwards, whatever happens next. */
  lemma ReplacedTurnNeverSettles(c: Core, prompt: string, options: ExecuteOptions,
                                 later: seq<Action>, rt: Runtime)
    requires SettlementsOrdered(c) && c.turn.Some?
    ensures var c1 := AfterExecute(c, prompt, options);
            var c2 := Trace(c1, later, rt);
            && c1.settlements == c.settlements
            && c.settlements <= c2.settlements
            && forall i :: 0 <= i < |c2.settlements| ==> c2.settlements[i].turn != c.turn.value.id
  {
    var c1 := AfterExecute(c, prompt, options);
    TraceSettlesFrom(c1, later, c.nextTurn, rt);
  }

  // ---------------------------------------------------------------------------------
  // Whole turns

  lemma {:induction false} RunAppend(c: Core, a: seq<Event>, b: seq<Event>, rt: Runtime)
    ensures Run(c, a + b, rt) == Run(Run(c, a, rt), b, rt)
    decreases |a|
  {
    if a == [] {
      assert a + b == b;
    } else {
      assert (a + b)[1..] == a[1..] + b;
      RunAppend(AfterEvent(c, a[0], rt), a[1..], b, rt);
    }
  }

  lemma RunSingle(c: Core, ev: Event, rt: Runtime)
    ensures Run(c, [ev], rt) == AfterEvent(c, ev, rt)
  {
    assert [ev][1..] == [];
  }

  /** Reference definition of a round that ends a turn: the model streams `ts` and
      finishes without asking for a script, so the turn ends with the streamed text as its
      reply. */
  function AfterPlainRound(c: Core, ts: seq<string>, rt: Runtime): Core {
    var text := Concat(ts);
    var history := if text != "" then c.history + [Entry(Assistant, text)] else c.history;
    c.(history := history,
       settlements := c.settlements +
         if c.turn.Some? then [Resolved(c.turn.value.id, ExecuteResult(Succeeded, text, false, rt.sessionId, history))] else [],
       turn := None,
       chunks := if Streams(c) then c.chunks + Forwarded("", ts) else c.chunks)
  }

  /** Reference definition of a round that asks for a script: the text joins the history,
      the script's result is sent back, and the turn stays open. */
  function AfterDirectiveRound(c: Core, ts: seq<string>, rt: Runtime): Core
    requires Acts(rt, Concat(ts))
  {
    var text := Concat(ts);
    c.(history := c.history + [Entry(Assistant, text)],
       posted := c.posted + [ScriptOutcome(rt.runScript(rt.detect(text).value))],
       chunks := if Streams(c) then c.chunks + Forwarded("", ts) else c.chunks)
  }

  /** The model streams `ts` and finishes without asking for a script. */
  lemma PlainRound(c: Core, ts: seq<string>, rt: Runtime)
    requires c.buffer == "" && !Acts(rt, Concat(ts))
    ensures Run(c, Deltas(ts) + [ResultSuccess], rt) == AfterPlainRound(c, ts, rt)
  {
    RunAppend(c, Deltas(ts), [ResultSuccess], rt);
    RunDeltas(c, ts, rt);
    var cd := Run(c, Deltas(ts), rt);
    assert cd.buffer == Concat(ts);
    RunSingle(cd, ResultSuccess, rt);
  }

  /** The model streams `ts`, which ask for a script. */
  lemma DirectiveRound(c: Core, ts: seq<string>, rt: Runtime)
    requires c.buffer == "" && Acts(rt, Concat(ts))
    ensures Run(c, Deltas(ts) + [ResultSuccess], rt) == AfterDirectiveRound(c, ts, rt)
  {
    RunAppend(c, Deltas(ts), [ResultSuccess], rt);
    RunDeltas(c, ts, rt);
    var cd := Run(c, Deltas(ts), rt);
    assert cd.buffer == Concat(ts);
    RunSingle(cd, ResultSuccess, rt);
  }

  lemma ChunksAppend<T>(a: seq<T>, b: seq<T>, d: seq<T>)
    ensures a + b + d == a + (b + d)
  {
  }

  /** Whether the runner's buffer is fresh for the next `execute`: either the consumer
      has not started (it starts with an empty buffer) or it has and its buffer is empty. */
  predicate ReadyForTurn(c: Core) {
    c.initialized ==> c.buffer == ""
  }

  /** `execute(p)` followed by a reply that asks for nothing: the history gains the
      prompt and the reply, one message goes out, and this turn's caller, and only it,
      gets the reply with the history as it now stands. */
  lemma PlainTurn(c: Core, prompt: string, options: ExecuteOptions, ts: seq<string>, rt: Runtime)
    requires ReadyForTurn(c) && !Acts(rt, Concat(ts))
    ensures var text := Concat(ts);
            var c' := Run(AfterExecute(c, prompt, options), Deltas(ts) + [ResultSuccess], rt);
            && c'.history == c.history + [Entry(User, prompt)] + (if text != "" then [Entry(Assistant, text)] else [])
            && c'.posted == c.posted + [WithContext(prompt)]
            && c'.settlements == c.settlements + [Resolved(c.nextTurn, ExecuteResult(Succeeded, text, false, rt.sessionId, c'.history))]
            && c'.chunks == c.chunks + (if options.hasOnChunk then Forwarded("", ts) else [])
            && c'.turn.None? && c'.buffer == "" && c'.nextTurn == c.nextTurn + 1
  {
    var c1 := AfterExecute(c, prompt, options);
    PlainRound(c1, ts, rt);
  }

  /** `execute(p)` followed by a reply that asks for a script, then a reply that does
      not: both replies join the history, the script's result goes out after the
      caller's message, and the caller gets the second reply. */
  lemma DirectiveTurn(c: Core, prompt: string, options: ExecuteOptions, ts1: seq<string>, ts2: seq<string>, rt: Runtime)
    requires ReadyForTurn(c) && Acts(rt, Concat(ts1)) && !Acts(rt, Concat(ts2))
    ensures var first, second := Concat(ts1), Concat(ts2);
            var c' := Run(AfterExecute(c, prompt, options), Deltas(ts1) + [ResultSuccess] + Deltas(ts2) + [ResultSuccess], rt);
            && c'.history == c.history + [Entry(User, prompt), Entry(Assistant, first)]
                                       + (if second != "" then [Entry(Assistant, second)] else [])
            && c'.posted == c.posted + [WithContext(prompt), ScriptOutcome(rt.runScript(rt.detect(first).value))]
            && c'.settlements == c.settlements + [Resolved(c.nextTurn, ExecuteResult(Succeeded, second, false, rt.sessionId, c'.history))]
            && c'.chunks == c.chunks + (if options.hasOnChunk then Forwarded("", ts1) + Forwarded("", ts2) else [])
            && c'.turn.None? && c'.buffer == ""
  {
    DirectiveTurnRun(c, prompt, options, ts1, ts2, rt);
    DirectiveTurnFields(c, prompt, options, ts1, ts2, rt);
  }

  lemma DirectiveTurnRun(c: Core, prompt: string, options: ExecuteOptions, ts1: seq<string>, ts2: seq<string>, rt: Runtime)
    requires ReadyForTurn(c) && Acts(rt, Concat(ts1)) && !Acts(rt, Concat(ts2))
    ensures var c1 := AfterExecute(c, prompt, options);
            (Run(c1, Deltas(ts1) + [ResultSuccess] + Deltas(ts2) + [ResultSuccess], rt)
             == AfterPlainRound(AfterDirectiveRound(c1, ts1, rt), ts2, rt))
  {
    var c1 := AfterExecute(c, prompt, options);
    var evs1 := Deltas(ts1) + [ResultSuccess];
    var evs2 := Deltas(ts2) + [ResultSuccess];
    DirectiveRound(c1, ts1, rt);
    PlainRound(AfterDirectiveRound(c1, ts1, rt), ts2, rt);
    assert Deltas(ts1) + [ResultSuccess] + Deltas(ts2) + [ResultSuccess] == evs1 + evs2;
    RunAppend(c1, evs1, evs2, rt);
  }

  lemma DirectiveTurnFields(c: Core, prompt: string, options: ExecuteOptions, ts1: seq<string>, ts2: seq<string>, rt: Runtime)
    requires Acts(rt, Concat(ts1))
    ensures var first, second := Concat(ts1), Concat(ts2);
            var c' := AfterPlainRound(AfterDirectiveRound(AfterExecute(c, prompt, options), ts1, rt), ts2, rt);
            && c'.history == c.history + [Entry(User, prompt), Entry(Assistant, first)]
                                       + (if second != "" then [Entry(Assistant, second)] else [])
            && c'.posted == c.posted + [WithContext(prompt), ScriptOutcome(rt.runScript(rt.detect(first).value))]
            && c'.settlements == c.settlements + [Resolved(c.nextTurn, ExecuteResult(Succeeded, second, false, rt.sessionId, c'.history))]
            && c'.chunks == c.chunks + (if options.hasOnChunk then Forwarded("", ts1) + Forwarded("", ts2) else [])
            && c'.turn.None?
  {
    var first, second := Concat(ts1), Concat(ts2);
    var c1 := AfterExecute(c, prompt, options);
    var c2 := AfterDirectiveRound(c1, ts1, rt);
    var c3 := AfterPlainRound(c2, ts2, rt);
    assert c1.history == c.history + [Entry(User, prompt)] && c1.posted == c.posted + [WithContext(prompt)];
    assert c1.turn == Some(PendingTurn(c.nextTurn, options)) && c1.chunks == c.chunks && c1.settlements == c.settlements;
    assert c2.history == c1.history + [Entry(Assistant, first)];
    assert c2.posted == c1.posted + [ScriptOutcome(rt.runScript(rt.detect(first).value))];
    assert c2.turn == c1.turn && c2.settlements == c1.settlements;
    assert c2.chunks == if options.hasOnChunk then c1.chunks + Forwarded("", ts1) else c1.chunks;
    assert c3.history == c2.history + (if second != "" then [Entry(Assistant, second)] else []);
    assert c3.posted == c2.posted && c3.turn.None?;
    assert c3.settlements == c2.settlements + [Resolved(c.nextTurn, ExecuteResult(Succeeded, second, false, rt.sessionId, c3.history))];
    assert c3.chunks == if options.hasOnChunk then c2.chunks + Forwarded("", ts2) else c2.chunks;
    ChunksAppend(c.chunks, Forwarded("", ts1), Forwarded("", ts2));
  }

  // ---------------------------------------------------------------------------------
  // Conversations

  lemma {:induction false} TraceAppend(c: Core, a: seq<Action>, b: seq<Action>, rt: Runtime)
    ensures Trace(c, a + b, rt) == Trace(Trace(c, a, rt), b, rt)
    decreases |a|
  {
    if a == [] {
      assert a + b == b;
    } else {
      assert (a + b)[1..] == a[1..] + b;
      TraceAppend(Step(c, a[0], rt), a[1..], b, rt);
    }
  }

  /** One exchange as the caller and the session see it: `execute(prompt)`, the reply
      streamed as one delta, and a successful result. */
  function Exchange(prompt: string, reply: string, options: ExecuteOptions): seq<Action> {
    [Execute(prompt, options), Deliver(TextDelta(reply)), Deliver(ResultSuccess)]
  }

  function Exchanges(prompts: seq<string>, replies: seq<string>, options: ExecuteOptions): seq<Action>
    requires |prompts| == |replies|
    decreases |prompts|
  {
    if prompts == [] then []
    else Exchange(prompts[0], replies[0], options) + Exchanges(prompts[1..], replies[1..], options)
  }

  /** The history such a conversation leaves: each prompt followed by its reply. */
  function Dialogue(prompts: seq<string>, replies: seq<string>): seq<Entry>
    requires |prompts| == |replies|
    decreases |prompts|
  {
    if prompts == [] then []
    else [Entry(User, prompts[0]), Entry(Assistant, replies[0])] + Dialogue(prompts[1..], replies[1..])
  }

  /** The history of such a conversation alternates user and assistant entries. */
  lemma {:induction false} DialogueAlternates(prompts: seq<string>, replies: seq<string>)
    requires |prompts| == |replies|
    ensures |Dialogue(prompts, replies)| == 2 * |prompts|
    ensures forall i :: 0 <= i < |Dialogue(prompts, replies)| ==>
              Dialogue(prompts, replies)[i].role == (if i % 2 == 0 then User else Assistant)
    ensures forall i :: 0 <= i < |prompts| ==>
              Dialogue(prompts, replies)[2 * i] == Entry(User, prompts[i])
              && Dialogue(prompts, replies)[2 * i + 1] == Entry(Assistant, replies[i])
    decreases |prompts|
  {
    if prompts != [] {
      DialogueAlternates(prompts[1..], replies[1..]);
      var d := Dialogue(prompts, replies);
      var rest := Dialogue(prompts[1..], replies[1..]);
      assert d == [Entry(User, prompts[0]), Entry(Assistant, replies[0])] + rest;
      forall i | 2 <= i < |d| ensures d[i] == rest[i - 2] {}
      forall i | 1 <= i < |prompts| ensures d[2 * i] == Entry(User, prompts[i]) && d[2 * i + 1] == Entry(Assistant, replies[i]) {
        assert d[2 * i] == rest[2 * (i - 1)];
        assert d[2 * i + 1] == rest[2 * (i - 1) + 1];
      }
    }
  }

  /** Whether the runner can take a turn and its replies will be seen: the consumer has
      not started, or it is running with an empty buffer. */
  predicate Idle(c: Core) {
    c.initialized ==> c.consuming && c.buffer == ""
  }

  lemma ExchangeStep(c: Core, prompt: string, reply: string, options: ExecuteOptions, rt: Runtime)
    requires Idle(c) && reply != "" && !Acts(rt, reply)
    ensures var c' := Trace(c, Exchange(prompt, reply, options), rt);
            && c'.history == c.history + [Entry(User, prompt), Entry(Assistant, reply)]
            && c'.settlements == c.settlements + [Resolved(c.nextTurn, ExecuteResult(Succeeded, reply, false, rt.sessionId, c'.history))]
            && c'.initialized && c'.consuming && c'.buffer == "" && c'.turn.None?
            && c'.nextTurn == c.nextTurn + 1
  {
    var ex := Exchange(prompt, reply, options);
    var c1 := AfterExecute(c, prompt, options);
    var c2 := AfterEvent(c1, TextDelta(reply), rt);
    assert c2.buffer == "" + reply == reply;
    assert Trace(c, ex, rt) == Trace(c1, ex[1..], rt);
    assert Trace(c1, ex[1..], rt) == Trace(c2, ex[2..], rt);
    assert Trace(c2, ex[2..], rt) == Trace(AfterEvent(c2, ResultSuccess, rt), [], rt);
  }

  /** A settlement that resolves turn `id` with the reply `content`. */
  predicate ResolvedWith(s: Settlement, id: TurnId, content: string) {
    s.Resolved? && s.turn == id && s.result.content == content
  }

  /** A conversation of plain exchanges: the history is the dialogue, and each caller,
      in order, gets its own reply. */
  lemma {:induction false} Conversation(c: Core, prompts: seq<string>, replies: seq<string>, options: ExecuteOptions, rt: Runtime)
    requires |prompts| == |replies| && Idle(c)
    requires forall i :: 0 <= i < |replies| ==> replies[i] != "" && !Acts(rt, replies[i])
    ensures var c' := Trace(c, Exchanges(prompts, replies, options), rt);
            && c'.history == c.history + Dialogue(prompts, replies)
            && |c'.settlements| == |c.settlements| + |prompts|
            && c.settlements <= c'.settlements
            && (forall i :: 0 <= i < |prompts| ==>
                  ResolvedWith(c'.settlements[|c.settlements| + i], c.nextTurn + i, replies[i]))
            && Idle(c') && c'.turn == (if prompts == [] then c.turn else None)
    decreases |prompts|
  {
    if prompts != [] {
      var ex := Exchange(prompts[0], replies[0], options);
      var rest := Exchanges(prompts[1..], replies[1..], options);
      ExchangeStep(c, prompts[0], replies[0], options, rt);
      var c1 := Trace(c, ex, rt);
      Conversation(c1, prompts[1..], replies[1..], options, rt);
      TraceAppend(c, ex, rest, rt);
      var c' := Trace(c1, rest, rt);
      assert Trace(c, Exchanges(prompts, replies, options), rt) == c';
      assert c'.history == c.history + Dialogue(prompts, replies) by {
        assert Dialogue(prompts, replies) == [Entry(User, prompts[0]), Entry(Assistant, replies[0])] + Dialogue(prompts[1..], replies[1..]);
      }
      forall i | 0 <= i < |prompts|
        ensures ResolvedWith(c'.settlements[|c.settlements| + i], c.nextTurn + i, replies[i])
      {
        if i == 0 {
          assert c'.settlements[|c.settlements|] == c1.settlements[|c.settlements|];
        } else {
          assert |c.settlements| + i == |c1.settlements| + (i - 1);
          assert replies[1..][i - 1] == replies[i];
        }
      }
    }
  }

  // ---------------------------------------------------------------------------------
  // The runner's own detector

  /** A reply that is only a directive with an empty payload ends the turn like any
      other reply: the caller receives the directive text itself. */
  lemma EmptyDirectiveEndsTurn(c: Core, runScript: string -> ScriptResult, sessionId: string)
    requires c.buffer == ExecuteOpen + " " + InputLabel + " " + ExecuteClose && c.turn.Some?
    ensures var c' := AfterEvent(c, ResultSuccess, Wired(runScript, sessionId));
            && c'.posted == c.posted
            && c'.history == c.history + [Entry(Assistant, c.buffer)]
            && c'.settlements == c.settlements + [Resolved(c.turn.value.id, ExecuteResult(Succeeded, c.buffer, false, sessionId, c'.history))]
  {
    var rt := Wired(runScript, sessionId);
    assert !Acts(rt, c.buffer) by {
      EmptyPayloadIsNoDirective();
      WiredActsOnDirectives(runScript, sessionId, c.buffer);
    }
    assert c.buffer != "";
    PlainResultSettlesTurn(c, rt);
  }

  /** A model reply with no `[` in it. */
  predicate Plain(text: string) {
    forall i :: 0 <= i < |text| ==> text[i] != '['
  }

  /** A payload the canonical block carries through the detector unchanged. */
  ghost predicate Payload(x: string) {
    x != [] && IsTrimmed(x) && !Contains(x, ExecuteClose)
  }

  lemma AskThenAnswerConcat(pre: string, b: string, answer: string)
    ensures Concat([pre, b]) == pre + b && Concat([answer]) == answer
  {
    assert [pre, b][1..] == [b] && [b][1..] == [] && [answer][1..] == [];
    assert Concat([b]) == b + "";
  }

  /** A plain answer asks for nothing and is forwarded whole. */
  lemma PlainAnswer(answer: string)
    requires Plain(answer)
    ensures !HasDirective(answer) && Forwarded("", [answer]) == [answer]
  {
    NoBracketNoOpening(answer);
    NoOpeningMarkerNoDirective(answer);
    assert "" + answer == answer;
    assert [answer][1..] == [];
  }

  /** Of a plain delta followed by a directive block, only the plain delta is
      forwarded. */
  lemma AskForwarded(pre: string, x: string)
    requires Plain(pre)
    ensures Forwarded("", [pre, Block(x)]) == [pre]
  {
    var b := Block(x);
    assert "" + pre == pre;
    assert !Contains(pre, ExecuteOpen) by {
      NoBracketNoOpening(pre);
    }
    assert Contains(pre + b, ExecuteOpen) by {
      BlockLayout(x);
      assert (pre + b)[|pre|..|pre| + 16] == b[..16];
      assert OccursAt(pre + b, ExecuteOpen, |pre|);
    }
    assert [pre, b][1..] == [b];
  }

  /** The runner's own detector acts on a plain delta followed by a block, and not on a
      plain answer. */
  lemma AskThenAnswerActs(pre: string, x: string, answer: string, runScript: string -> ScriptResult, sessionId: string)
    requires Plain(pre) && Payload(x) && Plain(answer)
    ensures var rt := Wired(runScript, sessionId);
            && Acts(rt, Concat([pre, Block(x)])) && rt.detect(Concat([pre, Block(x)])).value == x
            && !Acts(rt, Concat([answer]))
  {
    AskThenAnswerConcat(pre, Block(x), answer);
    DetectAfterPlainText(pre, x);
    PlainAnswer(answer);
    WiredActsOnDirectives(runScript, sessionId, pre + Block(x));
    WiredActsOnDirectives(runScript, sessionId, answer);
  }

  /** A complete turn with the runner's own detector: the model says something plain,
      asks for the script on payload `x` in a second delta, gets the script's output back
      and answers plainly. The history holds the prompt, both replies and nothing else;
      the script is run on `x`; the caller gets the answer; and the caller's `onChunk`
      sees the first delta and the answer, never the directive. */
  lemma AskThenAnswerTurn(c: Core, prompt: string, options: ExecuteOptions, pre: string, x: string, answer: string,
                          runScript: string -> ScriptResult, sessionId: string)
    requires ReadyForTurn(c) && Plain(pre) && Payload(x) && Plain(answer) && answer != ""
    ensures var c' := Run(AfterExecute(c, prompt, options),
                          Deltas([pre, Block(x)]) + [ResultSuccess] + Deltas([answer]) + [ResultSuccess],
                          Wired(runScript, sessionId));
            var h := c.history + [Entry(User, prompt), Entry(Assistant, pre + Block(x)), Entry(Assistant, answer)];
            && c'.history == h
            && c'.posted == c.posted + [WithContext(prompt), ScriptOutcome(runScript(x))]
            && c'.settlements == c.settlements + [Resolved(c.nextTurn, ExecuteResult(Succeeded, answer, false, sessionId, h))]
            && c'.chunks == c.chunks + (if options.hasOnChunk then [pre, answer] else [])
  {
    var rt := Wired(runScript, sessionId);
    AskThenAnswerActs(pre, x, answer, runScript, sessionId);
    DirectiveTurnRun(c, prompt, options, [pre, Block(x)], [answer], rt);
    AskThenAnswerConcat(pre, Block(x), answer);
    AskForwarded(pre, x);
    PlainAnswer(answer);
    AskThenAnswerOutcome(c, prompt, options, pre, Block(x), x, answer, rt);
  }

  /** The reference outcome of a turn of two deltas, the second asking for a script on
      `x`, and a plain answer, field by field. */
  lemma AskThenAnswerOutcome(c: Core, prompt: string, options: ExecuteOptions, pre: string, ask: string, x: string,
                             answer: string, rt: Runtime)
    requires Concat([pre, ask]) == pre + ask && Concat([answer]) == answer && answer != ""
    requires Acts(rt, pre + ask) && rt.detect(pre + ask).value == x
    requires Forwarded("", [pre, ask]) == [pre] && Forwarded("", [answer]) == [answer]
    ensures var c' := AfterPlainRound(AfterDirectiveRound(AfterExecute(c, prompt, options), [pre, ask], rt), [answer], rt);
            var h := c.history + [Entry(User, prompt), Entry(Assistant, pre + ask), Entry(Assistant, answer)];
            && c'.history == h
            && c'.posted == c.posted + [WithContext(prompt), ScriptOutcome(rt.runScript(x))]
            && c'.settlements == c.settlements + [Resolved(c.nextTurn, ExecuteResult(Succeeded, answer, false, rt.sessionId, h))]
            && c'.chunks == c.chunks + (if options.hasOnChunk then [pre, answer] else [])
  {
    DirectiveTurnFields(c, prompt, options, [pre, ask], [answer], rt);
    assert [Entry(User, prompt), Entry(Assistant, pre + ask)] + [Entry(Assistant, answer)]
        == [Entry(User, prompt), Entry(Assistant, pre + ask), Entry(Assistant, answer)];
    assert [pre] + [answer] == [pre, answer];
  }

  const Preamble: string := "Let me check the available skills.\n"
  const Listing: string := "Available: a, b"

  /** An instance: "Let me check the available skills.", then a request for the script on
      `list skills`, then the listing as the answer. */
  lemma ListSkillsTurn(c: Core, prompt: string, options: ExecuteOptions, runScript: string -> ScriptResult, sessionId: string)
    requires ReadyForTurn(c)
    ensures var c' := Run(AfterExecute(c, prompt, options),
                          Deltas([Preamble, Block("list skills")]) + [ResultSuccess] + Deltas([Listing]) + [ResultSuccess],
                          Wired(runScript, sessionId));
            && c'.history == c.history + [Entry(User, prompt), Entry(Assistant, Preamble + Block("list skills")), Entry(Assistant, Listing)]
            && c'.posted == c.posted + [WithContext(prompt), ScriptOutcome(runScript("list skills"))]
            && c'.chunks == c.chunks + (if options.hasOnChunk then [Preamble, Listing] else [])
  {
    assert Plain(Preamble) && Plain(Listing) && Listing != "";
    assert Payload("list skills") by {
      assert !Contains("list skills", ExecuteClose) by {
        assert |"list skills"| < |ExecuteClose|;
      }
    }
    AskThenAnswerTurn(c, prompt, options, Preamble, "list skills", Listing, runScript, sessionId);
  }
}
