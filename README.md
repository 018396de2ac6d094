# Skill runner, skill loader and credential resolution — a Dafny model

This project models the core of the SDK skills-management app
(`apps/sdk-skills-management`). The app holds one conversation between a caller and a language
model about one *skill*: a SKILL.md text, an optional README.md text and a script. The model
covers three parts.

- **The skill runner** (`skill-runner.ts`):
  - the input queue that feeds the session its messages;
  - the consumer loop that classifies session events, streams text to the caller's
    `onChunk`, detects `[EXECUTE_SCRIPT]` directives, sends the script's result back as a
    `[SCRIPT_RESULT]` block, and settles the caller's promise at the end of a turn;
  - `execute`, `continue`, `end` and `getHistory`;
  - the string builders and tests: the directive detector, the result serialiser, the system
    prompt, the per-turn message and the "needs more input" test.
- **The skill loader's pure part** (`skill-loader.ts`): reading title, description,
  functionality and usage out of a SKILL.md text, and building the default system prompt.
- **Credential resolution** (`auth.ts`): detecting the provider from the environment, building
  the configuration, and deriving the environment handed to the SDK.

Modules and files:

| file | module | what it holds |
|---|---|---|
| `wrappers.dfy` | `Wrappers` | `Option` and `Result` |
| `text.dfy` | `Text` | JavaScript's `\s` class, `trim()`, `includes`/`indexOf`, ASCII `toLowerCase()` |
| `skill_types.dfy` | `SkillTypes` | the records of `skill-types.ts` and `types.ts` |
| `directives.dfy` | `Directives` | the runner's pure string functions |
| `input_queue.dfy` | `InputQueues` | class `InputQueue` |
| `turn_protocol.dfy` | `TurnProtocol` | the runner's state as a value, its transitions, and the lemmas about whole turns and sessions |
| `skill_runner.dfy` | `Runner` | class `SkillRunner`; each method is proved to perform the `TurnProtocol` transition of the same name |
| `skill_loader.dfy` | `SkillLoader` | `parseMetadata` and `buildSystemPrompt` |
| `auth.dfy` | `Auth` | `auth.ts` |

Modelling choices:

- **Regular expressions.** Each regex is modelled as an explicit scan for the positions that
  JavaScript's backtracking settles on. The doc comments on `Directives.MatchSpan`,
  `SkillLoader.TitleAt` and `SkillLoader.HeaderEnd` explain the backtracking.
- **Promises.**
  - A promise in the runner is a turn identity.
  - Calls of `resolve` and `reject` are logged as `Settlement`s.
  - Calls of `onChunk` and `inputQueue.add` are logged as well.
  - The queue's promise resolvers are waiter identities. The queue records how each waiter
    was resolved.
- **The environment.** `process.env` is a parameter `env: map<string, string>`, and a missing
  key is an unset variable.

Notable behaviours of the code, all modelled as written (line numbers are in
`skill-runner.ts` unless another file is named):

- `execute` overwrites `turnPromise` (:349, :362-364) whether or not a turn is pending. A
  second `execute` while a turn is pending therefore does not fail: it replaces the pending
  promise, and the replaced caller is never settled (`TurnProtocol.ReplacedTurnNeverSettles`).
- `end()` (:429-435) closes the queue and the query and resets `isInitialized`. `end` itself
  settles nothing (`TurnProtocol.AfterEnd`); what the consumer loop may still do before the
  SDK's `close` ends it is stated under "## Left out".
- `execute` after `end()` does not fail. Because `end` reset `isInitialized` (:434), the call
  takes the first-call branch (:346-356) and starts a fresh consumer
  (`TurnProtocol.AfterExecute`). Its message goes to the closed queue, which ignores it (:44)
  (`Runner.SkillRunner.Execute`).
- The assistant text that carries a directive is pushed to the history (:261), and so is the
  reply that follows the script's result (:281). A turn with one script round therefore adds
  three entries (`TurnProtocol.DirectiveTurn`).
- An empty reply is not pushed (:280-282), so the history alternates user and assistant
  entries only when every reply is non-empty (`TurnProtocol.Conversation`).
- The result always has `needMoreInput: false` and no parsed payload (:286-292).
  `checkNeedMoreInput` and `tryParseJson` are never called by the runner;
  `checkNeedMoreInput` is modelled on its own.
- A section of SKILL.md runs up to the next `##` of any section (`skill-loader.ts:95`). With a
  `## Usage` header after it, the description stops there; without one, the usage text
  becomes part of the description (`SkillLoader.DescriptionStopsAtNextHeader`,
  `SkillLoader.DescriptionRunsOnWithoutHeader`).

## Model

Source paths are relative to the repository root.

| member | source | states |
|---|---|---|
| Text.Trim | apps/sdk-skills-management/skill-runner.ts:378 | `trim()` leaves no whitespace at either end |
| Text.TrimSlice | apps/sdk-skills-management/skill-runner.ts:378 | `trim()` removes only whitespace: its result is a slice of the input between a whitespace prefix and a whitespace suffix |
| Text.TrimSurrounded | apps/sdk-skills-management/skill-runner.ts:378 | trimming whitespace + trimmed text + whitespace gives back exactly that text |
| Text.FindFrom | apps/sdk-skills-management/skill-runner.ts:230 | the leftmost occurrence at or after the start, or none at all |
| Text.LowerChar | apps/sdk-skills-management/skill-runner.ts:450 | an upper-case ASCII letter becomes the lower-case letter at the same place in the alphabet; every other character is left as it is; no upper-case letter comes out |
| Text.Lower | apps/sdk-skills-management/skill-runner.ts:450 | `toLowerCase()` keeps the length, lower-cases each character, and leaves no upper-case letter |
| Text.LowerAppend | apps/sdk-skills-management/skill-runner.ts:450 | lower-casing a concatenation is concatenating the lower-cased parts |
| Text.LowerOfLowercase | apps/sdk-skills-management/skill-runner.ts:452 | a string without upper-case letters is left unchanged |
| Text.LowerIdempotent | apps/sdk-skills-management/skill-runner.ts:450 | lower-casing twice is lower-casing once |
| Text.ContainsExtend | apps/sdk-skills-management/skill-runner.ts:230 | `includes` stays true when text is appended (the streaming buffer only grows) |
| Directives.MatchSpan | apps/sdk-skills-management/skill-runner.ts:376 | a match at `p` needs the opening marker at `p` and a closing marker after it |
| Directives.MatchAt | apps/sdk-skills-management/skill-runner.ts:376-378 | a capture is trimmed, and comes from an opening marker at `p` with a closing marker after it |
| Directives.FirstMatch | apps/sdk-skills-management/skill-runner.ts:376 | the leftmost start position of a match: a match there, none before it, and none anywhere when absent |
| Directives.DetectScriptExecutionRequest | apps/sdk-skills-management/skill-runner.ts:375-381 | a result exists iff the regex matches somewhere; it is the trimmed capture of the leftmost match |
| Directives.NoClosingMarkerNoDirective | apps/sdk-skills-management/skill-runner.ts:376-380 | with no closing marker after the first opening marker, the detector returns null |
| Directives.NoOpeningMarkerNoDirective | apps/sdk-skills-management/skill-runner.ts:376-380 | with no opening marker, the detector returns null |
| Directives.NoBracketNoOpening | apps/sdk-skills-management/skill-runner.ts:376 | text without `[` holds no opening marker |
| Directives.FirstCloseAfterPayload | apps/sdk-skills-management/skill-runner.ts:376 | the lazy capture stops at the closing marker of its own block when the payload holds none |
| Directives.BlockLayout | apps/sdk-skills-management/skill-runner.ts:146-149 | where marker, line feeds, label, payload and closing marker sit in the block the prompt asks for |
| Directives.MatchAtSteps | apps/sdk-skills-management/skill-runner.ts:376 | the capture starts after the maximal whitespace following `user_input:` and ends at the next closing marker |
| Directives.MatchAtBlockParts | apps/sdk-skills-management/skill-runner.ts:376-378 | the regex tried on the pieces of a block captures exactly its payload |
| Directives.MatchAtBlock | apps/sdk-skills-management/skill-runner.ts:376-378 | the regex tried where a block starts captures its payload |
| Directives.DetectFirstBlock | apps/sdk-skills-management/skill-runner.ts:375-381 | a block that begins at the first opening marker yields its payload |
| Directives.DetectRoundTrip | apps/sdk-skills-management/skill-runner.ts:146-149 | round trip: detecting the prompt's block format for payload `x` gives back `x` (x non-empty, trimmed, without a closing marker) |
| Directives.DetectAfterPlainText | apps/sdk-skills-management/skill-runner.ts:375-381 | text without `[` followed by a block: the payload is detected |
| Directives.OpeningAfterPlainText | apps/sdk-skills-management/skill-runner.ts:376 | with no `[` before it, a marker right after plain text is the first one |
| Directives.EmptyPayloadIsNoDirective | apps/sdk-skills-management/skill-runner.ts:259 | a block with an empty payload is detected as the empty text, which the runner's truthiness test does not act on |
| Directives.HasDirective | apps/sdk-skills-management/skill-runner.ts:257-259 | the runner acts on a text only when it holds an opening marker with a closing marker after it |
| Directives.ErrorText | apps/sdk-skills-management/skill-runner.ts:402 | `error \|\| 'Unknown error'`: the error when it is non-empty, else the fixed text |
| Directives.BuildScriptResultMessage | apps/sdk-skills-management/skill-runner.ts:386-410 | whatever the status, the message opens with `[SCRIPT_RESULT]` and a blank line and ends with `[/SCRIPT_RESULT]` |
| Directives.ScriptResultLayout | apps/sdk-skills-management/skill-runner.ts:386-410 | the block opens with `[SCRIPT_RESULT]` and a blank line and closes with `[/SCRIPT_RESULT]`; it starts with the success lead-in iff the status is `success`; the output (success) or the error text (otherwise) can be cut back out of it |
| Directives.ResultFrame | apps/sdk-skills-management/skill-runner.ts:389-407 | both heads start with the opening line, both tails end with the closing line, and the two heads differ |
| Directives.Framed | apps/sdk-skills-management/skill-runner.ts:409 | where head, body and tail sit in their concatenation |
| Directives.CreateSystemPrompt | apps/sdk-skills-management/skill-runner.ts:122-155 | the prompt opens with the `# Skill Information` heading and the SKILL.md text, and ends with the fixed `# How to Use` instructions |
| Directives.SystemPromptLayout | apps/sdk-skills-management/skill-runner.ts:122-155 | the prompt is the SKILL.md section, then the README section iff README.md is non-empty (with its text), then the fixed instructions |
| Directives.BuildMessageWithSkillContext | apps/sdk-skills-management/skill-runner.ts:319-330 | the message starts with the system prompt and ends with the caller's text |
| Directives.MessageWithContextLayout | apps/sdk-skills-management/skill-runner.ts:319-330 | the message is the system prompt, the `---` separator, then `User Input: ` and the caller's text, which can be cut back out |
| Directives.CheckNeedMoreInput | apps/sdk-skills-management/skill-runner.ts:440-454 | true iff the lower-cased response contains one of the six indicator phrases (which are lower-case already) |
| Directives.IndicatorsLowercase | apps/sdk-skills-management/skill-runner.ts:441-448 | every indicator phrase is its own lower-cased form, so lower-casing it at :452 changes nothing |
| Directives.NeedMoreInputSurvivesContext | apps/sdk-skills-management/skill-runner.ts:440-454 | once a text contains an indicator phrase, any text around it does too |
| Directives.NeedMoreInputIgnoresCase | apps/sdk-skills-management/skill-runner.ts:450-453 | the test gives the same answer on the lower-cased text |
| InputQueues.ResolvedWithNull | apps/sdk-skills-management/skill-runner.ts:56 | resolving the waiters with null adds exactly those waiters, each with null, and changes nothing else |
| InputQueues.CloseKeepsInvariant | apps/sdk-skills-management/skill-runner.ts:54-58 | closing keeps the queue invariant: FIFO delivery, no waiter while items wait, no waiter once closed |
| InputQueues.InputQueue.constructor | apps/sdk-skills-management/skill-runner.ts:29-32 | an empty, open queue with no waiters |
| InputQueues.InputQueue.GetNext | apps/sdk-skills-management/skill-runner.ts:34-41 | null at once when closed; else the oldest item, removed; else a new waiter at the back of the waiter list |
| InputQueues.InputQueue.Add | apps/sdk-skills-management/skill-runner.ts:43-52 | ignored when closed; else the oldest waiter gets the item, or the item joins the back of the queue; delivery stays FIFO; the whole new state is `Added` of the old one |
| InputQueues.InputQueue.IsClosed | apps/sdk-skills-management/skill-runner.ts:60-62 | reports the `closed` flag; a queue that reports itself closed has no blocked consumer |
| InputQueues.InputQueue.Close | apps/sdk-skills-management/skill-runner.ts:54-58 | closed, every current waiter resolved with null, none left, queued items kept; a second close changes nothing |
| TurnProtocol.Wired | apps/sdk-skills-management/skill-runner.ts:257 | the runner's loop detects with `detectScriptExecutionRequest` |
| TurnProtocol.WiredActsOnDirectives | apps/sdk-skills-management/skill-runner.ts:257-259 | the loop acts on a text iff the detector finds a non-empty directive in it |
| TurnProtocol.Deltas | apps/sdk-skills-management/skill-runner.ts:221-225 | one text-delta event per streamed fragment, in order |
| TurnProtocol.Forwarded | apps/sdk-skills-management/skill-runner.ts:228-235 | what reaches `onChunk` from a run of deltas is a prefix of those deltas |
| TurnProtocol.ForwardedStopsAtMarker | apps/sdk-skills-management/skill-runner.ts:228-236 | the forwarded text never completes the opening marker, and the first delta held back is the one that completes it |
| TurnProtocol.ForwardedAfterMarker | apps/sdk-skills-management/skill-runner.ts:230-236 | once the buffer holds the marker, no delta is forwarded |
| TurnProtocol.AbsorbBlocks | apps/sdk-skills-management/skill-runner.ts:243-251 | a complete assistant message never replaces streamed text; an empty buffer takes the message's first non-empty text block |
| TurnProtocol.RejectPending | apps/sdk-skills-management/skill-runner.ts:298-312 | exactly one rejection, of the pending turn and with the given reason, when a turn is pending, none otherwise; the slot is cleared; history, buffer, messages and chunks are untouched |
| TurnProtocol.AfterDelta | apps/sdk-skills-management/skill-runner.ts:221-240 | the delta joins the buffer; at most one chunk is added, it is the delta, and only for a streaming turn whose buffer then holds no opening marker; history, turn, settlements and messages are untouched |
| TurnProtocol.AfterResult | apps/sdk-skills-management/skill-runner.ts:254-297 | the buffer is emptied and the history gains at most one entry; with a directive the turn stays pending, nothing is settled and one message goes out; without, the turn is cleared, no message goes out and at most the pending turn is settled |
| TurnProtocol.AfterEvent | apps/sdk-skills-management/skill-runner.ts:214-305 | every event only appends to the history, the settlements, the outgoing messages and the chunks, and issues no turn identity |
| TurnProtocol.AfterExecute | apps/sdk-skills-management/skill-runner.ts:335-370 | the prompt joins the history, a fresh turn replaces the slot without any settlement, the message with the skill context goes out, and on the first call the consumer starts with an empty buffer |
| TurnProtocol.AfterEnd | apps/sdk-skills-management/skill-runner.ts:429-435 | `end` itself settles nothing: the pending turn, the settlements and the history stay; the model's consumer stops at once |
| TurnProtocol.Trace | apps/sdk-skills-management/skill-runner.ts:214-370 | along any session the history, the outgoing messages and the settlements are only appended to, and turn identities only grow |
| TurnProtocol.ForwardedStep | apps/sdk-skills-management/skill-runner.ts:228-236 | the chunk log after one more delta, stated with `Forwarded` |
| TurnProtocol.RunDeltas | apps/sdk-skills-management/skill-runner.ts:221-239 | a run of deltas appends their text to the buffer and forwards exactly `Forwarded`; nothing else changes |
| TurnProtocol.SuppressionSticks | apps/sdk-skills-management/skill-runner.ts:230-236 | once a delta has been held back, every later delta of the turn is held back |
| TurnProtocol.PartialMarkerForwarded | apps/sdk-skills-management/skill-runner.ts:229-235 | a delta with only the start of the marker is forwarded; the one completing it and those after are not |
| TurnProtocol.PartialMarkerChunks | apps/sdk-skills-management/skill-runner.ts:229-235 | the same example, stated for `Forwarded` |
| TurnProtocol.DirectiveKeepsTurn | apps/sdk-skills-management/skill-runner.ts:259-274 | a result with a directive: the text joins the history, the script's result is sent back, the buffer empties, the caller stays pending |
| TurnProtocol.PlainResultSettlesTurn | apps/sdk-skills-management/skill-runner.ts:278-297 | a result without a directive: the non-empty text joins the history and the pending caller gets that text and the history, once |
| TurnProtocol.FailureRejectsTurn | apps/sdk-skills-management/skill-runner.ts:298-312 | a failed result or stream failure rejects the pending caller (with a non-empty reason for a failed result) and leaves the transcript alone |
| TurnProtocol.SettleKeepsOrder | apps/sdk-skills-management/skill-runner.ts:286-293 | settling the pending turn, and only it, keeps the settlement order |
| TurnProtocol.ResultKeepsOrder | apps/sdk-skills-management/skill-runner.ts:254-297 | a successful result keeps the settlement order |
| TurnProtocol.RejectKeepsOrder | apps/sdk-skills-management/skill-runner.ts:299-311 | a rejection keeps the settlement order |
| TurnProtocol.EventKeepsOrder | apps/sdk-skills-management/skill-runner.ts:214-305 | every event keeps the settlement order |
| TurnProtocol.StepKeepsOrder | apps/sdk-skills-management/skill-runner.ts:335-370 | every event, `execute` and `end` keep the settlement order |
| TurnProtocol.ExecuteKeepsOrder | apps/sdk-skills-management/skill-runner.ts:348-364 | `execute` issues a fresh turn identity and keeps the order |
| TurnProtocol.TraceKeepsOrder | apps/sdk-skills-management/skill-runner.ts:214-370 | along any interleaving of calls and events, no promise is settled twice: settled turns strictly increase |
| TurnProtocol.TraceSettlesFrom | apps/sdk-skills-management/skill-runner.ts:214-370 | settlements are only appended, and later ones name later turns or the one pending |
| TurnProtocol.ReplacedTurnNeverSettles | apps/sdk-skills-management/skill-runner.ts:362-364 | a second `execute` replaces a pending promise without settling it, and that caller is never settled afterwards |
| TurnProtocol.RunAppend | apps/sdk-skills-management/skill-runner.ts:214 | events are consumed in arrival order: a run over two batches is the run over the first, then the second |
| TurnProtocol.PlainRound | apps/sdk-skills-management/skill-runner.ts:221-297 | a streamed reply without a directive ends the turn with that reply |
| TurnProtocol.DirectiveRound | apps/sdk-skills-management/skill-runner.ts:221-274 | a streamed reply with a directive records it, sends the script's result and keeps the turn open |
| TurnProtocol.PlainTurn | apps/sdk-skills-management/skill-runner.ts:335-370 | `execute` plus a plain reply: history gains prompt and reply, one message goes out, this caller alone gets the reply and the history |
| TurnProtocol.DirectiveTurn | apps/sdk-skills-management/skill-runner.ts:259-297 | `execute`, a reply asking for a script, then a plain reply: both replies are recorded, the script's result goes out after the caller's message, and the caller gets the second reply |
| TurnProtocol.DirectiveTurnRun | apps/sdk-skills-management/skill-runner.ts:259-297 | the state after such a turn, as the two rounds composed |
| TurnProtocol.DirectiveTurnFields | apps/sdk-skills-management/skill-runner.ts:259-297 | that state field by field |
| TurnProtocol.TraceAppend | apps/sdk-skills-management/skill-runner.ts:214 | a session over two batches of actions is the session over the first, then the second |
| TurnProtocol.DialogueAlternates | apps/sdk-skills-management/skill-runner.ts:340 | the history of plain exchanges alternates user and assistant, each prompt followed by its reply |
| TurnProtocol.ExchangeStep | apps/sdk-skills-management/skill-runner.ts:335-370 | one plain exchange appends the prompt and reply and resolves that call with the reply |
| TurnProtocol.Conversation | apps/sdk-skills-management/skill-runner.ts:335-370 | a conversation of plain exchanges: the history is the dialogue, and each caller in order gets its own reply |
| TurnProtocol.EmptyDirectiveEndsTurn | apps/sdk-skills-management/skill-runner.ts:257-292 | a reply that is only an empty-payload directive ends the turn: the caller receives the directive text |
| TurnProtocol.PlainAnswer | apps/sdk-skills-management/skill-runner.ts:228-259 | a reply without `[` asks for nothing and is forwarded whole |
| TurnProtocol.AskForwarded | apps/sdk-skills-management/skill-runner.ts:228-236 | of a plain delta followed by a directive block, only the plain delta reaches `onChunk` |
| TurnProtocol.AskThenAnswerActs | apps/sdk-skills-management/skill-runner.ts:257-259 | the runner's detector acts on plain text plus a block (yielding its payload) and not on a plain answer |
| TurnProtocol.AskThenAnswerTurn | apps/sdk-skills-management/skill-runner.ts:221-297 | a full turn with one script round: the history holds the prompt and both replies, the script runs on the payload, the caller gets the answer, and `onChunk` never sees the directive |
| TurnProtocol.AskThenAnswerOutcome | apps/sdk-skills-management/skill-runner.ts:221-297 | the same outcome for any detector, field by field |
| TurnProtocol.ListSkillsTurn | apps/sdk-skills-management/skill-runner.ts:221-297 | an instance: a preamble, a request for `list skills`, then a listing |
| Runner.RenderAll | apps/sdk-skills-management/skill-runner.ts:268 | the texts of the outgoing messages, one per message, in order |
| Runner.SkillRunner.constructor | apps/sdk-skills-management/skill-runner.ts:75-79 | a runner with an empty, open queue, the given skill and session id, and the initial state |
| Runner.SkillRunner.Post | apps/sdk-skills-management/skill-runner.ts:268 | the message is logged and the queue performs `add` of its text (`Added`): a closed queue is unchanged, else the oldest waiter is resolved with it, or, with none waiting, it joins the back of the queue; no other runner field changes |
| Runner.SkillRunner.OnDelta | apps/sdk-skills-management/skill-runner.ts:221-240 | performs the delta transition |
| Runner.SkillRunner.OnAssistant | apps/sdk-skills-management/skill-runner.ts:243-251 | the loop over blocks performs `AbsorbBlocks` on the buffer |
| Runner.SkillRunner.Reject | apps/sdk-skills-management/skill-runner.ts:299-302 | the pending caller, if any, is rejected and the slot cleared |
| Runner.SkillRunner.OnResult | apps/sdk-skills-management/skill-runner.ts:254-297 | performs the result transition; the queue performs `add` of exactly the rendered messages it posts (`AddedAll`), and is unchanged when it posts none |
| Runner.SkillRunner.Handle | apps/sdk-skills-management/skill-runner.ts:214-312 | one pass of the consumer loop performs `AfterEvent` and keeps the settlement order; the queue performs `add` of exactly the messages posted (`AddedAll`), and is unchanged when none is |
| Runner.SkillRunner.BeginTurn | apps/sdk-skills-management/skill-runner.ts:340-350 | records the prompt, starts the consumer on the first call, and makes a fresh promise the pending one |
| Runner.SkillRunner.Execute | apps/sdk-skills-management/skill-runner.ts:335-370 | performs `AfterExecute`, returns the new turn's identity, and the queue performs `add` of the message with the skill context (`Added`): dropped by a closed queue, else given to the oldest waiter or queued at the back |
| Runner.SkillRunner.Continue | apps/sdk-skills-management/skill-runner.ts:415-417 | the same as `execute` |
| Runner.SkillRunner.GetHistory | apps/sdk-skills-management/skill-runner.ts:422-424 | a copy of the history |
| Runner.SkillRunner.End | apps/sdk-skills-management/skill-runner.ts:429-435 | the queue is closed and every blocked read gets null, while its queued items, delivered items and waiter counter stay; the session stops; `end` itself settles nothing, so the pending caller is still pending when it returns |
| SkillLoader.LineEnd | apps/sdk-skills-management/skill-loader.ts:89 | where a greedy `.+` stops: the first line terminator, or the end |
| SkillLoader.TitleAt | apps/sdk-skills-management/skill-loader.ts:89-91 | the title regex matches at `p` iff there is a `#` heading mark there with a non-break character after it; the capture, trimmed, lies on one line |
| SkillLoader.TitleFrom | apps/sdk-skills-management/skill-loader.ts:89 | the leftmost line where the title regex matches |
| SkillLoader.Title | apps/sdk-skills-management/skill-loader.ts:89-92 | the title is present iff some line can start a match, and comes from the first such line, trimmed, on one line |
| SkillLoader.TitleAfterMark | apps/sdk-skills-management/skill-loader.ts:89-91 | with text after the mark's whitespace, the title is that line, trimmed |
| SkillLoader.TitleAtHeading | apps/sdk-skills-management/skill-loader.ts:89-91 | `# t` on its own line gives `t` |
| SkillLoader.FirstTitleAt | apps/sdk-skills-management/skill-loader.ts:89 | with no `#` before it, a heading is the one the search settles on |
| SkillLoader.TitleOfHeading | apps/sdk-skills-management/skill-loader.ts:89-92 | a `# ` heading after text without `#` yields its text as the title |
| SkillLoader.LastLineFeed | apps/sdk-skills-management/skill-loader.ts:95 | where `\s*\n` ends: the last line feed in the whitespace run |
| SkillLoader.BodyEnd | apps/sdk-skills-management/skill-loader.ts:95 | where the lazy body stops: the first `##` after the header line, or the end |
| SkillLoader.TrimmedBodyText | apps/sdk-skills-management/skill-loader.ts:95-97 | the trimmed body is trimmed and holds no `##` |
| SkillLoader.HeaderEnd | apps/sdk-skills-management/skill-loader.ts:95 | the header line ends at a line feed after the `##` and the name |
| SkillLoader.HeaderEndMeansHeader | apps/sdk-skills-management/skill-loader.ts:95 | the scan finds a header line at `p` iff a header (`##`, whitespace, the name in any case, whitespace with a line feed) is there |
| SkillLoader.BodyText | apps/sdk-skills-management/skill-loader.ts:95-97 | a section value is trimmed and holds no `##` |
| SkillLoader.SectionAt | apps/sdk-skills-management/skill-loader.ts:95-97 | the section regex matches at `p` iff the header scan succeeds there |
| SkillLoader.HeaderFound | apps/sdk-skills-management/skill-loader.ts:95 | the positions the scan settles on form a header |
| SkillLoader.NoNameAfter | apps/sdk-skills-management/skill-loader.ts:95 | without the name where the whitespace stops, there is no header |
| SkillLoader.NoBreakAfter | apps/sdk-skills-management/skill-loader.ts:95 | without a line feed in the whitespace after the name, there is no header |
| SkillLoader.SectionFrom | apps/sdk-skills-management/skill-loader.ts:95 | the leftmost position where the section regex matches |
| SkillLoader.Section | apps/sdk-skills-management/skill-loader.ts:95-97 | a section value is trimmed and holds no `##` |
| SkillLoader.SectionPresence | apps/sdk-skills-management/skill-loader.ts:95-97 | a section is present iff a header for it exists |
| SkillLoader.HeaderLine | apps/sdk-skills-management/skill-loader.ts:95 | a `## name` line ends at its line feed |
| SkillLoader.BodyBetween | apps/sdk-skills-management/skill-loader.ts:95-97 | a trimmed body followed by whitespace and then `##` or the end is the captured value |
| SkillLoader.SectionOfShapes | apps/sdk-skills-management/skill-loader.ts:95-97 | a header line followed by such a body, with no `##` before, gives that body |
| SkillLoader.SectionOfHeader | apps/sdk-skills-management/skill-loader.ts:95-97 | `## name`, a line feed, a body, whitespace and then `##` or the end, after text without `##`: the section is that body |
| SkillLoader.ParseMetadata | apps/sdk-skills-management/skill-loader.ts:85-113 | every field filled is trimmed; the title lies on one line; no section value holds `##` |
| SkillLoader.MetadataPresence | apps/sdk-skills-management/skill-loader.ts:85-113 | each field is present iff its heading is in the text |
| SkillLoader.DescriptionStopsAtNextHeader | apps/sdk-skills-management/skill-loader.ts:95-110 | a description followed by a `## Usage` header stops at it |
| SkillLoader.DescriptionRunsOnWithoutHeader | apps/sdk-skills-management/skill-loader.ts:95-97 | without the header, the following text is part of the description |
| SkillLoader.JoinLines | apps/sdk-skills-management/skill-loader.ts:147 | the joined text starts with the first part and ends with the last |
| SkillLoader.JoinLinesAppend | apps/sdk-skills-management/skill-loader.ts:147 | `join('\n')` of two non-empty lists is the two joins with one line feed between |
| SkillLoader.PromptPartsLayout | apps/sdk-skills-management/skill-loader.ts:118-145 | the parts: intro and blank line; the description block iff the description is truthy; the functionality block with SKILL.md; the detailed block iff README.md is truthy; then the four rules and a blank line |
| SkillLoader.IntroNamesSkill | apps/sdk-skills-management/skill-loader.ts:121 | the intro line names the title when truthy, else the skill name |
| SkillLoader.BuildSystemPrompt | apps/sdk-skills-management/skill-loader.ts:118-148 | the prompt starts with the intro line and a blank line and ends with the interaction rules after a line feed |
| SkillLoader.JoinFrame | apps/sdk-skills-management/skill-loader.ts:147 | the same, for any joined list of that shape |
| SkillLoader.RulesJoined | apps/sdk-skills-management/skill-loader.ts:140-145 | the rules block joined is the rules text |
| Auth.FirstSet | apps/sdk-skills-management/auth.ts:42-49 | the value of the first key in order whose variable is non-empty; present iff one is set |
| Auth.GetEnvValue | apps/sdk-skills-management/auth.ts:42-49 | the loop returns `FirstSet` |
| Auth.DetectedType | apps/sdk-skills-management/auth.ts:54-62 | none iff no key of either provider is set; Qwen iff no OpenAI key and some Qwen key; the detected provider has a key set |
| Auth.DetectAuthType | apps/sdk-skills-management/auth.ts:54-62 | the two loops return `DetectedType` |
| Auth.OpenAIPreferred | apps/sdk-skills-management/auth.ts:56-58 | setting a Qwen key never takes the choice away from OpenAI |
| Auth.CreateOpenAIConfig | apps/sdk-skills-management/auth.ts:67-84 | fails iff no OpenAI key is set, with the fixed message; else an OpenAI config whose key is the first set key |
| Auth.CreateQwenConfig | apps/sdk-skills-management/auth.ts:89-108 | fails iff no Qwen key is set, with the fixed message; else a Qwen config whose key is the first set key |
| Auth.CreateAuthConfig | apps/sdk-skills-management/auth.ts:113-125 | fails iff no provider is detected, with the "No API Key detected" message; else the config's provider is the detected one |
| Auth.CreatedConfig | apps/sdk-skills-management/auth.ts:67-125 | a created config has a non-empty key, and a base URL and model that are the provider's variables when set and its defaults otherwise, hence non-empty |
| Auth.ProviderConfig | apps/sdk-skills-management/auth.ts:67-108 | the same for each provider's builder |
| Auth.QwenOptions | apps/sdk-skills-management/auth.ts:105-106 | Qwen turns search on iff `QWEN_ENABLE_SEARCH` is `true` and asks for `message` results; OpenAI sets neither |
| Auth.MissingKeyUnreachable | apps/sdk-skills-management/auth.ts:113-125 | through `createAuthConfig` the per-provider "Missing" errors never occur |
| Auth.GetSDKEnv | apps/sdk-skills-management/auth.ts:131-155 | `OPENAI_API_KEY` is the key; `OPENAI_BASE_URL`/`OPENAI_MODEL` present iff truthy; `QWEN_API_KEY` iff Qwen; `QWEN_BASE_URL` iff Qwen with a truthy base URL; no other variable |
| Auth.GetSDKAuthType | apps/sdk-skills-management/auth.ts:160-164 | the constant `openai`, for either provider (no property beyond the constant) |
| Auth.GetConfigInfo | apps/sdk-skills-management/auth.ts:169-174 | the provider label is `OpenAI` iff the config is OpenAI's and the Qwen label iff it is Qwen's; the model is the configured one when non-empty, else `default` |
| Auth.ConfigInfoOfCreated | apps/sdk-skills-management/auth.ts:169-174 | for a created config the provider shown is OpenAI iff OpenAI was detected, and the model shown is the configured or default model, never the placeholder |

## Left out

- Running the script (`executeScript`: the file check, `python3` through `execSync`, the 30 s
  timeout, JSON parsing of the output) is an oracle `runScript: string -> ScriptResult`.
- The SDK itself (`query`, `q.initialized`, closing the query, the tool-denial callback) and the
  50 ms pause of the message stream are outside the model. What that leaves unmodelled about
  starting and stopping the consumer is stated under `TurnProtocol.AfterExecute` and
  `TurnProtocol.AfterEnd` below. The session's messages are the
  `Event` datatype. `StreamFailure` stands for the loop's `catch`.
- `createMessageStream` as an async generator is left out. Its reads are `InputQueue.GetNext`,
  whose pending result stands for the blocked `await`.
- Console logging is left out.
- `crypto.randomUUID()` for a missing session id: the session id is a constructor parameter.
- The SDK options built in `startConsumer` (`env`, `authType`, `model`) are modelled by
  `Auth.GetSDKEnv`, `Auth.GetSDKAuthType` and `Auth.CreateAuthConfig`. Passing them to the SDK
  is outside the model.
- `TurnProtocol.AfterExecute`: a failure to start the consumer is not modelled; the model
  starts it whenever `isInitialized` is false. In the code, `startConsumer` calls
  `createAuthConfig()` (skill-runner.ts:183) before its `try` (:213), and `execute` does not
  await `startConsumer` (:353). So with no API key set the rejection of `startConsumer`'s
  promise is unhandled, the caller's promise never settles, and the `catch` of `executeSkill`
  (skill.ts:72) never runs.
- `TurnProtocol.AfterExecute` and `TurnProtocol.AfterEnd` change `initialized` at once. In the
  code `isInitialized` becomes true only after `await q.initialized` (skill-runner.ts:207-208)
  and false only after `await this.currentQuery.close()` (:432-434). A second `execute` made
  before the first consumer is initialized therefore starts a second consumer on the same queue;
  the model has one consumer at a time.
- `TurnProtocol.AfterEnd` and `Runner.SkillRunner.End` end event delivery at `end`: after it
  the model's consumer takes no more events (`TurnProtocol.Step` drops them). In the code
  `end` only closes the input queue and awaits the SDK's `close` (skill-runner.ts:429-434),
  and the `for await` loop (:214) runs until that `close` ends the iteration. Until then the
  loop may still resolve the pending caller with a result already in flight (:285-293), or
  reject it through the `catch` (:306-311) if the closing iterator throws. How the SDK's
  `close` ends the iteration is outside the model.
- `tryParseJson` is never called by the runner and is not modelled.
- `Text.Lower`: `toLowerCase()` is modelled on ASCII letters only. No Unicode case mapping.
- `Auth.CreateOpenAIConfig`: `timeout` and `maxRetries` (auth.ts:81-82) are kept as the text
  handed to `parseInt`, not as numbers. The `parseInt` conversion is left out.
- `Auth.CreateQwenConfig`: the same for its `timeout` and `maxRetries` (auth.ts:103-104).
- `getEnvHelp` (help text) is left out. So are the file-system functions of the loader:
  `loadSkill`, `listSkills` and `skillExists`.
- `getEnvValue` also accepts a single key. Only the list form is called, and a single key is
  the one-element list.
- Concurrency is left out. Callers and the consumer loop are modelled as interleaved steps
  (`TurnProtocol.Trace`), which is how JavaScript's single thread runs them.
