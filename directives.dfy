/** The pure string functions of the skill runner: the `[EXECUTE_SCRIPT]` directive
    detector, the `[SCRIPT_RESULT]` serialiser, the system prompt and per-turn message
    builders, and the "needs more input" test. Each `parts.join('\n')` of the source is
    written out as the concatenation it produces. */
module Directives {
  import opened Wrappers
  import opened Text
  import opened SkillTypes

  const ExecuteOpen: string := "[EXECUTE_SCRIPT]"
  const ExecuteClose: string := "[/EXECUTE_SCRIPT]"
  const InputLabel: string := "user_input:"

  /** The canonical directive block the system prompt asks the model to emit. */
  function Block(x: string): string {
    ExecuteOpen + "\n" + InputLabel + " " + x + "\n" + ExecuteClose
  }

  /** The regex `\[EXECUTE_SCRIPT\]\s*user_input:\s*([\s\S]+?)\s*\[\/EXECUTE_SCRIPT\]`
      tried at start position `p`: where the capture starts and where the closing marker
      after it starts.
      Backtracking, worked out: the first `\s*` can only stop where `user_input:` starts,
      so it is maximal. The second `\s*` is first tried maximal (ending at `q`); the lazy
      group then grows until the trailing `\s*` reaches a closing marker, which happens
      first at the leftmost closing marker at or after `q + 1`, and trimming removes the
      whitespace the trailing `\s*` would have taken. If there is none, the second `\s*`
      gives back one character, and the only way that succeeds is a closing marker at
      exactly `q`, the captured character being whitespace. */
  function MatchSpan(s: string, p: nat): (r: Option<(nat, nat)>)
    ensures r.Some? ==> OccursAt(s, ExecuteOpen, p)
    ensures r.Some? ==> r.value.0 <= r.value.1 && p + |ExecuteOpen| < r.value.1
                        && OccursAt(s, ExecuteClose, r.value.1)
  {
    if !OccursAt(s, ExecuteOpen, p) then None
    else
      var w := SkipSpaces(s, p + |ExecuteOpen|);
      if !OccursAt(s, InputLabel, w) then None
      else
        var b := w + |InputLabel|;
        var q := SkipSpaces(s, b);
        match FindFrom(s, ExecuteClose, q + 1)
        case Some(c) => Some((q, c))
        case None =>
          if b < q && OccursAt(s, ExecuteClose, q) then Some((q - 1, q)) else None
  }

  /** The regex tried at `p`: the trimmed text of the span it captures. */
  function MatchAt(s: string, p: nat): (r: Option<string>)
    ensures r.Some? ==> IsTrimmed(r.value)
    ensures r.Some? ==> OccursAt(s, ExecuteOpen, p)
    ensures r.Some? ==> exists c :: p + |ExecuteOpen| < c && OccursAt(s, ExecuteClose, c)
  {
    match MatchSpan(s, p)
    case Some(span) => Some(Trim(s[span.0..span.1]))
    case None => None
  }

  /** The leftmost start position, at or after `from`, where the regex matches. */
  function FirstMatch(s: string, from: nat): (r: Option<nat>)
    decreases |s| - from
    ensures r.Some? ==> from <= r.value && MatchAt(s, r.value).Some?
    ensures r.Some? ==> forall p :: from <= p < r.value ==> MatchAt(s, p).None?
    ensures r.None? ==> forall p :: from <= p ==> MatchAt(s, p).None?
  {
    if from + |ExecuteOpen| > |s| then None
    else if MatchAt(s, from).Some? then Some(from)
    else FirstMatch(s, from + 1)
  }

  /** `detectScriptExecutionRequest`: the trimmed capture of the leftmost match, or null.
      A result is always trimmed, and a match needs an opening marker followed later by a
      closing one. */
  function DetectScriptExecutionRequest(response: string): (r: Option<string>)
    ensures r.Some? ==> IsTrimmed(r.value)
    ensures r.Some? <==> exists p: nat :: MatchAt(response, p).Some?
    ensures r.Some? ==> exists p: nat :: r == MatchAt(response, p)
                          && forall p' :: 0 <= p' < p ==> MatchAt(response, p').None?
  {
    match FirstMatch(response, 0)
    case Some(p) => MatchAt(response, p)
    case None => None
  }

  /** The runner acts on a directive only when the detected text is non-empty (the
      truthiness test on the detector's result). */
  predicate HasDirective(text: string): (b: bool)
    ensures b ==> exists p, c :: OccursAt(text, ExecuteOpen, p) && p + |ExecuteOpen| < c
                                 && OccursAt(text, ExecuteClose, c)
  {
    var d := DetectScriptExecutionRequest(text);
    d.Some? && d.value != ""
  }

  /** With no closing marker anywhere after the first opening marker, nothing is
      detected. */
  lemma NoClosingMarkerNoDirective(s: string, o: nat)
    requires FindFrom(s, ExecuteOpen, 0) == Some(o)
    requires FindFrom(s, ExecuteClose, o + |ExecuteOpen|) == None
    ensures DetectScriptExecutionRequest(s) == None
  {
    forall p: nat ensures MatchAt(s, p).None? {
    }
  }

  /** Without any opening marker, nothing is detected. */
  lemma NoOpeningMarkerNoDirective(s: string)
    requires FindFrom(s, ExecuteOpen, 0) == None
    ensures DetectScriptExecutionRequest(s) == None
  {
    forall p: nat ensures MatchAt(s, p).None? {
    }
  }

  /** A string with no `[` holds no marker. */
  lemma NoBracketNoOpening(s: string)
    requires forall i :: 0 <= i < |s| ==> s[i] != '['
    ensures FindFrom(s, ExecuteOpen, 0) == None
  {
    forall j: nat | j < |s| ensures !OccursAt(s, ExecuteOpen, j) {
      assert ExecuteOpen[0] == '[';
    }
  }

  /** `[/EXECUTE_SCRIPT]` contains no line feed. */
  lemma CloseHasNoNewline(k: int)
    requires 0 <= k < |ExecuteClose|
    ensures ExecuteClose[k] != '\n'
  {
  }

  /** The first closing marker after a payload that holds none is the one of its block. */
  lemma {:induction false} FirstCloseAfterPayload(s: string, q: nat, x: string)
    requires q + |x| + 1 + |ExecuteClose| <= |s|
    requires s[q..q + |x|] == x && s[q + |x|] == '\n'
    requires OccursAt(s, ExecuteClose, q + |x| + 1)
    requires !Contains(x, ExecuteClose)
    ensures FindFrom(s, ExecuteClose, q + 1) == Some(q + |x| + 1)
  {
    var c := q + |x| + 1;
    forall j | q + 1 <= j < c ensures !OccursAt(s, ExecuteClose, j) {
      if OccursAt(s, ExecuteClose, j) {
        if j + |ExecuteClose| <= q + |x| {
          SliceWithin(s, q, x, j - q, j - q + |ExecuteClose|);
          assert OccursAt(x, ExecuteClose, j - q);
          assert false;
        } else {
          var k := q + |x| - j;
          assert s[j..j + |ExecuteClose|][k] == s[q + |x|];
          CloseHasNoNewline(k);
          assert false;
        }
      }
    }
  }

  /** Where the parts of a block sit. */
  lemma BlockLayout(x: string)
    ensures |Block(x)| == 30 + |x| + |ExecuteClose|
    ensures Block(x)[..16] == ExecuteOpen
    ensures Block(x)[16] == '\n' && Block(x)[17] == 'u'
    ensures Block(x)[17..28] == InputLabel
    ensures Block(x)[28] == ' '
    ensures Block(x)[29..29 + |x|] == x
    ensures Block(x)[29 + |x|] == '\n'
    ensures Block(x)[30 + |x|..] == ExecuteClose
  {
    var b := Block(x);
    assert b == ExecuteOpen + ("\n" + InputLabel + " ") + x + ("\n" + ExecuteClose);
  }

  lemma SliceWithin(s: string, p: nat, b: string, i: nat, j: nat)
    requires p + |b| <= |s| && s[p..p + |b|] == b && i <= j <= |b|
    ensures s[p + i..p + j] == b[i..j]
  {
    forall k | 0 <= k < j - i ensures s[p + i..p + j][k] == b[i..j][k] {
      assert s[p + i + k] == s[p..p + |b|][i + k];
    }
  }

  /** The regex, tried at `p`, captures from where the whitespace after `user_input:`
      ends up to the first closing marker after it. */
  lemma MatchAtSteps(s: string, p: nat, w: nat, q: nat, c: nat)
    requires OccursAt(s, ExecuteOpen, p) && p + |ExecuteOpen| <= w <= |s|
    requires SkipSpaces(s, p + |ExecuteOpen|) == w && OccursAt(s, InputLabel, w)
    requires w + |InputLabel| <= q <= |s| && SkipSpaces(s, w + |InputLabel|) == q
    requires FindFrom(s, ExecuteClose, q + 1) == Some(c)
    ensures MatchSpan(s, p).Some? && MatchSpan(s, p).value.0 == q && MatchSpan(s, p).value.1 == c
  {
  }

  /** The regex, tried at `p` where the pieces of a block for payload `x` lie, captures
      `x`. */
  lemma MatchAtBlockParts(s: string, p: nat, x: string)
    requires OccursAt(s, ExecuteOpen, p)
    requires p + 30 + |x| <= |s| && s[p + 16] == '\n' && s[p + 17] == 'u'
    requires OccursAt(s, InputLabel, p + 17) && s[p + 28] == ' '
    requires s[p + 29..p + 29 + |x|] == x && s[p + 29 + |x|] == '\n'
    requires OccursAt(s, ExecuteClose, p + 30 + |x|)
    requires x != [] && IsTrimmed(x) && !Contains(x, ExecuteClose)
    ensures MatchAt(s, p) == Some(x)
  {
    var q := p + 29;
    var c := q + |x| + 1;
    assert |ExecuteOpen| == 16 && |InputLabel| == 11;
    BlockSkips(s, p, x);
    FirstCloseAfterPayload(s, q, x);
    PayloadTrims(s, q, x);
    MatchAtSteps(s, p, p + 17, q, c);
    assert MatchAt(s, p).Some? && MatchAt(s, p).value == Trim(s[q..c]);
  }

  /** The whitespace runs of a block: the line feed after the opening marker and the
      space after the label. */
  lemma BlockSkips(s: string, p: nat, x: string)
    requires p + 29 + |x| <= |s| && x != [] && IsTrimmed(x) && s[p + 29..p + 29 + |x|] == x
    requires s[p + 16] == '\n' && s[p + 17] == 'u' && s[p + 28] == ' '
    ensures SkipSpaces(s, p + 16) == p + 17 && SkipSpaces(s, p + 28) == p + 29
  {
    assert IsSpace(s[p + 16]) && !IsSpace(s[p + 17]);
    assert s[p + 29] == x[0];
    assert IsSpace(s[p + 28]) && !IsSpace(s[p + 29]);
  }

  /** A trimmed payload followed by a line feed trims back to itself. */
  lemma PayloadTrims(s: string, q: nat, x: string)
    requires q + |x| + 1 <= |s| && s[q..q + |x|] == x && s[q + |x|] == '\n' && IsTrimmed(x)
    ensures Trim(s[q..q + |x| + 1]) == x
  {
    assert s[q..q + |x| + 1] == [] + x + "\n";
    TrimSurrounded([], x, "\n");
  }

  /** The regex, tried where a block starts, captures the block's payload. */
  lemma MatchAtBlock(s: string, p: nat, x: string)
    requires p + |Block(x)| <= |s| && s[p..p + |Block(x)|] == Block(x)
    requires x != [] && IsTrimmed(x) && !Contains(x, ExecuteClose)
    ensures MatchAt(s, p) == Some(x)
  {
    var b := Block(x);
    BlockLayout(x);
    SliceWithin(s, p, b, 0, 16);
    assert s[p + 16] == b[16] && s[p + 17] == b[17];
    SliceWithin(s, p, b, 17, 28);
    assert s[p + 28] == b[28];
    SliceWithin(s, p, b, 29, 29 + |x|);
    assert s[p + 29 + |x|] == b[29 + |x|];
    SliceWithin(s, p, b, 30 + |x|, |b|);
    MatchAtBlockParts(s, p, x);
  }

  /** Round trip, in context: when the first opening marker of `s` begins a block for a
      trimmed, non-empty payload `x` that holds no closing marker, exactly `x` is
      detected, whatever surrounds the block. */
  lemma DetectFirstBlock(s: string, p: nat, x: string)
    requires p + |Block(x)| <= |s| && s[p..p + |Block(x)|] == Block(x)
    requires FindFrom(s, ExecuteOpen, 0) == Some(p)
    requires x != [] && IsTrimmed(x) && !Contains(x, ExecuteClose)
    ensures DetectScriptExecutionRequest(s) == Some(x)
  {
    MatchAtBlock(s, p, x);
    assert forall p' :: 0 <= p' < p ==> !OccursAt(s, ExecuteOpen, p');
  }

  /** Round trip: the canonical block for `x` yields `x`. */
  lemma DetectRoundTrip(x: string)
    requires x != [] && IsTrimmed(x) && !Contains(x, ExecuteClose)
    ensures DetectScriptExecutionRequest(Block(x)) == Some(x)
  {
    var s := Block(x);
    BlockLayout(x);
    assert s[0..|s|] == s;
    assert OccursAt(s, ExecuteOpen, 0);
    DetectFirstBlock(s, 0, x);
  }

  /** Text without a `[` before a block: the block's payload is what is detected. */
  lemma DetectAfterPlainText(pre: string, x: string)
    requires forall i :: 0 <= i < |pre| ==> pre[i] != '['
    requires x != [] && IsTrimmed(x) && !Contains(x, ExecuteClose)
    ensures DetectScriptExecutionRequest(pre + Block(x)) == Some(x)
  {
    var s := pre + Block(x);
    var p := |pre|;
    BlockLayout(x);
    ConcatParts(pre, Block(x));
    assert s[p..p + |Block(x)|] == Block(x);
    assert OccursAt(s, ExecuteOpen, p) by {
      assert s[p..p + 16] == Block(x)[..16];
    }
    OpeningAfterPlainText(pre, Block(x));
    DetectFirstBlock(s, p, x);
  }

  /** With no `[` before it, an opening marker right after `pre` is the first one. */
  lemma OpeningAfterPlainText(pre: string, rest: string)
    requires forall i :: 0 <= i < |pre| ==> pre[i] != '['
    requires OccursAt(pre + rest, ExecuteOpen, |pre|)
    ensures FindFrom(pre + rest, ExecuteOpen, 0) == Some(|pre|)
  {
    var s := pre + rest;
    forall j | 0 <= j < |pre| ensures !OccursAt(s, ExecuteOpen, j) {
      assert s[j] == pre[j] != ExecuteOpen[0];
    }
  }

  /** A directive with nothing between the label and the closing marker: the regex still
      matches, capturing the one space, so the detector yields the empty text, which the
      runner does not act on. */
  lemma EmptyPayloadIsNoDirective()
    ensures DetectScriptExecutionRequest(ExecuteOpen + " " + InputLabel + " " + ExecuteClose) == Some("")
    ensures !HasDirective(ExecuteOpen + " " + InputLabel + " " + ExecuteClose)
  {
    var s := ExecuteOpen + " " + InputLabel + " " + ExecuteClose;
    assert |s| == 46;
    assert OccursAt(s, ExecuteOpen, 0) by { assert s[0..16] == ExecuteOpen; }
    assert SkipSpaces(s, 16) == 17 by { assert s[16] == ' ' && s[17] == 'u'; }
    assert OccursAt(s, InputLabel, 17) by { assert s[17..28] == InputLabel; }
    assert SkipSpaces(s, 28) == 29 by { assert s[28] == ' ' && s[29] == '['; }
    assert FindFrom(s, ExecuteClose, 30) == None;
    assert OccursAt(s, ExecuteClose, 29) by { assert s[29..46] == ExecuteClose; }
    assert Trim(s[28..29]) == "" by {
      assert s[28..29] == " ";
      TrimSurrounded(" ", "", []);
      assert " " + "" + [] == " ";
    }
    assert MatchAt(s, 0) == Some("");
    assert FirstMatch(s, 0) == Some(0);
  }

  // ---------------------------------------------------------------------------------
  // The `[SCRIPT_RESULT]` block fed back into the session

  const ResultOpen: string := "[SCRIPT_RESULT]"
  const ResultClose: string := "[/SCRIPT_RESULT]"

  /** Everything before the script's output in a success message. */
  const SuccessHead: string :=
    ResultOpen + "\n\n" + "Script executed successfully, results are as follows:" + "\n\n"
    + "```json" + "\n"
  /** Everything after the script's output in a success message. */
  const SuccessTail: string :=
    "\n" + "```" + "\n\n"
    + "Please reply to the user based on the above results. If the results contain multiple options, clearly list them and ask the user to choose."
    + "\n" + ResultClose
  /** Everything before the error text in a failure message. */
  const FailureHead: string := ResultOpen + "\n\n" + "Script execution failed:" + "\n"
  /** Everything after the error text in a failure message. */
  const FailureTail: string :=
    "\n\n" + "Please answer the user directly based on the reference data." + "\n" + ResultClose

  /** `scriptResult.error || 'Unknown error'`. */
  function ErrorText(r: ScriptResult): (e: string)
    ensures r.error.Some? && r.error.value != "" ==> e == r.error.value
    ensures r.error.None? || r.error.value == "" ==> e == "Unknown error"
  {
    if r.error.Some? && r.error.value != "" then r.error.value else "Unknown error"
  }

  /** `buildScriptResultMessage`: the lines of the block joined with newlines. Whatever
      the status, the block opens with `[SCRIPT_RESULT]` and a blank line and closes with
      `[/SCRIPT_RESULT]`. */
  function BuildScriptResultMessage(r: ScriptResult): (m: string)
    ensures ResultOpen + "\n\n" <= m
    ensures EndsWith(m, ResultClose)
  {
    ResultFrame();
    Framed(SuccessHead, r.output, SuccessTail, ResultOpen + "\n\n", ResultClose);
    Framed(FailureHead, ErrorText(r), FailureTail, ResultOpen + "\n\n", ResultClose);
    if r.status == "success" then SuccessHead + r.output + SuccessTail
    else FailureHead + ErrorText(r) + FailureTail
  }

  /** The block opens with `[SCRIPT_RESULT]` and a blank line, closes with
      `[/SCRIPT_RESULT]`, starts with the success lead-in exactly when the status is
      `success`, and carries the output (on success) or the error text (otherwise)
      verbatim, recoverable by cutting off the fixed head and tail. */
  lemma ScriptResultLayout(r: ScriptResult)
    ensures var m := BuildScriptResultMessage(r);
            && |m| >= |ResultOpen| + 2 && m[..|ResultOpen| + 2] == ResultOpen + "\n\n"
            && |m| >= |ResultClose| && m[|m| - |ResultClose|..] == ResultClose
            && (r.status == "success" <==> |m| >= |SuccessHead| && m[..|SuccessHead|] == SuccessHead)
            && (r.status == "success" ==>
                  |m| == |SuccessHead| + |r.output| + |SuccessTail|
                  && m[|SuccessHead|..|m| - |SuccessTail|] == r.output)
            && (r.status != "success" ==>
                  |m| == |FailureHead| + |ErrorText(r)| + |FailureTail|
                  && m[|FailureHead|..|m| - |FailureTail|] == ErrorText(r))
  {
    ResultFrame();
    if r.status == "success" {
      Framed(SuccessHead, r.output, SuccessTail, ResultOpen + "\n\n", ResultClose);
    } else {
      var m := BuildScriptResultMessage(r);
      Framed(FailureHead, ErrorText(r), FailureTail, ResultOpen + "\n\n", ResultClose);
      assert m[30] == FailureHead[30] != SuccessHead[30];
    }
  }

  /** The fixed parts of a result block: both heads open it, both tails close it, and
      the heads part ways at index 30. */
  lemma ResultFrame()
    ensures |ResultOpen| == 15 && |ResultClose| == 16
    ensures |SuccessHead| > 30 && SuccessHead[..17] == ResultOpen + "\n\n"
    ensures |FailureHead| > 30 && FailureHead[..17] == ResultOpen + "\n\n"
    ensures FailureHead[30] != SuccessHead[30]
    ensures |SuccessTail| >= 16 && SuccessTail[|SuccessTail| - 16..] == ResultClose
    ensures |FailureTail| >= 16 && FailureTail[|FailureTail| - 16..] == ResultClose
  {
    ConcatParts(ResultOpen + "\n\n", SuccessHead[17..]);
    ConcatParts(ResultOpen + "\n\n", FailureHead[17..]);
    ConcatParts(SuccessTail[..|SuccessTail| - 16], ResultClose);
    ConcatParts(FailureTail[..|FailureTail| - 16], ResultClose);
  }

  /** Where the three parts of `head + body + tail` sit, and the opening and closing
      text they carry. */
  lemma Framed(head: string, body: string, tail: string, open: string, close: string)
    requires |open| <= |head| && head[..|open|] == open
    requires |close| <= |tail| && tail[|tail| - |close|..] == close
    ensures var m := head + body + tail;
            && |m| == |head| + |body| + |tail|
            && m[..|head|] == head && m[|head|..|m| - |tail|] == body
            && m[..|open|] == open && m[|m| - |close|..] == close
  {
    var m := head + body + tail;
    assert m[..|head|] == head;
    assert m[|head|..|m| - |tail|] == body;
    assert m[|m| - |tail|..] == tail;
    assert m[..|open|] == m[..|head|][..|open|];
    assert m[|m| - |close|..] == m[|m| - |tail|..][|tail| - |close|..];
  }

  // ---------------------------------------------------------------------------------
  // The context sent with every caller turn

  /** The fixed instructions closing the system prompt, including a sample directive. */
  const HowToUse: string :=
    "# How to Use" + "\n\n"
    + "**Important**: The reference data above has been fully provided to you, do not attempt to read files."
    + "\n\n"
    + "When you receive user input, if you need to execute a script to complete the task, include the following marker in your response:"
    + "\n\n" + "```" + "\n" + "[EXECUTE_SCRIPT]" + "\n" + "user_input: <user's original input>" + "\n"
    + "[/EXECUTE_SCRIPT]" + "\n" + "```" + "\n\n"
    + "After the script executes, you will receive the result, then reply to the user based on the result."
    + "\n"

  /** The text before the optional README section. */
  function PromptHead(skill: SkillContent): string {
    "# Skill Information" + "\n\n" + skill.skillMd + "\n\n"
  }

  /** The `# Additional Information` section, present when README.md is non-empty. */
  function ReadmeSection(skill: SkillContent): string {
    if skill.readmeMd.Some? && skill.readmeMd.value != "" then
      "# Additional Information" + "\n\n" + skill.readmeMd.value + "\n\n"
    else ""
  }

  /** `createSystemPrompt`: it opens with the SKILL.md section and ends with the fixed
      instructions. */
  function CreateSystemPrompt(skill: SkillContent): (r: string)
    ensures PromptHead(skill) <= r
    ensures EndsWith(r, HowToUse)
  {
    ConcatParts(PromptHead(skill), ReadmeSection(skill) + HowToUse);
    ConcatParts(PromptHead(skill) + ReadmeSection(skill), HowToUse);
    AppendAssoc(PromptHead(skill), ReadmeSection(skill), HowToUse);
    PromptHead(skill) + ReadmeSection(skill) + HowToUse
  }

  /** The prompt is the SKILL.md text under `# Skill Information`, then an
      `# Additional Information` section exactly when README.md is present and non-empty,
      then the fixed instructions. */
  lemma SystemPromptLayout(skill: SkillContent)
    ensures var r := CreateSystemPrompt(skill);
            && PromptHead(skill) <= r
            && |r| >= |PromptHead(skill)| + |HowToUse| && r[|r| - |HowToUse|..] == HowToUse
            && var middle := r[|PromptHead(skill)|..|r| - |HowToUse|];
               && (middle != "" <==> skill.readmeMd.Some? && skill.readmeMd.value != "")
               && (middle != "" ==>
                     middle == "# Additional Information" + "\n\n" + skill.readmeMd.value + "\n\n")
  {
    var r := CreateSystemPrompt(skill);
    var readme := ReadmeSection(skill);
    assert r[..|PromptHead(skill)|] == PromptHead(skill);
    assert r[|r| - |HowToUse|..] == HowToUse;
    assert r[|PromptHead(skill)|..|r| - |HowToUse|] == readme;
  }

  /** What separates the skill context from the caller's input. */
  const InputSeparator: string := "\n\n" + "---" + "\n\n"

  /** `buildMessageWithSkillContext`: the system prompt comes first and the caller's
      text last. */
  function BuildMessageWithSkillContext(skill: SkillContent, userPrompt: string): (m: string)
    ensures CreateSystemPrompt(skill) <= m
    ensures EndsWith(m, userPrompt)
  {
    var head := CreateSystemPrompt(skill);
    ConcatParts(head, InputSeparator + ("User Input: " + userPrompt));
    AppendAssoc(head, InputSeparator, "User Input: " + userPrompt);
    ConcatParts(head + InputSeparator + "User Input: ", userPrompt);
    AppendAssoc(head + InputSeparator, "User Input: ", userPrompt);
    head + InputSeparator + ("User Input: " + userPrompt)
  }

  /** The message is the system prompt, a `---` rule, then `User Input: ` and the
      caller's text, which can be cut back out of the end. */
  lemma MessageWithContextLayout(skill: SkillContent, userPrompt: string)
    ensures var m := BuildMessageWithSkillContext(skill, userPrompt);
            && CreateSystemPrompt(skill) + InputSeparator <= m
            && |m| >= |"User Input: " + userPrompt|
            && m[|m| - |"User Input: " + userPrompt|..] == "User Input: " + userPrompt
            && m[|m| - |userPrompt|..] == userPrompt
  {
    ConcatParts(CreateSystemPrompt(skill) + InputSeparator, "User Input: " + userPrompt);
    ConcatParts("User Input: ", userPrompt);
  }

  // ---------------------------------------------------------------------------------
  // The "needs more input" test

  const Indicators: seq<string> := [
    "please provide more information",
    "please tell me",
    "please specify",
    "please confirm",
    "need to know",
    "please supplement"
  ]

  /** `checkNeedMoreInput`: some indicator phrase occurs in the lower-cased response.
      The phrases are lower-case already, so it is the response alone whose case is
      ignored. */
  predicate CheckNeedMoreInput(response: string): (b: bool)
    ensures b <==> exists i | 0 <= i < |Indicators| :: Contains(Lower(response), Indicators[i])
  {
    IndicatorsLowercase();
    exists i | 0 <= i < |Indicators| :: Contains(Lower(response), Lower(Indicators[i]))
  }

  /** Every indicator phrase is its own lower-cased form. */
  lemma IndicatorsLowercase()
    ensures forall i :: 0 <= i < |Indicators| ==> Lower(Indicators[i]) == Indicators[i]
  {
    LowerWord("please provide more information");
    LowerWord("please tell me");
    LowerWord("please specify");
    LowerWord("please confirm");
    LowerWord("need to know");
    LowerWord("please supplement");
  }

  /** A phrase of lower-case letters and spaces is its own lower-cased form. */
  lemma LowerWord(s: string)
    requires forall k :: 0 <= k < |s| ==> 'a' <= s[k] <= 'z' || s[k] == ' '
    ensures Lower(s) == s
  {
    LowerOfLowercase(s);
  }

  lemma ContainsPrepend(a: string, s: string, pat: string)
    requires Contains(s, pat)
    ensures Contains(a + s, pat)
  {
    var i :| 0 <= i <= |s| - |pat| && OccursAt(s, pat, i);
    assert (a + s)[|a| + i..|a| + i + |pat|] == s[i..i + |pat|];
    assert OccursAt(a + s, pat, |a| + i);
  }

  /** Once a response asks for more input, any longer response around it does too. */
  lemma NeedMoreInputSurvivesContext(before: string, response: string, after: string)
    requires CheckNeedMoreInput(response)
    ensures CheckNeedMoreInput(before + response + after)
  {
    var i :| 0 <= i < |Indicators| && Contains(Lower(response), Lower(Indicators[i]));
    LowerAppend(before + response, after);
    LowerAppend(before, response);
    ContainsPrepend(Lower(before), Lower(response), Lower(Indicators[i]));
    ContainsExtend(Lower(before) + Lower(response), Lower(after), Lower(Indicators[i]));
  }

  /** The test ignores letter case: it gives the same answer on the lower-cased text. */
  lemma NeedMoreInputIgnoresCase(response: string)
    ensures CheckNeedMoreInput(Lower(response)) == CheckNeedMoreInput(response)
  {
    LowerIdempotent(response);
  }
}
