/** Record shapes shared by the loader and the runner (the `SkillContent`,
    `SkillExecuteOptions` and `SkillExecuteResult` interfaces). */
module SkillTypes {
  import opened Wrappers

  /** Metadata parsed from SKILL.md; an absent `metadata` object reads the same as one
      whose four fields are all absent, since every use goes through `?.`. */
  datatype Metadata = Metadata(
    title: Option<string>,
    description: Option<string>,
    functionality: Option<string>,
    usage: Option<string>)

  datatype SkillContent = SkillContent(
    skillMd: string,
    readmeMd: Option<string>,
    name: string,
    path: string,
    metadata: Metadata)

  datatype Role = User | Assistant

  /** One history entry `{ role, content }`. */
  datatype Entry = Entry(role: Role, content: string)

  /** `'success' | 'error' | 'need_more_input'`. */
  datatype TurnStatus = Succeeded | Errored | NeedsMoreInput

  /** What a caller's turn promise resolves with (the optional `data` is never set by the
      runner and is left out). */
  datatype ExecuteResult = ExecuteResult(
    status: TurnStatus,
    content: string,
    needMoreInput: bool,
    sessionId: string,
    history: seq<Entry>)

  /** The options of one `execute` call that the runner reads: the model override and
      whether an `onChunk` callback was supplied. */
  datatype ExecuteOptions = ExecuteOptions(model: Option<string>, hasOnChunk: bool)

  /** What running a skill script returns (`data`, the parsed JSON, is left out). */
  datatype ScriptResult = ScriptResult(status: string, output: string, error: Option<string>)
}
