/** Messages as far as conversation repair and streaming look at them (goose-provider-types,
    conversation.rs). Payloads that are only carried along are opaque numbers. */
module Messages {
  import opened Text

  datatype Role = User | Assistant

  /** One item of a tool result; a resource is what `extract_text_from_resource` makes of it. */
  datatype Item = TextItem(text: string) | Resource(extracted: string) | Image(payload: nat) | OtherItem(payload: nat)

  /** A content block; `Other` stands for images, notifications, action requests and errors, and a
      tool result is `None` when the tool failed. */
  datatype Block =
    | Text(text: string, audience: Option<seq<Role>>)
    | ToolRequest(id: string, call: nat)
    | ToolResponse(id: string, result: Option<seq<Item>>)
    | ToolConfirmationRequest(id: string)
    | FrontendToolRequest(id: string)
    | Thinking(thinking: string, signature: string)
    | RedactedThinking(data: string)
    | Other(payload: nat)

  datatype Message = Message(
    id: Option<string>,
    role: Role,
    content: seq<Block>,
    userVisible: bool,
    agentVisible: bool,
    turnContext: bool,
    inference: Option<nat>,
    outputTokenLimitReached: bool)

  datatype EffectiveRole = UserTurn | AssistantTurn | ToolTurn

  predicate HasToolResponse(content: seq<Block>) {
    content != [] && (content[0].ToolResponse? || HasToolResponse(content[1..]))
  }

  function EffectiveRoleOf(m: Message): EffectiveRole {
    if m.role.Assistant? then AssistantTurn
    else if HasToolResponse(m.content) then ToolTurn
    else UserTurn
  }

  /** Two adjacent text blocks that are shown to the same audience. */
  predicate Mergeable(a: Block, b: Block) {
    a.Text? && b.Text? && a.audience == b.audience
  }

  function MergeInto(a: Block, b: Block): Block
    requires a.Text? && b.Text?
  {
    Text(a.text + b.text, a.audience)
  }
}
