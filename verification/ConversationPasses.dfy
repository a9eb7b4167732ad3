/** The passes of `fix_messages` (goose-provider-types, conversation.rs), as functions and, where the
    source changes vectors in loops, as methods proved against them. */
module ConversationPasses {
  import opened Text
  import opened Messages

  datatype Issue =
    | MergedText
    | TrimmedWhitespace
    | RemovedEmptyMessage
    | AddedResultPlaceholder(id: string)
    | RemovedRequestFromUser(id: string)
    | RemovedConfirmationFromUser(id: string)
    | RemovedThinkingFromUser
    | RemovedOrphanedResponse(id: string)
    | RemovedResponseFromAssistant(id: string)
    | RemovedFrontendRequest(id: string)
    | RemovedOrphanedRequest(id: string)
    | MergedConsecutive(role: EffectiveRole)
    | RemovedDuplicateThinking
    | RemovedLeadingAssistant
    | RemovedTrailingAssistant
    | AddedPlaceholderMessage

  // ---------- passes that look at one message at a time ----------

  datatype MessagePass = MergeText | TrimText | FillResults

  /** One step of the fold that merges adjacent text. */
  function Absorb(merged: seq<Block>, b: Block): seq<Block> {
    if merged != [] && Mergeable(merged[|merged| - 1], b) then
      merged[..|merged| - 1] + [MergeInto(merged[|merged| - 1], b)]
    else
      merged + [b]
  }

  function MergeBlocks(merged: seq<Block>, rest: seq<Block>): seq<Block>
    decreases |rest|
  {
    if rest == [] then merged else MergeBlocks(Absorb(merged, rest[0]), rest[1..])
  }

  /** Text and resources must not be empty; an image always counts. */
  predicate CountsAsResult(item: Item) {
    match item
    case TextItem(text) => text != ""
    case Resource(extracted) => extracted != ""
    case Image(_) => true
    case OtherItem(_) => false
  }

  predicate HasToolResultContent(items: seq<Item>) {
    items != [] && (CountsAsResult(items[0]) || HasToolResultContent(items[1..]))
  }

  const EMPTY_RESULT := "(empty result)"

  predicate IsEmptyResult(b: Block) {
    b.ToolResponse? && b.result.Some? && !HasToolResultContent(b.result.value)
  }

  function TidyBlock(pass: MessagePass, b: Block): Block {
    match pass
    case MergeText => b
    case TrimText => if b.Text? then b.(text := TrimEnd(b.text)) else b
    case FillResults => if IsEmptyResult(b) then b.(result := Some(b.result.value + [TextItem(EMPTY_RESULT)])) else b
  }

  function BlockIssues(pass: MessagePass, b: Block): seq<Issue> {
    match pass
    case MergeText => []
    case TrimText => if b.Text? && |TrimEnd(b.text)| != |b.text| then [TrimmedWhitespace] else []
    case FillResults => if IsEmptyResult(b) then [AddedResultPlaceholder(b.id)] else []
  }

  function TidyBlocks(pass: MessagePass, content: seq<Block>): (seq<Block>, seq<Issue>) {
    if content == [] then ([], [])
    else
      var (rest, issues) := TidyBlocks(pass, content[1..]);
      ([TidyBlock(pass, content[0])] + rest, BlockIssues(pass, content[0]) + issues)
  }

  function TidyMessage(pass: MessagePass, m: Message): (Message, seq<Issue>) {
    if pass.FillResults? || m.role.Assistant? then
      if pass.MergeText? then
        var merged := MergeBlocks([], m.content);
        (m.(content := merged), if |merged| != |m.content| then [MergedText] else [])
      else
        var (content, issues) := TidyBlocks(pass, m.content);
        (m.(content := content), issues)
    else
      (m, [])
  }

  /** `merge_text_content_items`, `trim_assistant_text_whitespace` and `fix_empty_tool_results`. */
  function Tidy(pass: MessagePass, messages: seq<Message>): (seq<Message>, seq<Issue>) {
    if messages == [] then ([], [])
    else
      var (first, issues) := TidyMessage(pass, messages[0]);
      var (rest, more) := Tidy(pass, messages[1..]);
      ([first] + rest, issues + more)
  }

  // ---------- remove_empty_messages ----------

  /** Nothing but empty text. */
  predicate IsEmptyContent(content: seq<Block>) {
    content == [] || (content[0].Text? && content[0].text == "" && IsEmptyContent(content[1..]))
  }

  function RemoveEmpty(messages: seq<Message>): (seq<Message>, seq<Issue>) {
    if messages == [] then ([], [])
    else
      var (rest, issues) := RemoveEmpty(messages[1..]);
      if IsEmptyContent(messages[0].content) then (rest, [RemovedEmptyMessage] + issues)
      else ([messages[0]] + rest, issues)
  }

  // ---------- fix_tool_calling ----------

  /** Whether a block stays, seen in a message of `role` with these requests unanswered. */
  function ScreenIssue(role: Role, b: Block, pending: set<string>): Option<Issue> {
    match role
    case User =>
      (match b
       case ToolRequest(id, _) => Some(RemovedRequestFromUser(id))
       case ToolConfirmationRequest(id) => Some(RemovedConfirmationFromUser(id))
       case Thinking(_, _) => Some(RemovedThinkingFromUser)
       case RedactedThinking(_) => Some(RemovedThinkingFromUser)
       case ToolResponse(id, _) => if id in pending then None else Some(RemovedOrphanedResponse(id))
       case _ => None)
    case Assistant =>
      (match b
       case ToolResponse(id, _) => Some(RemovedResponseFromAssistant(id))
       case FrontendToolRequest(id) => Some(RemovedFrontendRequest(id))
       case _ => None)
  }

  function PendingAfter(role: Role, b: Block, pending: set<string>): set<string> {
    if role.User? && b.ToolResponse? then pending - {b.id}
    else if role.Assistant? && b.ToolRequest? then pending + {b.id}
    else pending
  }

  function AsSeq<T>(o: Option<T>): seq<T> {
    match o
    case Some(value) => [value]
    case None => []
  }

  datatype Screened = Screened(content: seq<Block>, issues: seq<Issue>, pending: set<string>)

  function ScreenBlocks(role: Role, content: seq<Block>, pending: set<string>): Screened {
    if content == [] then Screened([], [], pending)
    else
      var issue := ScreenIssue(role, content[0], pending);
      var rest := ScreenBlocks(role, content[1..], PendingAfter(role, content[0], pending));
      Screened((if issue.None? then [content[0]] else []) + rest.content, AsSeq(issue) + rest.issues, rest.pending)
  }

  datatype ScreenedAll = ScreenedAll(messages: seq<Message>, issues: seq<Issue>, pending: set<string>)

  /** The first pass over the messages: blocks in the wrong role and responses without a request. */
  function Screen(messages: seq<Message>, pending: set<string>): ScreenedAll {
    if messages == [] then ScreenedAll([], [], pending)
    else
      var first := ScreenBlocks(messages[0].role, messages[0].content, pending);
      var rest := Screen(messages[1..], first.pending);
      ScreenedAll([messages[0].(content := first.content)] + rest.messages, first.issues + rest.issues, rest.pending)
  }

  function DropBlocks(content: seq<Block>, pending: set<string>): (seq<Block>, seq<Issue>) {
    if content == [] then ([], [])
    else
      var (rest, issues) := DropBlocks(content[1..], pending);
      if content[0].ToolRequest? && content[0].id in pending then (rest, [RemovedOrphanedRequest(content[0].id)] + issues)
      else ([content[0]] + rest, issues)
  }

  /** The second pass: requests that stayed without a response. */
  function DropRequests(messages: seq<Message>, pending: set<string>): (seq<Message>, seq<Issue>) {
    if messages == [] then ([], [])
    else
      var (rest, issues) := DropRequests(messages[1..], pending);
      if messages[0].role.Assistant? then
        var (content, dropped) := DropBlocks(messages[0].content, pending);
        ([messages[0].(content := content)] + rest, dropped + issues)
      else
        ([messages[0]] + rest, issues)
  }

  function FixTools(messages: seq<Message>): (seq<Message>, seq<Issue>) {
    var screened := Screen(messages, {});
    var dropped := DropRequests(screened.messages, screened.pending);
    var full := RemoveEmpty(dropped.0);
    (full.0, screened.issues + dropped.1 + full.1)
  }

  // ---------- merge_consecutive ----------

  predicate Joins(last: Message, next: Message, acrossVisibility: bool) {
    && EffectiveRoleOf(last) == EffectiveRoleOf(next)
    && (acrossVisibility || (last.userVisible == next.userVisible && last.turnContext == next.turnContext))
  }

  function Join(last: Message, next: Message): Message {
    last.(content := last.content + next.content)
  }

  /** The messages that come out when `last` is the last one so far. */
  function MergeFrom(last: Message, rest: seq<Message>, acrossVisibility: bool): (seq<Message>, seq<Issue>)
    decreases |rest|
  {
    if rest == [] then ([last], [])
    else if Joins(last, rest[0], acrossVisibility) then
      var (messages, issues) := MergeFrom(Join(last, rest[0]), rest[1..], acrossVisibility);
      (messages, [MergedConsecutive(EffectiveRoleOf(rest[0]))] + issues)
    else
      var (messages, issues) := MergeFrom(rest[0], rest[1..], acrossVisibility);
      ([last] + messages, issues)
  }

  function MergeConsecutive(messages: seq<Message>, acrossVisibility: bool): (seq<Message>, seq<Issue>) {
    if messages == [] then ([], []) else MergeFrom(messages[0], messages[1..], acrossVisibility)
  }

  // ---------- dedupe_signed_thinking ----------

  predicate IsSignedThinking(b: Block) {
    (b.Thinking? && b.signature != "") || b.RedactedThinking?
  }

  /** The blocks that stay, given the signed ones seen before. */
  function DedupeBlocks(content: seq<Block>, seen: seq<Block>): seq<Block>
    decreases |content|
  {
    if content == [] then []
    else if !IsSignedThinking(content[0]) then [content[0]] + DedupeBlocks(content[1..], seen)
    else if content[0] in seen then DedupeBlocks(content[1..], seen)
    else [content[0]] + DedupeBlocks(content[1..], seen + [content[0]])
  }

  function SeenAfter(content: seq<Block>, seen: seq<Block>): seq<Block>
    decreases |content|
  {
    if content == [] then seen
    else if IsSignedThinking(content[0]) && content[0] !in seen then SeenAfter(content[1..], seen + [content[0]])
    else SeenAfter(content[1..], seen)
  }

  function Dedupe(messages: seq<Message>, seen: seq<Block>): (seq<Message>, seq<Issue>)
    decreases |messages|
  {
    if messages == [] then ([], [])
    else if messages[0].role.User? then
      var (rest, issues) := Dedupe(messages[1..], seen);
      ([messages[0]] + rest, issues)
    else
      var kept := DedupeBlocks(messages[0].content, seen);
      var (rest, issues) := Dedupe(messages[1..], SeenAfter(messages[0].content, seen));
      ([messages[0].(content := kept)] + rest,
       (if |kept| != |messages[0].content| then [RemovedDuplicateThinking] else []) + issues)
  }

  // ---------- fix_lead_trail and populate_if_empty ----------

  function FixLead(messages: seq<Message>): (seq<Message>, seq<Issue>) {
    if messages != [] && messages[0].role.Assistant? then (messages[1..], [RemovedLeadingAssistant]) else (messages, [])
  }

  function FixTrail(messages: seq<Message>): (seq<Message>, seq<Issue>) {
    if messages != [] && messages[|messages| - 1].role.Assistant? then
      (messages[..|messages| - 1], [RemovedTrailingAssistant])
    else (messages, [])
  }

  function LeadTrail(messages: seq<Message>): (seq<Message>, seq<Issue>) {
    var (led, issues) := FixLead(messages);
    var (trailed, more) := FixTrail(led);
    (trailed, issues + more)
  }

  const PLACEHOLDER := Message(None, User, [Text("Hello", None)], true, true, false, None, false)

  function Populate(messages: seq<Message>): (seq<Message>, seq<Issue>) {
    if messages == [] then ([PLACEHOLDER], [AddedPlaceholderMessage]) else (messages, [])
  }

  // ---------- fix_messages ----------

  datatype Pass = PTidy(pass: MessagePass) | PRemoveEmpty | PFixTools | PMerge | PDedupe | PLeadTrail | PPopulate

  function RunPass(pass: Pass, messages: seq<Message>): (seq<Message>, seq<Issue>) {
    match pass
    case PTidy(tidy) => Tidy(tidy, messages)
    case PRemoveEmpty => RemoveEmpty(messages)
    case PFixTools => FixTools(messages)
    case PMerge => MergeConsecutive(messages, false)
    case PDedupe => Dedupe(messages, [])
    case PLeadTrail => LeadTrail(messages)
    case PPopulate => Populate(messages)
  }

  /** The passes in their order. */
  function PassAt(i: nat): Pass
    requires i < 9
  {
    match i
    case 0 => PTidy(MergeText)
    case 1 => PTidy(TrimText)
    case 2 => PRemoveEmpty
    case 3 => PTidy(FillResults)
    case 4 => PFixTools
    case 5 => PMerge
    case 6 => PDedupe
    case 7 => PLeadTrail
    case _ => PPopulate
  }

  /** The fold over the first `n` passes. */
  function RunPasses(n: nat, messages: seq<Message>): (seq<Message>, seq<Issue>)
    requires n <= 9
    decreases n, |messages|
  {
    if n == 0 then (messages, [])
    else
      var (before, issues) := RunPasses(n - 1, messages);
      var (after, more) := RunPass(PassAt(n - 1), before);
      (after, issues + more)
  }

  function FixMessages(messages: seq<Message>): (seq<Message>, seq<Issue>) {
    RunPasses(9, messages)
  }
}
