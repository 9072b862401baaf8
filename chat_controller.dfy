/**
 * The chat controller: validates the request body (a prompt whose trimmed
 * length is 1 to 100, a conversation id in UUID form), answers 400 with the
 * validation issues when it is invalid, and otherwise forwards the prompt as
 * received to the chat service, answering 200 with the reply or 500 with a
 * fixed message when the service fails.
 */
module ChatController {
  import opened Wrappers
  import CS = ChatService

  /**
   * The request body. `NotAnObject` is a body that is not a JSON object.
   * A field is `None` when it is missing or is not a string.
   */
  datatype Body = NotAnObject | Object(prompt: Option<string>, conversationId: Option<string>)

  /** The validation issues the schema can report. */
  datatype Issue = BodyNotAnObject | PromptRequired | PromptEmpty | PromptTooLong | ConversationIdRequired | ConversationIdInvalid

  /** The message the schema attaches to an issue; `None` where the validation library's default applies. */
  function IssueMessage(i: Issue): Option<string>
  {
    match i
    case BodyNotAnObject => None
    case PromptRequired => Some("Prompt is required")
    case PromptEmpty => Some("Prompt cannot be empty")
    case PromptTooLong => Some("Prompt is too long, Max 100 characters")
    case ConversationIdRequired => Some("Conversation ID is required")
    case ConversationIdInvalid => None
  }

  /** The three outcomes of the endpoint. */
  datatype Reply = BadRequest(issues: seq<Issue>) | Ok(response: string) | ServerError(error: string)
  {
    function Status(): int
    {
      match this
      case BadRequest(_) => 400
      case Ok(_) => 200
      case ServerError(_) => 500
    }
  }

  const MaxPromptLength: nat := 100
  const GenerationFailed: string := "Failed to generate a response"

  /** The characters JavaScript's `String.prototype.trim` removes: white space and line terminators. */
  predicate IsJsWhitespace(c: char)
  {
    var u := c as int;
    (0x09 <= u <= 0x0D) || u == 0x20 || u == 0xA0 || u == 0x1680 || (0x2000 <= u <= 0x200A) ||
    u == 0x2028 || u == 0x2029 || u == 0x202F || u == 0x205F || u == 0x3000 || u == 0xFEFF
  }

  /** The index of the first character at or after `i` that is not white space, or `|s|`. */
  function SkipLeading(s: string, i: nat): (k: nat)
    requires i <= |s|
    ensures i <= k <= |s|
    ensures forall m :: i <= m < k ==> IsJsWhitespace(s[m])
    ensures k < |s| ==> !IsJsWhitespace(s[k])
    decreases |s| - i
  {
    if i < |s| && IsJsWhitespace(s[i]) then SkipLeading(s, i + 1) else i
  }

  /** The index just past the last character before `j`, and not before `lo`, that is not white space. */
  function SkipTrailing(s: string, lo: nat, j: nat): (k: nat)
    requires lo <= j <= |s|
    ensures lo <= k <= j
    ensures forall m :: k <= m < j ==> IsJsWhitespace(s[m])
    ensures k > lo ==> !IsJsWhitespace(s[k - 1])
    decreases j
  {
    if j > lo && IsJsWhitespace(s[j - 1]) then SkipTrailing(s, lo, j - 1) else j
  }

  /**
   * `.trim()`: the string without white space at either end. What is cut
   * off is white space, and what is kept starts and ends with something else.
   */
  function Trim(s: string): (r: string)
    ensures r == [] || (!IsJsWhitespace(r[0]) && !IsJsWhitespace(r[|r| - 1]))
    ensures r == [] ==> forall m :: 0 <= m < |s| ==> IsJsWhitespace(s[m])
    ensures SkipLeading(s, 0) + |r| <= |s|
    ensures r != [] ==> r == s[SkipLeading(s, 0)..SkipLeading(s, 0) + |r|]
    ensures r != [] ==> forall m :: SkipLeading(s, 0) + |r| <= m < |s| ==> IsJsWhitespace(s[m])
  {
    var i := SkipLeading(s, 0);
    var j := SkipTrailing(s, i, |s|);
    s[i..j]
  }

  /** Trimming twice is trimming once. */
  lemma TrimIdempotent(s: string)
    ensures Trim(Trim(s)) == Trim(s)
  {
  }

  /** A string's length as JavaScript counts it: UTF-16 code units, two for a character beyond U+FFFF. */
  function Utf16Length(s: string): (n: nat)
    ensures |s| <= n <= 2 * |s|
  {
    if s == [] then 0 else (if s[0] as int > 0xFFFF then 2 else 1) + Utf16Length(s[1..])
  }

  predicate IsHexDigit(c: char)
  {
    ('0' <= c <= '9') || ('a' <= c <= 'f') || ('A' <= c <= 'F')
  }

  /** Positions of the hyphens in the textual layout of a UUID. */
  predicate IsHyphenPosition(i: int)
  {
    i == 8 || i == 13 || i == 18 || i == 23
  }

  /**
   * The textual layout of a UUID (section 3 of RFC 4122): 36 characters,
   * hexadecimal digit groups of 8, 4, 4, 4 and 12 separated by hyphens.
   */
  predicate IsUuid(s: string)
  {
    |s| == 36 && forall i :: 0 <= i < 36 ==> if IsHyphenPosition(i) then s[i] == '-' else IsHexDigit(s[i])
  }

  type Octet = x: int | 0 <= x < 256

  /** The lower-case hexadecimal digit of `d`. */
  function HexChar(d: int): (c: char)
    requires 0 <= d < 16
    ensures IsHexDigit(c)
  {
    if d < 10 then ('0' as int + d) as char else ('a' as int + d - 10) as char
  }

  /** Each octet as two hexadecimal digits, high nibble first. */
  function Hex(os: seq<Octet>): (r: string)
    ensures |r| == 2 * |os|
    ensures forall i :: 0 <= i < |r| ==> IsHexDigit(r[i])
  {
    if os == [] then "" else [HexChar(os[0] / 16), HexChar(os[0] % 16)] + Hex(os[1..])
  }

  /**
   * A UUID's 16 octets in the textual layout of section 3 of RFC 4122, in
   * lower case, the form `crypto.randomUUID` produces on the client.
   */
  function UuidText(os: seq<Octet>): (s: string)
    requires |os| == 16
    ensures |s| == 36
  {
    Hex(os[..4]) + "-" + Hex(os[4..6]) + "-" + Hex(os[6..8]) + "-" + Hex(os[8..10]) + "-" + Hex(os[10..])
  }

  /** Every 16 octets, written out, pass the UUID check. */
  lemma UuidTextIsUuid(os: seq<Octet>)
    requires |os| == 16
    ensures IsUuid(UuidText(os))
  {
  }

  /** The issues of the `prompt` field: a string whose trimmed length is 1 to 100. */
  function PromptIssues(prompt: Option<string>): (r: seq<Issue>)
    ensures r == [] <==> prompt.Some? && 1 <= Utf16Length(Trim(prompt.value)) <= MaxPromptLength
  {
    match prompt
    case None => [PromptRequired]
    case Some(p) =>
      var n := Utf16Length(Trim(p));
      (if n < 1 then [PromptEmpty] else []) + (if n > MaxPromptLength then [PromptTooLong] else [])
  }

  /** The issues of the `conversationId` field: a string in UUID form. */
  function ConversationIdIssues(conversationId: Option<string>): (r: seq<Issue>)
    ensures r == [] <==> conversationId.Some? && IsUuid(conversationId.value)
  {
    match conversationId
    case None => [ConversationIdRequired]
    case Some(c) => if IsUuid(c) then [] else [ConversationIdInvalid]
  }

  /** `chatSchema.safeParse(body)`: the issues found, none exactly when the body is valid. */
  function Validate(body: Body): (r: seq<Issue>)
    ensures r == [] <==>
      body.Object? &&
      body.prompt.Some? && 1 <= Utf16Length(Trim(body.prompt.value)) <= MaxPromptLength &&
      body.conversationId.Some? && IsUuid(body.conversationId.value)
    ensures body.NotAnObject? ==> r == [BodyNotAnObject]
  {
    match body
    case NotAnObject => [BodyNotAnObject]
    case Object(p, c) => PromptIssues(p) + ConversationIdIssues(c)
  }

  /** The reply for the service's outcome. */
  function ReplyFor(outcome: Result<CS.ChatResponse, string>): (r: Reply)
    ensures outcome.Success? ==> r == Ok(outcome.value.message)
    ensures outcome.Failure? ==> r == ServerError(GenerationFailed)
  {
    match outcome
    case Success(c) => Ok(c.message)
    case Failure(_) => ServerError(GenerationFailed)
  }

  /**
   * The endpoint as a function of the body and the service: 400 with the
   * issues, or the service's outcome for the prompt as received (untrimmed).
   */
  function Handle(body: Body, service: (string, string) -> Result<CS.ChatResponse, string>): (r: Reply)
    ensures r.Status() == 400 <==> Validate(body) != []
    ensures r.BadRequest? ==> r.issues == Validate(body)
    ensures Validate(body) == [] ==> r == ReplyFor(service(body.prompt.value, body.conversationId.value))
  {
    var issues := Validate(body);
    if issues != [] then BadRequest(issues)
    else ReplyFor(service(body.prompt.value, body.conversationId.value))
  }

  /** An invalid request's reply does not depend on the service: the service is not called. */
  lemma InvalidNeverCallsService(body: Body, s1: (string, string) -> Result<CS.ChatResponse, string>,
                                 s2: (string, string) -> Result<CS.ChatResponse, string>)
    requires Validate(body) != []
    ensures Handle(body, s1) == Handle(body, s2)
  {
  }

  /** A prompt with white space around it is valid and is forwarded with that white space. */
  lemma UntrimmedPromptIsForwarded(service: (string, string) -> Result<CS.ChatResponse, string>)
    ensures var body := Object(Some(" hi "), Some("123e4567-e89b-12d3-a456-426614174000"));
      Validate(body) == [] && Handle(body, service) == ReplyFor(service(" hi ", "123e4567-e89b-12d3-a456-426614174000"))
  {
  }

  /**
   * The messages a 400 reply carries for the prompt and the conversation id
   * are the ones the schema defines: its first issue is the prompt's, its
   * last the conversation id's.
   */
  lemma RejectionMessages(prompt: Option<string>, conversationId: Option<string>,
                          service: (string, string) -> Result<CS.ChatResponse, string>)
    ensures var r := Handle(Object(prompt, conversationId), service);
      (prompt.None? ==> r.BadRequest? && IssueMessage(r.issues[0]) == Some("Prompt is required")) &&
      (prompt.Some? && Utf16Length(Trim(prompt.value)) == 0 ==>
         r.BadRequest? && IssueMessage(r.issues[0]) == Some("Prompt cannot be empty")) &&
      (prompt.Some? && Utf16Length(Trim(prompt.value)) > MaxPromptLength ==>
         r.BadRequest? && IssueMessage(r.issues[0]) == Some("Prompt is too long, Max 100 characters")) &&
      (conversationId.None? ==>
         r.BadRequest? && IssueMessage(r.issues[|r.issues| - 1]) == Some("Conversation ID is required"))
  {
  }

  /** A prompt of white space only is rejected as empty. */
  lemma BlankPromptIsEmpty(conversationId: string)
    requires IsUuid(conversationId)
    ensures Validate(Object(Some("   "), Some(conversationId))) == [PromptEmpty]
  {
  }

  /** `sendMessage(req, res)` wired to the chat service and its conversation registry. */
  method SendMessage(body: Body, repo: CS.ConversationRepository, generate: CS.Generator, instructions: string)
    returns (reply: Reply)
    modifies repo
    ensures var before := old(repo.lastResponseIds);
      reply == Handle(body, (p, c) => CS.Turn(before, generate, instructions, p, c).0)
    ensures Validate(body) != [] ==> repo.lastResponseIds == old(repo.lastResponseIds)
    ensures Validate(body) == [] ==>
      repo.lastResponseIds == CS.Turn(old(repo.lastResponseIds), generate, instructions, body.prompt.value, body.conversationId.value).1
  {
    var issues := Validate(body);
    if issues != [] {
      return BadRequest(issues);
    }
    var completion := CS.SendMessage(repo, generate, instructions, body.prompt.value, body.conversationId.value);
    reply := ReplyFor(completion);
  }
}
