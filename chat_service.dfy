/**
 * The chat service: each turn looks up the last response id stored for the
 * conversation, passes it to the text generator as `previous_response_id`,
 * and after a successful generation overwrites the stored id with the new
 * response's id. The generator (the hosted language model) is a parameter:
 * any function from request to a response or a failure.
 */
module ChatService {
  import opened Wrappers

  /** The options `generateText` receives. */
  datatype GenerateTextOptions = GenerateTextOptions(
    model: string,
    prompt: string,
    temperature: real,
    maxOutputTokens: int,
    instructions: string,
    previousResponseId: Option<string>)

  /** What the generator returns on success. */
  datatype GenerateResponse = GenerateResponse(id: string, text: string)

  /** What `sendMessage` returns on success. */
  datatype ChatResponse = ChatResponse(id: string, message: string)

  /** The text generator: a response, or the error it threw. */
  type Generator = GenerateTextOptions -> Result<GenerateResponse, string>

  /** The conversation registry: the last response id per conversation id, updated in place. */
  class ConversationRepository {
    var lastResponseIds: map<string, string>

    constructor ()
      ensures lastResponseIds == map[]
    {
      lastResponseIds := map[];
    }

    /** The stored id, or absent on a conversation's first turn. */
    function GetLastResponseId(conversationId: string): (r: Option<string>)
      reads this
      ensures r.Some? <==> conversationId in lastResponseIds
      ensures r.Some? ==> r.value == lastResponseIds[conversationId]
    {
      Lookup(lastResponseIds, conversationId)
    }

    /** Overwrites the stored id for one conversation; last writer wins. */
    method SetLastResponseId(conversationId: string, responseId: string)
      modifies this
      ensures lastResponseIds == old(lastResponseIds)[conversationId := responseId]
    {
      lastResponseIds := lastResponseIds[conversationId := responseId];
    }
  }

  /** The stored id for `conversationId` in the registry contents `ids`. */
  function Lookup(ids: map<string, string>, conversationId: string): (r: Option<string>)
    ensures r.Some? <==> conversationId in ids
    ensures r.Some? ==> r.value == ids[conversationId]
  {
    if conversationId in ids then Some(ids[conversationId]) else None
  }

  /** The request of one turn: fixed model, temperature and output budget, and the previous id. */
  function ChatRequest(prompt: string, instructions: string, previous: Option<string>): (req: GenerateTextOptions)
    ensures req.model == "gpt-4o-mini" && req.temperature == 0.2 && req.maxOutputTokens == 200
    ensures req.prompt == prompt && req.instructions == instructions && req.previousResponseId == previous
  {
    GenerateTextOptions("gpt-4o-mini", prompt, 0.2, 200, instructions, previous)
  }

  /**
   * One turn on registry contents `ids`: the reply (or the generator's error)
   * and the registry contents afterwards.
   */
  function Turn(ids: map<string, string>, generate: Generator, instructions: string,
                prompt: string, conversationId: string): (out: (Result<ChatResponse, string>, map<string, string>))
    ensures var res := generate(ChatRequest(prompt, instructions, Lookup(ids, conversationId)));
      match res
      case Success(g) =>
        out.0 == Success(ChatResponse(g.id, g.text)) &&
        conversationId in out.1 && out.1[conversationId] == g.id
      case Failure(e) =>
        out.0 == Failure(e) && out.1 == ids
    ensures out.1.Keys <= ids.Keys + {conversationId}
    ensures forall c :: c != conversationId ==> Lookup(out.1, c) == Lookup(ids, c)
  {
    var response := generate(ChatRequest(prompt, instructions, Lookup(ids, conversationId)));
    match response
    case Success(g) => (Success(ChatResponse(g.id, g.text)), ids[conversationId := g.id])
    case Failure(e) => (Failure(e), ids)
  }

  /** `sendMessage(prompt, conversationId)` against the registry `repo`. */
  method SendMessage(repo: ConversationRepository, generate: Generator, instructions: string,
                     prompt: string, conversationId: string) returns (r: Result<ChatResponse, string>)
    modifies repo
    ensures (r, repo.lastResponseIds) == Turn(old(repo.lastResponseIds), generate, instructions, prompt, conversationId)
  {
    var previous := repo.GetLastResponseId(conversationId);
    var response := generate(ChatRequest(prompt, instructions, previous));
    match response {
      case Failure(e) =>
        r := Failure(e);
      case Success(g) =>
        repo.SetLastResponseId(conversationId, g.id);
        r := Success(ChatResponse(g.id, g.text));
    }
  }

  /** A failed generation leaves every stored id as it was. */
  lemma FailureKeepsRegistry(ids: map<string, string>, generate: Generator, instructions: string,
                             prompt: string, conversationId: string)
    requires generate(ChatRequest(prompt, instructions, Lookup(ids, conversationId))).Failure?
    ensures Turn(ids, generate, instructions, prompt, conversationId).1 == ids
  {
  }

  /**
   * Two turns on one conversation: the second request carries the first
   * response's id as its previous id, whatever the generators and prompts.
   */
  lemma SecondTurnContinuesFirst(ids: map<string, string>, first: Generator, instructions: string,
                                 prompt1: string, prompt2: string, conversationId: string)
    requires Turn(ids, first, instructions, prompt1, conversationId).0.Success?
    ensures var (r1, ids1) := Turn(ids, first, instructions, prompt1, conversationId);
      ChatRequest(prompt2, instructions, Lookup(ids1, conversationId)).previousResponseId == Some(r1.value.id)
  {
  }

  /** The first turn of a conversation that was never seen carries no previous id. */
  lemma FirstTurnHasNoPrevious(ids: map<string, string>, instructions: string, prompt: string, conversationId: string)
    requires conversationId !in ids
    ensures ChatRequest(prompt, instructions, Lookup(ids, conversationId)).previousResponseId == None
  {
  }
}
