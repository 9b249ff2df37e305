/** The `/api/context` route: a GET that assembles the prompt for a
    (channel, user) pair from query parameters, and a POST that dispatches on
    an `action` field of a JSON body. */
module ContextRoute {
  import opened Wrappers
  import opened Sequences
  import opened Text
  import opened ConversationStore
  import opened ContextManager

  /** The JSON responses of the route. A `Failure` carries
      `{ success: false, error }` with its status; `Context` is the success
      of GET (with `historyLength`) and of the `getContext` action (without);
      `Saved` and `NotImplemented` are sent with status 200. */
  datatype Response =
    | Failure(status: nat, error: string)
    | Context(context: string, summary: string, historyLength: Option<nat>)
    | Saved(success: bool, message: string)
    | NotImplemented(error: string)
  {
    function Status(): nat {
      if Failure? then status else 200
    }
    predicate Success() {
      Context? || (Saved? && success)
    }
  }

  const MissingParameters := "Missing required parameters"
  const ActionRequired := "Action parameter is required"
  const MissingForGetContext := "Missing required parameters for getContext"
  const MissingForSave := "Missing required parameters for saveConversation"
  const MissingPartition := "Missing channelId or userId"
  const ClearNotImplemented := "Clear method not implemented"
  const InvalidAction := "Invalid action"
  const SavedMessage := "Conversation saved successfully"
  const SaveFailedMessage := "Failed to save conversation"

  /** The four query parameters GET reads. */
  datatype Query = Query(channelId: Option<string>, userId: Option<string>,
                         instructions: Option<string>, message: Option<string>)

  predicate QueryComplete(q: Query) {
    Present(q.channelId) && Present(q.userId) && Present(q.message) && Present(q.instructions)
  }

  /** GET: with all four parameters, the assembled prompt, its summary and
      the number of previous exchanges; otherwise a 400. */
  method Get(table: Table, q: Query, readFails: bool) returns (response: Response)
    requires table.Valid()
    ensures !QueryComplete(q) <==> response == Failure(400, MissingParameters)
    ensures QueryComplete(q) ==>
              var history := if readFails then []
                             else Window(table.rows, q.channelId.value, q.userId.value, DefaultLimit);
              var assembled := Assemble(q.instructions.value, Turns(history), q.message.value);
              && response == Context(assembled.fullContext, assembled.conversationSummary,
                                     Some(HistoryLength(assembled.previousConversations)))
              && (response.historyLength.value == 0 <==> history == [])
              && response.historyLength.value >= |history|
              && ((forall i :: 0 <= i < |history| ==> NoLineFeed(history[i].turn)) ==>
                    response.historyLength.value == |history|)
    ensures response.Status() == 200 <==> response.Success()
  {
    if !QueryComplete(q) {
      return Failure(400, MissingParameters);
    }
    var assembled := AssembleContext(table, q.instructions.value, q.channelId.value, q.userId.value,
                                     q.message.value, readFails);
    var history := if readFails then []
                   else Window(table.rows, q.channelId.value, q.userId.value, DefaultLimit);
    HistoryLengthCountsTurns(Turns(history));
    response := Context(assembled.fullContext, assembled.conversationSummary,
                        Some(HistoryLength(assembled.previousConversations)));
  }

  /** The fields POST destructures from its JSON body. */
  datatype Body = Body(action: Option<string>, channelId: Option<string>, userId: Option<string>,
                       message: Option<string>, instructions: Option<string>,
                       botResponse: Option<string>)

  /** A request whose body is not JSON makes `request.json()` throw. */
  datatype Request = Malformed(reason: string) | Json(body: Body)

  /** What POST does for a body, before any store access. */
  datatype Dispatch =
    | Reject(status: nat, error: string)
    | AssemblePrompt(channel: string, user: string, instructions: string, message: string)
    | Record(channel: string, user: string, message: string, botResponse: string)
    | ClearUnsupported

  /** The validation and `switch` of POST. */
  function Route(b: Body): (d: Dispatch)
    ensures !Present(b.action) ==> d == Reject(400, ActionRequired)
    ensures d.AssemblePrompt? <==>
              Present(b.action) && b.action.value == "getContext" &&
              Present(b.channelId) && Present(b.userId) && Present(b.message) && Present(b.instructions)
    ensures d.Record? <==>
              Present(b.action) && b.action.value == "saveConversation" &&
              Present(b.channelId) && Present(b.userId) && Present(b.message) && Present(b.botResponse)
    ensures d.ClearUnsupported? <==>
              Present(b.action) && b.action.value == "clearConversations" &&
              Present(b.channelId) && Present(b.userId)
    ensures d.Reject? ==> d.status == 400
    ensures d.AssemblePrompt? ==>
              d == AssemblePrompt(b.channelId.value, b.userId.value, b.instructions.value, b.message.value)
    ensures d.Record? ==>
              d == Record(b.channelId.value, b.userId.value, b.message.value, b.botResponse.value)
  {
    if !Present(b.action) then Reject(400, ActionRequired)
    else match b.action.value
      case "getContext" =>
        if !Present(b.channelId) || !Present(b.userId) || !Present(b.message) || !Present(b.instructions)
        then Reject(400, MissingForGetContext)
        else AssemblePrompt(b.channelId.value, b.userId.value, b.instructions.value, b.message.value)
      case "saveConversation" =>
        if !Present(b.channelId) || !Present(b.userId) || !Present(b.message) || !Present(b.botResponse)
        then Reject(400, MissingForSave)
        else Record(b.channelId.value, b.userId.value, b.message.value, b.botResponse.value)
      case "clearConversations" =>
        if !Present(b.channelId) || !Present(b.userId) then Reject(400, MissingPartition)
        else ClearUnsupported
      case _ => Reject(400, InvalidAction)
  }

  /** Saving does not need `instructions`, and reading does not need
      `botResponse`. */
  lemma RouteIgnoresUnusedFields(b: Body, instructions: Option<string>, botResponse: Option<string>)
    ensures Present(b.action) && b.action.value == "saveConversation" ==>
              Route(b.(instructions := instructions)) == Route(b)
    ensures Present(b.action) && b.action.value == "getContext" ==>
              Route(b.(botResponse := botResponse)) == Route(b)
  {
  }

  /** POST: a body that is not JSON gives a 500; otherwise the dispatch runs
      against the store. Only a stored conversation changes the table, and
      clearing is answered without touching it. */
  method Post(table: Table, request: Request, faults: StoreFaults) returns (response: Response)
    requires table.Valid()
    modifies table
    ensures table.Valid()
    ensures request.Malformed? ==>
              response == Failure(500, request.reason) && table.rows == old(table.rows)
    ensures request.Json? && !Route(request.body).Record? ==> table.rows == old(table.rows)
    ensures request.Json? && Route(request.body).Reject? ==>
              response == Failure(Route(request.body).status, Route(request.body).error)
    ensures request.Json? && Route(request.body).ClearUnsupported? ==>
              response == NotImplemented(ClearNotImplemented)
    ensures request.Json? && Route(request.body).AssemblePrompt? ==>
              var d := Route(request.body);
              var history := if faults.historyReadFails then []
                             else Window(old(table.rows), d.channel, d.user, DefaultLimit);
              var assembled := Assemble(d.instructions, Turns(history), d.message);
              response == Context(assembled.fullContext, assembled.conversationSummary, None)
    ensures request.Json? && Route(request.body).Record? ==>
              && response.Saved?
              && response.success == !faults.insertFails
              && response.message == (if response.success then SavedMessage else SaveFailedMessage)
    ensures request.Json? && Route(request.body).Record? && faults.insertFails ==>
              table.rows == old(table.rows)
    ensures request.Json? && Route(request.body).Record? && !faults.insertFails ==>
              var d := Route(request.body);
              var window := if faults.historyReadFails then []
                            else Window(old(table.rows), d.channel, d.user, DefaultLimit);
              var turn := Turn(d.message, d.botResponse);
              var row := Row(old(table.nextId), d.channel, d.user, turn,
                             CreateSummary(Turns(window) + [turn]));
              var inserted := old(table.rows) + [row];
              && table.rows == (if faults.pruneSelectFails ||
                                   (|Partition(inserted, d.channel, d.user)| > DefaultKeepCount &&
                                    faults.pruneDeleteFails)
                                then inserted
                                else Pruned(inserted, d.channel, d.user, DefaultKeepCount))
              && (!faults.pruneSelectFails && !faults.pruneDeleteFails ==>
                    Partition(table.rows, d.channel, d.user) ==
                    LastN(Partition(old(table.rows), d.channel, d.user) + [row], DefaultKeepCount))
    ensures request.Json? && Route(request.body).Record? ==>
              var d := Route(request.body);
              forall c, u :: (c != d.channel || u != d.user) ==>
                Partition(table.rows, c, u) == Partition(old(table.rows), c, u)
    ensures response.Status() == 200 <==> !response.Failure?
  {
    if request.Malformed? {
      return Failure(500, request.reason);
    }
    var d := Route(request.body);
    match d {
      case Reject(status, error) =>
        response := Failure(status, error);
      case AssemblePrompt(channel, user, instructions, message) =>
        var assembled := AssembleContext(table, instructions, channel, user, message,
                                         faults.historyReadFails);
        response := Context(assembled.fullContext, assembled.conversationSummary, None);
      case Record(channel, user, message, botResponse) =>
        var saved := SaveConversation(table, channel, user, message, botResponse, faults);
        response := Saved(saved, if saved then SavedMessage else SaveFailedMessage);
      case ClearUnsupported =>
        response := NotImplemented(ClearNotImplemented);
    }
  }
}
