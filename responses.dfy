/** Response descriptors: the older `send_response`/`send_error_response` of
    src/modules/commands/commands.ts and the newer `sendResponse`,
    `sendErrorResponse` and `sendReactionResponse` of
    src/modules/commands/sendResponses.ts. Both build a `{code, type, data}`
    descriptor for the message sender, after refusing a text that would start
    another command. */
module Responses {
  import opened Wrappers
  import opened Text
  import opened CommandTypes
  import opened CommandRegistry

  /** `CommandResponseCode`. */
  datatype Code = OK | ERROR

  /** `CommandResponseType`. */
  datatype ResponseType = Unknown | SendMessage | ReplyMessage | ReactToMessage

  /** `CommandReturn`: the code, the type and the data handed to the sender. */
  datatype Descriptor = Descriptor(
    code: Code,
    rtype: ResponseType,
    content: Content,
    reaction: Option<string>,
    options: Option<SendOptions>)

  /** The word after the prefix at the start of a text response
      (`content.split(" ")[0].slice(prefix.length)`). */
  function Head(text: string, prefix: string): string {
    Drop(FirstWord(text), |prefix|)
  }

  /** The error thrown for a response that starts with a command. */
  function LoopError(text: string, prefix: string): string {
    var head := Head(text, prefix);
    "The response to a command cannot contain another command at the beginning, " +
    "as this can create an infinite loop.\n\n" +
    "\tResponse: " +
    "\"\U{001B}[41m" + prefix + head + "\U{001B}[0m" + Drop(text, |prefix| + |head|) + "\"\n"
  }

  /** A text response that starts with the prefix followed by the name of a
      registered command. */
  predicate StartsCommand(list: seq<Command>, alias: map<string, nat>, prefix: string, content: Content)
    requires RegistryValid(list, alias)
  {
    Truthy(content) && content.Text? && StartsWith(content.text, prefix) &&
    Lookup(list, alias, Head(content.text, prefix)).Some?
  }

  /** The anti-loop check of both senders: the thrown error, or `None`. */
  function LoopCheck(list: seq<Command>, alias: map<string, nat>, prefix: string, content: Content): (r: Option<string>)
    requires RegistryValid(list, alias)
    ensures r.Some? <==> StartsCommand(list, alias, prefix, content)
    ensures r.Some? ==> r.value == LoopError(content.text, prefix)
  {
    if StartsCommand(list, alias, prefix, content) then Some(LoopError(content.text, prefix)) else None
  }

  /** With the empty prefix every text response that starts with a
      registered alias is refused. */
  lemma EmptyPrefixRefusesAlias(list: seq<Command>, alias: map<string, nat>, text: string)
    requires RegistryValid(list, alias)
    requires text != "" && Lookup(list, alias, FirstWord(text)).Some?
    ensures LoopCheck(list, alias, "", Text(text)).Some?
  {
  }

  /** The code of a descriptor: `ERROR` exactly for an error response. */
  function CodeOf(o: ResponseOptions): (c: Code)
    ensures c == ERROR <==> o.asError
  {
    if o.asError then ERROR else OK
  }

  // ------------------------------------------------------- older sender

  /** `send_response` of commands.ts: the type is `REPLY` exactly when
      `reply` is set, and `SEND` otherwise, even without content. */
  function LegacySendResponse(list: seq<Command>, alias: map<string, nat>, prefix: string, content: Content, o: ResponseOptions): (r: Result<Descriptor, string>)
    requires RegistryValid(list, alias)
    ensures r.Failure? <==> StartsCommand(list, alias, prefix, content)
    ensures r.Success? ==> r.value.code == CodeOf(o)
    ensures r.Success? ==> (r.value.rtype == ReplyMessage <==> o.reply)
    ensures r.Success? ==> (r.value.rtype == SendMessage <==> !o.reply)
    ensures r.Success? ==> r.value.content == content && r.value.reaction == o.reaction && r.value.options == o.messageOptions
  {
    match LoopCheck(list, alias, prefix, content)
    case Some(e) => Failure(e)
    case None =>
      Success(Descriptor(CodeOf(o), if o.reply then ReplyMessage else SendMessage, content, o.reaction, o.messageOptions))
  }

  /** `send_error_response` of commands.ts: `send_response` with `asError`. */
  function LegacySendErrorResponse(list: seq<Command>, alias: map<string, nat>, prefix: string, content: Content, o: ResponseOptions): (r: Result<Descriptor, string>)
    requires RegistryValid(list, alias)
    ensures r == LegacySendResponse(list, alias, prefix, content, o.(asError := true))
    ensures r.Success? ==> r.value.code == ERROR
  {
    LegacySendResponse(list, alias, prefix, content, o.(asError := true))
  }

  // -------------------------------------------------------- newer sender

  /** The type `sendResponse` picks: a reply or a message for truthy
      content, a reaction for no content but a (non-empty) reaction, and
      unknown otherwise. */
  function TypeOfResponse(content: Content, o: ResponseOptions): ResponseType {
    if Truthy(content) then (if o.asReply then ReplyMessage else SendMessage)
    else if o.reaction.Some? && o.reaction.value != "" then ReactToMessage
    else Unknown
  }

  /** `sendResponse` of sendResponses.ts. */
  function SendResponse(list: seq<Command>, alias: map<string, nat>, prefix: string, content: Content, o: ResponseOptions): (r: Result<Descriptor, string>)
    requires RegistryValid(list, alias)
    ensures r.Failure? <==> StartsCommand(list, alias, prefix, content)
    ensures r.Failure? ==> r.error == LoopError(content.text, prefix)
    ensures r.Success? ==> r.value == Descriptor(CodeOf(o), TypeOfResponse(content, o), content, o.reaction, o.messageOptions)
  {
    if Truthy(content) then
      match LoopCheck(list, alias, prefix, content)
      case Some(e) => Failure(e)
      case None =>
        var t := if o.asReply then ReplyMessage else SendMessage;
        Success(Descriptor(CodeOf(o), t, content, o.reaction, o.messageOptions))
    else
      var t := if o.reaction.Some? && o.reaction.value != "" then ReactToMessage else Unknown;
      Success(Descriptor(CodeOf(o), t, content, o.reaction, o.messageOptions))
  }

  /** The four cases of the response type. */
  lemma ResponseTypeCases(content: Content, o: ResponseOptions)
    ensures TypeOfResponse(content, o) == ReplyMessage <==> Truthy(content) && o.asReply
    ensures TypeOfResponse(content, o) == SendMessage <==> Truthy(content) && !o.asReply
    ensures TypeOfResponse(content, o) == ReactToMessage <==>
      !Truthy(content) && o.reaction.Some? && o.reaction.value != ""
    ensures TypeOfResponse(content, o) == Unknown <==>
      !Truthy(content) && (o.reaction.None? || o.reaction.value == "")
  {
  }

  /** A response that does not start with the prefix never throws. */
  lemma NoPrefixNeverThrows(list: seq<Command>, alias: map<string, nat>, prefix: string, content: Content, o: ResponseOptions)
    requires RegistryValid(list, alias)
    requires !content.Text? || !StartsWith(content.text, prefix)
    ensures SendResponse(list, alias, prefix, content, o).Success?
    ensures LegacySendResponse(list, alias, prefix, content, o).Success?
  {
  }

  /** `sendErrorResponse`: `sendResponse` with `asError` forced and every
      other option kept. */
  function SendErrorResponse(list: seq<Command>, alias: map<string, nat>, prefix: string, content: Content, o: ResponseOptions): (r: Result<Descriptor, string>)
    requires RegistryValid(list, alias)
    ensures r == SendResponse(list, alias, prefix, content, o.(asError := true))
    ensures r.Success? ==> r.value.code == ERROR
  {
    SendResponse(list, alias, prefix, content, o.(asError := true))
  }

  /** `sendReactionResponse`: always a reaction descriptor, with no content
      and no anti-loop check. */
  function SendReactionResponse(reaction: string, o: ResponseOptions): (d: Descriptor)
    ensures d.rtype == ReactToMessage && d.code == CodeOf(o)
    ensures d.content == NoContent && d.reaction == Some(reaction) && d.options == o.messageOptions
  {
    Descriptor(CodeOf(o), ReactToMessage, NoContent, Some(reaction), o.messageOptions)
  }
}
