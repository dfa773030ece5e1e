/** `readResponse` of src/modules/whatsapp/messageSending.ts, as a planner:
    given a response descriptor it yields the calls made to the chat client
    (reactions and message sends), in the order they are issued, and the
    message it returns. The client itself is not modelled. */
module MessageSending {
  import opened Wrappers
  import opened CommandTypes
  import opened Responses

  /** A call into the chat client. A reply is a send whose options carry
      `quotedMessageId`. */
  datatype Action = React(reaction: string) | Send(content: Content, options: SendOptions)

  /** What `readResponse` resolves to: nothing, the message it reacted to,
      or the message produced by the send at index `action` of the plan. */
  datatype Returned = NoReturn | Original | SentBy(action: nat)

  datatype Plan = Plan(actions: seq<Action>, returned: Returned)

  /** The reaction sent for an error response that names none. */
  const ErrorReaction: string := "\U{1F6AB}"

  /** The banner put before the text of an error response. */
  const ErrorBanner: string := "\U{1F6AB} *ERROR* \U{1F6AB}\n\n"

  /** `{ sendSeen: commandsSettings.sendSeen, ...response.data.options }`. */
  function MsgOptions(sendSeen: bool, options: Option<SendOptions>): (o: SendOptions)
    ensures "sendSeen" in o
    ensures options.Some? && "sendSeen" in options.value ==> o["sendSeen"] == options.value["sendSeen"]
    ensures options.None? || "sendSeen" !in options.value ==> o["sendSeen"] == OptBool(sendSeen)
    ensures forall k :: k != "sendSeen" ==> (k in o <==> options.Some? && k in options.value)
    ensures forall k :: k != "sendSeen" && k in o ==> o[k] == options.value[k]
  {
    map["sendSeen" := OptBool(sendSeen)] + options.GetOr(map[])
  }

  /** `{ ...options, quotedMessageId: messageId._serialized }` of
      `sendReplyMessage`. */
  function ReplyOptions(o: SendOptions, messageId: string): (r: SendOptions)
    ensures "quotedMessageId" in r && r["quotedMessageId"] == OptText(messageId)
    ensures forall k :: k != "quotedMessageId" ==> (k in r <==> k in o)
    ensures forall k :: k != "quotedMessageId" && k in o ==> r[k] == o[k]
  {
    o["quotedMessageId" := OptText(messageId)]
  }

  /** `sendReaction`: clear the reaction, then set it. */
  function ReactionPair(reaction: string): seq<Action> {
    [React(""), React(reaction)]
  }

  /** The send an OK response makes: a reply quoting the original message,
      a plain send, or none. */
  function OkSend(d: Descriptor, o: SendOptions, messageId: string): seq<Action> {
    if Truthy(d.content) && d.rtype == ReplyMessage then [Send(d.content, ReplyOptions(o, messageId))]
    else if Truthy(d.content) && d.rtype == SendMessage then [Send(d.content, o)]
    else []
  }

  /** The plan of `readResponse` for descriptor `d`, in the order the calls
      are issued. An OK reaction on a response that is not a reaction
      response is not awaited: its clear is issued at once, and the reaction
      itself only once the clear has settled, which is after `readResponse`
      has issued its send. */
  function PlanOf(d: Descriptor, sendSeen: bool, messageId: string): Plan {
    var o := MsgOptions(sendSeen, d.options);
    if d.code == OK then
      if d.reaction.Some? && d.rtype == ReactToMessage then
        Plan(ReactionPair(d.reaction.value), Original)
      else
        var sent := OkSend(d, o, messageId);
        var first := if d.reaction.Some? then [React("")] else [];
        var last := if d.reaction.Some? then [React(d.reaction.value)] else [];
        Plan(first + sent + last, if sent == [] then NoReturn else SentBy(|first|))
    else
      var reacts := ReactionPair(d.reaction.GetOr(ErrorReaction));
      if d.content.Text? && d.content.text != "" then
        Plan(reacts + [Send(Text(ErrorBanner + d.content.text), o)], SentBy(2))
      else Plan(reacts, NoReturn)
  }

  /** `sendReaction`, appending its two calls to the plan. */
  method SendReaction(actions: seq<Action>, reaction: string) returns (r: seq<Action>)
    ensures r == actions + ReactionPair(reaction)
  {
    r := actions + [React("")];
    r := r + [React(reaction)];
  }

  /** `readResponse`: the calls are appended in the order they are issued
      and `_return` is updated as it goes. */
  method ReadResponse(d: Descriptor, sendSeen: bool, messageId: string) returns (actions: seq<Action>, returned: Returned)
    ensures Plan(actions, returned) == PlanOf(d, sendSeen, messageId)
  {
    var msgOptions := MsgOptions(sendSeen, d.options);
    actions := [];
    returned := NoReturn;
    if d.code == OK {
      var pending: Option<string> := None;
      if d.reaction.Some? {
        if d.rtype != ReactToMessage {
          // not awaited: only the clear is issued before the send
          actions := actions + [React("")];
          pending := Some(d.reaction.value);
        } else {
          actions := SendReaction(actions, d.reaction.value);
          returned := Original;
        }
      }
      if Truthy(d.content) {
        if d.rtype == ReplyMessage {
          actions := actions + [Send(d.content, ReplyOptions(msgOptions, messageId))];
          returned := SentBy(|actions| - 1);
        } else if d.rtype == SendMessage {
          actions := actions + [Send(d.content, msgOptions)];
          returned := SentBy(|actions| - 1);
        }
      }
      if pending.Some? {
        actions := actions + [React(pending.value)];
      }
    } else {
      actions := SendReaction(actions, d.reaction.GetOr(ErrorReaction));
      if d.content.Text? && d.content.text != "" {
        actions := actions + [Send(Text(ErrorBanner + d.content.text), msgOptions)];
        returned := SentBy(|actions| - 1);
      }
    }
  }

  // ------------------------------------------------------------ properties

  /** How many sends a plan holds. */
  function Sends(actions: seq<Action>): nat {
    if actions == [] then 0 else (if actions[0].Send? then 1 else 0) + Sends(actions[1..])
  }

  lemma {:induction false} SendsAppend(a: seq<Action>, b: seq<Action>)
    ensures Sends(a + b) == Sends(a) + Sends(b)
    decreases |a|
  {
    if a == [] {
      assert a + b == b;
    } else {
      assert (a + b)[1..] == a[1..] + b;
      SendsAppend(a[1..], b);
    }
  }

  /** Every plan is at most one clear and one reaction, the clear first,
      and at most one send, which is then what is returned. An awaited
      reaction (an error, or a reaction response) comes before the send; the
      reaction of any other OK response is issued after the send, with only
      its clear before it. */
  lemma PlanShape(d: Descriptor, sendSeen: bool, messageId: string)
    ensures var p := PlanOf(d, sendSeen, messageId);
      var n := if d.code == ERROR || d.reaction.Some? then 2 else 0;
      n <= |p.actions| <= n + 1 &&
      (forall i :: 0 <= i < |p.actions| ==> (p.actions[i].Send? <==> p.returned == SentBy(i))) &&
      (|p.actions| == n + 1 <==> p.returned.SentBy?) &&
      (n == 2 ==> p.actions[0] == React(""))
    ensures var p := PlanOf(d, sendSeen, messageId);
      d.code == ERROR || (d.rtype == ReactToMessage && d.reaction.Some?) ==>
        p.actions[..2] == ReactionPair(if d.code == OK then d.reaction.value else d.reaction.GetOr(ErrorReaction)) &&
        (p.returned.SentBy? ==> p.returned.action == 2)
    ensures var p := PlanOf(d, sendSeen, messageId);
      d.code == OK && d.rtype != ReactToMessage && d.reaction.Some? ==>
        p.actions[|p.actions| - 1] == React(d.reaction.value) &&
        (p.returned.SentBy? ==> p.returned.action == 1)
  {
  }

  /** An OK response sends exactly one message when its content is truthy
      and its type is a reply or a message, and none otherwise; a reply
      quotes the original message and otherwise uses the merged options. */
  lemma OkSends(d: Descriptor, sendSeen: bool, messageId: string)
    requires d.code == OK
    ensures var p := PlanOf(d, sendSeen, messageId);
      (Sends(p.actions) == 1 <==> Truthy(d.content) && (d.rtype == ReplyMessage || d.rtype == SendMessage)) &&
      Sends(p.actions) <= 1
    ensures var p := PlanOf(d, sendSeen, messageId);
      p.returned.SentBy? ==>
        p.actions[p.returned.action] ==
          Send(d.content, if d.rtype == ReplyMessage then ReplyOptions(MsgOptions(sendSeen, d.options), messageId)
                          else MsgOptions(sendSeen, d.options))
  {
    var p := PlanOf(d, sendSeen, messageId);
    var o := MsgOptions(sendSeen, d.options);
    if d.reaction.Some? && d.rtype == ReactToMessage {
      ReactionsSendNothing(d.reaction.value);
      assert p.actions == [React(""), React(d.reaction.value)];
    } else {
      var sent := OkSend(d, o, messageId);
      var first: seq<Action> := if d.reaction.Some? then [React("")] else [];
      var last: seq<Action> := if d.reaction.Some? then [React(d.reaction.value)] else [];
      assert p.actions == first + sent + last;
      ReactionsSendNothing(if d.reaction.Some? then d.reaction.value else "");
      assert Sends(first) == 0 && Sends(last) == 0 by {
        assert first == [] || first == [React("")];
        assert last == [] || last == [React(d.reaction.value)];
      }
      SendsAppend(first, sent);
      SendsAppend(first + sent, last);
      if sent != [] {
        assert sent[1..] == [];
      }
    }
  }

  /** An OK message or reply that also carries a reaction issues the clear,
      then the send, then the reaction: `sendReaction` is not awaited. */
  lemma UnawaitedReactionAfterSend(d: Descriptor, sendSeen: bool, messageId: string)
    requires d.code == OK && d.reaction.Some? && Truthy(d.content)
    requires d.rtype == SendMessage || d.rtype == ReplyMessage
    ensures var o := MsgOptions(sendSeen, d.options);
      PlanOf(d, sendSeen, messageId) ==
        Plan([React(""),
              Send(d.content, if d.rtype == ReplyMessage then ReplyOptions(o, messageId) else o),
              React(d.reaction.value)],
             SentBy(1))
  {
  }

  /** Neither the clear nor the reaction is a send. */
  lemma ReactionsSendNothing(reaction: string)
    ensures Sends([React("")]) == 0 && Sends([React(reaction)]) == 0
    ensures Sends([React(""), React(reaction)]) == 0
  {
    assert [React("")][1..] == [] && [React(reaction)][1..] == [];
    assert [React(""), React(reaction)][1..] == [React(reaction)];
  }

  /** An error response always reacts, with its own reaction or the
      prohibition sign; it sends the banner and the text only for a
      non-empty string, and that send uses the merged options with no
      quoted message added: an error is never sent as a reply. */
  lemma ErrorPlan(d: Descriptor, sendSeen: bool, messageId: string)
    requires d.code == ERROR
    ensures var p := PlanOf(d, sendSeen, messageId);
      p.actions[..2] == ReactionPair(if d.reaction.Some? then d.reaction.value else ErrorReaction) &&
      (|p.actions| == 3 <==> d.content.Text? && d.content.text != "") &&
      (|p.actions| == 3 ==> p.actions[2] == Send(Text(ErrorBanner + d.content.text), MsgOptions(sendSeen, d.options))) &&
      (p.returned != Original)
  {
  }

  /** The returned message is the reacted one exactly for an OK reaction
      descriptor that carries a reaction. */
  lemma ReturnsOriginal(d: Descriptor, sendSeen: bool, messageId: string)
    ensures PlanOf(d, sendSeen, messageId).returned == Original <==>
      d.code == OK && d.rtype == ReactToMessage && d.reaction.Some?
  {
  }

  /** An OK descriptor of `sendReactionResponse` plans exactly the reaction
      pair and returns the reacted message. */
  lemma ReactionResponsePlan(reaction: string, o: ResponseOptions, sendSeen: bool, messageId: string)
    requires !o.asError
    ensures PlanOf(SendReactionResponse(reaction, o), sendSeen, messageId) == Plan(ReactionPair(reaction), Original)
  {
  }
}
