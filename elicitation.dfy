/** The elicitation exchange as the handlers see it. elicitation.js wraps the
    SDK's `elicitInput` call in progress timers; none of that is modelled:
    the client's reply is an input to the handlers. */
module Elicitation {
  import opened Wrappers
  import opened JsValue
  import Schemas

  /** `{ type: "object", properties, required }`. */
  datatype RequestedSchema = RequestedSchema(kind: string, properties: map<string, Schemas.FieldSchema>, required: seq<string>)

  /** The request sent to the client: its message and schema. */
  datatype ElicitRequest = ElicitRequest(message: string, requestedSchema: RequestedSchema)

  /** What the awaited call produced: a result object with an `action` and,
      perhaps, a `content` object; or a rejection (a timeout, a transport
      error) carrying its error message. */
  datatype Reply = Reply(action: string, content: Option<Bag>) | Rejected(message: string)

  /** How a handler reacts to the reply. */
  datatype Decision = Accept(content: Bag) | Decline | Cancel | Failure(message: string)

  /** The branch a handler takes: accept needs both the action and a content
      object; decline is tested next; every other result cancels; a rejection
      leaves through the handler's `catch`. */
  function Classify(reply: Reply): (d: Decision)
    ensures d.Accept? <==> reply.Reply? && reply.action == "accept" && reply.content.Some?
    ensures d.Accept? ==> d.content == reply.content.value
    ensures d.Decline? <==> reply.Reply? && reply.action == "decline"
    ensures d.Failure? <==> reply.Rejected?
    ensures d.Failure? ==> d.message == reply.message
  {
    match reply
    case Rejected(message) => Failure(message)
    case Reply(action, content) =>
      if action == "accept" && content.Some? then Accept(content.value)
      else if action == "decline" then Decline
      else Cancel
  }

  /** Cancellation is the fallback: an accept without content, and any action
      other than accept and decline, cancel. */
  lemma CancelIsTheFallback(action: string, content: Option<Bag>)
    ensures Classify(Reply(action, content)) == Cancel <==>
      action != "decline" && (action == "accept" ==> content.None?)
    ensures Classify(Reply("accept", None)) == Cancel
  {
  }
}
