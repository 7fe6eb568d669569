/** The advice gateway: one call to a hosted text-generation service whose failures are turned
    into a fixed reply, so that its caller always receives a displayable string. */
module Gateway {

  /** The reply shown when the service cannot be reached or fails. */
  const FallbackReply: string :=
    "I'm having trouble connecting to my knowledge base. Please contact our support team at 1-800-AIRTOUCH."

  /** What the hosted service did with one request: the request itself is not modelled. */
  datatype Outcome = Generated(text: string) | Failed

  /** The string the gateway hands back for an outcome. */
  function Advice(o: Outcome): string
  {
    match o
    case Generated(text) => text
    case Failed => FallbackReply
  }
}
