/**
 * The broker as the services see it: a delivery's body after deserialisation,
 * the acknowledgement a consumer callback sends back, and a channel whose
 * publishes are appended to a sequence.
 */
module Broker {
  import opened Common
  import opened Messages

  /**
   * What JsonSerializer.Deserialize makes of a delivery body: it throws
   * (Malformed), yields null (JsonNull, the body "null"), or a message.
   */
  datatype Body<M> = Malformed | JsonNull | Decoded(message: M)

  /** BasicAck, or BasicNack with requeue: true. */
  datatype Delivery = Ack | NackRequeue

  /**
   * The acknowledgement chosen by the Received callbacks of both consumers:
   * the try block acks after a null payload or a handler that returned; the
   * catch block nacks with requeue on any exception, including a failed
   * deserialisation. `handled` is what the handler did when it was called.
   */
  function Decide<M>(body: Body<M>, handled: Outcome): (d: Delivery)
    ensures d == Ack <==> body.JsonNull? || (body.Decoded? && handled.Returned?)
    ensures d == NackRequeue <==> body.Malformed? || (body.Decoded? && handled.Threw?)
  {
    match body
    case Malformed => NackRequeue
    case JsonNull => Ack
    case Decoded(_) => if handled.Returned? then Ack else NackRequeue
  }

  /** One BasicPublish: the routing key, the body and the Persistent property. */
  datatype Publication = Publication(queue: string, body: Payload, persistent: bool)

  /** A broker channel; the publishes it has made are its only state. */
  class Channel {
    var published: seq<Publication>

    constructor ()
      ensures published == []
    {
      published := [];
    }

    method BasicPublish(queue: string, body: Payload, persistent: bool)
      modifies this
      ensures published == old(published) + [Publication(queue, body, persistent)]
    {
      published := published + [Publication(queue, body, persistent)];
    }
  }
}
