/**
 * The wire contracts shared by both services (PaymentRequestMessage,
 * PaymentResultMessage) and the outbox row that carries one of them. A
 * serialized payload string is carried as the message value it encodes.
 */
module Messages {
  import opened Common

  datatype PaymentRequest = PaymentRequest(
    messageId: Guid,
    orderId: Guid,
    userId: UserId,
    amount: Money,
    createdAt: Time)

  datatype PaymentResult = PaymentResult(
    messageId: Guid,
    orderId: Guid,
    success: bool,
    reason: string,
    createdAt: Time)

  /** The message an outbox row's Payload column holds. */
  datatype Payload = RequestPayload(request: PaymentRequest) | ResultPayload(result: PaymentResult)

  /** A row of an OutboxMessages table (both services use this shape). */
  datatype OutboxMessage = OutboxMessage(
    id: Guid,
    kind: string,
    payload: Payload,
    processed: bool,
    createdAt: Time,
    processedAt: Option<Time>)

  const PaymentRequestType := "PaymentRequest"
  const PaymentResultType := "PaymentResult"

  const PaymentRequestsQueue := "payment_requests"
  const PaymentResultsQueue := "payment_results"

  /** Primary-key uniqueness of an outbox table. */
  predicate OutboxKeysUnique(rows: seq<OutboxMessage>) {
    forall i, j :: 0 <= i < j < |rows| ==> rows[i].id != rows[j].id
  }

  predicate OutboxIdFree(rows: seq<OutboxMessage>, id: Guid) {
    forall i :: 0 <= i < |rows| ==> rows[i].id != id
  }

  /** An outbox row added under a free key keeps the keys unique. */
  lemma AddedOutboxKeepsKeys(rows: seq<OutboxMessage>, added: Option<OutboxMessage>)
    requires OutboxKeysUnique(rows)
    requires added.Some? ==> OutboxIdFree(rows, added.value.id)
    ensures OutboxKeysUnique(rows + Optional(added))
  {
  }
}
