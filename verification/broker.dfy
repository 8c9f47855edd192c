/** The message broker, reduced to what the core hands it and what it answers. */
module Broker {
  import opened Wrappers
  import opened Errors
  import opened PyValue

  /** One message given to the broker's publish facility (`publish_message`,
      `producer.publish`): exchange, routing key, JSON payload and the
      `reply_to` / `correlation_id` properties. */
  datatype Publication = Publication(
    exchange: string,
    routingKey: string,
    payload: Json,
    replyTo: Option<string>,
    correlationId: Option<string>)

  /** Whether a publication went through, or the exception it ended in. */
  type Publisher = Publication -> Outcome<Error>

  /** `get_queue_count`: the message count of the named queue, or the exception
      (NotFound when the queue does not exist). */
  type QueueCounter = string -> Result<nat, Error>

  /** The body of an RPC request naming a method: `{"method": name}`. */
  function RequestBody(name: string): Json {
    JDict(map["method" := JStr(name)])
  }

  /** The default exchange, which routes by queue name. */
  const DefaultExchange: string := ""
}
