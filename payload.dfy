/**
  The message envelope `KafkaMessage<T>`. It is carried opaquely by the core:
  every field is a nullable Java reference, so every field is an `Option`.
*/
module Payload {
  import opened Base

  /** `java.time.LocalDateTime`, field by field. */
  datatype LocalDateTime = LocalDateTime(
    year: int, month: int, day: int,
    hour: int, minute: int, second: int, nano: int)

  datatype KafkaMessage<T> = KafkaMessage(
    messageId: Option<string>,
    correlationId: Option<string>,
    messageType: Option<string>,
    operation: Option<string>,
    source: Option<string>,
    success: Option<bool>,
    version: Option<string>,
    priority: Option<string>,
    messageLog: Option<string>,
    timestamp: Option<LocalDateTime>,
    expirationTime: Option<LocalDateTime>,
    headers: Option<map<string, string>>,
    payload: Option<T>)
}
