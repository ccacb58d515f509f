/**
  `KafkaService.sendMessage`: publish the envelope to the well-known topic
  under a fresh key, then turn how the publish ended into an `ApiResponse`.
*/
module KafkaServices {
  import opened Base
  import opened Payload
  import opened ApiResponses
  import opened EventService
  import GlobalConstant

  const SentMessage: string := "Message sent successfully"
  const SendErrorMessage: string := "Error while sending message"

  /**
    The response for a publish that ended with `publish`: 200 and no data on
    a normal return, 400 with the exception's message as the only error
    otherwise.
  */
  function ResponseFor(publish: Completion): (r: ApiResponse)
    ensures r.success == Some(publish.Returned?)
    ensures r.statusCode == Some(if publish.Returned? then 200 else 400)
    ensures r.data == None
    ensures publish.Returned? ==> r.message == Some(SentMessage) && r.errors == None
    ensures publish.Threw? ==> r.message == Some(SendErrorMessage) && r.errors == Some([publish.message])
  {
    match publish
    case Returned => Success(Some(SentMessage), None)
    case Threw(m) => Error(Some(SendErrorMessage), Some([m]))
  }

  class KafkaService {
    const kafkaServiceConfig: KafkaEventService

    constructor (kafkaServiceConfig: KafkaEventService)
      ensures this.kafkaServiceConfig == kafkaServiceConfig
    {
      this.kafkaServiceConfig := kafkaServiceConfig;
    }

    /**
      `sendMessage`. `key` is the random UUID the source generates for each
      call; `reply` is how the producer's `send` ends. Any exception is
      turned into the error response, so the method always returns one.
    */
    method SendMessage(enabled: bool, message: KafkaMessage<string>, key: string, reply: Completion)
      returns (r: ApiResponse)
      modifies kafkaServiceConfig.broker
      ensures r == ResponseFor(if enabled then reply else Returned)
      ensures !enabled ==> r.success == Some(true) && unchanged(kafkaServiceConfig.broker)
      ensures kafkaServiceConfig.broker.produced ==
        if enabled && reply.Returned?
        then old(kafkaServiceConfig.broker.produced) + [ProducerRecord(GlobalConstant.TopicName, key, message)]
        else old(kafkaServiceConfig.broker.produced)
      ensures kafkaServiceConfig.broker.topics == old(kafkaServiceConfig.broker.topics)
      ensures kafkaServiceConfig.broker.requests == old(kafkaServiceConfig.broker.requests)
    {
      var c := kafkaServiceConfig.PublishEvent(enabled, GlobalConstant.TopicName, key, message, reply);
      r := ResponseFor(c);
    }
  }
}
