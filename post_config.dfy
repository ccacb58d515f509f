/** `ApplicationPostConfig`: the start-up hook that ensures the well-known topic. */
module PostConfig {
  import opened Base
  import opened EventService
  import GlobalConstant

  class ApplicationPostConfig {
    const kafkaServiceConfig: KafkaEventService

    constructor (kafkaServiceConfig: KafkaEventService)
      ensures this.kafkaServiceConfig == kafkaServiceConfig
    {
      this.kafkaServiceConfig := kafkaServiceConfig;
    }

    /** `init`: create the topic with three partitions and replication factor one. */
    method Init(enabled: bool, reply: Completion) returns (c: Completion)
      modifies kafkaServiceConfig.broker
      ensures !enabled ==> c == Returned && unchanged(kafkaServiceConfig.broker)
      ensures enabled ==> c == reply
      ensures enabled ==>
        kafkaServiceConfig.broker.requests ==
        old(kafkaServiceConfig.broker.requests) + [CreateOrModifyRequest(NewTopic(GlobalConstant.TopicName, 3, 1))]
      ensures enabled && reply.Returned? ==>
        kafkaServiceConfig.broker.topics ==
        CreatedOrModified(old(kafkaServiceConfig.broker.topics), NewTopic(GlobalConstant.TopicName, 3, 1))
      ensures GlobalConstant.TopicName !in old(kafkaServiceConfig.broker.topics) && enabled && reply.Returned? ==>
        kafkaServiceConfig.broker.topics[GlobalConstant.TopicName] == TopicShape(3, 1, false)
      ensures enabled && reply.Threw? ==>
        kafkaServiceConfig.broker.topics == old(kafkaServiceConfig.broker.topics)
      ensures kafkaServiceConfig.broker.produced == old(kafkaServiceConfig.broker.produced)
    {
      c := kafkaServiceConfig.CreateTopic(enabled, GlobalConstant.TopicName, 3, 1, reply);
    }
  }
}
