/** The fixed configuration values of `GlobalConstant` that the core uses. */
module GlobalConstant {

  /** `TOPIC_NAME`: the one topic events are published to and relayed from. */
  const TopicName: string := "notifications"
}
