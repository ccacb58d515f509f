# kafka-notification relay core, modelled in Dafny

The service receives notification envelopes over HTTP and publishes them to the
Kafka topic `notifications`. A listener on that topic pushes each envelope as
a JSON text frame to every connected WebSocket session. This model covers the
service's own logic, with the Kafka and Spring calls treated as abstract:

- **Session registry and fan-out** (`websocket_handler.dfy`, module `WebSocket`).
  The `CopyOnWriteArraySet` of sessions is a duplicate-free `seq<Session>` in
  insertion order. Connect appends a new session, and disconnect removes the first (and only)
  occurrence. `Listen` renders the envelope once, then walks a snapshot of the
  sessions and sends the frame to each open one. The pure function `Delivered`
  says who receives the frame. Because one `try` wraps the whole loop, the
  first failing send ends delivery for every later session.
- **Flag-gated topic administration and publishing** (`event_service.dfy`,
  module `EventService`). A `Broker` object holds the topic map, the records
  given to the producer and the log of admin requests. Its methods stand for
  the four client-library calls, and the broker's reply to each is a
  parameter. `KafkaEventService` gates `createTopic`, `deleteTopic`,
  `clearTopic` and `publishEvent` on the enable flag. `topicExists` ignores
  the flag. The calling thread's interrupt status is a `Thread` object.
- **Startup** (`post_config.dfy`): `ApplicationPostConfig.init` creates
  `notifications` with 3 partitions and replication factor 1.
- **Publish response** (`kafka_service.dfy`, `api_response.dfy`). `ResponseFor`
  maps how the publish ended to an `ApiResponse`. `Success` and `Error` are
  built through a model of the Lombok builder, in which each unset field stays
  null (`None`).
- `base.dfy` holds Java nulls (`Option`), `short`/`int` (`Int16`/`Int32`), and
  `Completion` (a call returns, or throws with a possibly-null message).
  `payload.dfy` holds the envelope `KafkaMessage<T>`. `global_constant.dfy`
  holds `TOPIC_NAME`.

Inputs the program gets from its environment are parameters:

- the enable flag (`enabled`);
- the random UUID key (`key`);
- the JSON rendering in `listen` (`render`, with `None` for a throwing mapper);
- whether each WebSocket send throws (`sendFails`);
- every broker reply (`Completion` or `FutureOutcome`).

Three behaviours of the code that a reader might not expect:

- **Fan-out.** One `try` wraps the whole loop in `listen`, so the first failed
  send stops delivery to every later session
  (`WebSocket.DeliveredStopsAtFailure`).
- **clearTopic.** `deleteTopic` catches and logs its own failures, so the
  create with one partition and replication factor one always runs after it
  (`EventService.KafkaEventService.ClearTopic`). If the topic was absent, the
  failed delete is swallowed and the create makes it at (1, 1). When the
  delete did not go through and the topic still exists, the create-or-modify
  rule leaves that topic's shape as it was (`EventService.ClearedShape`).
- **deleteTopic.** `deleteTopic` waits with `get()` and no timeout. The model
  covers waits that end: each reply is one of the three ways such a wait ends.

## Model

| member | source | states |
|---|---|---|
| `ApiResponses.NewBuilder` | src/main/java/com/demo/kafka/payload/ApiResponse.java:9 | `ApiResponse.builder()` of Lombok's `@Builder`: a builder with every field still null. |
| `ApiResponses.ApiResponseBuilder.WithSuccess` | src/main/java/com/demo/kafka/payload/ApiResponse.java:9 | The builder's `success(...)` setter records that one field and leaves the others as they were. |
| `ApiResponses.ApiResponseBuilder.WithMessage` | src/main/java/com/demo/kafka/payload/ApiResponse.java:9 | The `message(...)` setter records that one field and leaves the others as they were. |
| `ApiResponses.ApiResponseBuilder.WithStatusCode` | src/main/java/com/demo/kafka/payload/ApiResponse.java:9 | The `statusCode(...)` setter records that one field and leaves the others as they were. |
| `ApiResponses.ApiResponseBuilder.WithData` | src/main/java/com/demo/kafka/payload/ApiResponse.java:9 | The `data(...)` setter records that one field and leaves the others as they were. |
| `ApiResponses.ApiResponseBuilder.WithErrors` | src/main/java/com/demo/kafka/payload/ApiResponse.java:9 | The `errors(...)` setter records that one field and leaves the others as they were. |
| `ApiResponses.ApiResponseBuilder.Build` | src/main/java/com/demo/kafka/payload/ApiResponse.java:9 | `build()` hands every recorded field, null if never set, to the all-args constructor. |
| `ApiResponses.AllArgsConstructor` | src/main/java/com/demo/kafka/payload/ApiResponse.java:17-23 | The all-args constructor stores each argument unchanged in its own field. |
| `ApiResponses.Success` | src/main/java/com/demo/kafka/payload/ApiResponse.java:25-32 | `success(m, d)` has success = true and status 200. It passes the message and data through unchanged and leaves errors null. |
| `ApiResponses.Error` | src/main/java/com/demo/kafka/payload/ApiResponse.java:34-41 | `error(m, errs)` has success = false and status 400. It passes the message and errors through unchanged and leaves data null. |
| `ApiResponses.FactoryStatusMatchesSuccess` | src/main/java/com/demo/kafka/payload/ApiResponse.java:25-41 | In a factory-built response, the status is 200 exactly when success is true. |
| `WebSocket.Added` | src/main/java/com/demo/kafka/config/KafkaWebSocketHandler.java:23 | `sessions.add` keeps the old registry as a prefix, grows it by at most one, and every entry after the prefix is the added session, which is now present. |
| `WebSocket.Removed` | src/main/java/com/demo/kafka/config/KafkaWebSocketHandler.java:29 | `sessions.remove` returns only sessions that were registered. It is one shorter when the session was present and the same length otherwise. |
| `WebSocket.AddedSpec` | src/main/java/com/demo/kafka/config/KafkaWebSocketHandler.java:18-23 | Adding a session that is already registered changes nothing. A new session goes at the end. The result contains the session and stays duplicate-free. |
| `WebSocket.RemovedAbsent` | src/main/java/com/demo/kafka/config/KafkaWebSocketHandler.java:29 | Removing a session that is not registered is a no-op. |
| `WebSocket.RemovedAt` | src/main/java/com/demo/kafka/config/KafkaWebSocketHandler.java:29 | Removing the session at position i cuts out exactly position i. The other sessions keep their relative order. |
| `WebSocket.RemovedMembers` | src/main/java/com/demo/kafka/config/KafkaWebSocketHandler.java:29 | After a removal, the registry holds exactly the old sessions other than the removed one, still without duplicates. |
| `WebSocket.ReplayKeepsNoDuplicates` | src/main/java/com/demo/kafka/config/KafkaWebSocketHandler.java:18-31 | No sequence of connects and disconnects leaves a session registered twice. |
| `WebSocket.Delivered` | src/main/java/com/demo/kafka/config/KafkaWebSocketHandler.java:35-46 | Fan-out plan, one flag per session of the snapshot. A session gets the frame only if it is open and its send does not throw. |
| `WebSocket.DeliveredBeforeFailure` | src/main/java/com/demo/kafka/config/KafkaWebSocketHandler.java:38-42 | Before the first throwing send, a session gets the frame exactly when it is open. |
| `WebSocket.DeliveredAllSucceed` | src/main/java/com/demo/kafka/config/KafkaWebSocketHandler.java:38-42 | When no send throws, each open session gets the frame and no closed session does. |
| `WebSocket.DeliveredStopsAtFailure` | src/main/java/com/demo/kafka/config/KafkaWebSocketHandler.java:35-46 | If the send to the k-th session throws, neither that session nor any later one gets the frame. |
| `WebSocket.Session.SendMessage` | src/main/java/com/demo/kafka/config/KafkaWebSocketHandler.java:40 | A send either throws and delivers nothing, or appends exactly the one frame to the session's log. |
| `WebSocket.KafkaWebSocketHandler.constructor` | src/main/java/com/demo/kafka/config/KafkaWebSocketHandler.java:18 | The registry starts empty. |
| `WebSocket.KafkaWebSocketHandler.AfterConnectionEstablished` | src/main/java/com/demo/kafka/config/KafkaWebSocketHandler.java:22-25 | Connect sets the registry to `Added(old, session)` and keeps it duplicate-free. |
| `WebSocket.KafkaWebSocketHandler.AfterConnectionClosed` | src/main/java/com/demo/kafka/config/KafkaWebSocketHandler.java:28-31 | Disconnect sets the registry to `Removed(old, session)` and keeps it duplicate-free. |
| `WebSocket.KafkaWebSocketHandler.Listen` | src/main/java/com/demo/kafka/config/KafkaWebSocketHandler.java:33-47 | The registry and open flags are unchanged. If rendering fails, nobody receives anything. Otherwise session i receives exactly the one rendered frame when `Delivered(...)[i]` holds, and nothing otherwise. No exception escapes. |
| `EventService.ExistsIn` | src/main/java/com/demo/kafka/config/KafkaEventService.java:116-127 | The answer is true exactly when the listing succeeded and the name is a non-internal topic of the broker. |
| `EventService.CreatedOrModified` | src/main/java/com/demo/kafka/config/KafkaEventService.java:45-46 | After a successful create-or-modify, an absent topic exists with the requested shape. An existing topic keeps its replication factor and internal mark, and its partition count grows to the requested count if that is larger. All other topics are untouched. |
| `EventService.CreatedOrModifiedIdempotent` | src/main/java/com/demo/kafka/config/KafkaEventService.java:45-46 | Repeating a successful create-or-modify request for the same topic and shape leaves the topics as after the first. |
| `EventService.KafkaEventService.constructor` | src/main/java/com/demo/kafka/config/KafkaEventService.java:27-34 | The `@RequiredArgsConstructor` keeps the given broker connection. |
| `EventService.ClearedShape` | src/main/java/com/demo/kafka/config/KafkaEventService.java:70-75 | Delete then create (1, 1): if the delete went through or the topic was absent, the topic ends at 1 partition and replication factor 1. If the delete failed and the topic exists, it keeps its shape, except that a partition count below one, which the model takes at face value, is raised to one. |
| `EventService.Broker.CreateOrModifyTopics` | src/main/java/com/demo/kafka/config/KafkaEventService.java:45-46 | The call logs one create-or-modify request for (name, partitions, replication). On success the topics become `CreatedOrModified(old, request)`; a failure is returned as thrown and changes nothing. |
| `EventService.Broker.DeleteTopics` | src/main/java/com/demo/kafka/config/KafkaEventService.java:58 | The call logs one delete request. Acknowledged: the topics are removed. Interrupted: the thread's interrupt status is left cleared. |
| `EventService.Broker.ListTopicNames` | src/main/java/com/demo/kafka/config/KafkaEventService.java:118-120 | The call logs one list request. It returns the topic names, filtered by the internal setting, or nothing when the wait throws. |
| `EventService.Broker.Send` | src/main/java/com/demo/kafka/config/KafkaEventService.java:86 | The call appends the record to the produced log unless the call throws. It does not wait for an acknowledgment. |
| `EventService.KafkaEventService.CreateTopic` | src/main/java/com/demo/kafka/config/KafkaEventService.java:43-48 | Flag off: nothing changes. Flag on: exactly one create-or-modify request for the arguments, with its outcome propagated. On success the topics become `CreatedOrModified(old, request)`. |
| `EventService.KafkaEventService.DeleteTopic` | src/main/java/com/demo/kafka/config/KafkaEventService.java:55-63 | Flag off: nothing changes. Flag on: exactly one delete request, and the topic is gone if acknowledged. It never throws. |
| `EventService.KafkaEventService.ClearTopic` | src/main/java/com/demo/kafka/config/KafkaEventService.java:70-75 | Flag off: nothing changes. Flag on: a delete request, then a create request with (1, 1), whatever the delete did. After a successful create, the topic is at 1 partition and replication 1 if the delete went through or the topic was absent. If the delete failed, the topic keeps its replication factor and internal mark. |
| `EventService.KafkaEventService.PublishEvent` | src/main/java/com/demo/kafka/config/KafkaEventService.java:84-88 | Flag off: nothing changes. Flag on: exactly one record (topic, key, value) is produced, unless `send` throws, and the exception propagates. |
| `EventService.KafkaEventService.TopicExists` | src/main/java/com/demo/kafka/config/KafkaEventService.java:116-127 | The method lists non-internal topics whatever the flag, and answers `ExistsIn`. When the listing fails, it answers false and sets the interrupt status. |
| `PostConfig.ApplicationPostConfig.constructor` | src/main/java/com/demo/kafka/config/ApplicationPostConfig.java:16-18 | The constructor keeps the given event service. |
| `PostConfig.ApplicationPostConfig.Init` | src/main/java/com/demo/kafka/config/ApplicationPostConfig.java:20-23 | Flag off: nothing changes. Flag on: one create request for `notifications` with 3 partitions and replication factor 1. On success the topics become `CreatedOrModified(old, request)`, so an absent topic is created at (3, 1). If the create throws, the topics are unchanged and the exception propagates. |
| `KafkaServices.KafkaService.constructor` | src/main/java/com/demo/kafka/service/KafkaService.java:18-20 | The `@RequiredArgsConstructor` keeps the given event service. |
| `KafkaServices.ResponseFor` | src/main/java/com/demo/kafka/service/KafkaService.java:23-29 | Normal publish: success, status 200, "Message sent successfully", no data, no errors. Throwing publish: error, status 400, "Error while sending message", and the exception message as the only error. |
| `KafkaServices.KafkaService.SendMessage` | src/main/java/com/demo/kafka/service/KafkaService.java:22-30 | The method publishes to `notifications` under the per-call key and returns `ResponseFor` of the outcome, never throwing. Flag off: it still reports success and nothing is produced. |

## Left out

- Kafka and Spring internals. Partitioning, ordering, delivery guarantees and
  consumer groups are not modelled. The broker is a map of topics, a log of
  produced records and a log of admin requests.
- `EventService.Broker.CreateOrModifyTopics`: a failed request, for example one
  that timed out, is taken to leave the topics unchanged. Spring's warnings
  about an existing topic whose partition count or replication factor differs
  are logging only and are not modelled.
- `EventService.CreatedOrModifiedIdempotent`: a repeated create leaves the
  topics as they were after the first one. Whether either call reports a
  failure depends only on the broker's `reply` parameter; the model does not
  say that a create for an existing topic always returns normally.
- `EventService.CreatedOrModified`: requested partition counts and replication
  factors are taken at face value. The broker's own validation, which rejects
  zero and reads -1 as "use the broker default", shows up only as the `reply`
  parameter. The "raised to one" case of `EventService.ClearedShape` is about
  such counts.
- `EventService.Broker.DeleteTopics`: the model does not say what a failed or
  timed-out delete leaves behind on the broker. It keeps the topics unchanged.
- `EventService.KafkaEventService.DeleteTopic`: an exception thrown by
  `AdminClient.create` or by closing the client is not modelled. Only the two
  exceptions the method catches are.
- `EventService.KafkaEventService.TopicExists`: an exception thrown by
  `AdminClient.create`, or by closing the client, is not one that the
  `catch` handles. In the source it escapes `topicExists`. The model always
  returns, because it covers only listings that end with one of the three
  `FutureOutcome`s.
- `WebSocket.Session.Close` stands for the transport closing a connection. It
  is not part of the handler, so it has no row above.
- The process-wide `AtomicBoolean` flag is a plain `enabled` parameter. It
  starts `true` in the source. `clearTopic` reads it three times, and the model
  passes the same value to all three reads; a flip between reads is not modelled.
- Concurrency: thread-safety of the session set, listener threads, and
  connects or disconnects that race with `listen`. `Listen` iterates over a
  snapshot and nothing else runs meanwhile.
- JSON rendering in `listen` is the `render` parameter. The handler's own
  `ObjectMapper` has no Java-time module, which may make rendering fail for
  envelopes with time fields. The model leaves this to `render`.
- The envelope codecs (`MessageSerializer`, `MessageDeserializer`): they are
  thin Jackson wrappers whose format is the library's work.
- `consumeEvents`: it starts a listener container that is never stored, so
  there is no lifecycle to model.
- `KafkaConfig` (bean wiring), the controller (HTTP routing; `healthCheck`
  only calls `ApiResponse.success`), the two error handlers
  (logging only), UUID generation (the `key` parameter), and all logging.
