/**
  `KafkaEventService`: topic administration and publishing, each gated by the
  process-wide enable flag, against an abstract broker. The flag is passed to
  every gated command as `enabled`; `TopicExists` has no such parameter,
  because the source does not consult the flag there.
*/
module EventService {
  import opened Base
  import opened Payload

  /** What the broker holds for one topic; `internal` marks the broker's own topics. */
  datatype TopicShape = TopicShape(partitions: Int32, replicationFactor: Int16, internal: bool)

  datatype NewTopic = NewTopic(name: string, numPartitions: Int32, replicationFactor: Int16)

  datatype ProducerRecord = ProducerRecord(topic: string, key: string, value: KafkaMessage<string>)

  /** The administrative requests the service issues, in the order issued. */
  datatype AdminRequest =
    | CreateOrModifyRequest(topic: NewTopic)
    | DeleteRequest(names: seq<string>)
    | ListRequest(listInternal: bool)

  /** How waiting on a broker future with `get()` ends. */
  datatype FutureOutcome =
    | Completed
    | ExecutionFailed(message: Option<string>)
    | Interrupted(message: Option<string>)

  /** The calling thread, as far as its interrupt status goes. */
  class Thread {
    var interrupted: bool

    constructor (interrupted: bool)
      ensures this.interrupted == interrupted
    {
      this.interrupted := interrupted;
    }
  }

  /** The names a topic listing returns. */
  function ListedNames(topics: map<string, TopicShape>, listInternal: bool): set<string> {
    set n | n in topics && (listInternal || !topics[n].internal)
  }

  /** The answer `topicExists` gives for a listing that ended with `listing`. */
  function ExistsIn(topics: map<string, TopicShape>, name: string, listing: FutureOutcome): (r: bool)
    ensures r <==> listing.Completed? && name in topics && !topics[name].internal
  {
    match listing
    case Completed => name in ListedNames(topics, false)
    case _ => false
  }

  /**
    The topics after a successful create-or-modify request. An absent topic
    is created with the requested shape. An existing one only gains
    partitions when more are asked for; its replication factor and whether
    it is internal stay as they were.
  */
  function CreatedOrModified(topics: map<string, TopicShape>, t: NewTopic): (r: map<string, TopicShape>)
    ensures r.Keys == topics.Keys + {t.name}
    ensures forall n :: n in topics && n != t.name ==> r[n] == topics[n]
    ensures t.name !in topics ==> r[t.name] == TopicShape(t.numPartitions, t.replicationFactor, false)
    ensures t.name in topics ==>
      && r[t.name].replicationFactor == topics[t.name].replicationFactor
      && r[t.name].internal == topics[t.name].internal
      && r[t.name].partitions >= topics[t.name].partitions
      && r[t.name].partitions >= t.numPartitions
      && (r[t.name].partitions == topics[t.name].partitions || r[t.name].partitions == t.numPartitions)
  {
    if t.name in topics then
      var shape := topics[t.name];
      topics[t.name := shape.(partitions := if t.numPartitions > shape.partitions then t.numPartitions else shape.partitions)]
    else
      topics[t.name := TopicShape(t.numPartitions, t.replicationFactor, false)]
  }

  /** Repeating a successful create-or-modify request changes nothing further. */
  lemma CreatedOrModifiedIdempotent(topics: map<string, TopicShape>, t: NewTopic)
    ensures CreatedOrModified(CreatedOrModified(topics, t), t) == CreatedOrModified(topics, t)
  {
  }

  /**
    What `clearTopic`'s two steps leave for the topic: one partition and
    replication factor one when the delete went through or the topic was
    absent; otherwise the surviving topic keeps its shape, a partition count
    below one being raised to one.
  */
  lemma ClearedShape(topics: map<string, TopicShape>, name: string, deleted: bool)
    ensures var before := if deleted then topics - {name} else topics;
      var r := CreatedOrModified(before, NewTopic(name, 1, 1));
      && ((deleted || name !in topics) ==> r == topics[name := TopicShape(1, 1, false)])
      && (!deleted && name in topics ==>
            r == topics[name := topics[name].(partitions := if topics[name].partitions < 1 then 1 else topics[name].partitions)])
  {
    var before := if deleted then topics - {name} else topics;
    var r := CreatedOrModified(before, NewTopic(name, 1, 1));
    if deleted || name !in topics {
      assert r == topics[name := TopicShape(1, 1, false)];
    }
  }

  /**
    The broker and the client-library calls the service makes into it. Each
    call's outcome is a parameter; the state records the topics, the records
    handed to the producer, and the administrative requests received.
  */
  class Broker {
    var topics: map<string, TopicShape>
    var produced: seq<ProducerRecord>
    var requests: seq<AdminRequest>

    constructor (topics: map<string, TopicShape>)
      ensures this.topics == topics && produced == [] && requests == []
    {
      this.topics := topics;
      produced := [];
      requests := [];
    }

    /** `KafkaAdmin.createOrModifyTopics`: creates the topic, or grows an existing one's partitions. */
    method CreateOrModifyTopics(topic: NewTopic, reply: Completion) returns (c: Completion)
      modifies this
      ensures c == reply
      ensures requests == old(requests) + [CreateOrModifyRequest(topic)]
      ensures topics == if reply.Returned?
                        then CreatedOrModified(old(topics), topic)
                        else old(topics)
      ensures produced == old(produced)
    {
      requests := requests + [CreateOrModifyRequest(topic)];
      if reply.Returned? {
        topics := CreatedOrModified(topics, topic);
      }
      c := reply;
    }

    /**
      `deleteTopics(names).all().get()`. An interrupted wait throws
      `InterruptedException`, which leaves the thread's interrupt status cleared.
    */
    method DeleteTopics(names: seq<string>, reply: FutureOutcome, thread: Thread) returns (o: FutureOutcome)
      modifies this, thread
      ensures o == reply
      ensures requests == old(requests) + [DeleteRequest(names)]
      ensures topics == if reply.Completed?
                        then map n | n in old(topics) && n !in names :: old(topics)[n]
                        else old(topics)
      ensures produced == old(produced)
      ensures thread.interrupted == if reply.Interrupted? then false else old(thread.interrupted)
    {
      requests := requests + [DeleteRequest(names)];
      if reply.Completed? {
        topics := map n | n in topics && n !in names :: topics[n];
      } else if reply.Interrupted? {
        thread.interrupted := false;
      }
      o := reply;
    }

    /** `listTopics(options).names().get()`: the names, or None when the wait throws. */
    method ListTopicNames(listInternal: bool, reply: FutureOutcome, thread: Thread) returns (names: Option<set<string>>)
      modifies this, thread
      ensures names == if reply.Completed? then Some(ListedNames(old(topics), listInternal)) else None
      ensures requests == old(requests) + [ListRequest(listInternal)]
      ensures topics == old(topics) && produced == old(produced)
      ensures thread.interrupted == if reply.Interrupted? then false else old(thread.interrupted)
    {
      requests := requests + [ListRequest(listInternal)];
      if reply.Completed? {
        names := Some(ListedNames(topics, listInternal));
      } else {
        names := None;
        if reply.Interrupted? {
          thread.interrupted := false;
        }
      }
    }

    /**
      `KafkaTemplate.send`: hands the record to the producer and returns at
      once; the future it returns is not awaited, so no acknowledgment is
      part of the call. `reply` says whether the call itself throws.
    */
    method Send(record: ProducerRecord, reply: Completion) returns (c: Completion)
      modifies this
      ensures c == reply
      ensures produced == if reply.Returned? then old(produced) + [record] else old(produced)
      ensures topics == old(topics) && requests == old(requests)
    {
      if reply.Returned? {
        produced := produced + [record];
      }
      c := reply;
    }
  }

  class KafkaEventService {
    const broker: Broker

    constructor (broker: Broker)
      ensures this.broker == broker
    {
      this.broker := broker;
    }

    /** `createTopic`: one create-or-modify request when enabled; an admin failure propagates. */
    method CreateTopic(enabled: bool, topicName: string, partitions: Int32, replicationFactor: Int16,
                       reply: Completion) returns (c: Completion)
      modifies broker
      ensures !enabled ==> c == Returned && unchanged(broker)
      ensures enabled ==> c == reply
      ensures enabled ==> broker.requests == old(broker.requests) + [CreateOrModifyRequest(NewTopic(topicName, partitions, replicationFactor))]
      ensures enabled ==> broker.topics == if reply.Returned?
                                           then CreatedOrModified(old(broker.topics), NewTopic(topicName, partitions, replicationFactor))
                                           else old(broker.topics)
      ensures broker.produced == old(broker.produced)
    {
      c := Returned;
      if enabled {
        var topic := NewTopic(topicName, partitions, replicationFactor);
        c := broker.CreateOrModifyTopics(topic, reply);
      }
    }

    /** `deleteTopic`: never throws; a failed or interrupted wait is caught and logged. */
    method DeleteTopic(enabled: bool, topicName: string, reply: FutureOutcome, thread: Thread)
      modifies broker, thread
      ensures !enabled ==> unchanged(broker, thread)
      ensures enabled ==> broker.requests == old(broker.requests) + [DeleteRequest([topicName])]
      ensures enabled ==> broker.topics == if reply.Completed? then old(broker.topics) - {topicName} else old(broker.topics)
      ensures broker.produced == old(broker.produced)
      ensures thread.interrupted == if enabled && reply.Interrupted? then false else old(thread.interrupted)
    {
      if enabled {
        var o := broker.DeleteTopics([topicName], reply, thread);
        assert broker.topics == if reply.Completed? then old(broker.topics) - {topicName} else old(broker.topics);
        // an ExecutionException or InterruptedException is only logged here
      }
    }

    /**
      `clearTopic`: delete, then create with one partition and replication
      factor one. The create runs whatever the delete's outcome, since
      `deleteTopic` swallows its failures.
    */
    method ClearTopic(enabled: bool, topicName: string, deleteReply: FutureOutcome, createReply: Completion,
                      thread: Thread) returns (c: Completion)
      modifies broker, thread
      ensures !enabled ==> c == Returned && unchanged(broker, thread)
      ensures enabled ==> c == createReply
      ensures enabled ==> broker.requests == old(broker.requests) + [DeleteRequest([topicName]), CreateOrModifyRequest(NewTopic(topicName, 1, 1))]
      ensures enabled && createReply.Returned? ==>
        broker.topics == CreatedOrModified(if deleteReply.Completed? then old(broker.topics) - {topicName} else old(broker.topics),
                                           NewTopic(topicName, 1, 1))
      ensures enabled && createReply.Returned? && (deleteReply.Completed? || topicName !in old(broker.topics)) ==>
        broker.topics == old(broker.topics)[topicName := TopicShape(1, 1, false)]
      ensures enabled && createReply.Returned? && !deleteReply.Completed? && topicName in old(broker.topics) ==>
        broker.topics.Keys == old(broker.topics).Keys &&
        broker.topics[topicName].replicationFactor == old(broker.topics)[topicName].replicationFactor &&
        broker.topics[topicName].internal == old(broker.topics)[topicName].internal
      ensures enabled && createReply.Threw? ==>
        broker.topics == if deleteReply.Completed? then old(broker.topics) - {topicName} else old(broker.topics)
      ensures broker.produced == old(broker.produced)
      ensures thread.interrupted == if enabled && deleteReply.Interrupted? then false else old(thread.interrupted)
    {
      c := Returned;
      if enabled {
        DeleteTopic(enabled, topicName, deleteReply, thread);
        c := CreateTopic(enabled, topicName, 1, 1, createReply);
        ClearedShape(old(broker.topics), topicName, deleteReply.Completed?);
      }
    }

    /** `publishEvent`: one record handed to the producer when enabled, without waiting for it. */
    method PublishEvent(enabled: bool, topicName: string, key: string, value: KafkaMessage<string>,
                        reply: Completion) returns (c: Completion)
      modifies broker
      ensures !enabled ==> c == Returned && unchanged(broker)
      ensures enabled ==> c == reply
      ensures enabled ==> broker.produced == if reply.Returned?
                                             then old(broker.produced) + [ProducerRecord(topicName, key, value)]
                                             else old(broker.produced)
      ensures broker.topics == old(broker.topics) && broker.requests == old(broker.requests)
    {
      c := Returned;
      if enabled {
        c := broker.Send(ProducerRecord(topicName, key, value), reply);
      }
    }

    /**
      `topicExists`: whether the non-internal listing holds the name. Whatever
      the enable flag says, it lists; a failed or interrupted listing answers
      false and sets the thread's interrupt status.
    */
    method TopicExists(topicName: string, reply: FutureOutcome, thread: Thread) returns (found: bool)
      modifies broker, thread
      ensures found == ExistsIn(old(broker.topics), topicName, reply)
      ensures broker.requests == old(broker.requests) + [ListRequest(false)]
      ensures broker.topics == old(broker.topics) && broker.produced == old(broker.produced)
      ensures thread.interrupted == if reply.Completed? then old(thread.interrupted) else true
    {
      var names := broker.ListTopicNames(false, reply, thread);
      match names {
        case Some(ns) =>
          found := topicName in ns;
        case None =>
          thread.interrupted := true;
          found := false;
      }
    }
  }
}
