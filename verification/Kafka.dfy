/** Topics, partitions and records; how the publisher turns a row into a record, and how the
    consumer reads one. */
module Kafka {
  import opened Wrappers
  import opened Outbox

  /** A message value: absent, text that is no JSON document, or a parsed document. */
  datatype MessageValue = Tombstone | Unparseable | Document(json: Json)

  datatype Record = Record(key: string, value: MessageValue)

  datatype Partition = Partition(topic: string, number: nat)

  type Logs = map<Partition, seq<Record>>

  /** What is fixed while the system runs: the `KAFKA_DEFAULT_TOPIC` setting and the broker's
      mapping of keys to partition numbers. */
  datatype Cluster = Cluster(defaultTopic: Option<string>, partitionOf: (string, string) -> nat)

  function LogOf(logs: Logs, p: Partition): seq<Record> {
    if p in logs then logs[p] else []
  }

  function Append(logs: Logs, p: Partition, record: Record): Logs {
    logs[p := LogOf(logs, p) + [record]]
  }

  ghost predicate Extends(logs: Logs, logs': Logs) {
    forall p :: LogOf(logs, p) <= LogOf(logs', p)
  }

  // ---- Publishing ----

  const FALLBACK_TOPIC: string := "platform.events.v1"

  function TopicFor(cluster: Cluster, event: OutboxEvent): string {
    var named :=
      match event.metadata
      case JObject(fields) => if "topic" in fields && fields["topic"].JString? then fields["topic"].text else ""
      case _ => "";
    if named != "" then named
    else if cluster.defaultTopic.Some? then cluster.defaultTopic.value
    else FALLBACK_TOPIC
  }

  function Envelope(event: OutboxEvent): Json {
    JObject(map[
      "id" := JString(event.id),
      "type" := JString(event.eventType),
      "version" := JNumber(event.eventVersion),
      "occurredAt" := JNumber(event.occurredAt),
      "aggregateType" := JString(event.aggregateType),
      "aggregateId" := JString(event.aggregateId),
      "payload" := event.payload,
      "metadata" := event.metadata])
  }

  function RecordFor(event: OutboxEvent): Record {
    Record(event.aggregateId, Document(Envelope(event)))
  }

  /** What a record of the event has to say: the aggregate as its key, and a document with these eight fields
      and no other. */
  ghost predicate Carries(record: Record, event: OutboxEvent) {
    && record.key == event.aggregateId
    && record.value.Document? && record.value.json.JObject?
    && var fields := record.value.json.fields;
       && fields.Keys
          == {"id", "type", "version", "occurredAt", "aggregateType", "aggregateId", "payload", "metadata"}
       && fields["id"] == JString(event.id)
       && fields["type"] == JString(event.eventType)
       && fields["version"] == JNumber(event.eventVersion)
       && fields["occurredAt"] == JNumber(event.occurredAt)
       && fields["aggregateType"] == JString(event.aggregateType)
       && fields["aggregateId"] == JString(event.aggregateId)
       && fields["payload"] == event.payload
       && fields["metadata"] == event.metadata
  }

  lemma RecordCarries(event: OutboxEvent)
    ensures Carries(RecordFor(event), event)
  {
  }

  function Route(cluster: Cluster, event: OutboxEvent): Partition {
    var topic := TopicFor(cluster, event);
    Partition(topic, cluster.partitionOf(topic, event.aggregateId))
  }

  /** The bookkeeping columns decide neither the partition nor a byte of the record, so every
      duplicate of a row lands, identical, in one and the same log. */
  lemma DuplicatesAgree(cluster: Cluster, e: OutboxEvent, f: OutboxEvent)
    requires AsEnqueued(e) == AsEnqueued(f)
    ensures RecordFor(e) == RecordFor(f) && Route(cluster, e) == Route(cluster, f)
  {
    assert e == AsEnqueued(f).(publishedAt := e.publishedAt, attempts := e.attempts, lastError := e.lastError);
  }

  /** Events of one aggregate sent to one topic share a partition. */
  lemma AggregateStaysTogether(cluster: Cluster, e: OutboxEvent, f: OutboxEvent)
    requires e.aggregateId == f.aggregateId && TopicFor(cluster, e) == TopicFor(cluster, f)
    ensures Route(cluster, e) == Route(cluster, f)
  {
  }

  predicate Names(event: OutboxEvent, topic: string) {
    && event.metadata.JObject? && "topic" in event.metadata.fields
    && event.metadata.fields["topic"] == JString(topic)
  }

  /** A nonempty string under `topic` in the metadata is the topic. Without one the setting decides alone,
      and decides for the empty topic if and only if it is set to that. */
  lemma TopicChoice(cluster: Cluster, event: OutboxEvent, named: string)
    ensures named != "" && Names(event, named) ==> TopicFor(cluster, event) == named
    ensures (forall topic :: Names(event, topic) ==> topic == "") ==>
              && TopicFor(cluster, event) == TopicFor(cluster, event.(metadata := JObject(map[])))
              && (TopicFor(cluster, event) == "" <==> cluster.defaultTopic == Some(""))
              && (cluster.defaultTopic.Some? ==> TopicFor(cluster, event) == cluster.defaultTopic.value)
              && (cluster.defaultTopic.None? ==> TopicFor(cluster, event) == "platform.events.v1")
    ensures TopicFor(cluster, event) == "" ==> forall topic :: Names(event, topic) ==> topic == ""
  {
    var fields := if event.metadata.JObject? then event.metadata.fields else map[];
    if "topic" in fields && fields["topic"].JString? {
      assert Names(event, fields["topic"].text);
    }
  }

  // ---- Reading ----

  /** What the consumer makes of a value before it looks at its ledger. */
  datatype Reading = Ignore | Reject | Accept(id: string, eventType: string)

  function TextField(json: Json, name: string): string {
    if json.JObject? && name in json.fields && json.fields[name].JString? then json.fields[name].text else ""
  }

  /** The document has that nonempty string under that name. */
  predicate HasText(json: Json, name: string, text: string) {
    json.JObject? && name in json.fields && json.fields[name] == JString(text) && text != ""
  }

  function Read(value: MessageValue): Reading {
    match value
    case Tombstone => Ignore
    case Unparseable => Reject
    case Document(json) =>
      var id, eventType := TextField(json, "id"), TextField(json, "type");
      if id == "" || eventType == "" then Reject else Accept(id, eventType)
  }

  /** What is read, in terms of the value: nothing to do for an absent value; a failure for text that is no
      document and for a document without a nonempty string under both names; else these two strings. */
  lemma ReadFields(value: MessageValue)
    ensures Read(value).Ignore? <==> value.Tombstone?
    ensures forall id, t :: Read(value) == Accept(id, t) <==>
              value.Document? && HasText(value.json, "id", id) && HasText(value.json, "type", t)
    ensures Read(value).Reject? <==>
              || value.Unparseable?
              || (value.Document? && (|| (forall id :: !HasText(value.json, "id", id))
                                      || (forall t :: !HasText(value.json, "type", t))))
  {
    if value.Document? && value.json.JObject? {
      var fields := value.json.fields;
      if "id" in fields && fields["id"].JString? && fields["id"].text != "" {
        assert HasText(value.json, "id", fields["id"].text);
      }
      if "type" in fields && fields["type"].JString? && fields["type"].text != "" {
        assert HasText(value.json, "type", fields["type"].text);
      }
    }
  }

  /** The publisher's envelope carries the row's key and type through the consumer's check, and
      an empty event type is the only thing that makes the consumer refuse it. */
  lemma EnvelopeAccepted(event: OutboxEvent)
    requires event.id != ""
    ensures Read(RecordFor(event).value) == Accept(event.id, event.eventType) <==> event.eventType != ""
    ensures Read(RecordFor(event).value).Reject? <==> event.eventType == ""
  {
    var fields := Envelope(event).fields;
    assert fields["id"] == JString(event.id);
    assert fields["type"] == JString(event.eventType);
    assert TextField(Envelope(event), "id") == event.id;
    assert TextField(Envelope(event), "type") == event.eventType;
  }

  // ---- The publisher object ----

  /** How `producer.send` ends: acknowledged, appended although reported failed, or not appended. */
  datatype Send = Acknowledged | AppendedButFailed | NotAppended {
    predicate Appended() { this != NotAppended }
  }

  function AfterSend(cluster: Cluster, logs: Logs, event: OutboxEvent, send: Send): Logs {
    if send.Appended() then Append(logs, Route(cluster, event), RecordFor(event)) else logs
  }

  /** What a publish does once the connection is taken into account: without one, nothing is sent. */
  function EffectiveSend(connected: bool, connects: bool, send: Send): Send {
    if connected || connects then send else NotAppended
  }

  class KafkaOutboxPublisher {
    const cluster: Cluster
    var connected: bool  // the memoised connection promise: resolved, or absent
    var logs: Logs

    constructor (cluster: Cluster)
      ensures this.cluster == cluster && !connected && logs == map[]
    {
      this.cluster := cluster;
      connected, logs := false, map[];
    }

    /** A resolved connection is kept; a failed attempt clears the memo so the next call retries. */
    method Connect(connects: bool) returns (ok: bool)
      modifies this`connected
      ensures ok == connected == (old(connected) || connects)
    {
      if !connected {
        connected := connects;
      }
      ok := connected;
    }

    method Publish(event: OutboxEvent, connects: bool, send: Send) returns (ok: bool)
      modifies this
      ensures connected == (old(connected) || connects)
      ensures ok == EffectiveSend(old(connected), connects, send).Acknowledged?
      ensures logs == AfterSend(cluster, old(logs), event, EffectiveSend(old(connected), connects, send))
      ensures !old(connected) && !connects ==> !ok && logs == old(logs)
      ensures old(connected) || connects ==> (ok <==> send.Acknowledged?)
      ensures (old(connected) || connects) && send.NotAppended? ==> logs == old(logs)
      ensures (old(connected) || connects) && send.Appended() ==>
                var topic := TopicFor(cluster, event);
                var p := Partition(topic, cluster.partitionOf(topic, event.aggregateId));
                && |LogOf(logs, p)| == |LogOf(old(logs), p)| + 1
                && LogOf(logs, p)[..|LogOf(old(logs), p)|] == LogOf(old(logs), p)
                && Carries(LogOf(logs, p)[|LogOf(old(logs), p)|], event)
                && forall q :: q != p ==> LogOf(logs, q) == LogOf(old(logs), q)
    {
      RecordCarries(event);
      ok := Connect(connects);
      if !ok {
        return;
      }
      var topic := TopicFor(cluster, event);
      var partition := Partition(topic, cluster.partitionOf(topic, event.aggregateId));
      if send.Appended() {
        logs := Append(logs, partition, RecordFor(event));
      }
      ok := send.Acknowledged?;
    }
  }
}
