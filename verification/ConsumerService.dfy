/** `KafkaEventConsumer.process`: check, look up the ledger, call the handler, enter the ledger. */
module ConsumerService {
  import opened Wrappers
  import opened Outbox
  import opened Kafka

  datatype ConsumedEvent = ConsumedEvent(eventId: string, eventType: string, consumerGroup: string)

  type Ledger = map<string, ConsumedEvent>

  /** The effect of the handler's completed calls is the sequence of ids it was completed for. */
  datatype Processed = Processed(ledger: Ledger, handled: seq<string>, ok: bool)

  /** What `process` does to one message when nothing else touches the ledger. The ledger is keyed
      by event id, so the insert of a present id fails; it cannot be present here. */
  function ProcessMessage(ledger: Ledger, handled: seq<string>, group: string, value: MessageValue,
                          handlerOk: bool, insert: Write): Processed {
    match Read(value)
    case Ignore => Processed(ledger, handled, true)
    case Reject => Processed(ledger, handled, false)
    case Accept(id, eventType) =>
      if id in ledger then Processed(ledger, handled, true)
      else if !handlerOk then Processed(ledger, handled, false)
      else
        Processed(if insert.Applied() then ledger[id := ConsumedEvent(id, eventType, group)] else ledger,
                  handled + [id],
                  insert.Written?)
  }

  class KafkaEventConsumer {
    const groupId: string
    var ledger: Ledger
    var handled: seq<string>

    constructor (groupId: string)
      ensures this.groupId == groupId && ledger == map[] && handled == []
    {
      this.groupId := groupId;
      ledger, handled := map[], [];
    }

    method Handle(id: string, handlerOk: bool) returns (ok: bool)
      modifies this`handled
      ensures ok == handlerOk
      ensures handled == old(handled) + if handlerOk then [id] else []
    {
      if handlerOk {
        handled := handled + [id];
      }
      ok := handlerOk;
    }

    method Insert(entry: ConsumedEvent, insert: Write) returns (ok: bool)
      modifies this`ledger
      ensures ok <==> insert.Written? && entry.eventId !in old(ledger)
      ensures ledger == if insert.Applied() && entry.eventId !in old(ledger)
                        then old(ledger)[entry.eventId := entry] else old(ledger)
    {
      if entry.eventId in ledger {
        return false;
      }
      if insert.Applied() {
        ledger := ledger[entry.eventId := entry];
      }
      ok := insert.Written?;
    }

    /** `ok` is false when the promise is rejected and the record will be delivered again. */
    method Process(value: MessageValue, handlerOk: bool, insert: Write) returns (ok: bool)
      modifies this
      ensures Processed(ledger, handled, ok)
           == ProcessMessage(old(ledger), old(handled), groupId, value, handlerOk, insert)
      ensures value.Tombstone? ==> ok && ledger == old(ledger) && handled == old(handled)
      ensures value.Unparseable? ==> !ok && ledger == old(ledger) && handled == old(handled)
      ensures value.Document? && ((forall id :: !HasText(value.json, "id", id)) || (forall t :: !HasText(value.json,
                                                                                                         "type", t)))
              ==> !ok && ledger == old(ledger) && handled == old(handled)
      ensures forall id, t :: value.Document? && HasText(value.json, "id", id) && HasText(value.json, "type", t) ==>
                if id in old(ledger) then ok && ledger == old(ledger) && handled == old(handled)
                else if !handlerOk then !ok && ledger == old(ledger) && handled == old(handled)
                else
                  && handled == old(handled) + [id] && (ok <==> insert.Written?)
                  && ledger == (if insert.Applied() then old(ledger)[id := ConsumedEvent(id, t, groupId)]
                                else old(ledger))
      ensures ok ==> Read(value).Ignore? || (Read(value).Accept? && Read(value).id in ledger)
      ensures handled == old(handled) ||
              (Read(value).Accept? && Read(value).id !in old(ledger) && handled == old(handled) + [Read(value).id])
    {
      ReadFields(value);
      match Read(value) {
        case Ignore => ok := true;
        case Reject => ok := false;
        case Accept(id, eventType) =>
          if id in ledger {
            return true;
          }
          ok := Handle(id, handlerOk);
          if ok {
            ok := Insert(ConsumedEvent(id, eventType, groupId), insert);
          }
      }
    }
  }
}
