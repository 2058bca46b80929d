/**
 * EventProducer: publishes an event keyed by its id to the primary topic and,
 * when that send fails, once more to the dead-letter topic.
 *
 * The broker is the sequence of records the producer has handed to its Kafka
 * template, in order. The asynchronous completion of the first send is an
 * input (`outcome`), and so is the identifier `UUID.randomUUID()` would give.
 */
module Producer {
  import opened Common
  import opened Events

  /** How the send to the primary topic completed. */
  datatype SendOutcome = Delivered | Failed(cause: Option<string>)

  /** One `kafkaTemplate.send(topic, key, event)` call. */
  datatype ProducerRecord = ProducerRecord(topic: string, key: Option<string>, value: ExampleEvent)

  /**
   * The event after the id step of `sendEvent`: a null id is replaced by the
   * fresh identifier; any other id, the empty string included, is kept. No
   * other field changes.
   */
  function AssignId(event: ExampleEvent, freshId: string): (r: ExampleEvent)
    ensures r.id.Some?
    ensures event.id.Some? ==> r.id == event.id
    ensures event.id.None? ==> r.id == Some(freshId)
    ensures r.eventType == event.eventType && r.payload == event.payload && r.timestamp == event.timestamp
  {
    if event.id.None? then event.(id := Some(freshId)) else event
  }

  /**
   * The sends one `sendEvent` of an event (whose id is already assigned)
   * makes: the primary send keyed by the id, then, only if it failed, one
   * dead-letter send with the same key and the same event.
   */
  function Sends(event: ExampleEvent, outcome: SendOutcome): (r: seq<ProducerRecord>)
    ensures 1 <= |r| <= 2
    ensures r[0] == ProducerRecord(Topic, event.id, event)
    ensures |r| == 2 <==> outcome.Failed?
    ensures |r| == 2 ==> r[1] == ProducerRecord(DlqTopic, r[0].key, r[0].value)
  {
    [ProducerRecord(Topic, event.id, event)]
      + (if outcome.Failed? then [ProducerRecord(DlqTopic, event.id, event)] else [])
  }

  class EventProducer {
    /** Every record handed to the Kafka template so far, oldest first. */
    var sent: seq<ProducerRecord>

    constructor ()
      ensures sent == []
    {
      sent := [];
    }

    /**
     * `sendEvent`. `sentEvent` is the caller's event object afterwards (the
     * source sets its id in place).
     */
    method SendEvent(event: ExampleEvent, freshId: string, outcome: SendOutcome) returns (sentEvent: ExampleEvent)
      requires IsUuidString(freshId)
      modifies this
      ensures sentEvent == AssignId(event, freshId)
      ensures sent == old(sent) + Sends(sentEvent, outcome)
    {
      sentEvent := event;
      if sentEvent.id.None? {
        sentEvent := sentEvent.(id := Some(freshId));
      }
      var key := sentEvent.id;
      sent := sent + [ProducerRecord(Topic, key, sentEvent)];
      match outcome
      case Delivered =>
      case Failed(_) =>
        SendToDlq(sentEvent);
    }

    /** `sendToDlq`: one send to the dead-letter topic, keyed by the event's id; its own outcome is not observed. */
    method SendToDlq(event: ExampleEvent)
      modifies this
      ensures sent == old(sent) + [ProducerRecord(DlqTopic, event.id, event)]
    {
      sent := sent + [ProducerRecord(DlqTopic, event.id, event)];
    }
  }

  /**
   * An event without an id is sent keyed by the generated identifier, and every
   * send (the dead-letter one included) carries that same identifier as the
   * event's id.
   */
  lemma GeneratedKeyIsUuid(event: ExampleEvent, freshId: string, outcome: SendOutcome)
    requires event.id.None? && IsUuidString(freshId)
    ensures Sends(AssignId(event, freshId), outcome)[0].key == Some(freshId)
    ensures forall r :: r in Sends(AssignId(event, freshId), outcome) ==> r.key == Some(freshId) && r.value.id == Some(freshId)
  {
  }

  /** A send failure of the primary topic sends to the dead-letter topic; a success never does. */
  lemma DeadLetterOnlyOnFailure(event: ExampleEvent, outcome: SendOutcome)
    ensures (exists i :: 0 <= i < |Sends(event, outcome)| && Sends(event, outcome)[i].topic == DlqTopic)
        <==> outcome.Failed?
  {
    var r := Sends(event, outcome);
    assert Topic != DlqTopic by { assert |Topic| != |DlqTopic|; }
    if outcome.Failed? {
      assert r[1].topic == DlqTopic;
    }
  }

  /** The test where the first send fails: a primary send, then a dead-letter send with the same key and event. */
  method SendFailureScenario(freshId: string) requires IsUuidString(freshId) {
    var producer := new EventProducer();
    var event := ExampleEvent(Some("test-id"), Some("TEST_EVENT"), Some("Test payload"), None);
    var sentEvent := producer.SendEvent(event, freshId, Failed(Some("Kafka error")));
    assert sentEvent == event;
    assert producer.sent == [ProducerRecord(Topic, Some("test-id"), event), ProducerRecord(DlqTopic, Some("test-id"), event)];
  }
}
