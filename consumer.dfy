/**
 * EventConsumer and DlqHandler: the listeners and the acknowledgement of each
 * message they receive.
 *
 * A listener leaves each message Acknowledged (it called `acknowledge()`) or
 * Unacknowledged (it did not). A ghost history of the order in which the
 * consumer processed and acknowledged messages lets "acknowledged only after
 * processing" be stated.
 */
module Consumer {
  import opened Common
  import opened Events

  /** The `Acknowledgment` handed with one message; `count` is the number of `acknowledge()` calls on it. */
  class Acknowledgment {
    var count: nat

    constructor ()
      ensures count == 0
    {
      count := 0;
    }

    method Acknowledge()
      modifies this
      ensures count == old(count) + 1
    {
      count := count + 1;
    }
  }

  /** How a listener leaves a received message. */
  datatype Delivery = Acknowledged | Unacknowledged

  /** How the processing step inside `consume`'s try block ended. */
  datatype ProcessOutcome = Completed | Threw(message: Option<string>)

  /** What the consumer did, in order. */
  datatype Step = Processed(key: Option<string>) | ProcessingFailed(key: Option<string>) | Acked(topic: string, key: Option<string>)

  /**
   * `processEvent`: the business step, which as written only logs. It always
   * completes and changes no state, so applying it again to a redelivered
   * event is harmless.
   */
  function ProcessEvent(event: ExampleEvent): (r: ProcessOutcome)
    ensures r.Completed?
  {
    Completed
  }

  /** Every acknowledgement on the primary topic immediately follows the successful processing of the same key. */
  ghost predicate AcksFollowProcessing(steps: seq<Step>) {
    forall i :: 0 <= i < |steps| && steps[i].Acked? && steps[i].topic == Topic ==>
      0 < i && steps[i - 1] == Processed(steps[i].key)
  }

  /** The number of acknowledgements on the primary topic. */
  function PrimaryAcks(steps: seq<Step>): nat {
    if steps == [] then 0
    else PrimaryAcks(steps[..|steps| - 1]) + (if steps[|steps| - 1] == Acked(Topic, steps[|steps| - 1].key) then 1 else 0)
  }

  /** The number of successful processings. */
  function Processings(steps: seq<Step>): nat {
    if steps == [] then 0
    else Processings(steps[..|steps| - 1]) + (if steps[|steps| - 1].Processed? then 1 else 0)
  }

  lemma AcksFollowProcessingPrefix(steps: seq<Step>, n: nat)
    requires n <= |steps| && AcksFollowProcessing(steps)
    ensures AcksFollowProcessing(steps[..n])
  {
    forall i | 0 <= i < n && steps[..n][i].Acked? && steps[..n][i].topic == Topic
      ensures 0 < i && steps[..n][i - 1] == Processed(steps[..n][i].key)
    {
      assert steps[..n][i] == steps[i];
    }
  }

  /** The consumer never acknowledges more primary messages than it has processed. */
  lemma {:induction false} AcksNeverExceedProcessings(steps: seq<Step>)
    requires AcksFollowProcessing(steps)
    ensures PrimaryAcks(steps) <= Processings(steps)
    decreases |steps|
  {
    if steps != [] {
      var n := |steps|;
      var last := steps[n - 1];
      if last == Acked(Topic, last.key) {
        assert steps[n - 2] == Processed(last.key);
        var p := steps[..n - 2];
        assert steps[..n - 1][..n - 2] == p;
        AcksFollowProcessingPrefix(steps, n - 2);
        AcksNeverExceedProcessings(p);
      } else {
        AcksFollowProcessingPrefix(steps, n - 1);
        AcksNeverExceedProcessings(steps[..n - 1]);
      }
    }
  }

  class EventConsumer {
    /** What this consumer has done, oldest first (proof state only). */
    ghost var steps: seq<Step>

    ghost predicate Valid()
      reads this
    {
      AcksFollowProcessing(steps)
    }

    constructor ()
      ensures Valid() && steps == []
    {
      steps := [];
    }

    /**
     * `consume` on the primary topic. `processing` is how the try block's
     * processing ended: `ProcessEvent` as written always completes, the
     * other case stands for an exception escaping it. The message is
     * acknowledged exactly once when processing completed, after it; an
     * exception is swallowed and the message left unacknowledged.
     */
    method Consume(event: ExampleEvent, key: Option<string>, ack: Acknowledgment, processing: ProcessOutcome)
      returns (d: Delivery)
      requires Valid()
      modifies this, ack
      ensures Valid()
      ensures d == (if processing.Completed? then Acknowledged else Unacknowledged)
      ensures ack.count == old(ack.count) + (if d == Acknowledged then 1 else 0)
      ensures steps == old(steps) + (if processing.Completed? then [Processed(key), Acked(Topic, key)] else [ProcessingFailed(key)])
    {
      if processing.Completed? {
        steps := steps + [Processed(key)];
        ack.Acknowledge();
        steps := steps + [Acked(Topic, key)];
        d := Acknowledged;
      } else {
        steps := steps + [ProcessingFailed(key)];
        d := Unacknowledged;
      }
    }

    /** `consumeDlq`: every dead-letter message is acknowledged exactly once, unconditionally. */
    method ConsumeDlq(event: ExampleEvent, key: Option<string>, ack: Acknowledgment) returns (d: Delivery)
      requires Valid()
      modifies this, ack
      ensures Valid()
      ensures d == Acknowledged && ack.count == old(ack.count) + 1
      ensures steps == old(steps) + [Acked(DlqTopic, key)]
    {
      ack.Acknowledge();
      steps := steps + [Acked(DlqTopic, key)];
      d := Acknowledged;
      assert Topic != DlqTopic by { assert |Topic| != |DlqTopic|; }
    }
  }

  /**
   * DlqHandler holds no collaborators: it can send nothing and reprocess
   * nothing, and only the message's acknowledgment is modified.
   */
  class DlqHandler {
    constructor ()
    {
    }

    /** `handleDlqMessage`: acknowledges once, whatever the event, key and timestamp. */
    method HandleDlqMessage(event: ExampleEvent, key: Option<string>, timestamp: int, ack: Acknowledgment) returns (d: Delivery)
      modifies ack
      ensures d == Acknowledged && ack.count == old(ack.count) + 1
    {
      ack.Acknowledge();
      d := Acknowledged;
    }
  }

  /** A message consumed with the shipped processing step is acknowledged exactly once. */
  method ConsumeWithShippedProcessing(consumer: EventConsumer, event: ExampleEvent, key: Option<string>)
    returns (d: Delivery, ack: Acknowledgment)
    requires consumer.Valid()
    modifies consumer
    ensures consumer.Valid()
    ensures d == Acknowledged && ack.count == 1
  {
    ack := new Acknowledgment();
    d := consumer.Consume(event, key, ack, ProcessEvent(event));
  }
}
