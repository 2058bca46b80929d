/**
 * ExampleEvent, the record that travels on the topics, and the topic names the
 * producer and the consumers share.
 */
module Events {
  import opened Common

  /** The event record; every field is a Java reference and may be null. */
  datatype ExampleEvent = ExampleEvent(id: Option<string>, eventType: Option<string>, payload: Option<string>, timestamp: Option<int>)

  const Topic := "example-events"
  const DlqTopic := "example-events-dlq"
  const GroupId := "example-template-group"

  predicate IsLowerHexDigit(c: char) {
    '0' <= c <= '9' || 'a' <= c <= 'f'
  }

  /** The text `UUID.toString()` produces: 8-4-4-4-12 lower-case hex digits. */
  predicate IsUuidString(s: string) {
    && |s| == 36
    && forall i :: 0 <= i < |s| ==> if i in {8, 13, 18, 23} then s[i] == '-' else IsLowerHexDigit(s[i])
  }
}
