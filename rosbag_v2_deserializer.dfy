/**
 * The deserializer for messages read from a legacy bag. The serialized data
 * of such a message is the legacy type name, a 0 byte, and the message's
 * ROS 1 wire bytes:
 *
 *     <type name> 0 <payload>
 *
 * deserialize splits the buffer at its first 0 byte, hands the name and the
 * payload to the ROS 1 to ROS 2 converter, and stamps the produced message
 * with the time and topic of the serialized message.
 */
module RosbagV2Deserializer {
  import opened Seqs
  import opened Rosbag2Storage

  /** The legacy type name at the head of buf: the bytes before its first 0 byte. */
  function Ros1DataType(buf: seq<uint8>): (name: seq<uint8>)
    requires 0 in buf
    ensures |name| < |buf| && buf[|name|] == 0
    ensures name == buf[..|name|] && 0 !in name
  {
    buf[..IndexOf(buf, 0)]
  }

  /** Where the payload starts: just past the name's terminating 0 byte. */
  function PayloadOffset(buf: seq<uint8>): (offset: nat)
    requires 0 in buf
    ensures 0 < offset <= |buf| && buf[offset - 1] == 0
    ensures 0 !in buf[..offset - 1]
  {
    |Ros1DataType(buf)| + 1
  }

  /** How many bytes the converter is handed: the rest of the buffer after the offset. */
  function PayloadLength(buf: seq<uint8>): (length: nat)
    requires 0 in buf
    ensures PayloadOffset(buf) + length == |buf|
  {
    |buf| - PayloadOffset(buf)
  }

  /** The bytes the converter reads: PayloadLength(buf) bytes from PayloadOffset(buf) on. */
  function Payload(buf: seq<uint8>): (payload: seq<uint8>)
    requires 0 in buf
    ensures |payload| == PayloadLength(buf)
    ensures buf == Ros1DataType(buf) + [0] + payload
  {
    buf[PayloadOffset(buf)..PayloadOffset(buf) + PayloadLength(buf)]
  }

  /** A name without 0 bytes, its terminator and any payload split back into that name and payload. */
  lemma SplitRoundTrip(name: seq<uint8>, payload: seq<uint8>)
    requires 0 !in name
    ensures Ros1DataType(name + [0] + payload) == name
    ensures PayloadOffset(name + [0] + payload) == |name| + 1
    ensures Payload(name + [0] + payload) == payload
  {
    var buf := name + [0] + payload;
    assert buf[..|name|] == name;
    IndexOfUnique(buf, 0, |name|);
  }

  /**
   * The message deserialize fills in (rosbag2_introspection_message_t):
   * its receive time, its topic and the message the converter produced.
   */
  class IntrospectionMessage<M> {
    var timeStamp: int
    var topicName: string
    var message: M

    constructor (message: M)
      ensures this.message == message && timeStamp == 0 && topicName == ""
    {
      this.message := message;
      timeStamp := 0;
      topicName := "";
    }
  }

  /**
   * deserialize: the converter (convert_1_to_2) is given the legacy type
   * name and the payload split off the serialized data and produces the
   * message; the time stamp and topic name are copied over. The type
   * support handle does not take part.
   */
  method Deserialize<TS, M>(
    serializedMessage: SerializedBagMessage,
    typeSupport: TS,
    convert: (seq<uint8>, seq<uint8>) -> M,
    rosMessage: IntrospectionMessage<M>)
    requires 0 in serializedMessage.serializedData
    modifies rosMessage
    ensures rosMessage.message ==
              convert(Ros1DataType(serializedMessage.serializedData), Payload(serializedMessage.serializedData))
    ensures rosMessage.timeStamp == serializedMessage.timeStamp
    ensures rosMessage.topicName == serializedMessage.topicName
  {
    var buffer := serializedMessage.serializedData;
    var ros1DataType := Ros1DataType(buffer);
    var dataTypeZeroTerminatedLength := |ros1DataType| + 1;
    var stream := buffer[dataTypeZeroTerminatedLength..];
    rosMessage.message := convert(ros1DataType, stream);
    rosMessage.timeStamp := serializedMessage.timeStamp;
    rosMessage.topicName := serializedMessage.topicName;
  }
}
