/**
 * The value types of the rosbag2 storage interface that the legacy-bag
 * adapter fills in: serialized messages, topic metadata, topic information
 * and bag metadata, plus the open flag.
 */
module Rosbag2Storage {

  /** One byte of a serialized buffer. */
  newtype uint8 = x: int | 0 <= x < 256

  /** The access mode a storage plugin is opened with. */
  datatype IOFlag = ReadOnly | ReadWrite | Append

  /** A message as the rosbag2 reader receives it from a storage plugin. */
  datatype SerializedBagMessage = SerializedBagMessage(
    serializedData: seq<uint8>,
    timeStamp: int,
    topicName: string)

  /** A topic, its message type and the serialization format of its messages. */
  datatype TopicMetadata = TopicMetadata(
    name: string,
    typeName: string,
    serializationFormat: string)

  /** A topic together with the number of messages recorded on it. */
  datatype TopicInformation = TopicInformation(
    topicMetadata: TopicMetadata,
    messageCount: nat)

  /** The summary of a whole bag. */
  datatype BagMetadata = BagMetadata(
    version: int,
    storageIdentifier: string,
    bagSize: nat,
    relativeFilePaths: seq<string>,
    durationNs: int,
    startingTimeNs: int,
    messageCount: nat,
    topicsWithMessageCount: seq<TopicInformation>)

  /** Sum of the message counts of a list of topic informations. */
  function TotalMessageCount(infos: seq<TopicInformation>): nat
    decreases |infos|
  {
    if |infos| == 0 then 0
    else TotalMessageCount(infos[..|infos| - 1]) + infos[|infos| - 1].messageCount
  }
}
