# rosbag2_bag_v2 in Dafny

A model of the two pieces of logic that let a rosbag2 reader replay a legacy
ROS 1 bag: the read-only storage plugin `RosbagV2Storage` and the payload
splitter of `RosbagV2Deserializer::deserialize`.

The storage plugin is a class, `RosbagV2Storage.RosbagV2Storage`. Its
fields are the opened bag, the replayable-topic list, the records of the
view over those topics, and the iterator position into that view.
- `Open` rejects `READ_WRITE` before anything happens.
- Otherwise `Open` loops over the bag's connections, collects every topic
  that has a connection with a mapped legacy type, once each, in first-seen
  order. It then builds the view and puts the iterator at its start.
- `HasNext` and `ReadNext` walk that view.
- The metadata queries are loops over the bag's connections and topics. Like
  the source, they rebuild their answers from the bag on every call.
- `GetMetadata` takes count, start time and duration from the whole bag.
  It takes the topic list and per-topic counts from the mapped topics only.

Each method is specified by a function of the bag (`ReplayableTopics`,
`TopicsAndTypesIncludingRos1`, `TopicsAndTypes`, `TopicInformationList`,
`Metadata`). The module `RosbagV2StorageProperties` proves what those
functions mean, in terms of the bag's connections and records.

The legacy bag (module `LegacyBag`) is abstract. It holds connection
records `(topic, type)`, time-ordered message records
`(topic, time in ns, type, bytes)`, and the bag's begin and end time. A
rosbag view over a topic query is `View`: the records whose topic is
queried, in bag order. The ROS 1 to ROS 2 type mapping (`get_1to2_mapping`) is
the class's constant `mapping: map<string, string>`.

The deserializer (module `RosbagV2Deserializer`) splits a buffer
`name ++ [0] ++ payload` at its first 0 byte. It hands the name and the
payload to the converter, which is a function parameter. It then copies the
time stamp and topic name onto an `IntrospectionMessage` object. Its type is
generic, so the type-support handle cannot take part.

Where the source's behaviour differs from what one might expect, the model
follows the code:
- `get_all_topics_and_types_including_ros1_topics` drops an entry only when
  name, type and serialization format are all equal. It does not drop by
  name alone.
- A topic recorded with two mapped legacy types is therefore listed twice. Each
  of its entries counts every record of the topic, so the per-topic counts can
  add up to more than the bag's message count
  (`TopicWithTwoTypesCountedTwice`). With one type per topic they add up to
  the size of the replayable view (`TopicCountsAddUpToReplayableView`).
- The replayable view filters by topic, not by type. A record of an unmapped
  type on a topic that also has a mapped connection is replayed
  (`MixedTopicReplaysUnmappedType`).
- `deserialize` does not check for a missing terminator or an empty payload.
  The model requires a 0 byte in the buffer and lets the payload be empty.

## Model

| member | source | states |
|---|---|---|
| RosbagV2Storage.RosbagV2Storage.constructor | rosbag2_bag_v2_plugins/src/rosbag2_bag_v2_plugins/storage/rosbag_v2_storage.cpp:42-43 | a new plugin is not open and keeps the given type mapping |
| RosbagV2Storage.RosbagV2Storage.Open | rosbag2_bag_v2_plugins/src/rosbag2_bag_v2_plugins/storage/rosbag_v2_storage.cpp:50-78 | READ_WRITE fails with a configuration error and changes nothing; a library failure to open changes nothing; otherwise the bag is stored, the replayable topics are those of ReplayableTopics, the view is the bag's records on exactly those topics, and nothing has been read yet |
| RosbagV2Storage.ReplayableTopicsStep | rosbag2_bag_v2_plugins/src/rosbag2_bag_v2_plugins/storage/rosbag_v2_storage.cpp:62-73 | one loop iteration of open: a connection with a mapped type adds its topic unless already listed; an unmapped one adds nothing |
| RosbagV2Storage.IncludingRos1Step | rosbag2_bag_v2_plugins/src/rosbag2_bag_v2_plugins/storage/rosbag_v2_storage.cpp:174-185 | one loop iteration of get_all_topics_and_types_including_ros1_topics: the connection's (topic, type, "rosbag_v2") is pushed unless an equal entry is already listed |
| RosbagV2Storage.IncludingRos1Entries | rosbag2_bag_v2_plugins/src/rosbag2_bag_v2_plugins/storage/rosbag_v2_storage.cpp:167-188 | the including-ROS-1 list holds no entry twice, and every entry has serialization format "rosbag_v2" |
| RosbagV2Storage.RenameMappedStep | rosbag2_bag_v2_plugins/src/rosbag2_bag_v2_plugins/storage/rosbag_v2_storage.cpp:105-111 | one loop iteration of get_all_topics_and_types: an entry with a mapped type is pushed with its type renamed; any other entry is skipped |
| RosbagV2Storage.RenameMappedTypes | rosbag2_bag_v2_plugins/src/rosbag2_bag_v2_plugins/storage/rosbag_v2_storage.cpp:105-111 | every type get_all_topics_and_types reports is the mapped name of some legacy type |
| RosbagV2Storage.RosbagV2Storage.HasNext | rosbag2_bag_v2_plugins/src/rosbag2_bag_v2_plugins/storage/rosbag_v2_storage.cpp:80-83 | true iff the iterator is before the end of the view; reads only; when false, the messages read so far are the whole view |
| RosbagV2Storage.RosbagV2Storage.ReadNext | rosbag2_bag_v2_plugins/src/rosbag2_bag_v2_plugins/storage/rosbag_v2_storage.cpp:85-98 | returns the record under the iterator with its topic, time in ns and bytes, advances the iterator by exactly one, and appends that message to the messages read so far |
| RosbagV2Storage.RosbagV2Storage.GetAllTopicsAndTypes | rosbag2_bag_v2_plugins/src/rosbag2_bag_v2_plugins/storage/rosbag_v2_storage.cpp:100-114 | returns the mapped-type entries of the including-ROS-1 list with types renamed; every returned type is a mapped (ROS 2) name |
| RosbagV2Storage.GetStorageIdentifier | rosbag2_bag_v2_plugins/src/rosbag2_bag_v2_plugins/storage/rosbag_v2_storage.cpp:116-119 | the identifier is the constant "rosbag_v2" |
| RosbagV2Storage.RosbagV2Storage.GetMetadata | rosbag2_bag_v2_plugins/src/rosbag2_bag_v2_plugins/storage/rosbag_v2_storage.cpp:131-148 | version 2, identifier "rosbag_v2", message count of the whole bag, start time = bag begin time, duration = end − begin, topic information of the mapped topics; size and file path are passed in |
| RosbagV2Storage.RosbagV2Storage.GetTopicInformation | rosbag2_bag_v2_plugins/src/rosbag2_bag_v2_plugins/storage/rosbag_v2_storage.cpp:150-165 | one entry per element of get_all_topics_and_types, same order, each counting the records of a view on its topic alone |
| RosbagV2Storage.RosbagV2Storage.GetAllTopicsAndTypesIncludingRos1Topics | rosbag2_bag_v2_plugins/src/rosbag2_bag_v2_plugins/storage/rosbag_v2_storage.cpp:167-188 | the distinct connection metadata in connection order; no two entries equal; every serialization format is "rosbag_v2" |
| RosbagV2StorageProperties.MappedConnectionTopicsMembership | rosbag2_bag_v2_plugins/src/rosbag2_bag_v2_plugins/storage/rosbag_v2_storage.cpp:62-64 | a topic is among the mapped connections' topics iff some connection on it has a mapped type |
| RosbagV2StorageProperties.MappedConnectionTopicsPrefix | rosbag2_bag_v2_plugins/src/rosbag2_bag_v2_plugins/storage/rosbag_v2_storage.cpp:62-73 | the mapped topics of the first n connections are a prefix of those of all connections |
| RosbagV2StorageProperties.ReplayableTopicsMembership | rosbag2_bag_v2_plugins/src/rosbag2_bag_v2_plugins/storage/rosbag_v2_storage.cpp:62-73 | a topic is replayable iff at least one of its connections has a mapped type |
| RosbagV2StorageProperties.ReplayableTopicsUnique | rosbag2_bag_v2_plugins/src/rosbag2_bag_v2_plugins/storage/rosbag_v2_storage.cpp:65-67 | the replayable-topic list has no duplicates |
| RosbagV2StorageProperties.ReplayableTopicsFirstSeenOrder | rosbag2_bag_v2_plugins/src/rosbag2_bag_v2_plugins/storage/rosbag_v2_storage.cpp:62-73 | topics appear in first-seen order: the list built from the first n connections is a prefix of the full list |
| RosbagV2StorageProperties.IncludingRos1Characterization | rosbag2_bag_v2_plugins/src/rosbag2_bag_v2_plugins/storage/rosbag_v2_storage.cpp:174-185 | an entry is listed iff it is some connection's (topic, type, "rosbag_v2"); the list for a prefix of the connections is a prefix of the full list |
| RosbagV2StorageProperties.RenameMappedSubsequence | rosbag2_bag_v2_plugins/src/rosbag2_bag_v2_plugins/storage/rosbag_v2_storage.cpp:105-111 | the result is, in order, exactly the entries whose type is mapped, each with its type replaced by the mapped name; unmapped entries never appear |
| RosbagV2StorageProperties.RenameMappedWithoutMapping | rosbag2_bag_v2_plugins/src/rosbag2_bag_v2_plugins/storage/rosbag_v2_storage.cpp:105-111 | with an empty mapping nothing is listed |
| RosbagV2StorageProperties.TopicsAndTypesFromConnections | rosbag2_bag_v2_plugins/src/rosbag2_bag_v2_plugins/storage/rosbag_v2_storage.cpp:100-114 | every listed entry is (topic, mapped type, "rosbag_v2") of a connection with a mapped type, and every such connection is listed |
| RosbagV2StorageProperties.TopicsAndTypesNamesAreReplayable | rosbag2_bag_v2_plugins/src/rosbag2_bag_v2_plugins/storage/rosbag_v2_storage.cpp:100-114 | the topics of get_all_topics_and_types are exactly the replayable topics of open |
| RosbagV2StorageProperties.TopicsAndTypesNamesUnique | rosbag2_bag_v2_plugins/src/rosbag2_bag_v2_plugins/storage/rosbag_v2_storage.cpp:174-185 | with one legacy type per topic, each topic is listed once |
| RosbagV2StorageProperties.TotalIsSumOfTopicCounts | rosbag2_bag_v2_plugins/src/rosbag2_bag_v2_plugins/storage/rosbag_v2_storage.cpp:155-162 | the total of the per-topic counts is the sum of the single-topic view sizes |
| RosbagV2StorageProperties.TopicCountsAddUpToReplayableView | rosbag2_bag_v2_plugins/src/rosbag2_bag_v2_plugins/storage/rosbag_v2_storage.cpp:131-165 | with one legacy type per topic, the per-topic counts add up to the replayable view's size, which is at most the metadata's total message count |
| RosbagV2StorageProperties.AllMappedReplaysWholeBag | rosbag2_bag_v2_plugins/src/rosbag2_bag_v2_plugins/storage/rosbag_v2_storage.cpp:75-76 | if every connection's type is mapped, the replayable view is the whole bag |
| RosbagV2StorageProperties.UnmappedTopicShrinksView | rosbag2_bag_v2_plugins/src/rosbag2_bag_v2_plugins/storage/rosbag_v2_storage.cpp:68-76 | a record on a topic with no mapped connection is never replayed, and the replayable view is then strictly smaller than the bag |
| RosbagV2StorageProperties.MetadataWithoutMapping | rosbag2_bag_v2_plugins/src/rosbag2_bag_v2_plugins/storage/rosbag_v2_storage.cpp:131-148 | with no mapping, no topic is listed, yet count, start time and duration still describe the whole, unfiltered bag |
| RosbagV2StorageProperties.ReplayedMessages | rosbag2_bag_v2_plugins/src/rosbag2_bag_v2_plugins/storage/rosbag_v2_storage.cpp:75-97 | a full replay yields one message per view record, each on a replayable topic with a mapped connection, in time order, within the bag's begin and end time |
| RosbagV2StorageProperties.OneOfTwoTopicsMapped | rosbag2_bag_v2_plugins/src/rosbag2_bag_v2_plugins/storage/rosbag_v2_storage.cpp:60-76 | connections (/a, pkg/TypeX), (/b, pkg/TypeY) with only pkg/TypeX mapped: only (/a, pkg2/TypeX2) is listed, only /a is replayable, and no /b record is replayed |
| RosbagV2StorageProperties.TopicWithTwoTypesCountedTwice | rosbag2_bag_v2_plugins/src/rosbag2_bag_v2_plugins/storage/rosbag_v2_storage.cpp:150-165 | a topic with two mapped types and one record: the per-topic counts add up to 2 while the bag's message count is 1 |
| RosbagV2StorageProperties.MixedTopicReplaysUnmappedType | rosbag2_bag_v2_plugins/src/rosbag2_bag_v2_plugins/storage/rosbag_v2_storage.cpp:75-76 | a record of an unmapped type on a topic with a mapped connection is in the replayable view |
| LegacyBag.ViewSubsequence | rosbag2_bag_v2_plugins/src/rosbag2_bag_v2_plugins/storage/rosbag_v2_storage.cpp:75-76 | a topic-query view is exactly the in-order subsequence of records whose topic is queried |
| LegacyBag.ViewMembership | rosbag2_bag_v2_plugins/src/rosbag2_bag_v2_plugins/storage/rosbag_v2_storage.cpp:75-76 | a record is in a view iff it is in the bag and its topic is queried |
| LegacyBag.ViewTimeOrdered | rosbag2_bag_v2_plugins/src/rosbag2_bag_v2_plugins/storage/rosbag_v2_storage.cpp:75-77 | a view of time-ordered records is time-ordered |
| LegacyBag.ViewSameTopics | rosbag2_bag_v2_plugins/src/rosbag2_bag_v2_plugins/storage/rosbag_v2_storage.cpp:157-159 | a view depends only on the set of queried topics |
| LegacyBag.ViewOfAllTopics | rosbag2_bag_v2_plugins/src/rosbag2_bag_v2_plugins/storage/rosbag_v2_storage.cpp:75-76 | a view querying every record's topic holds the whole bag |
| LegacyBag.ViewSize | rosbag2_bag_v2_plugins/src/rosbag2_bag_v2_plugins/storage/rosbag_v2_storage.cpp:144-159 | a view is no larger than the bag, and strictly smaller when it drops a record |
| LegacyBag.SumOfTopicCountsSnoc | rosbag2_bag_v2_plugins/src/rosbag2_bag_v2_plugins/storage/rosbag_v2_storage.cpp:155-162 | one more record raises the sum of counts over distinct topics by one exactly when its topic is listed |
| LegacyBag.SumOfTopicCountsIsViewSize | rosbag2_bag_v2_plugins/src/rosbag2_bag_v2_plugins/storage/rosbag_v2_storage.cpp:155-162 | the single-topic view sizes of distinct topics add up to the size of one view over all of them |
| Seqs.DedupMembership | rosbag2_bag_v2_plugins/src/rosbag2_bag_v2_plugins/storage/rosbag_v2_storage.cpp:65-67 | the push-unless-present loop keeps every element and adds nothing else |
| Seqs.DedupNoDuplicates | rosbag2_bag_v2_plugins/src/rosbag2_bag_v2_plugins/storage/rosbag_v2_storage.cpp:180-184 | the push-unless-present loop yields no duplicates |
| Seqs.DedupPrefix | rosbag2_bag_v2_plugins/src/rosbag2_bag_v2_plugins/storage/rosbag_v2_storage.cpp:62-73 | de-duplicating a prefix yields a prefix, so first-seen order is kept |
| Seqs.IndexOf | rosbag2_bag_v2_plugins/src/rosbag2_bag_v2_plugins/converter/rosbag_v2_deserializer.cpp:41-42 | the first position holding the element: it holds it and no earlier one does |
| Seqs.IndexOfUnique | rosbag2_bag_v2_plugins/src/rosbag2_bag_v2_plugins/converter/rosbag_v2_deserializer.cpp:41-42 | that first position is unique |
| RosbagV2Deserializer.Ros1DataType | rosbag2_bag_v2_plugins/src/rosbag2_bag_v2_plugins/converter/rosbag_v2_deserializer.cpp:41-42 | the type name is the bytes before the first 0 byte, followed by that 0 byte, and contains no 0 byte |
| RosbagV2Deserializer.PayloadOffset | rosbag2_bag_v2_plugins/src/rosbag2_bag_v2_plugins/converter/rosbag_v2_deserializer.cpp:44 | the offset is name length + 1, just past the terminating 0 byte |
| RosbagV2Deserializer.PayloadLength | rosbag2_bag_v2_plugins/src/rosbag2_bag_v2_plugins/converter/rosbag_v2_deserializer.cpp:44-47 | offset + payload length = buffer length |
| RosbagV2Deserializer.Payload | rosbag2_bag_v2_plugins/src/rosbag2_bag_v2_plugins/converter/rosbag_v2_deserializer.cpp:45-47 | the payload has that length and name ++ [0] ++ payload is the buffer |
| RosbagV2Deserializer.SplitRoundTrip | rosbag2_bag_v2_plugins/src/rosbag2_bag_v2_plugins/converter/rosbag_v2_deserializer.cpp:38-47 | for a name without 0 bytes and any payload p, splitting name ++ [0] ++ p gives back exactly name, offset name length + 1, and p |
| RosbagV2Deserializer.Deserialize | rosbag2_bag_v2_plugins/src/rosbag2_bag_v2_plugins/converter/rosbag_v2_deserializer.cpp:31-54 | the output message is what the converter makes of the split name and payload, with the input's time stamp and topic name; the type support does not appear |

## Left out

- The rosbag library (`rosbag::Bag::open`, `View`, `TopicQuery`,
  `getConnections`, begin and end time, `size`) is file parsing in a
  foreign library. The bag is abstract data, and a view is `View`, a filter
  over its records. What the library guarantees is the subtype `Bag`:
  records in time order, begin time ≤ end time, begin and end equal to the
  first and last record's time when there are records, and every record on
  a connection of the bag. The begin ≤ end part is an assumption for an
  empty bag.
- The library's I/O failure in `open` is the `None` case of the `file`
  parameter. What the library leaves in its own bag object after such a
  failure is not modelled.
- `get_1to2_mapping` is the constant map `mapping`.
  `vector_has_already_element` is sequence membership. `TopicMetadata`
  equality compares name, type and serialization format.
- The flag enumeration belongs to the rosbag2 storage interface, which is
  not part of this model. It is modelled with the values READ_ONLY,
  READ_WRITE and APPEND. The code rejects only READ_WRITE.
- `convert_1_to_2`, the schema-driven field codec, is the function parameter
  `convert`. Its decode errors are not modelled.
- `RosbagOutputStream` and `message_instance.write` in `read_next`: the
  serialized data `read_next` returns is the record's bytes, taken as given.
- `get_bagfile_size` and `get_relative_file_path` are file-system calls.
  Their values are parameters of `GetMetadata`.
- The destructor's `close` is left out as resource handling. The log
  message for an unmapped type and the plugin registration macros are left
  out too.
- `ros::Time::toNSec`: times are natural-number nanoseconds. The
  conversion to the signed 64-bit `time_stamp` and the unsigned subtraction
  in the duration are not modelled as wrapping: with begin ≤ end and times
  below 2^63 neither wrap.
- RosbagV2Storage.RosbagV2Storage.HasNext, ReadNext and the metadata queries
  require a successful `Open`. Before `open`, `has_next` and `read_next`
  dereference a null view, and the queries read a bag that is not open.
  The model does not give those calls a meaning.
- RosbagV2Storage.RosbagV2Storage.ReadNext requires HasNext(). Dereferencing
  the end iterator is undefined in the source.
