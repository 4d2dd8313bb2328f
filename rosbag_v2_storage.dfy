/**
 * The read-only storage plugin that replays a legacy (ROS 1) bag through
 * the rosbag2 storage interface.
 *
 * The adapter opens the bag, keeps the topics whose legacy message type has
 * a ROS 1 to ROS 2 type mapping, and walks a view of the bag restricted to
 * those topics. The metadata queries rebuild their answers from the bag on
 * every call.
 */
module RosbagV2Storage {
  import opened Seqs
  import opened Rosbag2Storage
  import opened LegacyBag

  /** The storage identifier of this plugin. */
  const IDENTIFIER: string := "rosbag_v2"

  /** The serialization format the plugin reports for every topic. */
  const SERIALIZATION_FORMAT: string := "rosbag_v2"

  /** The bag metadata version the plugin reports. */
  const METADATA_VERSION: int := 2

  datatype StorageError =
    | ConfigurationError  // the plugin was asked to open a bag for writing
    | BagIOError          // the rosbag library could not open or index the file

  datatype OpenResult = Opened | Failed(error: StorageError)

  // ---------------------------------------------------------------------
  // Specification functions: what each operation computes from the bag.
  // ---------------------------------------------------------------------

  /** The topic of every connection whose legacy type is mapped, in connection order. */
  function MappedConnectionTopics(cs: seq<Connection>, mapping: map<string, string>): seq<string>
    decreases |cs|
  {
    if |cs| == 0 then []
    else
      MappedConnectionTopics(cs[..|cs| - 1], mapping) +
      (if cs[|cs| - 1].dataType in mapping then [cs[|cs| - 1].topic] else [])
  }

  /** The topics that can be replayed: each mapped connection's topic once, in first-seen order. */
  function ReplayableTopics(cs: seq<Connection>, mapping: map<string, string>): seq<string> {
    Dedup(MappedConnectionTopics(cs, mapping))
  }

  /** One iteration of open's loop over the connections. */
  lemma ReplayableTopicsStep(cs: seq<Connection>, mapping: map<string, string>, i: nat)
    requires i < |cs|
    ensures ReplayableTopics(cs[..i + 1], mapping) ==
            if cs[i].dataType in mapping
            then AppendIfAbsent(ReplayableTopics(cs[..i], mapping), cs[i].topic)
            else ReplayableTopics(cs[..i], mapping)
  {
    var seen := MappedConnectionTopics(cs[..i], mapping);
    assert cs[..i + 1][..i] == cs[..i];
    if cs[i].dataType in mapping {
      assert MappedConnectionTopics(cs[..i + 1], mapping) == seen + [cs[i].topic];
      DedupSnoc(seen, cs[i].topic);
    } else {
      assert MappedConnectionTopics(cs[..i + 1], mapping) == seen;
    }
  }

  /** The topic metadata a connection is reported with, before type mapping. */
  function ConnectionMetadata(c: Connection): TopicMetadata {
    TopicMetadata(c.topic, c.dataType, SERIALIZATION_FORMAT)
  }

  function ConnectionsMetadata(cs: seq<Connection>): seq<TopicMetadata> {
    seq(|cs|, i requires 0 <= i < |cs| => ConnectionMetadata(cs[i]))
  }

  /** Every distinct connection metadata, in first-seen order, ROS 1 types included. */
  function TopicsAndTypesIncludingRos1(cs: seq<Connection>): seq<TopicMetadata> {
    Dedup(ConnectionsMetadata(cs))
  }

  /** One iteration of the loop of get_all_topics_and_types_including_ros1_topics. */
  lemma IncludingRos1Step(cs: seq<Connection>, i: nat)
    requires i < |cs|
    ensures TopicsAndTypesIncludingRos1(cs[..i + 1]) ==
            AppendIfAbsent(TopicsAndTypesIncludingRos1(cs[..i]), ConnectionMetadata(cs[i]))
  {
    assert ConnectionsMetadata(cs[..i + 1]) == ConnectionsMetadata(cs[..i]) + [ConnectionMetadata(cs[i])];
    DedupSnoc(ConnectionsMetadata(cs[..i]), ConnectionMetadata(cs[i]));
  }

  /** The list of all connection metadata holds no entry twice and only entries in the bag's format. */
  lemma IncludingRos1Entries(cs: seq<Connection>)
    ensures NoDuplicates(TopicsAndTypesIncludingRos1(cs))
    ensures forall e :: e in TopicsAndTypesIncludingRos1(cs) ==> e.serializationFormat == SERIALIZATION_FORMAT
  {
    DedupNoDuplicates(ConnectionsMetadata(cs));
    DedupMembership(ConnectionsMetadata(cs));
  }

  /** The entries whose type is mapped, with the type replaced by its mapped name, order kept. */
  function RenameMapped(l: seq<TopicMetadata>, mapping: map<string, string>): seq<TopicMetadata>
    decreases |l|
  {
    if |l| == 0 then []
    else
      var e := l[|l| - 1];
      RenameMapped(l[..|l| - 1], mapping) +
      (if e.typeName in mapping then [e.(typeName := mapping[e.typeName])] else [])
  }

  /** One iteration of the loop of get_all_topics_and_types. */
  lemma RenameMappedStep(l: seq<TopicMetadata>, mapping: map<string, string>, i: nat)
    requires i < |l|
    ensures RenameMapped(l[..i + 1], mapping) ==
            RenameMapped(l[..i], mapping) +
            (if l[i].typeName in mapping then [l[i].(typeName := mapping[l[i].typeName])] else [])
  {
    assert l[..i + 1][..i] == l[..i];
  }

  /** Every type RenameMapped reports is the mapped (ROS 2) name of some type. */
  lemma {:induction false} RenameMappedTypes(l: seq<TopicMetadata>, mapping: map<string, string>)
    ensures forall e :: e in RenameMapped(l, mapping) ==> e.typeName in mapping.Values
    decreases |l|
  {
    if |l| > 0 {
      RenameMappedTypes(l[..|l| - 1], mapping);
    }
  }

  /** The topics and ROS 2 types a rosbag2 reader is told about. */
  function TopicsAndTypes(cs: seq<Connection>, mapping: map<string, string>): seq<TopicMetadata> {
    RenameMapped(TopicsAndTypesIncludingRos1(cs), mapping)
  }

  /** The size of a view of the bag restricted to one topic. */
  function TopicMessageCount(b: Bag, name: string): nat {
    |View(b.messages, [name])|
  }

  function TopicInformationList(b: Bag, mapping: map<string, string>): seq<TopicInformation> {
    var tt := TopicsAndTypes(b.connections, mapping);
    seq(|tt|, i requires 0 <= i < |tt| => TopicInformation(tt[i], TopicMessageCount(b, tt[i].name)))
  }

  /** The bag metadata; bagSize and relativeFilePath are the file-system facts about the bag file. */
  function Metadata(b: Bag, mapping: map<string, string>, bagSize: nat, relativeFilePath: string): BagMetadata {
    BagMetadata(
      METADATA_VERSION,
      IDENTIFIER,
      bagSize,
      [relativeFilePath],
      b.endTimeNs - b.beginTimeNs,
      b.beginTimeNs,
      |b.messages|,
      TopicInformationList(b, mapping))
  }

  /** The message read_next hands out for a record. */
  function ToSerialized(r: MessageRecord): SerializedBagMessage {
    SerializedBagMessage(r.data, r.timeNs, r.topic)
  }

  function Replay(rs: seq<MessageRecord>): seq<SerializedBagMessage> {
    seq(|rs|, i requires 0 <= i < |rs| => ToSerialized(rs[i]))
  }

  /** get_storage_identifier: the plugin's fixed identifier. */
  function GetStorageIdentifier(): (id: string)
    ensures id == IDENTIFIER
  {
    IDENTIFIER
  }

  // ---------------------------------------------------------------------
  // The plugin object.
  // ---------------------------------------------------------------------

  class RosbagV2Storage {
    /** The ROS 1 to ROS 2 type-name mapping (get_1to2_mapping); type names not in it have none. */
    const mapping: map<string, string>

    /** The legacy bag the plugin reads (ros_v2_bag_). */
    var bag: Bag
    /** Whether open has succeeded. */
    var isOpen: bool
    /** The topics open found replayable. */
    var replayableTopics: seq<string>
    /** The records of the view of the replayable topics (bag_view_of_replayable_messages_). */
    var replayableView: seq<MessageRecord>
    /** The iterator into that view (bag_iterator_), as a position. */
    var position: nat

    ghost predicate Valid()
      reads this
    {
      isOpen ==>
        && replayableTopics == ReplayableTopics(bag.connections, mapping)
        && replayableView == View(bag.messages, replayableTopics)
        && position <= |replayableView|
    }

    /** The messages read_next has handed out since the last successful open. */
    ghost function Yielded(): seq<SerializedBagMessage>
      reads this
      requires Valid() && isOpen
    {
      Replay(replayableView[..position])
    }

    constructor (mapping: map<string, string>)
      ensures Valid() && !isOpen
      ensures this.mapping == mapping
    {
      this.mapping := mapping;
      bag := BagContents([], [], 0, 0);
      isOpen := false;
      replayableTopics := [];
      replayableView := [];
      position := 0;
    }

    /**
     * open: refuses to open for reading and writing before touching the
     * file; otherwise opens the bag (`file` is what the rosbag library reads
     * from the URI, None when it fails), collects the replayable topics and
     * positions the iterator at the start of their view.
     */
    method Open(flag: IOFlag, file: Option<Bag>) returns (result: OpenResult)
      requires Valid()
      modifies this
      ensures Valid()
      ensures flag == ReadWrite ==> result == Failed(ConfigurationError) && unchanged(this)
      ensures flag != ReadWrite && file.None? ==> result == Failed(BagIOError) && unchanged(this)
      ensures flag != ReadWrite && file.Some? ==>
                && result == Opened
                && isOpen
                && bag == file.value
                && replayableTopics == ReplayableTopics(bag.connections, mapping)
                && replayableView == View(bag.messages, replayableTopics)
                && position == 0
                && Yielded() == []
    {
      if flag == ReadWrite {
        return Failed(ConfigurationError);
      }
      if file.None? {
        return Failed(BagIOError);
      }
      var contents := file.value;
      var connections := contents.connections;
      var topics: seq<string> := [];
      var i := 0;
      while i < |connections|
        invariant i <= |connections|
        invariant topics == ReplayableTopics(connections[..i], mapping)
      {
        var connection := connections[i];
        ReplayableTopicsStep(connections, mapping, i);
        if connection.dataType in mapping {
          if connection.topic !in topics {
            topics := topics + [connection.topic];
          }
        }
        i := i + 1;
      }
      assert connections[..i] == connections;
      bag := contents;
      replayableTopics := topics;
      replayableView := View(bag.messages, replayableTopics);
      position := 0;
      isOpen := true;
      result := Opened;
    }

    /** has_next: whether the iterator has not reached the end of the view. */
    function HasNext(): (b: bool)
      reads this
      requires Valid() && isOpen
      ensures b <==> position < |replayableView|
      ensures !b ==> Yielded() == Replay(replayableView)
    {
      assert !(position < |replayableView|) ==> replayableView[..position] == replayableView;
      position != |replayableView|
    }

    /** read_next: the record under the iterator, as a rosbag2 message; the iterator moves on by one. */
    method ReadNext() returns (message: SerializedBagMessage)
      requires Valid() && isOpen && HasNext()
      modifies this`position
      ensures Valid()
      ensures message == ToSerialized(replayableView[old(position)])
      ensures message.topicName == replayableView[old(position)].topic
      ensures message.timeStamp == replayableView[old(position)].timeNs
      ensures position == old(position) + 1
      ensures Yielded() == old(Yielded()) + [message]
    {
      var record := replayableView[position];
      message := SerializedBagMessage(record.data, record.timeNs, record.topic);
      assert replayableView[..position + 1] == replayableView[..position] + [record];
      position := position + 1;
    }

    /**
     * get_all_topics_and_types_including_ros1_topics: every distinct
     * (topic, legacy type, "rosbag_v2") of the bag's connections, in
     * connection order.
     */
    method GetAllTopicsAndTypesIncludingRos1Topics() returns (topics: seq<TopicMetadata>)
      requires Valid() && isOpen
      ensures topics == TopicsAndTypesIncludingRos1(bag.connections)
      ensures NoDuplicates(topics)
      ensures forall i :: 0 <= i < |topics| ==> topics[i].serializationFormat == SERIALIZATION_FORMAT
    {
      var connections := bag.connections;
      topics := [];
      var i := 0;
      while i < |connections|
        invariant i <= |connections|
        invariant topics == TopicsAndTypesIncludingRos1(connections[..i])
      {
        var metadata := TopicMetadata(connections[i].topic, connections[i].dataType, SERIALIZATION_FORMAT);
        IncludingRos1Step(connections, i);
        if metadata !in topics {
          topics := topics + [metadata];
        }
        i := i + 1;
      }
      assert connections[..i] == connections;
      IncludingRos1Entries(connections);
    }

    /**
     * get_all_topics_and_types: the entries of the list above whose legacy
     * type is mapped, each with its type renamed to the ROS 2 name.
     */
    method GetAllTopicsAndTypes() returns (topics: seq<TopicMetadata>)
      requires Valid() && isOpen
      ensures topics == TopicsAndTypes(bag.connections, mapping)
      ensures forall i :: 0 <= i < |topics| ==> topics[i].typeName in mapping.Values
    {
      var including := GetAllTopicsAndTypesIncludingRos1Topics();
      topics := [];
      var i := 0;
      while i < |including|
        invariant i <= |including|
        invariant topics == RenameMapped(including[..i], mapping)
      {
        var entry := including[i];
        RenameMappedStep(including, mapping, i);
        if entry.typeName in mapping {
          topics := topics + [entry.(typeName := mapping[entry.typeName])];
        }
        i := i + 1;
      }
      assert including[..i] == including;
      RenameMappedTypes(including, mapping);
    }

    /**
     * get_topic_information: for each entry of get_all_topics_and_types, in
     * order, the number of records of a view restricted to its topic.
     */
    method GetTopicInformation() returns (information: seq<TopicInformation>)
      requires Valid() && isOpen
      ensures information == TopicInformationList(bag, mapping)
      ensures |information| == |TopicsAndTypes(bag.connections, mapping)|
      ensures forall i :: 0 <= i < |information| ==>
                && information[i].topicMetadata == TopicsAndTypes(bag.connections, mapping)[i]
                && information[i].messageCount == |View(bag.messages, [information[i].topicMetadata.name])|
    {
      var topics := GetAllTopicsAndTypes();
      information := [];
      var i := 0;
      while i < |topics|
        invariant i <= |topics|
        invariant |information| == i
        invariant forall j :: 0 <= j < i ==>
                    information[j] == TopicInformation(topics[j], TopicMessageCount(bag, topics[j].name))
      {
        var count := |View(bag.messages, [topics[i].name])|;
        information := information + [TopicInformation(topics[i], count)];
        i := i + 1;
      }
    }

    /**
     * get_metadata: version, identifier, duration, start time and message
     * count of the whole, unfiltered bag, with the topic information of the
     * mapped topics only.
     */
    method GetMetadata(bagSize: nat, relativeFilePath: string) returns (metadata: BagMetadata)
      requires Valid() && isOpen
      ensures metadata == Metadata(bag, mapping, bagSize, relativeFilePath)
      ensures metadata.version == 2 && metadata.storageIdentifier == "rosbag_v2"
      ensures metadata.messageCount == |bag.messages|
      ensures metadata.startingTimeNs == bag.beginTimeNs
      ensures metadata.durationNs == bag.endTimeNs - bag.beginTimeNs
      ensures metadata.topicsWithMessageCount == TopicInformationList(bag, mapping)
    {
      var information := GetTopicInformation();
      metadata := BagMetadata(
        METADATA_VERSION,
        GetStorageIdentifier(),
        bagSize,
        [relativeFilePath],
        bag.endTimeNs - bag.beginTimeNs,
        bag.beginTimeNs,
        |bag.messages|,
        information);
    }
  }

  datatype Option<T> = None | Some(value: T)
}
