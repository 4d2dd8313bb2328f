/**
 * What the storage plugin's answers mean: the replayable topics, the topic
 * listings, the per-topic counts and the bag metadata, related to the
 * connections and records of the bag.
 */
module RosbagV2StorageProperties {
  import opened Seqs
  import opened Rosbag2Storage
  import opened LegacyBag
  import opened RosbagV2Storage

  /** Some connection publishes topic t with a legacy type the mapping knows. */
  ghost predicate HasMappedConnection(cs: seq<Connection>, mapping: map<string, string>, t: string) {
    exists k :: 0 <= k < |cs| && cs[k].topic == t && cs[k].dataType in mapping
  }

  /** Every topic of the bag is published with one legacy type only. */
  ghost predicate SingleTypePerTopic(cs: seq<Connection>) {
    forall i, j :: 0 <= i < |cs| && 0 <= j < |cs| && cs[i].topic == cs[j].topic ==>
      cs[i].dataType == cs[j].dataType
  }

  function TopicNames(l: seq<TopicMetadata>): seq<string> {
    seq(|l|, i requires 0 <= i < |l| => l[i].name)
  }

  // ---------------------------------------------------------------------
  // open: the replayable topics
  // ---------------------------------------------------------------------

  lemma {:induction false} MappedConnectionTopicsMembership(cs: seq<Connection>, mapping: map<string, string>)
    ensures forall t :: t in MappedConnectionTopics(cs, mapping) <==> HasMappedConnection(cs, mapping, t)
    decreases |cs|
  {
    if |cs| > 0 {
      var p := cs[..|cs| - 1];
      MappedConnectionTopicsMembership(p, mapping);
      forall t
        ensures t in MappedConnectionTopics(cs, mapping) <==> HasMappedConnection(cs, mapping, t)
      {
        if HasMappedConnection(cs, mapping, t) {
          var k :| 0 <= k < |cs| && cs[k].topic == t && cs[k].dataType in mapping;
          if k < |p| {
            assert p[k] == cs[k];
            assert HasMappedConnection(p, mapping, t);
          }
        }
        if HasMappedConnection(p, mapping, t) {
          var k :| 0 <= k < |p| && p[k].topic == t && p[k].dataType in mapping;
          assert cs[k] == p[k];
        }
      }
    }
  }

  lemma {:induction false} MappedConnectionTopicsPrefix(cs: seq<Connection>, mapping: map<string, string>, n: nat)
    requires n <= |cs|
    ensures MappedConnectionTopics(cs[..n], mapping) <= MappedConnectionTopics(cs, mapping)
    decreases |cs| - n
  {
    if n < |cs| {
      var p := cs[..|cs| - 1];
      assert p[..n] == cs[..n];
      MappedConnectionTopicsPrefix(p, mapping, n);
    } else {
      assert cs[..n] == cs;
    }
  }

  /** open's topic list holds a topic exactly when one of its connections has a mapped type. */
  lemma ReplayableTopicsMembership(cs: seq<Connection>, mapping: map<string, string>)
    ensures forall t :: t in ReplayableTopics(cs, mapping) <==> HasMappedConnection(cs, mapping, t)
  {
    DedupMembership(MappedConnectionTopics(cs, mapping));
    MappedConnectionTopicsMembership(cs, mapping);
  }

  /** open's topic list names each topic once. */
  lemma ReplayableTopicsUnique(cs: seq<Connection>, mapping: map<string, string>)
    ensures NoDuplicates(ReplayableTopics(cs, mapping))
  {
    DedupNoDuplicates(MappedConnectionTopics(cs, mapping));
  }

  /**
   * open's topic list is in first-seen order: the list built from the first
   * n connections is a prefix of the list built from all of them, so a topic
   * first seen earlier is listed earlier.
   */
  lemma ReplayableTopicsFirstSeenOrder(cs: seq<Connection>, mapping: map<string, string>, n: nat)
    requires n <= |cs|
    ensures ReplayableTopics(cs[..n], mapping) <= ReplayableTopics(cs, mapping)
  {
    var all := MappedConnectionTopics(cs, mapping);
    var some := MappedConnectionTopics(cs[..n], mapping);
    MappedConnectionTopicsPrefix(cs, mapping, n);
    assert some == all[..|some|];
    DedupPrefix(all, |some|);
  }

  // ---------------------------------------------------------------------
  // get_all_topics_and_types_including_ros1_topics
  // ---------------------------------------------------------------------

  /** The list holds exactly the metadata of the bag's connections, in first-seen order. */
  lemma IncludingRos1Characterization(cs: seq<Connection>, n: nat)
    requires n <= |cs|
    ensures forall e :: e in TopicsAndTypesIncludingRos1(cs) <==>
              exists k :: 0 <= k < |cs| && ConnectionMetadata(cs[k]) == e
    ensures TopicsAndTypesIncludingRos1(cs[..n]) <= TopicsAndTypesIncludingRos1(cs)
  {
    var all := ConnectionsMetadata(cs);
    DedupMembership(all);
    forall e ensures e in all <==> exists k :: 0 <= k < |cs| && ConnectionMetadata(cs[k]) == e {
      if e in all {
        var k :| 0 <= k < |all| && all[k] == e;
        assert ConnectionMetadata(cs[k]) == e;
      }
      if exists k :: 0 <= k < |cs| && ConnectionMetadata(cs[k]) == e {
        var k :| 0 <= k < |cs| && ConnectionMetadata(cs[k]) == e;
        assert all[k] == e;
      }
    }
    assert ConnectionsMetadata(cs[..n]) == all[..n];
    DedupPrefix(all, n);
  }

  // ---------------------------------------------------------------------
  // get_all_topics_and_types
  // ---------------------------------------------------------------------

  /**
   * RenameMapped keeps, in order, exactly the entries whose type is mapped:
   * idx gives their positions in l, and each kept entry has its type
   * replaced by the mapped name.
   */
  lemma {:induction false} RenameMappedSubsequence(l: seq<TopicMetadata>, mapping: map<string, string>)
    returns (idx: seq<nat>)
    ensures |idx| == |RenameMapped(l, mapping)| && Increasing(idx)
    ensures forall i :: 0 <= i < |idx| ==>
              && idx[i] < |l|
              && l[idx[i]].typeName in mapping
              && RenameMapped(l, mapping)[i] == l[idx[i]].(typeName := mapping[l[idx[i]].typeName])
    ensures forall k :: 0 <= k < |l| && l[k].typeName in mapping ==> k in idx
    decreases |l|
  {
    if |l| == 0 {
      idx := [];
    } else {
      var p := l[..|l| - 1];
      var e := l[|l| - 1];
      var pidx := RenameMappedSubsequence(p, mapping);
      var r, rp := RenameMapped(l, mapping), RenameMapped(p, mapping);
      if e.typeName in mapping {
        assert r == rp + [e.(typeName := mapping[e.typeName])];
        idx := pidx + [|p|];
        forall i | 0 <= i < |idx|
          ensures idx[i] < |l| && l[idx[i]].typeName in mapping
          ensures r[i] == l[idx[i]].(typeName := mapping[l[idx[i]].typeName])
        {
          if i < |pidx| {
            assert r[i] == rp[i] && idx[i] == pidx[i] && l[idx[i]] == p[pidx[i]];
          }
        }
      } else {
        assert r == rp;
        idx := pidx;
        forall i | 0 <= i < |idx|
          ensures l[idx[i]] == p[pidx[i]]
        {
        }
      }
      forall k | 0 <= k < |l| && l[k].typeName in mapping
        ensures k in idx
      {
        if k < |p| {
          assert p[k] == l[k];
          assert k in pidx;
        }
      }
    }
  }

  /**
   * Every entry of get_all_topics_and_types comes from a connection whose
   * legacy type is mapped and carries the mapped name; conversely every such
   * connection is listed under its mapped name.
   */
  lemma TopicsAndTypesFromConnections(cs: seq<Connection>, mapping: map<string, string>)
    ensures forall e :: e in TopicsAndTypes(cs, mapping) ==>
              exists k :: 0 <= k < |cs| && cs[k].dataType in mapping &&
                e == TopicMetadata(cs[k].topic, mapping[cs[k].dataType], SERIALIZATION_FORMAT)
    ensures forall k :: 0 <= k < |cs| && cs[k].dataType in mapping ==>
              TopicMetadata(cs[k].topic, mapping[cs[k].dataType], SERIALIZATION_FORMAT)
                in TopicsAndTypes(cs, mapping)
  {
    var including := TopicsAndTypesIncludingRos1(cs);
    var tt := TopicsAndTypes(cs, mapping);
    IncludingRos1Characterization(cs, 0);
    var idx := RenameMappedSubsequence(including, mapping);
    forall e | e in tt
      ensures exists k :: 0 <= k < |cs| && cs[k].dataType in mapping &&
                e == TopicMetadata(cs[k].topic, mapping[cs[k].dataType], SERIALIZATION_FORMAT)
    {
      var i :| 0 <= i < |tt| && tt[i] == e;
      assert including[idx[i]] in including;
      var k :| 0 <= k < |cs| && ConnectionMetadata(cs[k]) == including[idx[i]];
      assert e == TopicMetadata(cs[k].topic, mapping[cs[k].dataType], SERIALIZATION_FORMAT);
    }
    forall k | 0 <= k < |cs| && cs[k].dataType in mapping
      ensures TopicMetadata(cs[k].topic, mapping[cs[k].dataType], SERIALIZATION_FORMAT) in tt
    {
      var m := ConnectionMetadata(cs[k]);
      assert m in including;
      var j :| 0 <= j < |including| && including[j] == m;
      var i :| 0 <= i < |idx| && idx[i] == j;
      assert tt[i] == TopicMetadata(cs[k].topic, mapping[cs[k].dataType], SERIALIZATION_FORMAT);
    }
  }

  /** The topics of get_all_topics_and_types are exactly the replayable topics open collected. */
  lemma TopicsAndTypesNamesAreReplayable(cs: seq<Connection>, mapping: map<string, string>)
    ensures forall t :: t in TopicNames(TopicsAndTypes(cs, mapping)) <==> t in ReplayableTopics(cs, mapping)
  {
    var tt := TopicsAndTypes(cs, mapping);
    TopicsAndTypesFromConnections(cs, mapping);
    ReplayableTopicsMembership(cs, mapping);
    forall t ensures t in TopicNames(tt) <==> HasMappedConnection(cs, mapping, t) {
      if t in TopicNames(tt) {
        var i :| 0 <= i < |tt| && tt[i].name == t;
        assert tt[i] in tt;
      }
      if HasMappedConnection(cs, mapping, t) {
        var k :| 0 <= k < |cs| && cs[k].topic == t && cs[k].dataType in mapping;
        var e := TopicMetadata(cs[k].topic, mapping[cs[k].dataType], SERIALIZATION_FORMAT);
        var i :| 0 <= i < |tt| && tt[i] == e;
        assert TopicNames(tt)[i] == t;
      }
    }
  }

  /** With one legacy type per topic, get_all_topics_and_types lists each topic once. */
  lemma TopicsAndTypesNamesUnique(cs: seq<Connection>, mapping: map<string, string>)
    requires SingleTypePerTopic(cs)
    ensures NoDuplicates(TopicNames(TopicsAndTypes(cs, mapping)))
  {
    var including := TopicsAndTypesIncludingRos1(cs);
    var tt := TopicsAndTypes(cs, mapping);
    DedupNoDuplicates(ConnectionsMetadata(cs));
    IncludingRos1Characterization(cs, 0);
    var idx := RenameMappedSubsequence(including, mapping);
    forall i, j | 0 <= i < j < |tt|
      ensures tt[i].name != tt[j].name
    {
      var a, b := including[idx[i]], including[idx[j]];
      assert a in including && b in including;
      var ka :| 0 <= ka < |cs| && ConnectionMetadata(cs[ka]) == a;
      var kb :| 0 <= kb < |cs| && ConnectionMetadata(cs[kb]) == b;
      assert a != b;
    }
  }

  // ---------------------------------------------------------------------
  // get_topic_information and get_metadata
  // ---------------------------------------------------------------------

  lemma {:induction false} TotalIsSumOfTopicCounts(rs: seq<MessageRecord>, infos: seq<TopicInformation>, names: seq<string>)
    requires |infos| == |names|
    requires forall i :: 0 <= i < |infos| ==> infos[i].messageCount == |View(rs, [names[i]])|
    ensures TotalMessageCount(infos) == SumOfTopicCounts(rs, names)
    decreases |infos|
  {
    if |infos| > 0 {
      TotalIsSumOfTopicCounts(rs, infos[..|infos| - 1], names[..|names| - 1]);
    }
  }

  /**
   * With one legacy type per topic, the per-topic counts of get_metadata add
   * up to the size of the replayable view, which is at most the bag's
   * message count that get_metadata reports alongside them.
   */
  lemma TopicCountsAddUpToReplayableView(b: Bag, mapping: map<string, string>, bagSize: nat, relativeFilePath: string)
    requires SingleTypePerTopic(b.connections)
    ensures TotalMessageCount(Metadata(b, mapping, bagSize, relativeFilePath).topicsWithMessageCount) ==
            |View(b.messages, ReplayableTopics(b.connections, mapping))|
    ensures TotalMessageCount(Metadata(b, mapping, bagSize, relativeFilePath).topicsWithMessageCount) <=
            Metadata(b, mapping, bagSize, relativeFilePath).messageCount
  {
    var names := TopicNames(TopicsAndTypes(b.connections, mapping));
    var replayable := ReplayableTopics(b.connections, mapping);
    TotalIsSumOfTopicCounts(b.messages, TopicInformationList(b, mapping), names);
    TopicsAndTypesNamesUnique(b.connections, mapping);
    SumOfTopicCountsIsViewSize(b.messages, names);
    TopicsAndTypesNamesAreReplayable(b.connections, mapping);
    ViewSameTopics(b.messages, names, replayable);
    ViewSize(b.messages, replayable);
  }

  /** When every connection's type is mapped, every record of the bag is replayed. */
  lemma AllMappedReplaysWholeBag(b: Bag, mapping: map<string, string>)
    requires forall k :: 0 <= k < |b.connections| ==> b.connections[k].dataType in mapping
    ensures View(b.messages, ReplayableTopics(b.connections, mapping)) == b.messages
  {
    var replayable := ReplayableTopics(b.connections, mapping);
    ReplayableTopicsMembership(b.connections, mapping);
    forall i | 0 <= i < |b.messages|
      ensures b.messages[i].topic in replayable
    {
      var c := Connection(b.messages[i].topic, b.messages[i].dataType);
      var k :| 0 <= k < |b.connections| && b.connections[k] == c;
      assert HasMappedConnection(b.connections, mapping, c.topic);
    }
    ViewOfAllTopics(b.messages, replayable);
  }

  /** A record on a topic with no mapped connection is never replayed, so the replayable view is smaller than the bag. */
  lemma UnmappedTopicShrinksView(b: Bag, mapping: map<string, string>, k: nat)
    requires k < |b.messages| && !HasMappedConnection(b.connections, mapping, b.messages[k].topic)
    ensures b.messages[k] !in View(b.messages, ReplayableTopics(b.connections, mapping))
    ensures |View(b.messages, ReplayableTopics(b.connections, mapping))| < |b.messages|
  {
    var replayable := ReplayableTopics(b.connections, mapping);
    ReplayableTopicsMembership(b.connections, mapping);
    ViewMembership(b.messages, replayable);
    ViewSize(b.messages, replayable);
  }

  lemma {:induction false} RenameMappedWithoutMapping(l: seq<TopicMetadata>)
    ensures RenameMapped(l, map[]) == []
    decreases |l|
  {
    if |l| > 0 {
      RenameMappedWithoutMapping(l[..|l| - 1]);
    }
  }

  /** Without any type mapping no topic is listed, yet count, start and duration still describe the whole bag. */
  lemma MetadataWithoutMapping(b: Bag, bagSize: nat, relativeFilePath: string)
    ensures Metadata(b, map[], bagSize, relativeFilePath).topicsWithMessageCount == []
    ensures Metadata(b, map[], bagSize, relativeFilePath).messageCount == |b.messages|
    ensures Metadata(b, map[], bagSize, relativeFilePath).startingTimeNs == b.beginTimeNs
    ensures Metadata(b, map[], bagSize, relativeFilePath).durationNs == b.endTimeNs - b.beginTimeNs
  {
    RenameMappedWithoutMapping(TopicsAndTypesIncludingRos1(b.connections));
    assert |TopicInformationList(b, map[])| == 0;
  }

  // ---------------------------------------------------------------------
  // has_next / read_next: what a full replay yields
  // ---------------------------------------------------------------------

  /**
   * Reading the replayable view to its end yields one message per record of
   * the view, each on a replayable topic, in time order and within the
   * bag's begin and end time.
   */
  lemma ReplayedMessages(b: Bag, mapping: map<string, string>)
    ensures |Replay(View(b.messages, ReplayableTopics(b.connections, mapping)))| ==
            |View(b.messages, ReplayableTopics(b.connections, mapping))|
    ensures forall i :: 0 <= i < |Replay(View(b.messages, ReplayableTopics(b.connections, mapping)))| ==>
              var m := Replay(View(b.messages, ReplayableTopics(b.connections, mapping)))[i];
              && m.topicName in ReplayableTopics(b.connections, mapping)
              && HasMappedConnection(b.connections, mapping, m.topicName)
              && b.beginTimeNs <= m.timeStamp <= b.endTimeNs
    ensures forall i, j :: 0 <= i < j < |Replay(View(b.messages, ReplayableTopics(b.connections, mapping)))| ==>
              Replay(View(b.messages, ReplayableTopics(b.connections, mapping)))[i].timeStamp <=
              Replay(View(b.messages, ReplayableTopics(b.connections, mapping)))[j].timeStamp
  {
    var replayable := ReplayableTopics(b.connections, mapping);
    var v := View(b.messages, replayable);
    var idx := ViewSubsequence(b.messages, replayable);
    ReplayableTopicsMembership(b.connections, mapping);
    ViewMembership(b.messages, replayable);
    forall i | 0 <= i < |v|
      ensures v[i].topic in replayable
      ensures b.beginTimeNs <= v[i].timeNs <= b.endTimeNs
    {
      assert v[i] in v;
      var k := idx[i];
      assert b.messages[0].timeNs <= b.messages[k].timeNs <= b.messages[|b.messages| - 1].timeNs;
    }
    ViewTimeOrdered(b.messages, replayable);
  }

  // ---------------------------------------------------------------------
  // Concrete bags
  // ---------------------------------------------------------------------

  /**
   * Two connections, only the first of whose types is mapped: only the first
   * topic is listed and replayed.
   */
  lemma OneOfTwoTopicsMapped(b: Bag)
    requires b.connections == [Connection("/a", "pkg/TypeX"), Connection("/b", "pkg/TypeY")]
    ensures TopicsAndTypes(b.connections, map["pkg/TypeX" := "pkg2/TypeX2"]) ==
            [TopicMetadata("/a", "pkg2/TypeX2", "rosbag_v2")]
    ensures ReplayableTopics(b.connections, map["pkg/TypeX" := "pkg2/TypeX2"]) == ["/a"]
    ensures forall r :: r in View(b.messages, ReplayableTopics(b.connections, map["pkg/TypeX" := "pkg2/TypeX2"])) ==>
              r.topic != "/b"
  {
    var cs := b.connections;
    var mapping := map["pkg/TypeX" := "pkg2/TypeX2"];
    assert "pkg/TypeY" !in mapping by {
      assert "pkg/TypeY"[8] != "pkg/TypeX"[8];
    }
    assert cs[..1] == [cs[0]] && cs[..1][..0] == [];
    assert MappedConnectionTopics(cs[..1], mapping) == ["/a"];
    assert MappedConnectionTopics(cs, mapping) == ["/a"];
    DedupSnoc([], "/a");
    var m0, m1 := ConnectionMetadata(cs[0]), ConnectionMetadata(cs[1]);
    var metas := ConnectionsMetadata(cs);
    assert metas == [m0] + [m1];
    DedupSnoc([], m0);
    DedupSnoc([m0], m1);
    assert m1 != m0 by {
      assert m1.name[1] != m0.name[1];
    }
    assert Dedup(metas) == metas;
    assert metas[..1] == [m0] && metas[..1][..0] == [];
    assert RenameMapped(metas[..1], mapping) == [TopicMetadata("/a", "pkg2/TypeX2", "rosbag_v2")];
    ViewMembership(b.messages, ["/a"]);
  }

  /**
   * A topic recorded with two mapped legacy types is listed twice, and each
   * entry counts every record of the topic, so the per-topic counts add up
   * to more than the bag's message count.
   */
  lemma TopicWithTwoTypesCountedTwice(b: Bag, r: MessageRecord)
    requires b.connections == [Connection("/a", "pkg/X"), Connection("/a", "pkg/Y")]
    requires b.messages == [r]
    ensures TotalMessageCount(Metadata(b, map["pkg/X" := "pkg2/X", "pkg/Y" := "pkg2/Y"], 0, "").topicsWithMessageCount) == 2
    ensures Metadata(b, map["pkg/X" := "pkg2/X", "pkg/Y" := "pkg2/Y"], 0, "").messageCount == 1
  {
    var cs := b.connections;
    var mapping := map["pkg/X" := "pkg2/X", "pkg/Y" := "pkg2/Y"];
    assert r.topic == "/a" by {
      assert b.messages[0] == r;
      assert Connection(r.topic, r.dataType) in cs;
    }
    var m0, m1 := ConnectionMetadata(cs[0]), ConnectionMetadata(cs[1]);
    var metas := ConnectionsMetadata(cs);
    assert metas == [m0] + [m1];
    DedupSnoc([], m0);
    DedupSnoc([m0], m1);
    assert m1 != m0 by {
      assert m1.typeName[4] != m0.typeName[4];
    }
    assert Dedup(metas) == metas;
    assert metas[..1] == [m0] && metas[..1][..0] == [];
    var tt := [TopicMetadata("/a", "pkg2/X", "rosbag_v2"), TopicMetadata("/a", "pkg2/Y", "rosbag_v2")];
    assert RenameMapped(metas[..1], mapping) == [tt[0]];
    assert RenameMapped(metas, mapping) == tt;
    assert View([r], ["/a"]) == [r] by {
      assert [r][..0] == [];
    }
    var infos := TopicInformationList(b, mapping);
    assert TopicMessageCount(b, "/a") == 1;
    assert infos == [TopicInformation(tt[0], 1), TopicInformation(tt[1], 1)];
    assert infos[..1] == [infos[0]] && infos[..1][..0] == [];
    assert TotalMessageCount(infos[..1]) == 1;
    assert TotalMessageCount(infos) == 2;
  }

  /**
   * The replayable view is chosen by topic, not by type: on a topic that has
   * one mapped connection, a record of an unmapped legacy type is replayed.
   */
  lemma MixedTopicReplaysUnmappedType(b: Bag, r: MessageRecord)
    requires b.connections == [Connection("/a", "pkg/X"), Connection("/a", "pkg/Y")]
    requires r in b.messages && r.dataType == "pkg/Y"
    ensures r.dataType !in map["pkg/X" := "pkg2/X"]
    ensures r in View(b.messages, ReplayableTopics(b.connections, map["pkg/X" := "pkg2/X"]))
  {
    var mapping := map["pkg/X" := "pkg2/X"];
    assert "pkg/Y" !in mapping by {
      assert "pkg/Y"[4] != "pkg/X"[4];
    }
    var k :| 0 <= k < |b.messages| && b.messages[k] == r;
    assert Connection(r.topic, r.dataType) in b.connections;
    assert r.topic == "/a";
    ReplayableTopicsMembership(b.connections, mapping);
    assert HasMappedConnection(b.connections, mapping, "/a") by {
      assert b.connections[0].dataType in mapping;
    }
    ViewMembership(b.messages, ReplayableTopics(b.connections, mapping));
  }
}
