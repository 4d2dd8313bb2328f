/**
 * An abstract legacy (ROS 1) bag, as the rosbag library presents it to the
 * adapter: its connection records, its time-ordered message records, the
 * begin and end time of the whole bag, and views that restrict the records
 * to a set of topics.
 */
module LegacyBag {
  import opened Seqs
  import opened Rosbag2Storage

  /** An index entry binding a topic to the legacy type of its messages. */
  datatype Connection = Connection(topic: string, dataType: string)

  /** One recorded message: topic, receive time in nanoseconds, legacy type and its serialized bytes. */
  datatype MessageRecord = MessageRecord(
    topic: string,
    timeNs: nat,
    dataType: string,
    data: seq<uint8>)

  predicate TimeOrdered(rs: seq<MessageRecord>) {
    forall i, j :: 0 <= i < j < |rs| ==> rs[i].timeNs <= rs[j].timeNs
  }

  datatype BagContents = BagContents(
    connections: seq<Connection>,
    messages: seq<MessageRecord>,
    beginTimeNs: nat,
    endTimeNs: nat)

  /**
   * What the rosbag library guarantees of an opened bag: records in time
   * order, begin and end time bracketing them, and every record published
   * over one of the bag's connections.
   */
  predicate WellFormed(b: BagContents) {
    && TimeOrdered(b.messages)
    && b.beginTimeNs <= b.endTimeNs
    && (|b.messages| > 0 ==>
          b.beginTimeNs == b.messages[0].timeNs &&
          b.endTimeNs == b.messages[|b.messages| - 1].timeNs)
    && forall i :: 0 <= i < |b.messages| ==>
         Connection(b.messages[i].topic, b.messages[i].dataType) in b.connections
  }

  type Bag = b: BagContents | WellFormed(b) witness BagContents([], [], 0, 0)

  /**
   * The records a view built with a topic query over `topics` iterates
   * over, in bag order.
   */
  function View(rs: seq<MessageRecord>, topics: seq<string>): seq<MessageRecord>
    decreases |rs|
  {
    if |rs| == 0 then []
    else
      View(rs[..|rs| - 1], topics) +
      (if rs[|rs| - 1].topic in topics then [rs[|rs| - 1]] else [])
  }

  /**
   * The view is exactly the subsequence of records whose topic is queried:
   * idx gives, in increasing order, the position in rs of each viewed
   * record, and every position whose topic is queried is among them.
   */
  lemma {:induction false} ViewSubsequence(rs: seq<MessageRecord>, topics: seq<string>)
    returns (idx: seq<nat>)
    ensures |idx| == |View(rs, topics)| && Increasing(idx)
    ensures forall i :: 0 <= i < |idx| ==>
              idx[i] < |rs| && View(rs, topics)[i] == rs[idx[i]]
    ensures forall k :: 0 <= k < |rs| && rs[k].topic in topics ==> k in idx
    decreases |rs|
  {
    if |rs| == 0 {
      idx := [];
    } else {
      var p := rs[..|rs| - 1];
      var last := rs[|rs| - 1];
      var pidx := ViewSubsequence(p, topics);
      var v, vp := View(rs, topics), View(p, topics);
      if last.topic in topics {
        assert v == vp + [last];
        idx := pidx + [|p|];
        forall i | 0 <= i < |idx|
          ensures idx[i] < |rs| && v[i] == rs[idx[i]]
        {
          if i < |pidx| {
            assert v[i] == vp[i] && idx[i] == pidx[i];
          }
        }
      } else {
        assert v == vp;
        idx := pidx;
      }
      forall k | 0 <= k < |rs| && rs[k].topic in topics
        ensures k in idx
      {
        if k < |p| {
          assert p[k] == rs[k];
          assert k in pidx;
        }
      }
    }
  }

  lemma {:induction false} ViewMembership(rs: seq<MessageRecord>, topics: seq<string>)
    ensures forall r :: r in View(rs, topics) <==> r in rs && r.topic in topics
    decreases |rs|
  {
    if |rs| > 0 {
      var p := rs[..|rs| - 1];
      ViewMembership(p, topics);
      assert rs == p + [rs[|rs| - 1]];
    }
  }

  /** A view of time-ordered records is itself time-ordered. */
  lemma ViewTimeOrdered(rs: seq<MessageRecord>, topics: seq<string>)
    requires TimeOrdered(rs)
    ensures TimeOrdered(View(rs, topics))
  {
    var idx := ViewSubsequence(rs, topics);
  }

  /** A view depends only on which topics are queried, not on their order or repetition. */
  lemma {:induction false} ViewSameTopics(rs: seq<MessageRecord>, a: seq<string>, b: seq<string>)
    requires forall t :: t in a <==> t in b
    ensures View(rs, a) == View(rs, b)
    decreases |rs|
  {
    if |rs| > 0 {
      ViewSameTopics(rs[..|rs| - 1], a, b);
    }
  }

  /** A view that queries every topic of the records holds all of them. */
  lemma {:induction false} ViewOfAllTopics(rs: seq<MessageRecord>, topics: seq<string>)
    requires forall i :: 0 <= i < |rs| ==> rs[i].topic in topics
    ensures View(rs, topics) == rs
    decreases |rs|
  {
    if |rs| > 0 {
      var p := rs[..|rs| - 1];
      ViewOfAllTopics(p, topics);
      assert rs == p + [rs[|rs| - 1]];
    }
  }

  /** Every view is at most as large as the records it filters; strictly smaller when it drops one. */
  lemma {:induction false} ViewSize(rs: seq<MessageRecord>, topics: seq<string>)
    ensures |View(rs, topics)| <= |rs|
    ensures (exists k :: 0 <= k < |rs| && rs[k].topic !in topics) ==> |View(rs, topics)| < |rs|
    decreases |rs|
  {
    if |rs| > 0 {
      var p := rs[..|rs| - 1];
      ViewSize(p, topics);
      if exists k :: 0 <= k < |rs| && rs[k].topic !in topics {
        var k :| 0 <= k < |rs| && rs[k].topic !in topics;
        if k < |p| {
          assert p[k] == rs[k];
        }
      }
    }
  }

  /** The number of records a single-topic view holds, for each topic of a list, added up. */
  function SumOfTopicCounts(rs: seq<MessageRecord>, names: seq<string>): nat
    decreases |names|
  {
    if |names| == 0 then 0
    else SumOfTopicCounts(rs, names[..|names| - 1]) + |View(rs, [names[|names| - 1]])|
  }

  /** Adding one record raises the sum of counts over distinct topics by one exactly when its topic is listed. */
  lemma {:induction false} SumOfTopicCountsSnoc(rs: seq<MessageRecord>, r: MessageRecord, names: seq<string>)
    requires NoDuplicates(names)
    ensures SumOfTopicCounts(rs + [r], names) ==
            SumOfTopicCounts(rs, names) + (if r.topic in names then 1 else 0)
    decreases |names|
  {
    assert (rs + [r])[..|rs|] == rs;
    if |names| > 0 {
      var p := names[..|names| - 1];
      var n := names[|names| - 1];
      assert names == p + [n];
      SumOfTopicCountsSnoc(rs, r, p);
      assert r.topic == n ==> r.topic !in p;
    }
  }

  /**
   * Counting each of several distinct topics with its own view and adding
   * the counts gives the size of one view over all of them.
   */
  lemma {:induction false} SumOfTopicCountsIsViewSize(rs: seq<MessageRecord>, names: seq<string>)
    requires NoDuplicates(names)
    ensures SumOfTopicCounts(rs, names) == |View(rs, names)|
    decreases |rs|
  {
    if |rs| == 0 {
      SumOfTopicCountsEmpty(names);
    } else {
      var p := rs[..|rs| - 1];
      SumOfTopicCountsIsViewSize(p, names);
      assert rs == p + [rs[|rs| - 1]];
      SumOfTopicCountsSnoc(p, rs[|rs| - 1], names);
    }
  }

  lemma {:induction false} SumOfTopicCountsEmpty(names: seq<string>)
    ensures SumOfTopicCounts([], names) == 0
    decreases |names|
  {
    if |names| > 0 {
      SumOfTopicCountsEmpty(names[..|names| - 1]);
    }
  }
}
