/**
 * Flowing mode: messages are pushed by the native client's `data` event and
 * acknowledged later, in any order, through `flowingCommit`. Each partition
 * keeps a queue of the messages delivered and not yet committed, in delivery
 * order, each with a `done` flag. Acknowledging a message sets its flag; then
 * every done entry at the head of the queue is removed, and when at least one
 * was removed a single commit is issued for the last of them. Nothing is ever
 * committed past an entry that is still pending.
 */
module FlowingMode {
  import opened Wrappers

  datatype Message = Message(offset: int, partition: int)

  datatype Entry = Entry(message: Message, done: bool)

  // Shape of one partition's queue

  /** Offsets strictly increase from head to tail (the broker delivers a partition in offset order). */
  ghost predicate Ascending(q: seq<Entry>) {
    forall i, j :: 0 <= i < j < |q| ==> q[i].message.offset < q[j].message.offset
  }

  ghost predicate OnPartition(q: seq<Entry>, partition: int) {
    forall i :: 0 <= i < |q| ==> q[i].message.partition == partition
  }

  /** The head of a queue is never an acknowledged entry: those are removed at once. */
  ghost predicate HeadPending(q: seq<Entry>) {
    q == [] || !q[0].done
  }

  ghost predicate WellFormed(q: seq<Entry>, partition: int) {
    Ascending(q) && OnPartition(q, partition) && HeadPending(q)
  }

  /** Every entry of `q` lies beyond `offset`. */
  ghost predicate Above(q: seq<Entry>, offset: int) {
    forall j :: 0 <= j < |q| ==> q[j].message.offset > offset
  }

  // Acknowledging one message on one partition's queue

  /** The index of the first entry whose message has the given offset. */
  function FindOffset(q: seq<Entry>, offset: int): (r: Option<nat>)
    ensures r.Some? ==> r.value < |q| && q[r.value].message.offset == offset
    ensures r.Some? ==> forall j :: 0 <= j < r.value ==> q[j].message.offset != offset
    ensures r.None? ==> forall j :: 0 <= j < |q| ==> q[j].message.offset != offset
  {
    if q == [] then None
    else if q[0].message.offset == offset then Some(0)
    else match FindOffset(q[1..], offset)
      case None => None
      case Some(i) => Some(i + 1)
  }

  /** The length of the longest prefix of `q` whose entries are all done. */
  function DonePrefixLength(q: seq<Entry>): (k: nat)
    ensures k <= |q|
    ensures forall j :: 0 <= j < k ==> q[j].done
    ensures k < |q| ==> !q[k].done
  {
    if q != [] && q[0].done then 1 + DonePrefixLength(q[1..]) else 0
  }

  /** The queue after an acknowledgment, and the message committed for it, if any. */
  datatype Ack = Ack(queue: seq<Entry>, commit: Option<Message>)

  /** `q` with entry `i` marked done. */
  function Marked(q: seq<Entry>, i: nat): seq<Entry>
    requires i < |q|
  {
    q[i := q[i].(done := true)]
  }

  function Acknowledge(q: seq<Entry>, offset: int): Ack {
    match FindOffset(q, offset)
    case None => Ack(q, None)
    case Some(i) =>
      var marked := Marked(q, i);
      var k := DonePrefixLength(marked);
      Ack(marked[k..], if k == 0 then None else Some(marked[k - 1].message))
  }

  /**
   * What an acknowledgment does, stated without the trimming loop: an
   * unknown offset changes nothing; otherwise the first `k` entries leave the
   * queue, each of them either already done or the one acknowledged now; the
   * rest stays in order, the acknowledged entry marked done; the new head is
   * pending; and exactly one commit, for the last entry removed, is issued
   * when `k > 0`.
   */
  lemma {:induction false} AcknowledgeSpec(q: seq<Entry>, offset: int)
    ensures FindOffset(q, offset).None? ==> Acknowledge(q, offset) == Ack(q, None)
    ensures FindOffset(q, offset).Some? ==>
      var r, i := Acknowledge(q, offset), FindOffset(q, offset).value;
      var k := |q| - |r.queue|;
      && 0 <= k
      && r.queue == Marked(q, i)[k..]
      && (forall j :: 0 <= j < k ==> q[j].done || j == i)
      && HeadPending(r.queue)
      && r.commit == if k == 0 then None else Some(q[k - 1].message)
  {
    if FindOffset(q, offset).Some? {
      var i := FindOffset(q, offset).value;
      var marked := Marked(q, i);
      var k := DonePrefixLength(marked);
      assert |q| - |Acknowledge(q, offset).queue| == k;
      forall j | 0 <= j < k ensures q[j].done || j == i {
        assert marked[j].done;
      }
    }
  }

  /**
   * Acknowledging an entry behind a pending head leaves the length and the
   * head as they were, and commits nothing: only the acknowledged entry's
   * flag changes.
   */
  lemma AcknowledgeBehindHead(q: seq<Entry>, offset: int)
    requires q != [] && !q[0].done && q[0].message.offset != offset
    ensures var r := Acknowledge(q, offset);
      && |r.queue| == |q| && r.queue[0] == q[0] && r.commit.None?
      && forall j :: 0 <= j < |q| ==>
           r.queue[j].message == q[j].message
           && r.queue[j].done == (q[j].done || FindOffset(q, offset) == Some(j))
  {
    AcknowledgeSpec(q, offset);
  }

  /**
   * Acknowledging the head removes the whole run of done entries behind it,
   * in one pass, and commits the last one removed; what remains starts with
   * the earliest entry not yet acknowledged.
   */
  lemma AcknowledgeHead(q: seq<Entry>)
    requires q != []
    ensures var r := Acknowledge(q, q[0].message.offset);
      var k := |q| - |r.queue|;
      && 1 <= k
      && r.queue == q[k..]
      && (forall j :: 1 <= j < k ==> q[j].done)
      && HeadPending(r.queue)
      && r.commit == Some(q[k - 1].message)
  {
    AcknowledgeSpec(q, q[0].message.offset);
    var r := Acknowledge(q, q[0].message.offset);
    var k := |q| - |r.queue|;
    assert FindOffset(q, q[0].message.offset) == Some(0);
    assert Marked(q, 0)[k..] == q[k..];
  }

  /** Entry `a` of the new queue carries the message of entry `a + k` of the old one, `k` entries having left. */
  lemma AcknowledgeShifts(q: seq<Entry>, offset: int, a: int)
    requires 0 <= a < |Acknowledge(q, offset).queue|
    ensures |Acknowledge(q, offset).queue| <= |q|
    ensures Acknowledge(q, offset).queue[a].message == q[a + |q| - |Acknowledge(q, offset).queue|].message
  {
    AcknowledgeSpec(q, offset);
  }

  /** The queue stays well formed, and whatever lay beyond an offset before still does. */
  lemma AcknowledgeKeepsShape(q: seq<Entry>, partition: int, offset: int)
    requires Ascending(q) && OnPartition(q, partition)
    ensures var r := Acknowledge(q, offset);
      && Ascending(r.queue) && OnPartition(r.queue, partition)
      && (HeadPending(q) ==> HeadPending(r.queue))
      && forall o :: Above(q, o) ==> Above(r.queue, o)
  {
    var r := Acknowledge(q, offset);
    var k := |q| - |r.queue|;
    if FindOffset(q, offset).None? {
      AcknowledgeSpec(q, offset);
    } else {
      assert HeadPending(r.queue) by {
        AcknowledgeSpec(q, offset);
      }
      forall a, b | 0 <= a < b < |r.queue|
        ensures r.queue[a].message.offset < r.queue[b].message.offset
      {
        AcknowledgeShifts(q, offset, a);
        AcknowledgeShifts(q, offset, b);
      }
      forall a | 0 <= a < |r.queue| ensures r.queue[a].message.partition == partition {
        AcknowledgeShifts(q, offset, a);
      }
      forall o | Above(q, o) ensures Above(r.queue, o) {
        forall j | 0 <= j < |r.queue| ensures r.queue[j].message.offset > o {
          AcknowledgeShifts(q, offset, j);
        }
      }
    }
  }

  /**
   * No gap is ever committed: on an ascending queue, the committed message is
   * one of the queue's own, every entry up to its offset had been
   * acknowledged, and every entry left lies beyond it.
   */
  lemma AcknowledgeNoGap(q: seq<Entry>, offset: int)
    requires Ascending(q)
    ensures var r := Acknowledge(q, offset);
      r.commit.Some? ==>
        && (exists j :: 0 <= j < |q| && q[j].message == r.commit.value)
        && (forall j :: 0 <= j < |q| && q[j].message.offset <= r.commit.value.offset ==>
              q[j].done || q[j].message.offset == offset)
        && Above(r.queue, r.commit.value.offset)
  {
    AcknowledgeSpec(q, offset);
    var r := Acknowledge(q, offset);
    if r.commit.Some? {
      var i := FindOffset(q, offset).value;
      var marked := Marked(q, i);
      var k := |q| - |r.queue|;
      var c := r.commit.value;
      assert c == q[k - 1].message;
      forall j | 0 <= j < |q| && q[j].message.offset <= c.offset
        ensures q[j].done || q[j].message.offset == offset
      {
        if j == i {
        } else {
          assert j < k;
        }
      }
      forall j | 0 <= j < |r.queue| ensures r.queue[j].message.offset > c.offset {
        assert r.queue[j] == marked[j + k];
      }
    }
  }

  /**
   * Acknowledging the same message twice: the second acknowledgment changes
   * nothing and commits nothing.
   */
  lemma AcknowledgeTwice(q: seq<Entry>, offset: int)
    requires Ascending(q)
    ensures var r := Acknowledge(q, offset);
      Acknowledge(r.queue, offset) == Ack(r.queue, None)
  {
    AcknowledgeSpec(q, offset);
    var r := Acknowledge(q, offset);
    if FindOffset(q, offset).Some? {
      var i := FindOffset(q, offset).value;
      var k := |q| - |r.queue|;
      match FindOffset(r.queue, offset)
      case None =>
      case Some(i') =>
        assert r.queue[i'] == Marked(q, i)[i' + k];
        assert i' + k == i;
        assert Marked(r.queue, i') == r.queue;
        assert DonePrefixLength(r.queue) == 0;
        assert r.queue[0..] == r.queue;
    }
  }

  // Acknowledgments in any order

  /** `q` with every entry whose offset is in `acked` marked done. */
  function MarkAll(q: seq<Entry>, acked: set<int>): (m: seq<Entry>)
    ensures |m| == |q|
    ensures forall j :: 0 <= j < |q| ==>
              m[j].message == q[j].message && m[j].done == (q[j].done || q[j].message.offset in acked)
  {
    seq(|q|, j requires 0 <= j < |q| => q[j].(done := q[j].done || q[j].message.offset in acked))
  }

  /** `q` without its done prefix. */
  function Settle(q: seq<Entry>): seq<Entry> {
    q[DonePrefixLength(q)..]
  }

  lemma {:induction false} DonePrefixSkip(m: seq<Entry>, k: nat)
    requires k <= |m| && forall j :: 0 <= j < k ==> m[j].done
    ensures DonePrefixLength(m) == k + DonePrefixLength(m[k..])
  {
    if k > 0 {
      assert m[1..][k - 1..] == m[k..];
      DonePrefixSkip(m[1..], k - 1);
    } else {
      assert m[0..] == m;
    }
  }

  /** Marking an offset that is absent past the done prefix changes nothing there. */
  lemma MarkAbsent(q: seq<Entry>, acked: set<int>, b: int, k: nat)
    requires k <= |q| && FindOffset(MarkAll(q, acked)[k..], b).None?
    ensures MarkAll(q, acked + {b})[k..] == MarkAll(q, acked)[k..]
  {
    var m, m' := MarkAll(q, acked), MarkAll(q, acked + {b});
    forall j | k <= j < |q| ensures m'[j] == m[j] {
      assert m[k..][j - k] == m[j];
    }
  }

  /** Marking an offset found past the done prefix marks exactly that entry there, offsets being distinct. */
  lemma MarkPresent(q: seq<Entry>, acked: set<int>, b: int, k: nat, i: nat)
    requires Ascending(q)
    requires k <= |q| && FindOffset(MarkAll(q, acked)[k..], b) == Some(i)
    ensures MarkAll(q, acked + {b})[k..] == Marked(MarkAll(q, acked)[k..], i)
  {
    var m, m' := MarkAll(q, acked), MarkAll(q, acked + {b});
    var s := m[k..];
    assert q[k + i].message.offset == b by {
      assert s[i] == m[k + i];
    }
    forall j | k <= j < |q| ensures m'[j] == Marked(s, i)[j - k] {
      assert s[j - k] == m[j];
      if j != k + i {
        assert q[j].message.offset != q[k + i].message.offset;
      }
    }
  }

  /** When marking more leaves everything past the old done prefix alone, settling gives that same suffix. */
  lemma SettleUnchanged(m: seq<Entry>, m': seq<Entry>, k: nat)
    requires k == DonePrefixLength(m) && |m'| == |m|
    requires forall j :: 0 <= j < k ==> m'[j].done
    requires m'[k..] == m[k..]
    ensures Settle(m') == m[k..]
  {
    DonePrefixSkip(m', k);
    assert DonePrefixLength(m'[k..]) == 0 by {
      assert m[k..] == [] || !m[k..][0].done;
    }
  }

  /** When marking more marks one entry past the old done prefix, settling gives what acknowledging it does. */
  lemma SettleMarked(m: seq<Entry>, m': seq<Entry>, k: nat, i: nat, b: int)
    requires k == DonePrefixLength(m) && |m'| == |m|
    requires forall j :: 0 <= j < k ==> m'[j].done
    requires FindOffset(m[k..], b) == Some(i)
    requires m'[k..] == Marked(m[k..], i)
    ensures Settle(m') == Acknowledge(m[k..], b).queue
  {
    var t := m'[k..];
    var d := DonePrefixLength(t);
    assert Acknowledge(m[k..], b).queue == t[d..];
    DonePrefixSkip(m', k);
    assert m'[k + d..] == t[d..];
  }

  /**
   * On a queue of increasing offsets, acknowledging `b` after the offsets in
   * `acked` gives the queue obtained by marking `acked` and `b` together and
   * settling once.
   */
  lemma AcknowledgeSettled(q: seq<Entry>, acked: set<int>, b: int)
    requires Ascending(q)
    ensures Acknowledge(Settle(MarkAll(q, acked)), b).queue == Settle(MarkAll(q, acked + {b}))
  {
    var m, m' := MarkAll(q, acked), MarkAll(q, acked + {b});
    var k := DonePrefixLength(m);
    assert forall j :: 0 <= j < k ==> m'[j].done;
    match FindOffset(m[k..], b)
    case None =>
      MarkAbsent(q, acked, b, k);
      SettleUnchanged(m, m', k);
    case Some(i) =>
      MarkPresent(q, acked, b, k, i);
      SettleMarked(m, m', k, i, b);
  }

  /** Acknowledges the offsets in `acks`, one after another. */
  function AcknowledgeEach(q: seq<Entry>, acks: seq<int>): seq<Entry>
    decreases acks
  {
    if acks == [] then q else AcknowledgeEach(Acknowledge(q, acks[0]).queue, acks[1..])
  }

  /** The offsets a run of acknowledgments names, forgetting their order and repetitions. */
  function Offsets(acks: seq<int>): (r: set<int>)
    ensures forall a :: a in r <==> a in acks
  {
    if acks == [] then {} else {acks[0]} + Offsets(acks[1..])
  }

  /**
   * Acknowledgments may arrive in any order: on a well-formed queue, the
   * queue left after a run of acknowledgments depends only on which offsets
   * were acknowledged, not on the order in which they came.
   */
  lemma AcknowledgeEachOrderFree(q: seq<Entry>, acks: seq<int>)
    requires Ascending(q) && HeadPending(q)
    ensures AcknowledgeEach(q, acks) == Settle(MarkAll(q, Offsets(acks)))
  {
    assert MarkAll(q, {}) == q;
    assert Settle(q) == q[0..] == q;
    AcknowledgeEachFrom(q, {}, acks);
    assert {} + Offsets(acks) == Offsets(acks);
  }

  /** In particular, two acknowledgments leave the same queue whichever arrives first. */
  lemma AcknowledgeSwap(q: seq<Entry>, a: int, b: int)
    requires Ascending(q) && HeadPending(q)
    ensures Acknowledge(Acknowledge(q, a).queue, b).queue == Acknowledge(Acknowledge(q, b).queue, a).queue
  {
    AcknowledgeTwoInOrder(q, a, b);
    AcknowledgeTwoInOrder(q, b, a);
    assert {a} + {b} == {b} + {a};
  }

  lemma AcknowledgeTwoInOrder(q: seq<Entry>, a: int, b: int)
    requires Ascending(q) && HeadPending(q)
    ensures Acknowledge(Acknowledge(q, a).queue, b).queue == Settle(MarkAll(q, {a} + {b}))
  {
    var r1 := Acknowledge(q, a).queue;
    var r2 := Acknowledge(r1, b).queue;
    assert [a, b][1..] == [b] && [b][1..] == [];
    assert AcknowledgeEach(r1, [b]) == AcknowledgeEach(r2, []) == r2;
    assert AcknowledgeEach(q, [a, b]) == r2;
    assert Offsets([b]) == {b};
    assert Offsets([a, b]) == {a} + {b};
    AcknowledgeEachOrderFree(q, [a, b]);
  }

  lemma {:induction false} AcknowledgeEachFrom(q: seq<Entry>, acked: set<int>, acks: seq<int>)
    requires Ascending(q)
    ensures AcknowledgeEach(Settle(MarkAll(q, acked)), acks) == Settle(MarkAll(q, acked + Offsets(acks)))
    decreases acks
  {
    if acks == [] {
      assert acked + Offsets(acks) == acked;
    } else {
      AcknowledgeSettled(q, acked, acks[0]);
      AcknowledgeEachFrom(q, acked + {acks[0]}, acks[1..]);
      assert acked + {acks[0]} + Offsets(acks[1..]) == acked + Offsets(acks);
    }
  }

  // The state of all partitions

  /** The queue of a partition; a partition that has seen no message has an empty one. */
  function QueueOf(queues: map<int, seq<Entry>>, partition: int): seq<Entry> {
    if partition in queues then queues[partition] else []
  }

  function CommitCalls(commit: Option<Message>): seq<Message> {
    if commit.Some? then [commit.value] else []
  }

  /**
   * Every queue is well formed; every commit issued lies below the queue of
   * its partition; on each partition commits are issued in increasing offset
   * order.
   */
  ghost predicate ValidState(queues: map<int, seq<Entry>>, committed: seq<Message>) {
    && (forall p :: p in queues ==> WellFormed(queues[p], p))
    && (forall i :: 0 <= i < |committed| && committed[i].partition in queues ==>
          Above(queues[committed[i].partition], committed[i].offset))
    && (forall i, j :: 0 <= i < j < |committed| && committed[i].partition == committed[j].partition ==>
          committed[i].offset < committed[j].offset)
  }

  /** A new message lies beyond everything delivered on its partition so far. */
  ghost predicate InOrder(queues: map<int, seq<Entry>>, committed: seq<Message>, message: Message) {
    && (forall j :: 0 <= j < |QueueOf(queues, message.partition)| ==>
          QueueOf(queues, message.partition)[j].message.offset < message.offset)
    && (forall i :: 0 <= i < |committed| && committed[i].partition == message.partition ==>
          committed[i].offset < message.offset)
  }

  /** Appending a message delivered in order keeps the state valid. */
  lemma DeliverKeepsValid(queues: map<int, seq<Entry>>, committed: seq<Message>, message: Message)
    requires ValidState(queues, committed) && InOrder(queues, committed, message)
    ensures ValidState(queues[message.partition := QueueOf(queues, message.partition) + [Entry(message, false)]], committed)
  {
    var p := message.partition;
    var queues' := queues[p := QueueOf(queues, p) + [Entry(message, false)]];
    assert WellFormed(queues'[p], p);
    forall i | 0 <= i < |committed| && committed[i].partition in queues'
      ensures Above(queues'[committed[i].partition], committed[i].offset)
    {
      var c := committed[i];
      if c.partition == p && p in queues {
        assert Above(queues[p], c.offset);
      }
    }
  }

  /**
   * An acknowledgment keeps the state valid; in particular the commit it
   * issues, if any, lies beyond every earlier commit on its partition.
   */
  lemma AcknowledgeKeepsValid(queues: map<int, seq<Entry>>, committed: seq<Message>, message: Message)
    requires ValidState(queues, committed) && message.partition in queues
    ensures var r := Acknowledge(queues[message.partition], message.offset);
      ValidState(queues[message.partition := r.queue], committed + CommitCalls(r.commit))
  {
    var p := message.partition;
    var q := queues[p];
    AcknowledgeKeepsShape(q, p, message.offset);
    AcknowledgeNoGap(q, message.offset);
    var r := Acknowledge(q, message.offset);
    var queues' := queues[p := r.queue];
    var committed' := committed + CommitCalls(r.commit);
    forall i | 0 <= i < |committed'| && committed'[i].partition in queues'
      ensures Above(queues'[committed'[i].partition], committed'[i].offset)
    {
      if i < |committed| && committed[i].partition == p {
        assert Above(q, committed[i].offset);
      }
    }
    forall i, j | 0 <= i < j < |committed'| && committed'[i].partition == committed'[j].partition
      ensures committed'[i].offset < committed'[j].offset
    {
      if j == |committed| {
        var c := committed'[j];
        assert c == r.commit.value;
        assert Above(q, committed[i].offset);
        var w :| 0 <= w < |q| && q[w].message == c;
      }
    }
  }

  /**
   * The consumer's flowing-mode state: the per-partition commit queues, and
   * the handler calls and commit calls made so far, in order.
   */
  class Consumer {
    var flowingCommitQueue: map<int, seq<Entry>>
    var handled: seq<Message>
    var committed: seq<Message>

    ghost predicate Valid()
      reads this
    {
      ValidState(flowingCommitQueue, committed)
    }

    constructor ()
      ensures flowingCommitQueue == map[] && handled == [] && committed == []
      ensures Valid()
    {
      flowingCommitQueue := map[];
      handled := [];
      committed := [];
    }

    /** The `data` event: queue the message as pending on its partition, then hand it to the handler. */
    method OnData(message: Message)
      modifies this
      ensures flowingCommitQueue == old(flowingCommitQueue)[message.partition :=
                QueueOf(old(flowingCommitQueue), message.partition) + [Entry(message, false)]]
      ensures handled == old(handled) + [message]
      ensures committed == old(committed)
      ensures old(Valid()) && old(InOrder(flowingCommitQueue, committed, message)) ==> Valid()
    {
      if Valid() && InOrder(flowingCommitQueue, committed, message) {
        DeliverKeepsValid(flowingCommitQueue, committed, message);
      }
      var p := message.partition;
      var q := if p in flowingCommitQueue then flowingCommitQueue[p] else [];
      flowingCommitQueue := flowingCommitQueue[p := q + [Entry(message, false)]];
      handled := handled + [message];
    }

    /**
     * Acknowledges `message`: marks its entry done, removes the done entries
     * at the head of its partition's queue, and commits the last one removed.
     * An unknown partition or offset changes nothing.
     */
    method FlowingCommit(message: Message)
      modifies this
      ensures message.partition !in old(flowingCommitQueue) ==>
                flowingCommitQueue == old(flowingCommitQueue) && committed == old(committed)
      ensures message.partition in old(flowingCommitQueue) ==>
                var r := Acknowledge(old(flowingCommitQueue)[message.partition], message.offset);
                && flowingCommitQueue == old(flowingCommitQueue)[message.partition := r.queue]
                && committed == old(committed) + CommitCalls(r.commit)
      ensures handled == old(handled)
      ensures old(Valid()) ==> Valid()
    {
      var p := message.partition;
      if p !in flowingCommitQueue {
        return;
      }
      var q := flowingCommitQueue[p];
      var found := FindEntry(q, message.offset);
      if found.None? {
        assert flowingCommitQueue[p := q] == flowingCommitQueue;
        return;
      }
      var i := found.value;
      var rest, last := TrimDone(q[i := q[i].(done := true)]);
      flowingCommitQueue := flowingCommitQueue[p := rest];
      if last.Some? {
        committed := committed + [last.value];
      }
      if old(Valid()) {
        AcknowledgeKeepsValid(old(flowingCommitQueue), old(committed), message);
      }
    }

    /** The index of the first entry of `q` with the given offset, as `findIndex` returns it. */
    static method FindEntry(q: seq<Entry>, offset: int) returns (found: Option<nat>)
      ensures found == FindOffset(q, offset)
    {
      var i := 0;
      while i < |q| && q[i].message.offset != offset
        invariant 0 <= i <= |q|
        invariant forall j :: 0 <= j < i ==> q[j].message.offset != offset
      {
        i := i + 1;
      }
      found := if i == |q| then None else Some(i);
    }

    /**
     * Shifts done entries off the head of `q` while there are any; returns
     * what is left and the message of the last entry shifted off.
     */
    static method TrimDone(q: seq<Entry>) returns (rest: seq<Entry>, last: Option<Message>)
      ensures var k := DonePrefixLength(q);
        && rest == q[k..]
        && last == if k == 0 then None else Some(q[k - 1].message)
    {
      rest := q;
      last := None;
      ghost var n := 0;
      while rest != [] && rest[0].done
        invariant 0 <= n <= |q| && rest == q[n..]
        invariant forall j :: 0 <= j < n ==> q[j].done
        invariant last == if n == 0 then None else Some(q[n - 1].message)
      {
        last := Some(rest[0].message);
        rest := rest[1..];
        n := n + 1;
      }
    }
  }

  /**
   * The ordered-commit scenario on two partitions: acknowledging 2 and 3 on
   * [1, 2, 3, 4] keeps four entries with 1 still pending at the head;
   * acknowledging 1 then leaves [4] and commits 3. Likewise 7, 8, then 6 on
   * [6, 7, 8, 9] leaves [9] and commits 8.
   */
  lemma CommitInOrderScenario(p: int)
    ensures var q := [Entry(Message(p + 1, p), false), Entry(Message(p + 2, p), false),
                      Entry(Message(p + 3, p), false), Entry(Message(p + 4, p), false)];
      var a := Acknowledge(q, p + 2);
      var b := Acknowledge(a.queue, p + 3);
      var c := Acknowledge(b.queue, p + 1);
      && a.commit.None? && b.commit.None?
      && |b.queue| == 4 && b.queue[0] == Entry(Message(p + 1, p), false)
      && c.queue == [Entry(Message(p + 4, p), false)]
      && c.commit == Some(Message(p + 3, p))
  {
    var q := [Entry(Message(p + 1, p), false), Entry(Message(p + 2, p), false),
              Entry(Message(p + 3, p), false), Entry(Message(p + 4, p), false)];
    assert FindOffset(q, p + 2) == Some(1);
    AcknowledgeBehindHead(q, p + 2);
    var a := Acknowledge(q, p + 2);
    assert FindOffset(a.queue, p + 3) == Some(2);
    AcknowledgeBehindHead(a.queue, p + 3);
    var b := Acknowledge(a.queue, p + 3);
    AcknowledgeHead(b.queue);
    var c := Acknowledge(b.queue, p + 1);
    assert |c.queue| == 1;
  }
}
