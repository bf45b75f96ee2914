/** The process-wide alarm list of the alarm program, as objects updated in place.

    The list is a chain of nodes joined by their `link` fields, starting at
    `head` (the global `alarm_list`). `currentAlarm` is the global `current_alarm`
    marker, which only `alarm_insert` assigns (and which no other code reads);
    `alarm_insert` itself is never called by the program, whose `main` splices
    inline instead. The ghost sequence `nodes` lists the chain's nodes in
    order, and `Entries()` gives the alarms they hold.
 */
module AlarmMutex {
  import opened Alarms

  /** One list node (`alarm_t`): the alarm it carries and the link to the next node. */
  class Node {
    const entry: Alarm
    var link: Node?

    constructor (entry: Alarm)
      ensures this.entry == entry && link == null
    {
      this.entry := entry;
      link := null;
    }
  }

  /** The alarms held by a chain of nodes, in chain order. */
  ghost function EntriesOf(ns: seq<Node>): (r: seq<Alarm>)
    ensures |r| == |ns|
    ensures forall i :: 0 <= i < |ns| ==> r[i] == ns[i].entry
  {
    seq(|ns|, i requires 0 <= i < |ns| => ns[i].entry)
  }

  /** No node occurs twice in the chain. */
  ghost predicate Distinct(ns: seq<Node>)
  {
    forall i, j :: 0 <= i < j < |ns| ==> ns[i] != ns[j]
  }

  /** Each node of the chain links to the next one, and the last to nothing. */
  ghost predicate Linked(ns: seq<Node>)
    reads ns
  {
    forall i :: 0 <= i < |ns| ==> ns[i].link == (if i + 1 < |ns| then ns[i + 1] else null)
  }

  /** Splicing a node that is not yet in a chain keeps the chain free of repeats. */
  lemma SpliceDistinct(s: seq<Node>, a: Node, i: nat)
    requires Distinct(s) && a !in s && i <= |s|
    ensures Distinct(s[..i] + [a] + s[i..])
  {
    var r := s[..i] + [a] + s[i..];
    forall j, k | 0 <= j < k < |r| ensures r[j] != r[k] {
      if k < i || i < j {
        assert r[j] == s[if j < i then j else j - 1];
        assert r[k] == s[if k < i then k else k - 1];
      } else if j < i {
        assert r[j] == s[j];
      } else {
        assert r[k] == s[k - 1];
      }
    }
  }

  lemma LinkedAt(ns: seq<Node>, i: nat)
    requires Linked(ns) && i < |ns|
    ensures ns[i].link == (if i + 1 < |ns| then ns[i + 1] else null)
  {
  }

  /** The link fields of a chain, read in the current heap. */
  ghost function LinksOf(ns: seq<Node>): (r: seq<Node?>)
    reads ns
    ensures |r| == |ns| && forall i :: 0 <= i < |ns| ==> r[i] == ns[i].link
  {
    seq(|ns|, i requires 0 <= i < |ns| reads ns => ns[i].link)
  }

  class AlarmList {
    var head: Node?
    var currentAlarm: int
    ghost var nodes: seq<Node>

    /** `nodes` is exactly the chain from `head`: distinct nodes, each linked to
        the next, the last one to nothing. */
    ghost predicate Valid()
      reads this`head, this`nodes, nodes
    {
      && Distinct(nodes)
      && head == (if nodes == [] then null else nodes[0])
      && Linked(nodes)
    }

    /** The pending alarms, from the head of the list to its tail. */
    ghost function Entries(): seq<Alarm>
      reads this`nodes
    {
      EntriesOf(nodes)
    }

    /** The marker names the earliest pending alarm: 0 on an empty list,
        otherwise the head's expiration time. */
    ghost predicate MarkerTracksHead()
      reads this`nodes, this`currentAlarm
    {
      if Entries() == [] then currentAlarm == 0 else currentAlarm == Entries()[0].time
    }

    /** Every pending alarm expires after the Epoch, so no time is mistaken for
        the "waiting for work" marker 0. */
    ghost predicate TimesPositive()
      reads this`nodes
    {
      forall i :: 0 <= i < |Entries()| ==> Entries()[i].time > 0
    }

    /** The initial global state: an empty list and no alarm waited on. */
    constructor ()
      ensures Valid() && Entries() == [] && currentAlarm == 0
    {
      head := null;
      currentAlarm := 0;
      nodes := [];
    }

    /** The sorted splice: walk the chain with `prev` (the node whose link field
        the C cursor `last` points at; null for the list header) and `next`,
        and link `alarm` in front of the first node due no earlier than it, or
        at the tail. Only link fields change; `currentAlarm` is untouched. */
    method Splice(alarm: Node)
      requires Valid() && alarm !in nodes
      modifies this, nodes, alarm
      ensures Valid()
      ensures var k := InsertPos(old(Entries()), alarm.entry.time);
        nodes == old(nodes)[..k] + [alarm] + old(nodes)[k..]
      ensures Entries() == InsertSorted(old(Entries()), alarm.entry)
      ensures Sorted(old(Entries())) ==> Sorted(Entries())
      ensures multiset(Entries()) == multiset(old(Entries())) + multiset{alarm.entry}
      ensures currentAlarm == old(currentAlarm)
    {
      ghost var s := nodes;
      var prev: Node? := null;
      var next := head;
      ghost var i := 0;
      while next != null
        invariant Valid() && nodes == s && currentAlarm == old(currentAlarm)
        invariant 0 <= i <= |s|
        invariant next == (if i < |s| then s[i] else null)
        invariant prev == (if i == 0 then null else s[i - 1])
        invariant forall j :: 0 <= j < i ==> s[j].entry.time < alarm.entry.time
        decreases |s| - i
      {
        if next.entry.time >= alarm.entry.time {
          LinkBefore(prev, alarm, next, i);
          break;
        }
        LinkedAt(nodes, i);
        prev := next;
        next := next.link;
        i := i + 1;
      }
      if next == null {
        LinkBefore(prev, alarm, null, i);
      }
      SpliceEntries(s, alarm, i);
      assert InsertPos(EntriesOf(s), alarm.entry.time) == i;
      InsertSortedElements(EntriesOf(s), alarm.entry);
      if Sorted(EntriesOf(s)) {
        InsertSortedKeepsOrder(EntriesOf(s), alarm.entry);
      }
    }

    /** One splice step, `alarm->link = next; *last = alarm`: make `alarm` the
        successor of `prev` (of the list header when `prev` is null) and the
        predecessor of `next`, the nodes at positions `i - 1` and `i`. */
    method LinkBefore(prev: Node?, alarm: Node, next: Node?, ghost i: nat)
      requires Valid() && alarm !in nodes && i <= |nodes|
      requires prev == (if i == 0 then null else nodes[i - 1])
      requires next == (if i < |nodes| then nodes[i] else null)
      modifies this`head, this`nodes, prev, alarm
      ensures Valid()
      ensures nodes == old(nodes)[..i] + [alarm] + old(nodes)[i..]
    {
      ghost var s := nodes;
      assert Linked(s) && Distinct(s);
      ghost var links := LinksOf(s);
      forall j | 0 <= j < |s| ensures links[j] == (if j + 1 < |s| then s[j + 1] else null) {
        LinkedAt(s, j);
      }
      alarm.link := next;
      if prev == null {
        head := alarm;
      } else {
        prev.link := alarm;
      }
      nodes := s[..i] + [alarm] + s[i..];
      forall j | 0 <= j < |nodes|
        ensures nodes[j].link == (if j + 1 < |nodes| then nodes[j + 1] else null)
      {
        if j < i - 1 {
          assert nodes[j] == s[j] != prev && s[j] != alarm;
          assert nodes[j].link == links[j];
        } else if j == i - 1 {
          assert nodes[j] == prev;
        } else if j == i {
          assert nodes[j] == alarm;
        } else {
          assert nodes[j] == s[j - 1] != prev && s[j - 1] != alarm;
          assert nodes[j].link == links[j - 1];
        }
      }
      assert Linked(nodes);
      SpliceDistinct(s, alarm, i);
    }

    /** `alarm_insert`: the sorted splice followed by the wake-up rule. Returns
        whether the condition variable is signalled. */
    method AlarmInsert(alarm: Node) returns (signal: bool)
      requires Valid() && alarm !in nodes
      modifies this, nodes, alarm
      ensures Valid()
      ensures var k := InsertPos(old(Entries()), alarm.entry.time);
        nodes == old(nodes)[..k] + [alarm] + old(nodes)[k..]
      ensures Entries() == InsertSorted(old(Entries()), alarm.entry)
      ensures Sorted(old(Entries())) ==> Sorted(Entries())
      ensures signal <==> old(currentAlarm) == 0 || alarm.entry.time < old(currentAlarm)
      ensures currentAlarm == (if signal then alarm.entry.time else old(currentAlarm))
      ensures Wakeup(currentAlarm, signal) == Wake(old(currentAlarm), alarm.entry.time)
      ensures old(MarkerTracksHead() && TimesPositive()) ==> MarkerTracksHead()
    {
      ghost var before := Entries();
      ghost var marker := currentAlarm;
      if MarkerTracksHead() && TimesPositive() {
        CurrentTracksHead(before, alarm.entry, marker);
      }
      Splice(alarm);
      signal := false;
      if currentAlarm == 0 || alarm.entry.time < currentAlarm {
        currentAlarm := alarm.entry.time;
        signal := true;
      }
    }

    /** The schedule command in `main`: the same sorted splice written out inline,
        without touching `currentAlarm` and without signalling. */
    method ScheduleInline(alarm: Node)
      requires Valid() && alarm !in nodes
      modifies this, nodes, alarm
      ensures Valid()
      ensures var k := InsertPos(old(Entries()), alarm.entry.time);
        nodes == old(nodes)[..k] + [alarm] + old(nodes)[k..]
      ensures Entries() == InsertSorted(old(Entries()), alarm.entry)
      ensures currentAlarm == old(currentAlarm)
    {
      Splice(alarm);
    }
  }

  /** The entries after either exit of the splice loop are the sorted insertion. */
  lemma SpliceEntries(s: seq<Node>, alarm: Node, i: nat)
    requires i <= |s|
    requires forall j :: 0 <= j < i ==> s[j].entry.time < alarm.entry.time
    requires i < |s| ==> s[i].entry.time >= alarm.entry.time
    ensures EntriesOf(s[..i] + [alarm] + s[i..]) == InsertSorted(EntriesOf(s), alarm.entry)
    ensures i == |s| ==> s[..i] + [alarm] + s[i..] == s + [alarm]
  {
    var e := EntriesOf(s);
    assert InsertPos(e, alarm.entry.time) == i;
    InsertSortedIsSplice(e, alarm.entry);
    assert EntriesOf(s[..i] + [alarm] + s[i..]) == e[..i] + [alarm.entry] + e[i..];
    if i == |s| {
      assert s[i..] == [];
      assert s[..i] == s;
    }
  }

  /** One record of the worker-thread list (`alarm_thread_t`). */
  datatype ThreadRecord = ThreadRecord(threadId: int, messageType: int)

  /** The worker-thread list of `main`, from `head_thread` to `last_thread`. */
  class ThreadRegistry {
    var records: seq<ThreadRecord>

    constructor ()
      ensures records == []
    {
      records := [];
    }

    /** The create-thread command's tail append: the first record becomes both
        head and tail, later ones are linked after the tail. */
    method Append(threadId: int, messageType: int)
      modifies this
      ensures records == old(records) + [ThreadRecord(threadId, messageType)]
      ensures records[0] == (if old(records) == [] then ThreadRecord(threadId, messageType) else old(records)[0])
    {
      records := records + [ThreadRecord(threadId, messageType)];
    }
  }
}
