/** The alarm entity and the ordering rules of the alarm list, stated on values.

    The list of pending alarms is kept in ascending order of absolute expiration
    time. A new alarm is spliced in front of the first entry whose time is greater
    than or equal to its own, or appended at the tail when there is none.
    `alarm_insert` follows its splice with a wake-up rule on the global marker
    `current_alarm`: the marker is assigned, and the condition variable
    signalled, when it is 0 or the new alarm is due earlier. Nothing in the
    program calls `alarm_insert`, and nothing else reads or writes the marker;
    the rule is modelled as written.
 */
module Alarms {

  /** One alarm request: the requested delay in seconds, the absolute expiration
      time (seconds since the Epoch), the message type and the message text. */
  datatype Alarm = Alarm(seconds: int, time: int, messageType: int, message: string)

  /** The list is ordered by ascending expiration time. */
  ghost predicate Sorted(s: seq<Alarm>)
  {
    forall i, j :: 0 <= i < j < |s| ==> s[i].time <= s[j].time
  }

  /** The index in front of which an alarm due at `t` is spliced: the first entry
      whose time is at least `t`, or the length of the list when there is none. */
  function InsertPos(s: seq<Alarm>, t: int): (k: nat)
    ensures k <= |s|
    ensures forall j :: 0 <= j < k ==> s[j].time < t
    ensures k < |s| ==> s[k].time >= t
  {
    if s == [] then 0
    else if s[0].time >= t then 0
    else 1 + InsertPos(s[1..], t)
  }

  /** The list after inserting `a`, walked one entry at a time as the cursor in
      the source walks it: stop at the first entry due no earlier than `a`. */
  function InsertSorted(s: seq<Alarm>, a: Alarm): (r: seq<Alarm>)
    ensures |r| == |s| + 1
  {
    if s == [] then [a]
    else if s[0].time >= a.time then [a] + s
    else [s[0]] + InsertSorted(s[1..], a)
  }

  /** Inserting is a splice: the old entries keep their order, and the new alarm
      sits at `InsertPos`, ahead of every entry due at the same time. */
  lemma {:induction false} InsertSortedIsSplice(s: seq<Alarm>, a: Alarm)
    ensures InsertSorted(s, a) == s[..InsertPos(s, a.time)] + [a] + s[InsertPos(s, a.time)..]
  {
    if s != [] && s[0].time < a.time {
      InsertSortedIsSplice(s[1..], a);
      var k := InsertPos(s[1..], a.time);
      assert s[..k + 1] == [s[0]] + s[1..][..k];
      assert s[k + 1..] == s[1..][k..];
    }
  }

  /** Inserting into a sorted list gives a sorted list. */
  lemma {:induction false} InsertSortedKeepsOrder(s: seq<Alarm>, a: Alarm)
    requires Sorted(s)
    ensures Sorted(InsertSorted(s, a))
  {
    if s != [] && s[0].time < a.time {
      InsertSortedKeepsOrder(s[1..], a);
      var r := InsertSorted(s, a);
      var t := InsertSorted(s[1..], a);
      assert r == [s[0]] + t;
      InsertSortedLowerBound(s[1..], a, s[0].time);
      forall i, j | 0 <= i < j < |r| ensures r[i].time <= r[j].time {
        if i == 0 {
          assert r[j] == t[j - 1];
        }
      }
    }
  }

  /** A time bound shared by the new alarm and every old entry holds for the result. */
  lemma {:induction false} InsertSortedLowerBound(s: seq<Alarm>, a: Alarm, lo: int)
    requires a.time >= lo && forall j :: 0 <= j < |s| ==> s[j].time >= lo
    ensures forall j :: 0 <= j < |InsertSorted(s, a)| ==> InsertSorted(s, a)[j].time >= lo
  {
    if s != [] && s[0].time < a.time {
      InsertSortedLowerBound(s[1..], a, lo);
      var t := InsertSorted(s[1..], a);
      assert InsertSorted(s, a) == [s[0]] + t;
    }
  }

  /** The insertion holds the old entries plus exactly one new one. */
  lemma {:induction false} InsertSortedElements(s: seq<Alarm>, a: Alarm)
    ensures |InsertSorted(s, a)| == |s| + 1
    ensures multiset(InsertSorted(s, a)) == multiset(s) + multiset{a}
  {
    if s != [] && s[0].time < a.time {
      InsertSortedElements(s[1..], a);
      assert s == [s[0]] + s[1..];
    }
  }

  /** Where the new alarm lands: every entry before it is due strictly earlier,
      and the entry right after it (if any) is due no earlier, so it goes ahead
      of entries with the same time. */
  lemma InsertSortedPlacement(s: seq<Alarm>, a: Alarm)
    ensures |InsertSorted(s, a)| == |s| + 1
    ensures var k := InsertPos(s, a.time);
      && InsertSorted(s, a)[k] == a
      && (forall j :: 0 <= j < k ==> InsertSorted(s, a)[j].time < a.time)
      && (k < |s| ==> InsertSorted(s, a)[k + 1].time >= a.time)
  {
    InsertSortedIsSplice(s, a);
  }

  /** When every entry is due strictly earlier, the alarm is appended at the tail. */
  lemma {:induction false} InsertSortedAppends(s: seq<Alarm>, a: Alarm)
    requires forall j :: 0 <= j < |s| ==> s[j].time < a.time
    ensures InsertSorted(s, a) == s + [a]
  {
    if s != [] {
      InsertSortedAppends(s[1..], a);
      assert s == [s[0]] + s[1..];
    }
  }

  /** The outcome of the wake-up rule: the new marker and whether the condition
      variable is signalled. */
  datatype Wakeup = Wakeup(current: int, signal: bool)

  /** The rule `alarm_insert` applies after its splice (the inline insertion in
      `main` does not apply it): a marker of 0 means the alarm
      thread is waiting for work; otherwise the marker moves only to an earlier
      time. The signal is issued exactly when the marker is assigned. */
  function Wake(current: int, t: int): (w: Wakeup)
    ensures w.signal <==> current == 0 || t < current
    ensures current == 0 ==> w.current == t
    ensures current != 0 ==> w.current == (if t < current then t else current)
    ensures !w.signal ==> w.current == current
  {
    if current == 0 || t < current then Wakeup(t, true) else Wakeup(current, false)
  }

  /** The marker tracks the head of the list: if it was 0 on an empty list, or
      equal to the head's time on a non-empty list whose times are positive,
      then after the insertion it equals the new head's time. */
  lemma CurrentTracksHead(s: seq<Alarm>, a: Alarm, current: int)
    requires forall j :: 0 <= j < |s| ==> s[j].time > 0
    requires if s == [] then current == 0 else current == s[0].time
    ensures InsertSorted(s, a) != []
    ensures Wake(current, a.time).current == InsertSorted(s, a)[0].time
  {
    InsertSortedIsSplice(s, a);
    if s != [] && a.time >= s[0].time {
      assert InsertPos(s, a.time) == 0 || InsertSorted(s, a)[0] == s[0];
    }
  }
}
