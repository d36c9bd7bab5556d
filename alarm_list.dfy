/** The expiry-ordered alarm list shared by the two alarm servers
    (alarm_mutex.c and alarm_cond.c): the alarm record, the order the
    list is kept in, and the stable splice both servers perform when a
    new alarm is linked in. */
module AlarmList {

  /** One alarm request: its absolute expiry time (seconds since the
      Epoch), the relative seconds the user typed and the message. */
  datatype Alarm = Alarm(time: int, seconds: int, message: string)

  /** The list is ordered by non-decreasing expiry time. */
  ghost predicate Sorted(s: seq<Alarm>) {
    forall i, j :: 0 <= i < j < |s| ==> s[i].time <= s[j].time
  }

  /** The alarm a request for `seconds` made at `now` creates. */
  function NewAlarm(now: int, seconds: int, message: string): (a: Alarm)
    ensures a.time - now == a.seconds == seconds && a.message == message
  {
    Alarm(now + seconds, seconds, message)
  }

  /** Where a walk from the head stops: at the first alarm whose time is
      strictly later than `t`, or at the end of the list. */
  function InsertPos(s: seq<Alarm>, t: int): (k: nat)
    ensures k <= |s|
    ensures forall i :: 0 <= i < k ==> s[i].time <= t
    ensures k < |s| ==> s[k].time > t
  {
    if s == [] || s[0].time > t then 0 else 1 + InsertPos(s[1..], t)
  }

  /** The list with `a` linked in where the walk stops. */
  function Insert(s: seq<Alarm>, a: Alarm): (r: seq<Alarm>)
    ensures |r| == |s| + 1
    ensures s == [] ==> r == [a]
  {
    var k := InsertPos(s, a.time);
    s[..k] + [a] + s[k..]
  }

  /** The list with the element at position `k` unlinked. */
  function RemoveAt(s: seq<Alarm>, k: nat): (r: seq<Alarm>)
    requires k < |s|
    ensures |r| == |s| - 1
  {
    s[..k] + s[k + 1..]
  }

  /** The three facts the walk establishes fix its stopping point. */
  lemma InsertPosUnique(s: seq<Alarm>, t: int, k: nat)
    requires k <= |s|
    requires forall i :: 0 <= i < k ==> s[i].time <= t
    requires k < |s| ==> s[k].time > t
    ensures k == InsertPos(s, t)
  {
  }

  /** Insertion puts the new alarm at the stopping point and leaves the
      other alarms in their old relative order: unlinking it again gives
      back the old list. */
  lemma InsertSplices(s: seq<Alarm>, a: Alarm)
    ensures var k := InsertPos(s, a.time);
      Insert(s, a)[k] == a && RemoveAt(Insert(s, a), k) == s
  {
    var k := InsertPos(s, a.time);
    var r := Insert(s, a);
    assert r[..k] == s[..k];
    assert r[k + 1..] == s[k..];
    assert s == s[..k] + s[k..];
  }

  /** Insertion adds exactly the new alarm: nothing is lost or duplicated. */
  lemma InsertIsPermutation(s: seq<Alarm>, a: Alarm)
    ensures multiset(Insert(s, a)) == multiset(s) + multiset{a}
  {
    var k := InsertPos(s, a.time);
    assert s == s[..k] + s[k..];
  }

  /** Insertion into a sorted list yields a sorted list. */
  lemma InsertKeepsSorted(s: seq<Alarm>, a: Alarm)
    requires Sorted(s)
    ensures Sorted(Insert(s, a))
  {
    var k := InsertPos(s, a.time);
    var r := Insert(s, a);
    forall i, j | 0 <= i < j < |r|
      ensures r[i].time <= r[j].time
    {
      // r[x] is s[x] before k, a at k and s[x - 1] after k
      if j < k {
        assert r[i] == s[i] && r[j] == s[j];
      } else if j == k {
        assert r[i] == s[i] && r[j] == a;
      } else if i < k {
        assert r[i] == s[i] && r[j] == s[j - 1];
      } else if i == k {
        assert r[i] == a && r[j] == s[j - 1];
        assert s[k].time > a.time;
        assert k == j - 1 || s[k].time <= s[j - 1].time;
      } else {
        assert r[i] == s[i - 1] && r[j] == s[j - 1];
      }
    }
  }

  /** Stability: in a sorted list the new alarm goes after exactly the
      alarms whose time is equal to or earlier than its own. */
  lemma InsertIsStable(s: seq<Alarm>, a: Alarm)
    requires Sorted(s)
    ensures forall i :: 0 <= i < |s| ==> (i < InsertPos(s, a.time) <==> s[i].time <= a.time)
  {
    var k := InsertPos(s, a.time);
    forall i | 0 <= i < |s| && k <= i
      ensures s[i].time > a.time
    {
      assert s[k].time <= s[i].time;
    }
  }

  /** Two alarms with the same time keep their arrival order: the one
      inserted second lands immediately after the first. */
  lemma EqualTimesKeepArrivalOrder(s: seq<Alarm>, a: Alarm, b: Alarm)
    requires a.time == b.time
    ensures var k := InsertPos(s, a.time);
      var r := Insert(Insert(s, a), b);
      InsertPos(Insert(s, a), b.time) == k + 1 && r[k] == a && r[k + 1] == b
  {
    var k := InsertPos(s, a.time);
    var s1 := Insert(s, a);
    assert s1[..k] == s[..k];
    assert s1[k] == a;
    assert k + 1 < |s1| ==> s1[k + 1] == s[k];
    InsertPosUnique(s1, b.time, k + 1);
    var r := Insert(s1, b);
    assert r[..k + 1] == s1[..k + 1];
  }

  /** The walk both servers perform: follow the links from the head
      until an alarm due strictly later than `t` is met, or the list
      ends. The result is the position whose incoming link is patched. */
  method FindLink(s: seq<Alarm>, t: int) returns (next: nat)
    ensures next == InsertPos(s, t)
  {
    next := 0;
    while next < |s|
      invariant next <= |s|
      invariant forall i :: 0 <= i < next ==> s[i].time <= t
    {
      if s[next].time > t {
        break;
      }
      next := next + 1;
    }
    InsertPosUnique(s, t, next);
  }

  /** Unlinking the head of a sorted list leaves a sorted list. */
  lemma TailKeepsSorted(s: seq<Alarm>)
    requires Sorted(s) && s != []
    ensures Sorted(s[1..])
  {
  }
}
