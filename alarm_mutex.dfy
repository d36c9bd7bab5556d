/** alarm_mutex.c: the main thread links each request into the sorted
    alarm list with an inline walk, and the alarm thread repeatedly
    unlinks the head, sleeps until it is due and then reports it. Each
    region the mutex protects is one method; the sleep and the report
    that follow it are a second step of the alarm thread. */
module AlarmMutex {
  import opened AlarmList

  /** Where the alarm thread is in its loop: about to lock the list, or
      asleep after the lock, either with no alarm (the list was empty) or
      holding the alarm it unlinked. */
  datatype Phase = Polling | Napping | Sleeping(alarm: Alarm)

  /** How long the alarm thread sleeps for an alarm due at `alarmTime`:
      long enough that it wakes no earlier than the alarm is due, and not
      at all when the alarm is already due. */
  function SleepTime(alarmTime: int, now: int): (r: int)
    ensures r >= 0
    ensures now + r >= alarmTime
    ensures r == 0 || now + r == alarmTime
  {
    if alarmTime <= now then 0 else alarmTime - now
  }

  class AlarmMutexServer {
    /** The shared alarm list, head first. */
    var alarmList: seq<Alarm>
    /** The alarm thread's position in its loop, with the alarm it holds. */
    var phase: Phase
    /** The alarms the alarm thread has reported (and freed), in order. */
    var reported: seq<Alarm>
    /** Every alarm ever requested. */
    ghost var requested: multiset<Alarm>

    /** The alarm the alarm thread holds while it sleeps, if any. */
    ghost function Held(): multiset<Alarm>
      reads this
    {
      if phase.Sleeping? then multiset{phase.alarm} else multiset{}
    }

    /** The list stays sorted, and every requested alarm is in exactly one
        place: in the list, held by the sleeping thread, or reported. */
    ghost predicate Valid()
      reads this
    {
      && Sorted(alarmList)
      && requested == multiset(alarmList) + Held() + multiset(reported)
    }

    /** The program's start: an empty list and an alarm thread about to
        take its first look. */
    constructor ()
      ensures Valid()
      ensures alarmList == [] && phase == Polling && reported == []
    {
      alarmList := [];
      phase := Polling;
      reported := [];
      requested := multiset{};
    }

    /** The main thread's region under the mutex for one well-formed
        command: the alarm becomes due `seconds` after `now` and is linked
        in after every alarm due no later than it. */
    method Request(now: int, seconds: int, message: string)
      requires Valid()
      modifies this
      ensures Valid()
      ensures alarmList == Insert(old(alarmList), NewAlarm(now, seconds, message))
      ensures phase == old(phase) && reported == old(reported)
      ensures requested == old(requested) + multiset{NewAlarm(now, seconds, message)}
    {
      var alarm := NewAlarm(now, seconds, message);
      var next := FindLink(alarmList, alarm.time);
      InsertKeepsSorted(alarmList, alarm);
      InsertIsPermutation(alarmList, alarm);
      alarmList := alarmList[..next] + [alarm] + alarmList[next..];
      requested := requested + multiset{alarm};
    }

    /** The alarm thread's region under the mutex: with an empty list it
        plans to sleep one second and takes nothing; otherwise it unlinks
        the head and sleeps until that alarm is due. */
    method TakeHead(now: int) returns (sleepTime: int)
      requires Valid() && phase == Polling
      modifies this
      ensures Valid()
      ensures sleepTime >= 0
      ensures old(alarmList) == [] ==> sleepTime == 1 && alarmList == [] && phase == Napping
      ensures old(alarmList) != [] ==>
        && alarmList == old(alarmList)[1..]
        && phase == Sleeping(old(alarmList)[0])
        && sleepTime == SleepTime(old(alarmList)[0].time, now)
      ensures reported == old(reported)
    {
      if alarmList == [] {
        sleepTime := 1;
        phase := Napping;
      } else {
        var alarm := alarmList[0];
        assert alarmList == [alarm] + alarmList[1..];
        TailKeepsSorted(alarmList);
        alarmList := alarmList[1..];
        sleepTime := SleepTime(alarm.time, now);
        phase := Sleeping(alarm);
      }
    }

    /** After the sleep, outside the mutex: the alarm taken, if any, is
        reported and freed, exactly once. */
    method WakeUp()
      requires Valid() && phase != Polling
      modifies this
      ensures Valid()
      ensures phase == Polling && alarmList == old(alarmList)
      ensures reported == old(reported) + (if old(phase).Sleeping? then [old(phase).alarm] else [])
    {
      if phase.Sleeping? {
        reported := reported + [phase.alarm];
      }
      phase := Polling;
    }
  }

  /** Nothing is lost: once the list is empty and the alarm thread holds
      nothing, every alarm requested has been reported, each as often as
      it was requested. */
  lemma AllRequestedReported(s: AlarmMutexServer)
    requires s.Valid() && s.alarmList == [] && s.phase == Polling
    ensures multiset(s.reported) == s.requested
  {
  }
}
