/** alarm_cond.c: like alarm_mutex.c, but the alarm thread waits on a
    condition variable until its alarm is due, and `current_time`, the
    time the alarm thread is waiting for (0 when it waits for nothing),
    lets the main thread signal it only when a new alarm is due earlier.
    Each region the mutex protects is one method; a return from a
    condition wait starts a new step. */
module AlarmCond {
  import opened AlarmList
  import opened Options

  /** Where the alarm thread is in its loop: at the top, having reset
      `current_time` and waiting for the list to be non-empty, or in the
      timed wait for the unexpired alarm it unlinked. */
  datatype Phase = Top | AwaitingList | Holding(alarm: Alarm)

  /** The test insert_alarm applies: the alarm thread is told about a new
      alarm due at `t` when it waits for nothing or for a later time. */
  predicate Preempts(currentTime: int, t: int) {
    currentTime == 0 || currentTime > t
  }

  class AlarmCondServer {
    /** The shared alarm list, head first. */
    var alarmList: seq<Alarm>
    /** The expiry time the alarm thread is waiting for, 0 for none. */
    var currentTime: int
    /** The alarm thread's position in its loop, with the alarm it holds. */
    var phase: Phase
    /** The alarms the alarm thread has reported (and freed), in order. */
    var reported: seq<Alarm>
    /** Every alarm ever requested. */
    ghost var requested: multiset<Alarm>

    /** The alarm the alarm thread holds during its timed wait, if any. */
    ghost function Held(): multiset<Alarm>
      reads this
    {
      if phase.Holding? then multiset{phase.alarm} else multiset{}
    }

    /** The list stays sorted, and every requested alarm is in exactly one
        place: in the list, held by the waiting thread, or reported. */
    ghost predicate Valid()
      reads this
    {
      && Sorted(alarmList)
      && requested == multiset(alarmList) + Held() + multiset(reported)
    }

    /** The program's start: an empty list, no time waited for, and the
        alarm thread at the top of its loop. */
    constructor ()
      ensures Valid()
      ensures alarmList == [] && currentTime == 0 && phase == Top && reported == []
    {
      alarmList := [];
      currentTime := 0;
      phase := Top;
      reported := [];
      requested := multiset{};
    }

    /** insert_alarm: links `alarm` in after every alarm due no later than
        it, and signals the alarm thread, recording the new time, exactly
        when the alarm preempts the time it waits for. */
    method InsertAlarm(alarm: Alarm) returns (signaled: bool)
      requires Sorted(alarmList)
      modifies this`alarmList, this`currentTime
      ensures Sorted(alarmList)
      ensures alarmList == Insert(old(alarmList), alarm)
      ensures multiset(alarmList) == multiset(old(alarmList)) + multiset{alarm}
      ensures signaled <==> Preempts(old(currentTime), alarm.time)
      ensures currentTime == if signaled then alarm.time else old(currentTime)
    {
      var next := FindLink(alarmList, alarm.time);
      InsertKeepsSorted(alarmList, alarm);
      InsertIsPermutation(alarmList, alarm);
      alarmList := alarmList[..next] + [alarm] + alarmList[next..];
      signaled := currentTime == 0 || currentTime > alarm.time;
      if signaled {
        currentTime := alarm.time;
      }
    }

    /** The main thread's region under the mutex for one well-formed
        command: the alarm becomes due `seconds` after `now` and is
        inserted. */
    method Request(now: int, seconds: int, message: string) returns (signaled: bool)
      requires Valid()
      modifies this
      ensures Valid()
      ensures alarmList == Insert(old(alarmList), NewAlarm(now, seconds, message))
      ensures requested == old(requested) + multiset{NewAlarm(now, seconds, message)}
      ensures phase == old(phase) && reported == old(reported)
      ensures signaled <==> Preempts(old(currentTime), now + seconds)
      ensures currentTime == if signaled then now + seconds else old(currentTime)
    {
      var alarm := NewAlarm(now, seconds, message);
      ghost var held := Held();
      signaled := InsertAlarm(alarm);
      requested := requested + multiset{alarm};
      assert Held() == held;
    }

    /** The top of the alarm thread's loop: it locks the list and forgets
        the time it waited for, then waits until the list is non-empty. */
    method BeginIteration()
      requires Valid() && phase == Top
      modifies this
      ensures Valid()
      ensures currentTime == 0 && phase == AwaitingList
      ensures alarmList == old(alarmList) && reported == old(reported)
    {
      currentTime := 0;
      phase := AwaitingList;
    }

    /** Once the list is non-empty the alarm thread unlinks its head. An
        alarm due no later than `now` has expired and is reported; a later
        one is held, and its time becomes the time waited for. */
    method TakeHead(now: int) returns (fired: Option<Alarm>)
      requires Valid() && phase == AwaitingList && alarmList != []
      modifies this
      ensures Valid()
      ensures alarmList == old(alarmList)[1..]
      ensures var head := old(alarmList)[0];
        if head.time <= now then
          fired == Some(head) && reported == old(reported) + [head]
          && phase == Top && currentTime == old(currentTime)
        else
          fired == None && reported == old(reported)
          && phase == Holding(head) && currentTime == head.time
    {
      var alarm := alarmList[0];
      assert alarmList == [alarm] + alarmList[1..];
      TailKeepsSorted(alarmList);
      alarmList := alarmList[1..];
      if alarm.time > now {
        currentTime := alarm.time;
        phase := Holding(alarm);
        fired := None;
      } else {
        reported := reported + [alarm];
        phase := Top;
        fired := Some(alarm);
      }
    }

    /** A return from the timed wait. On a time-out the held alarm has
        expired and is reported. Otherwise, if the time waited for is still
        the held alarm's, the thread waits again; if a new, earlier alarm
        changed it, the held alarm goes back into the list, so none is
        lost. */
    method Wake(timedOut: bool) returns (fired: Option<Alarm>)
      requires Valid() && phase.Holding?
      modifies this`alarmList, this`currentTime, this`phase, this`reported
      ensures Valid()
      ensures var held := old(phase).alarm;
        if timedOut then
          fired == Some(held) && reported == old(reported) + [held]
          && phase == Top && alarmList == old(alarmList) && currentTime == old(currentTime)
        else if old(currentTime) == held.time then
          fired == None && phase == old(phase) && reported == old(reported)
          && alarmList == old(alarmList) && currentTime == old(currentTime)
        else
          fired == None && phase == Top && reported == old(reported)
          && alarmList == Insert(old(alarmList), held)
          && currentTime == (if Preempts(old(currentTime), held.time) then held.time else old(currentTime))
    {
      var alarm := phase.alarm;
      // the held alarm moves to the reported alarms or back into the list
      assert requested == multiset(alarmList) + multiset{alarm} + multiset(reported);
      if timedOut {
        assert multiset(reported + [alarm]) == multiset(reported) + multiset{alarm};
        reported := reported + [alarm];
        phase := Top;
        fired := Some(alarm);
      } else if currentTime == alarm.time {
        fired := None;
      } else {
        var _ := InsertAlarm(alarm);
        phase := Top;
        fired := None;
        assert Held() == multiset{};
      }
    }
  }
}
