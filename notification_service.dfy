/** The browser reminder scheduler (src/services/notificationService.ts): it
    keeps the current settings and the ids of two pending timeouts, the
    daily reminder and the deadline, and re-arms each one when it fires.
    The browser's timeout table is modelled as the `pending` map with its id
    counter; the current instant is a parameter, in milliseconds on the
    local clock of module TimeOfDay. Showing a notification is the browser's
    and is represented only by what `Fire` reports. */
module NotificationService {
  import opened FamilyTypes
  import opened TimeOfDay
  import opened NotificationSettings

  datatype TimerKind = Reminder | Deadline

  /** A pending timeout: what it is for and when it fires. */
  datatype Timer = Timer(kind: TimerKind, fireAt: nat)

  /** `getNextScheduledTime` as a value: the next occurrence of the time, or
      `None` for a time string that does not parse (`setHours(NaN)` makes an
      invalid date, which compares false with any instant). */
  function NextScheduledTime(timeString: string, now: nat): Option<nat>
  {
    match ParseTime(timeString)
    case None => None
    case Some(c) => Some(NextOccurrence(now, c))
  }

  /** `getNextScheduledTime`, step by step on a copy of `now`. For an
      `HH:MM` time of day the result is strictly after `now`, at most a day
      later, on that hour and minute with zero seconds, and on today's date
      exactly when today's occurrence is still ahead. */
  method GetNextScheduledTime(timeString: string, now: nat) returns (r: Option<nat>)
    ensures r == NextScheduledTime(timeString, now)
    ensures r.Some? <==> ParseTime(timeString).Some?
    ensures r.Some? && ValidClock(ParseTime(timeString).value) ==>
              var c := ParseTime(timeString).value;
              now < r.value <= now + MsPerDay && r.value % MsPerMinute == 0 &&
              HoursOf(r.value) == c.hours && MinutesOf(r.value) == c.minutes &&
              (r.value / MsPerDay == now / MsPerDay <==> TodayAt(now, c) > now)
  {
    var parsed := ParseTime(timeString);
    if parsed.None? {
      return None;
    }
    var c := parsed.value;
    var scheduledTime := now;
    scheduledTime := DayStart(scheduledTime) + c.hours * MsPerHour + c.minutes * MsPerMinute;
    if scheduledTime <= now {
      scheduledTime := scheduledTime + MsPerDay;
    }
    if ValidClock(c) {
      NextOccurrenceProperties(now, c);
    }
    r := Some(scheduledTime);
  }

  /** `time > now` for the result of `getNextScheduledTime`; an invalid date
      is never ahead. */
  predicate Due(t: Option<nat>, now: nat)
  {
    t.Some? && t.value > now
  }

  /** `canSendNotification`: the Notification API exists, permission is
      granted and the settings are enabled. */
  predicate CanSendNotification(apiAvailable: bool, permission: string, settings: Option<Settings>)
  {
    apiAvailable && permission == "granted" && settings.Some? && settings.value.enabled
  }

  /** The status wording of the change notification (and of the app's
      toast). */
  function StatusText(s: AttendanceStatus): (r: string)
    ensures s == Present <==> r == "出席"
    ensures s == Absent <==> r == "欠席"
    ensures s == Unknown <==> r == "未定"
  {
    match s
    case Present => "出席"
    case Absent => "欠席"
    case Unknown => "未定"
  }

  function StatusEmoji(s: AttendanceStatus): (r: string)
    ensures s == Present <==> r == "🍽️"
    ensures s == Absent <==> r == "❌"
    ensures s == Unknown <==> r == "❓"
  {
    match s
    case Present => "🍽️"
    case Absent => "❌"
    case Unknown => "❓"
  }

  class Scheduler {
    var settings: Option<Settings>
    var reminderTimeoutId: Option<nat>
    var deadlineTimeoutId: Option<nat>
    /** The browser's pending timeouts created by this object. */
    var pending: map<nat, Timer>
    /** The id the browser hands out next; ids start at 1. */
    var nextTimerId: nat

    /** Every pending timeout is the one a field names, of that field's
        kind, and every id handed out is below the counter. */
    ghost predicate Valid()
      reads this
    {
      && nextTimerId >= 1
      && (forall id | id in pending :: 1 <= id < nextTimerId)
      && (reminderTimeoutId.Some? ==> 1 <= reminderTimeoutId.value < nextTimerId)
      && (deadlineTimeoutId.Some? ==> 1 <= deadlineTimeoutId.value < nextTimerId)
      && (forall id | id in pending ::
            (pending[id].kind == Reminder && reminderTimeoutId == Some(id)) ||
            (pending[id].kind == Deadline && deadlineTimeoutId == Some(id)))
    }

    constructor()
      ensures Valid() && settings.None? && reminderTimeoutId.None? && deadlineTimeoutId.None? && pending == map[]
    {
      settings := None;
      reminderTimeoutId := None;
      deadlineTimeoutId := None;
      pending := map[];
      nextTimerId := 1;
    }

    /** `clearTimeout` of an id: a no-op for an id that is not pending. */
    method ClearTimeout(id: nat)
      modifies this
      ensures pending == old(pending) - {id}
      ensures settings == old(settings) && nextTimerId == old(nextTimerId)
      ensures reminderTimeoutId == old(reminderTimeoutId) && deadlineTimeoutId == old(deadlineTimeoutId)
    {
      pending := pending - {id};
    }

    /** `window.setTimeout`: a fresh id for a new pending timeout. */
    method SetTimeout(t: Timer) returns (id: nat)
      modifies this
      ensures id == old(nextTimerId) && nextTimerId == old(nextTimerId) + 1
      ensures pending == old(pending)[id := t]
      ensures settings == old(settings)
      ensures reminderTimeoutId == old(reminderTimeoutId) && deadlineTimeoutId == old(deadlineTimeoutId)
    {
      id := nextTimerId;
      pending := pending[id := t];
      nextTimerId := nextTimerId + 1;
    }

    /** The field names a pending timeout of that kind, due at `due`. */
    ghost predicate Armed(field: Option<nat>, kind: TimerKind, due: nat)
      reads this
    {
      field.Some? && field.value in pending && pending[field.value] == Timer(kind, due)
    }

    ghost predicate NonePending(kind: TimerKind)
      reads this
    {
      forall id | id in pending :: pending[id].kind != kind
    }

    /** Clearing both fields' timeouts leaves nothing pending. */
    method ClearBoth()
      requires Valid()
      modifies this
      ensures Valid() && pending == map[]
      ensures settings == old(settings) && nextTimerId == old(nextTimerId)
      ensures reminderTimeoutId == old(reminderTimeoutId) && deadlineTimeoutId == old(deadlineTimeoutId)
    {
      if reminderTimeoutId.Some? {
        ClearTimeout(reminderTimeoutId.value);
      }
      if deadlineTimeoutId.Some? {
        ClearTimeout(deadlineTimeoutId.value);
      }
    }

    method ArmReminder(due: nat)
      requires Valid() && NonePending(Reminder)
      modifies this
      ensures Valid() && Armed(reminderTimeoutId, Reminder, due)
      ensures reminderTimeoutId == Some(old(nextTimerId)) && nextTimerId == old(nextTimerId) + 1
      ensures pending == old(pending)[old(nextTimerId) := Timer(Reminder, due)]
      ensures settings == old(settings) && deadlineTimeoutId == old(deadlineTimeoutId)
    {
      var id := SetTimeout(Timer(Reminder, due));
      reminderTimeoutId := Some(id);
    }

    method ArmDeadline(due: nat)
      requires Valid() && NonePending(Deadline)
      modifies this
      ensures Valid() && Armed(deadlineTimeoutId, Deadline, due)
      ensures deadlineTimeoutId == Some(old(nextTimerId)) && nextTimerId == old(nextTimerId) + 1
      ensures pending == old(pending)[old(nextTimerId) := Timer(Deadline, due)]
      ensures settings == old(settings) && reminderTimeoutId == old(reminderTimeoutId)
    {
      var id := SetTimeout(Timer(Deadline, due));
      deadlineTimeoutId := Some(id);
    }

    /** `scheduleNotifications`: clears both timeouts (keeping their ids in
        the fields), stops there when the settings are missing or disabled,
        and otherwise arms each timer whose next time is after `now`. Every
        timeout pending afterwards is a new one. */
    method ScheduleNotifications(now: nat)
      requires Valid()
      modifies this
      ensures Valid() && settings == old(settings)
      ensures forall id | id in pending :: id >= old(nextTimerId)
      ensures settings.None? || !settings.value.enabled ==>
                pending == map[] && reminderTimeoutId == old(reminderTimeoutId) &&
                deadlineTimeoutId == old(deadlineTimeoutId)
      ensures settings.Some? && settings.value.enabled ==>
                var r := NextScheduledTime(settings.value.reminderTime, now);
                (Due(r, now) ==> Armed(reminderTimeoutId, Reminder, r.value)) &&
                (!Due(r, now) ==> NonePending(Reminder))
      ensures settings.Some? && settings.value.enabled ==>
                var d := NextScheduledTime(settings.value.deadlineTime, now);
                (Due(d, now) ==> Armed(deadlineTimeoutId, Deadline, d.value)) &&
                (!Due(d, now) ==> NonePending(Deadline))
    {
      ClearBoth();
      if settings.None? || !settings.value.enabled {
        return;
      }
      ArmReminderIfDue(settings.value.reminderTime, now);
      ArmDeadlineIfDue(settings.value.deadlineTime, now);
    }

    /** The reminder half of `scheduleNotifications`: the next time of the
        reminder, and a timeout for it when that time is ahead. */
    method ArmReminderIfDue(reminderTime: string, now: nat)
      requires Valid() && NonePending(Reminder) && NonePending(Deadline)
      modifies this
      ensures Valid() && settings == old(settings) && deadlineTimeoutId == old(deadlineTimeoutId)
      ensures NonePending(Deadline) && nextTimerId >= old(nextTimerId)
      ensures forall id | id in pending :: id >= old(nextTimerId)
      ensures var r := NextScheduledTime(reminderTime, now);
        (Due(r, now) ==> Armed(reminderTimeoutId, Reminder, r.value)) && (!Due(r, now) ==> NonePending(Reminder))
    {
      var r := GetNextScheduledTime(reminderTime, now);
      if r.Some? && r.value > now {
        ArmReminder(r.value);
      }
    }

    /** The deadline half of `scheduleNotifications`; a reminder armed
        before it stays armed. */
    method ArmDeadlineIfDue(deadlineTime: string, now: nat)
      requires Valid() && NonePending(Deadline)
      modifies this
      ensures Valid() && settings == old(settings) && reminderTimeoutId == old(reminderTimeoutId)
      ensures forall id | id in old(pending) :: id in pending && pending[id] == old(pending)[id]
      ensures forall id | id in pending && id !in old(pending) :: id >= old(nextTimerId) && pending[id].kind == Deadline
      ensures var d := NextScheduledTime(deadlineTime, now);
        (Due(d, now) ==> Armed(deadlineTimeoutId, Deadline, d.value)) && (!Due(d, now) ==> NonePending(Deadline))
    {
      var d := GetNextScheduledTime(deadlineTime, now);
      if d.Some? && d.value > now {
        ArmDeadline(d.value);
      }
    }

    /** `updateSettings`: stores the settings and reschedules; enabled
        settings with parsable times always arm both timers. */
    method UpdateSettings(st: Settings, now: nat)
      requires Valid()
      modifies this
      ensures Valid() && settings == Some(st)
      ensures forall id | id in old(pending) :: id !in pending
      ensures !st.enabled ==> pending == map[]
      ensures st.enabled && ParseTime(st.reminderTime).Some? ==>
                Armed(reminderTimeoutId, Reminder, NextScheduledTime(st.reminderTime, now).value)
      ensures st.enabled && ParseTime(st.deadlineTime).Some? ==>
                Armed(deadlineTimeoutId, Deadline, NextScheduledTime(st.deadlineTime, now).value)
    {
      settings := Some(st);
      if ParseTime(st.reminderTime).Some? {
        NextAfterNow(now, ParseTime(st.reminderTime).value);
      }
      if ParseTime(st.deadlineTime).Some? {
        NextAfterNow(now, ParseTime(st.deadlineTime).value);
      }
      ScheduleNotifications(now);
    }

    /** A pending timeout fires at `now`: it is no longer pending, the
        notification goes out when `canSendNotification` allows, and the
        scheduler re-arms both timers at `now` as `scheduleNotifications`
        does. A timer that fires at an occurrence of its time of day (every
        time the scheduler arms is one, by `RearmedNextDay`) is armed again
        exactly one day later. */
    method Fire(id: nat, now: nat, apiAvailable: bool, permission: string) returns (sent: Option<TimerKind>)
      requires Valid() && id in pending
      modifies this
      ensures Valid() && settings == old(settings)
      ensures sent.Some? <==> CanSendNotification(apiAvailable, permission, settings)
      ensures sent.Some? ==> sent.value == old(pending)[id].kind
      ensures id !in pending && forall pid | pid in pending :: pid >= old(nextTimerId)
      ensures settings.None? || !settings.value.enabled ==> pending == map[]
      ensures settings.Some? && settings.value.enabled ==>
                var r := NextScheduledTime(settings.value.reminderTime, now);
                (Due(r, now) ==> Armed(reminderTimeoutId, Reminder, r.value)) &&
                (!Due(r, now) ==> NonePending(Reminder))
      ensures settings.Some? && settings.value.enabled ==>
                var d := NextScheduledTime(settings.value.deadlineTime, now);
                (Due(d, now) ==> Armed(deadlineTimeoutId, Deadline, d.value)) &&
                (!Due(d, now) ==> NonePending(Deadline))
      ensures settings.Some? && settings.value.enabled && ParseTime(settings.value.reminderTime).Some? &&
              TodayAt(now, ParseTime(settings.value.reminderTime).value) == now ==>
                Armed(reminderTimeoutId, Reminder, now + MsPerDay)
      ensures settings.Some? && settings.value.enabled && ParseTime(settings.value.deadlineTime).Some? &&
              TodayAt(now, ParseTime(settings.value.deadlineTime).value) == now ==>
                Armed(deadlineTimeoutId, Deadline, now + MsPerDay)
    {
      var kind := pending[id].kind;
      pending := pending - {id};
      sent := if CanSendNotification(apiAvailable, permission, settings) then Some(kind) else None;
      ScheduleNotifications(now);
    }

    /** `clearNotifications`: clears both timeouts and forgets their ids. */
    method ClearNotifications()
      requires Valid()
      modifies this
      ensures Valid() && pending == map[] && reminderTimeoutId.None? && deadlineTimeoutId.None?
      ensures settings == old(settings)
    {
      if reminderTimeoutId.Some? {
        ClearTimeout(reminderTimeoutId.value);
        reminderTimeoutId := None;
      }
      if deadlineTimeoutId.Some? {
        ClearTimeout(deadlineTimeoutId.value);
        deadlineTimeoutId := None;
      }
    }

    /** `destroy`: clears the timeouts and forgets the settings. */
    method Destroy()
      requires Valid()
      modifies this
      ensures Valid() && pending == map[] && reminderTimeoutId.None? && deadlineTimeoutId.None?
      ensures settings.None?
    {
      ClearNotifications();
      settings := None;
    }
  }

  /** Every parsed time, valid or rolled over by `setHours`, lies ahead of
      `now`, so enabled settings with parsable times always arm a timer. */
  lemma NextAfterNow(now: nat, c: Clock)
    ensures NextOccurrence(now, c) > now
  {
    var d := now / MsPerDay;
    DivModUnique(now, d, now % MsPerDay, MsPerDay);
  }

  /** A timer re-armed at the instant it fires is due exactly one day later. */
  lemma RearmedNextDay(timeString: string, now: nat)
    requires ParseTime(timeString).Some? && ValidClock(ParseTime(timeString).value)
    ensures var t := NextScheduledTime(timeString, now).value;
      TodayAt(t, ParseTime(timeString).value) == t &&
      NextScheduledTime(timeString, t) == Some(t + MsPerDay)
  {
    NextOccurrenceAtItself(now, ParseTime(timeString).value);
  }
}
