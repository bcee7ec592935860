/** `DailyQuoteWorker`: the daily notification job and its scheduling. */
module DailyQuoteWorker {
  import opened Wrappers
  import opened Settings
  import opened Domain

  const WorkName := "daily_quote_notification"
  const MinutesPerDay := 24 * 60

  /** Minutes since midnight; seconds are ignored. */
  function MinuteOfDay(t: LocalTime): (m: int)
    ensures 0 <= m < MinutesPerDay
  {
    t.hour * 60 + t.minute
  }

  /** The initial delay `schedule` computes: target minus current minutes,
      plus a day when that is negative. */
  function DelayMinutes(target: LocalTime, current: LocalTime): (d: int)
    ensures 0 <= d < MinutesPerDay
    ensures (MinuteOfDay(current) + d) % MinutesPerDay == MinuteOfDay(target)
    ensures d == 0 <==> MinuteOfDay(current) == MinuteOfDay(target)
  {
    var d := MinuteOfDay(target) - MinuteOfDay(current);
    if d < 0 then d + MinutesPerDay else d
  }

  /** The delay is the only one in a day that reaches the target: any delay
      under a day that ends on the target minute is `DelayMinutes`. */
  lemma DelayIsUnique(target: LocalTime, current: LocalTime, e: int)
    requires 0 <= e < MinutesPerDay
    requires (MinuteOfDay(current) + e) % MinutesPerDay == MinuteOfDay(target)
    ensures e == DelayMinutes(target, current)
  {
    var c := MinuteOfDay(current);
    var d := DelayMinutes(target, current);
    assert c + e == MinuteOfDay(target) || c + e == MinuteOfDay(target) + MinutesPerDay;
    assert c + d == MinuteOfDay(target) || c + d == MinuteOfDay(target) + MinutesPerDay;
  }

  datatype ExistingWorkPolicy = Update

  /** The unique periodic request `schedule` enqueues. */
  datatype WorkRequest = WorkRequest(name: string, periodHours: int, initialDelayMinutes: int, policy: ExistingWorkPolicy)

  /** `schedule(context, notificationTime)`: `current` is the local wall-clock
      time; the request replaces any earlier one of the same name. */
  method Schedule(notificationTime: LocalTime, current: LocalTime) returns (req: WorkRequest)
    ensures req.name == WorkName && req.periodHours == 24 && req.policy == Update
    ensures req.initialDelayMinutes == DelayMinutes(notificationTime, current)
    ensures 0 <= req.initialDelayMinutes < MinutesPerDay
    ensures (MinuteOfDay(current) + req.initialDelayMinutes) % MinutesPerDay == MinuteOfDay(notificationTime)
  {
    var delayMinutes := (notificationTime.hour * 60 + notificationTime.minute) -
                        (current.hour * 60 + current.minute);
    if delayMinutes < 0 {
      delayMinutes := delayMinutes + 24 * 60;
    }
    req := WorkRequest(WorkName, 24, delayMinutes, Update);
  }

  datatype WorkResult = WorkSuccess | WorkRetry

  /** `doWork()`. `settings` is the first value of the settings stream,
      `quoteOfDay` the answer of `getQuoteOfDay()` and `shown` the outcome of
      posting the notification; a failure of any of them is an exception,
      which asks WorkManager to retry. `asked` tells whether the quote of the
      day was requested, `notified` which quote was posted. */
  method DoWork(settings: Result<UserSettings>, quoteOfDay: Result<Option<Quote>>, shown: Result<()>)
    returns (r: WorkResult, asked: bool, notified: Option<Quote>)
    ensures settings.Failure? ==> r == WorkRetry && !asked && notified.None?
    ensures settings.Success? && !settings.value.notificationEnabled ==> r == WorkSuccess && !asked && notified.None?
    ensures settings.Success? && settings.value.notificationEnabled ==> asked
    ensures notified.Some? <==> asked && quoteOfDay.Success? && quoteOfDay.value.Some?
    ensures notified.Some? ==> notified == quoteOfDay.value
    ensures asked ==> (r == WorkSuccess <==> quoteOfDay.Success? && (quoteOfDay.value.Some? ==> shown.Success?))
  {
    asked := false;
    notified := None;
    if settings.Failure? {
      return WorkRetry, asked, notified;
    }
    if !settings.value.notificationEnabled {
      return WorkSuccess, asked, notified;
    }
    asked := true;
    if quoteOfDay.Failure? {
      return WorkRetry, asked, notified;
    }
    if quoteOfDay.value.Some? {
      notified := quoteOfDay.value;
      if shown.Failure? {
        return WorkRetry, asked, notified;
      }
    }
    r := WorkSuccess;
  }
}
