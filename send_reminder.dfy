/** The reminder cron endpoint (api/send-reminder.ts): the bearer-token check,
    the message of the day (Monday, Wednesday and Friday only), the
    zero-padded `HH:MM` of the invocation, the custom schedules that match it
    exactly, and the LINE pushes the handler sends. The clock reading, the
    active `lineUsers` records and the enabled schedules of the day are
    inputs; the pushes are returned in the order they are made. */
module SendReminder {
  import opened FamilyTypes
  import Strings
  import TimeOfDay
  import Webhook

  const BearerPrefix: string := "Bearer "
  const AppUrl: string := "https://family-dinner.vercel.app"

  /** `req.headers.authorization?.replace('Bearer ', '')`: the first
      occurrence of `Bearer ` removed, wherever it is; absent stays absent. */
  function TokenOf(authorization: Option<string>): Option<string>
  {
    if authorization.None? then None else Some(Strings.ReplaceFirst(authorization.value, BearerPrefix, ""))
  }

  /** `authToken === process.env.CRON_SECRET`, where either side may be
      undefined. */
  predicate Authorized(authorization: Option<string>, secret: Option<string>)
  {
    TokenOf(authorization) == secret
  }

  /** The header `Bearer <secret>` is accepted, and a header without the
      prefix must equal the secret itself. */
  lemma BearerHeaderAccepted(secret: string, header: string)
    ensures Authorized(Some(BearerPrefix + secret), Some(secret))
    ensures !Strings.Contains(header, BearerPrefix) ==> (Authorized(Some(header), Some(secret)) <==> header == secret)
  {
    assert Strings.StartsWith(BearerPrefix + secret, BearerPrefix);
    assert (BearerPrefix + secret)[|BearerPrefix|..] == secret;
    assert "" + secret == secret;
    assert TokenOf(Some(BearerPrefix + secret)) == Some(secret);
    if !Strings.Contains(header, BearerPrefix) {
      Strings.ReplaceFirstWithoutOccurrence(header, BearerPrefix, "");
    }
  }

  /** With the secret unset, a request with no `Authorization` header passes
      the check (both sides are undefined), and any request with the header
      is refused. */
  lemma UnsetSecret(authorization: Option<string>)
    ensures Authorized(authorization, None) <==> authorization.None?
  {
  }

  const DayNames: seq<string> := ["日", "月", "火", "水", "木", "金", "土"]

  const MondayMessage: string :=
    "🍽️ 今週の夕飯予定を入力しましょう！\n\n📅 家族夕飯カレンダー：\nhttps://family-dinner.vercel.app\n\n✨ 新しい週が始まりました！\n今週の夕飯予定を家族みんなで共有して、\n楽しい食事時間を過ごしましょう🎉"
  const WednesdayMessage: string :=
    "🍽️ 今週後半の夕飯予定はいかがですか？\n\n📅 予定の確認・更新：\nhttps://family-dinner.vercel.app\n\n💡 週の真ん中です！\n木曜日〜日曜日の予定も\n忘れずに入力してくださいね😊"
  const FridayMessage: string :=
    "🍽️ 週末の夕飯予定をチェック！\n\n📅 家族夕飯カレンダー：\nhttps://family-dinner.vercel.app\n\n🎉 お疲れさまでした！\n週末の夕飯予定も確認して、\n素敵な週末をお過ごしください✨"

  /** The message of the day: Monday, Wednesday and Friday have one, every
      other day has none. */
  function DayMessage(day: nat): (r: Option<string>)
    ensures r.Some? <==> day == 1 || day == 3 || day == 5
    ensures day == 1 ==> r == Some(MondayMessage)
    ensures day == 3 ==> r == Some(WednesdayMessage)
    ensures day == 5 ==> r == Some(FridayMessage)
  {
    if day == 1 then Some(MondayMessage)
    else if day == 3 then Some(WednesdayMessage)
    else if day == 5 then Some(FridayMessage)
    else None
  }

  /** `currentTime`: the hour and minute of `now`, each padded to two digits. */
  function CurrentTime(now: nat): string
  {
    TimeOfDay.FormatClock(TimeOfDay.HoursOf(now), TimeOfDay.MinutesOf(now))
  }

  /** `currentTime` is always five characters `HH:MM` and reads back as the
      hour and minute of the invocation. */
  lemma CurrentTimeIsClock(now: nat)
    ensures |CurrentTime(now)| == 5 && CurrentTime(now)[2] == ':'
    ensures TimeOfDay.ParseTime(CurrentTime(now)) == Some(TimeOfDay.Clock(TimeOfDay.HoursOf(now), TimeOfDay.MinutesOf(now)))
  {
    TimeOfDay.FormatParseRoundTrip(TimeOfDay.HoursOf(now), TimeOfDay.MinutesOf(now));
  }

  /** A `lineNotificationSchedules` record; `message` may be absent. */
  datatype Schedule = Schedule(enabled: bool, dayOfWeek: int, time: string, message: Option<string>)

  /** The store query `enabled == true && dayOfWeek == day` followed by the
      filter `time === currentTime`. */
  function Fires(day: nat, time: string): Schedule -> bool
  {
    (s: Schedule) => s.enabled && s.dayOfWeek == day && s.time == time
  }

  function MatchingSchedules(schedules: seq<Schedule>, day: nat, time: string): seq<Schedule>
  {
    Filter(schedules, Fires(day, time))
  }

  /** A schedule fires exactly when it is enabled, is for today and its time
      string is the current time, character for character (`"9:00"` never
      matches `"09:00"`). */
  lemma ScheduleFiresIff(schedules: seq<Schedule>, now: nat, s: Schedule)
    requires s in schedules
    ensures var day := TimeOfDay.DayOfWeek(now);
      s in MatchingSchedules(schedules, day, CurrentTime(now)) <==>
        s.enabled && s.dayOfWeek == day && s.time == CurrentTime(now)
    ensures s.time != CurrentTime(now) ==> s !in MatchingSchedules(schedules, TimeOfDay.DayOfWeek(now), CurrentTime(now))
  {
  }

  /** `usersSnapshot.docs.map(doc => doc.data().userId)` over the records
      with `isActive == true`. */
  function ActiveUserIds(users: seq<Webhook.LineUser>): (r: seq<string>)
    ensures |r| <= |users|
  {
    if users == [] then []
    else
      (if users[0].isActive then [users[0].userId] else []) + ActiveUserIds(users[1..])
  }

  lemma {:induction false} ActiveUserIdsIff(users: seq<Webhook.LineUser>, id: string)
    ensures id in ActiveUserIds(users) <==> exists u | u in users :: u.isActive && u.userId == id
  {
    if users != [] {
      ActiveUserIdsIff(users[1..], id);
      assert users == [users[0]] + users[1..];
    }
  }

  /** `schedule.message || message`: an absent or empty custom message falls
      back to the message of the day. */
  function CustomMessage(s: Schedule, message: string): (r: string)
    ensures s.message.Some? && s.message.value != "" ==> r == s.message.value
    ensures s.message.None? || s.message == Some("") ==> r == message
  {
    if s.message.Some? && s.message.value != "" then s.message.value else message
  }

  /** The text of a custom push. */
  function CustomText(s: Schedule, message: string): string
  {
    "📅 個別リマインダー\n\n" + CustomMessage(s, message) + "\n\n家族夕飯カレンダー：\n" + AppUrl
  }

  datatype Push = Push(userId: string, text: string)

  /** One push of `text` to each user, in order. */
  function PushesTo(ids: seq<string>, text: string): (r: seq<Push>)
    ensures |r| == |ids|
    ensures forall i | 0 <= i < |ids| :: r[i] == Push(ids[i], text)
  {
    seq(|ids|, i requires 0 <= i < |ids| => Push(ids[i], text))
  }

  /** The custom pushes: for each matching schedule, its text to each user. */
  function CustomPushes(ids: seq<string>, matching: seq<Schedule>, message: string): seq<Push>
  {
    if matching == [] then []
    else CustomPushes(ids, matching[..|matching| - 1], message) +
           PushesTo(ids, CustomText(matching[|matching| - 1], message))
  }

  /** Every active user gets the day's message, and one custom push for each
      matching schedule. */
  function PlannedPushes(ids: seq<string>, matching: seq<Schedule>, message: string): seq<Push>
  {
    PushesTo(ids, message) + CustomPushes(ids, matching, message)
  }

  lemma {:induction false} CustomPushCount(ids: seq<string>, matching: seq<Schedule>, message: string)
    ensures |CustomPushes(ids, matching, message)| == |matching| * |ids|
  {
    if matching != [] {
      CustomPushCount(ids, matching[..|matching| - 1], message);
      assert |matching| * |ids| == (|matching| - 1) * |ids| + |ids|;
    }
  }

  /** The push total is users × (1 + matching schedules). */
  lemma PushCount(ids: seq<string>, matching: seq<Schedule>, message: string)
    ensures |PlannedPushes(ids, matching, message)| == |ids| * (1 + |matching|)
  {
    CustomPushCount(ids, matching, message);
  }

  /** Each matching schedule reaches every active user with its own text. */
  lemma {:induction false} CustomPushReachesEveryone(ids: seq<string>, matching: seq<Schedule>, message: string,
                                                     s: Schedule, id: string)
    requires s in matching && id in ids
    ensures Push(id, CustomText(s, message)) in CustomPushes(ids, matching, message)
  {
    var k :| 0 <= k < |ids| && ids[k] == id;
    var last := matching[|matching| - 1];
    if s == last {
      assert PushesTo(ids, CustomText(s, message))[k] == Push(id, CustomText(s, message));
    } else {
      assert matching == matching[..|matching| - 1] + [last];
      assert s in matching[..|matching| - 1];
      CustomPushReachesEveryone(ids, matching[..|matching| - 1], message, s, id);
    }
  }

  /** The JSON body of a response. */
  datatype Response =
    | Unauthorized                         // 401
    | NoReminder(message: string)          // 200, nothing sent
    | ReminderSent(message: string, day: string, customSchedulesExecuted: nat)   // 200
    | InternalError                        // 500

  function StatusCode(r: Response): nat
  {
    match r
    case Unauthorized => 401
    case NoReminder(_) => 200
    case ReminderSent(_, _, _) => 200
    case InternalError => 500
  }

  function NoReminderMessage(day: nat): string
    requires day < 7
  {
    "Today is " + DayNames[day] + ". No reminder scheduled."
  }

  function SentMessage(users: nat, schedules: nat): string
  {
    "Reminder sent to " + TimeOfDay.DecimalString(users) + " users, " +
      TimeOfDay.DecimalString(schedules) + " custom schedules executed"
  }

  /** `client.pushMessage(userId, text)` for each user, in order. */
  method PushToEach(ids: seq<string>, text: string, sent: seq<Push>) returns (pushes: seq<Push>)
    ensures pushes == sent + PushesTo(ids, text)
  {
    pushes := sent;
    var k := 0;
    while k < |ids|
      invariant 0 <= k <= |ids|
      invariant pushes == sent + PushesTo(ids[..k], text)
    {
      assert PushesTo(ids[..k + 1], text) == PushesTo(ids[..k], text) + [Push(ids[k], text)];
      pushes := pushes + [Push(ids[k], text)];
      k := k + 1;
    }
    assert ids[..k] == ids;
  }

  /** The custom pushes of the matching schedules, appended to `sent`. */
  method PushSchedules(ids: seq<string>, matching: seq<Schedule>, message: string, sent: seq<Push>)
    returns (pushes: seq<Push>)
    ensures pushes == sent + CustomPushes(ids, matching, message)
  {
    pushes := sent;
    var j := 0;
    while j < |matching|
      invariant 0 <= j <= |matching|
      invariant pushes == sent + CustomPushes(ids, matching[..j], message)
    {
      assert matching[..j + 1][..j] == matching[..j];
      pushes := PushToEach(ids, CustomText(matching[j], message), pushes);
      j := j + 1;
    }
    assert matching[..j] == matching;
  }

  /** The pushes of a reminder day and `sentCount`: the day's message to
      every user when there is one, then each matching schedule's text to
      every user when there is one. */
  method SendReminders(ids: seq<string>, matching: seq<Schedule>, message: string)
    returns (pushes: seq<Push>, sentCount: nat)
    ensures pushes == PlannedPushes(ids, matching, message)
    ensures sentCount == |pushes| == |ids| * (1 + |matching|)
  {
    pushes := [];
    sentCount := 0;
    if |ids| > 0 {
      pushes := PushToEach(ids, message, pushes);
      sentCount := sentCount + |ids|;
    }
    if |matching| > 0 {
      pushes := PushSchedules(ids, matching, message, pushes);
      sentCount := sentCount + |matching| * |ids|;
    }
    PushCount(ids, matching, message);
  }

  /** The handler at instant `now`. `users` are the `lineUsers` records the
      store holds and `schedules` the `lineNotificationSchedules` records;
      `storeFails` is a store query that throws before any push is made. */
  method HandleReminder(authorization: Option<string>, secret: Option<string>, now: nat,
                        users: seq<Webhook.LineUser>, schedules: seq<Schedule>, storeFails: bool)
    returns (resp: Response, pushes: seq<Push>, sentCount: nat)
    ensures !Authorized(authorization, secret) ==> resp == Unauthorized && pushes == []
    ensures Authorized(authorization, secret) && DayMessage(TimeOfDay.DayOfWeek(now)).None? ==>
              resp == NoReminder(NoReminderMessage(TimeOfDay.DayOfWeek(now))) && pushes == []
    ensures Authorized(authorization, secret) && DayMessage(TimeOfDay.DayOfWeek(now)).Some? && storeFails ==>
              resp == InternalError && pushes == []
    ensures Authorized(authorization, secret) && DayMessage(TimeOfDay.DayOfWeek(now)).Some? && !storeFails ==>
              var day := TimeOfDay.DayOfWeek(now);
              var ids := ActiveUserIds(users);
              var matching := MatchingSchedules(schedules, day, CurrentTime(now));
              pushes == PlannedPushes(ids, matching, DayMessage(day).value) &&
              sentCount == |ids| * (1 + |matching|) &&
              resp == ReminderSent(SentMessage(|ids|, |matching|), DayNames[day], |matching|)
  {
    pushes := [];
    sentCount := 0;
    if TokenOf(authorization) != secret {
      return Unauthorized, pushes, sentCount;
    }
    var day := TimeOfDay.DayOfWeek(now);
    var message;
    if day == 1 {
      message := MondayMessage;
    } else if day == 3 {
      message := WednesdayMessage;
    } else if day == 5 {
      message := FridayMessage;
    } else {
      return NoReminder(NoReminderMessage(day)), pushes, sentCount;
    }
    if storeFails {
      return InternalError, pushes, sentCount;
    }
    var ids := ActiveUserIds(users);
    var matching := MatchingSchedules(schedules, day, CurrentTime(now));
    pushes, sentCount := SendReminders(ids, matching, message);
    resp := ReminderSent(SentMessage(|ids|, |matching|), DayNames[day], |matching|);
  }

  /** An active user who followed the bot gets the day's message on a
      reminder day, and every matching schedule's text as well. */
  lemma ActiveUserReminded(users: seq<Webhook.LineUser>, u: Webhook.LineUser, matching: seq<Schedule>,
                           message: string, s: Schedule)
    requires u in users && u.isActive
    ensures Push(u.userId, message) in PlannedPushes(ActiveUserIds(users), matching, message)
    ensures s in matching ==> Push(u.userId, CustomText(s, message)) in PlannedPushes(ActiveUserIds(users), matching, message)
  {
    var ids := ActiveUserIds(users);
    ActiveUserIdsIff(users, u.userId);
    var k :| 0 <= k < |ids| && ids[k] == u.userId;
    assert PlannedPushes(ids, matching, message)[k] == Push(u.userId, message);
    if s in matching {
      CustomPushReachesEveryone(ids, matching, message, s, u.userId);
    }
  }
}
