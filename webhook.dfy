/** The LINE webhook (api/webhook.ts): request guards, the keyword reply to a
    text message, and the `lineUsers` record a follow event writes. The LINE
    profile lookup and the store are the caller's: the profiles the lookup
    knows and whether the store accepts writes are inputs, and the replies
    the handler sends are returned in event order. */
module Webhook {
  import opened FamilyTypes
  import Strings

  datatype Profile = Profile(displayName: string, pictureUrl: Option<string>)

  /** A `lineUsers` record. */
  datatype LineUser = LineUser(
    userId: string,
    displayName: string,
    pictureUrl: Option<string>,
    registeredAt: int,
    isActive: bool)

  datatype Event =
    | Follow(userId: Option<string>, replyToken: string)
    | TextMessage(text: string, replyToken: string)
    | OtherEvent   // any other event, or a message that is not text

  /** `method`, the `x-line-signature` header, and `body.events` (absent when
      the body has none). */
  datatype Request = Request(httpMethod: string, signature: Option<string>, events: Option<seq<Event>>)

  datatype Reply = Reply(replyToken: string, text: string)

  const WelcomeText: string :=
    "🎉 家族夕飯カレンダーBotへようこそ！\n\n🍽️ このBotでは定期的に夕飯予定の入力をお知らせします。\n\n📅 家族夕飯カレンダー：\nhttps://family-dinner.vercel.app\n\n💡 「夕飯」「予定」「使い方」「ヘルプ」などのキーワードで話しかけてください！\n\n✨ 毎週月・水・金曜日に予定入力のリマインダーをお送りします。"
  const CalendarText: string :=
    "🍽️ 家族夕飯カレンダーで予定を確認・登録してください！\n\n📅 こちらからアクセス：\nhttps://family-dinner.vercel.app\n\n✅ 今週の夕飯予定を入力して、家族みんなで共有しましょう！"
  const UsageText: string :=
    "📖 使い方ガイド：\nhttps://family-dinner.vercel.app/usage.html\n\n🔧 基本的な使い方：\n1. アプリにアクセス\n2. ユーザー名でログイン\n3. 夕飯の出席予定を入力\n4. 家族メンバーを追加して共有\n\n何かご質問があれば「ヘルプ」と送信してください！"
  const GreetingText: string :=
    "こんにちは！🍽️\n\n家族夕飯カレンダーBotです。\n\n📅 夕飯の予定を確認・登録：\nhttps://family-dinner.vercel.app\n\n💡 「夕飯」「予定」「使い方」「ヘルプ」などのキーワードで話しかけてください！"

  /** The status code the guards give, before any event is handled:
      405 for any method but POST, 400 for a missing or empty signature
      (whose value is never checked), 500 when the body has no event list,
      otherwise 200. */
  function StatusFor(req: Request): (r: nat)
    ensures req.httpMethod != "POST" ==> r == 405
    ensures req.httpMethod == "POST" && (req.signature.None? || req.signature == Some("")) ==> r == 400
    ensures req.httpMethod == "POST" && req.signature.Some? && req.signature.value != "" ==>
              r == (if req.events.None? then 500 else 200)
  {
    if req.httpMethod != "POST" then 405
    else if req.signature.None? || req.signature.value == "" then 400
    else if req.events.None? then 500
    else 200
  }

  /** Which of the three replies a text message gets. */
  datatype ReplyKind = CalendarReply | UsageReply | GreetingReply

  function ReplyKindText(k: ReplyKind): string
  {
    match k
    case CalendarReply => CalendarText
    case UsageReply => UsageText
    case GreetingReply => GreetingText
  }

  /** The reply chosen for a text message: keywords are matched in the
      lower-cased text, the calendar words first. */
  function ReplyKindFor(text: string): ReplyKind
  {
    var lower := Strings.ToLower(text);
    if Strings.Contains(lower, "夕飯") || Strings.Contains(lower, "予定") then CalendarReply
    else if Strings.Contains(lower, "使い方") || Strings.Contains(lower, "ヘルプ") then UsageReply
    else GreetingReply
  }

  function ReplyText(text: string): string
  {
    ReplyKindText(ReplyKindFor(text))
  }

  /** Which reply a text gets, stated on the text itself: the calendar reply
      exactly when it mentions 夕飯 or 予定 (whatever else it mentions), the
      usage reply exactly when it mentions 使い方 or ヘルプ but neither of
      those, and the greeting exactly when it mentions none of them. */
  lemma ReplyPrecedence(text: string)
    ensures ReplyKindFor(text) == CalendarReply <==> Strings.Contains(text, "夕飯") || Strings.Contains(text, "予定")
    ensures ReplyKindFor(text) == UsageReply <==>
              !(Strings.Contains(text, "夕飯") || Strings.Contains(text, "予定")) &&
              (Strings.Contains(text, "使い方") || Strings.Contains(text, "ヘルプ"))
    ensures ReplyKindFor(text) == GreetingReply <==>
              !Strings.Contains(text, "夕飯") && !Strings.Contains(text, "予定") &&
              !Strings.Contains(text, "使い方") && !Strings.Contains(text, "ヘルプ")
  {
    Strings.LowerKeepsCaselessMatch(text, "夕飯");
    Strings.LowerKeepsCaselessMatch(text, "予定");
    Strings.LowerKeepsCaselessMatch(text, "使い方");
    Strings.LowerKeepsCaselessMatch(text, "ヘルプ");
  }

  /** Whether the `set` of a follow event's record succeeds: the user id is
      present and non-empty, the profile lookup finds it, the store accepts
      writes, and the record has no undefined field. `pictureUrl:
      profile.pictureUrl` is undefined for a user without a profile picture,
      and the store refuses an undefined field unless its
      `ignoreUndefinedProperties` setting is on. */
  predicate SavesRecord(e: Event, profiles: map<string, Profile>, storeUp: bool, ignoreUndefined: bool)
  {
    && e.Follow? && e.userId.Some? && e.userId.value != "" && e.userId.value in profiles && storeUp
    && (profiles[e.userId.value].pictureUrl.Some? || ignoreUndefined)
  }

  /** The store the handler writes to is created with the default settings,
      so `ignoreUndefinedProperties` is off. */
  const HandlerIgnoresUndefined: bool := false

  /** The store after one event: a follow event whose record is saved
      replaces that user's record with an active one (without a picture when
      the profile has none); any other event, or a failed lookup or write,
      leaves the store as it was, since the error is swallowed. */
  function AfterEvent(users: map<string, LineUser>, e: Event, profiles: map<string, Profile>, storeUp: bool,
                      ignoreUndefined: bool, now: int): (r: map<string, LineUser>)
    ensures r.Keys >= users.Keys
    ensures forall id | id in r && (id !in users || r[id] != users[id]) ::
              e.Follow? && e.userId == Some(id) && r[id].isActive && r[id].userId == id
    ensures r != users ==> SavesRecord(e, profiles, storeUp, ignoreUndefined)
    ensures SavesRecord(e, profiles, storeUp, ignoreUndefined) ==>
              r == users[e.userId.value := LineUser(e.userId.value, profiles[e.userId.value].displayName,
                                                    profiles[e.userId.value].pictureUrl, now, true)]
  {
    if SavesRecord(e, profiles, storeUp, ignoreUndefined) then
      var id := e.userId.value;
      var p := profiles[id];
      users[id := LineUser(id, p.displayName, p.pictureUrl, now, true)]
    else users
  }

  /** The store after the events of one request, in order. */
  function AfterEvents(users: map<string, LineUser>, events: seq<Event>, profiles: map<string, Profile>,
                       storeUp: bool, ignoreUndefined: bool, now: int): map<string, LineUser>
  {
    if events == [] then users
    else AfterEvent(AfterEvents(users, events[..|events| - 1], profiles, storeUp, ignoreUndefined, now),
                    events[|events| - 1], profiles, storeUp, ignoreUndefined, now)
  }

  /** The replies to the events of one request, in order: the welcome text
      to every follow event, the keyword reply to every text message. */
  function RepliesFor(events: seq<Event>): seq<Reply>
  {
    if events == [] then []
    else
      var e := events[|events| - 1];
      RepliesFor(events[..|events| - 1]) +
        match e
        case Follow(_, token) => [Reply(token, WelcomeText)]
        case TextMessage(text, token) => [Reply(token, ReplyText(text))]
        case OtherEvent => []
  }

  /** A user who followed, with a profile the lookup finds and a store that
      accepts the record, ends up with an active record of their own id. As
      the handler runs, that needs a profile picture; with undefined fields
      ignored, every found profile will do. */
  lemma {:induction false} FollowerIsActive(users: map<string, LineUser>, events: seq<Event>,
                                            profiles: map<string, Profile>, ignoreUndefined: bool, now: int, id: string)
    requires id != "" && id in profiles
    requires profiles[id].pictureUrl.Some? || ignoreUndefined
    requires exists t :: Follow(Some(id), t) in events
    ensures var r := AfterEvents(users, events, profiles, true, ignoreUndefined, now);
      id in r && r[id].isActive && r[id].userId == id
  {
    var t :| Follow(Some(id), t) in events;
    var init := events[..|events| - 1];
    if events[|events| - 1] != Follow(Some(id), t) {
      assert events == init + [events[|events| - 1]];
      assert Follow(Some(id), t) in init;
      FollowerIsActive(users, init, profiles, ignoreUndefined, now, id);
    }
  }

  /** As the handler runs, a follower whose profile has no picture is never
      saved: a new follower gets no record, and an existing record of theirs
      stays as it was, whatever events the request carries. */
  lemma {:induction false} PictureLessFollowerNeverSaved(users: map<string, LineUser>, events: seq<Event>,
                                                         profiles: map<string, Profile>, storeUp: bool, now: int,
                                                         id: string)
    requires id in profiles && profiles[id].pictureUrl.None?
    ensures var r := AfterEvents(users, events, profiles, storeUp, HandlerIgnoresUndefined, now);
      (id in r <==> id in users) && (id in users ==> r[id] == users[id])
  {
    if events != [] {
      PictureLessFollowerNeverSaved(users, events[..|events| - 1], profiles, storeUp, now, id);
    }
  }

  /** A concrete case: user U1 follows and has no profile picture. As the
      handler runs, no record is saved; with undefined fields ignored, U1
      gets an active record without a picture. */
  lemma FollowWithoutPicture()
    ensures var profiles := map["U1" := Profile("Taro", None)];
      var events := [Follow(Some("U1"), "t")];
      "U1" !in AfterEvents(map[], events, profiles, true, HandlerIgnoresUndefined, 0) &&
      AfterEvents(map[], events, profiles, true, true, 0) == map["U1" := LineUser("U1", "Taro", None, 0, true)]
  {
    var events := [Follow(Some("U1"), "t")];
    assert events[..0] == [];
  }

  /** Every follow event gets the welcome reply, whether or not its record
      was saved. */
  lemma {:induction false} WelcomeAlwaysSent(events: seq<Event>, userId: Option<string>, token: string)
    requires Follow(userId, token) in events
    ensures Reply(token, WelcomeText) in RepliesFor(events)
  {
    var init := events[..|events| - 1];
    if events[|events| - 1] != Follow(userId, token) {
      assert events == init + [events[|events| - 1]];
      assert Follow(userId, token) in init;
      WelcomeAlwaysSent(init, userId, token);
    }
  }

  /** When the store refuses writes, the request leaves it unchanged. */
  lemma {:induction false} StoreDownChangesNothing(users: map<string, LineUser>, events: seq<Event>,
                                                   profiles: map<string, Profile>, ignoreUndefined: bool, now: int)
    ensures AfterEvents(users, events, profiles, false, ignoreUndefined, now) == users
  {
    if events != [] {
      StoreDownChangesNothing(users, events[..|events| - 1], profiles, ignoreUndefined, now);
    }
  }

  /** The `lineUsers` collection. */
  class LineUserStore {
    var users: map<string, LineUser>

    constructor(users: map<string, LineUser>)
      ensures this.users == users
    {
      this.users := users;
    }
  }

  /** The handler. The store changes only when the guards pass; the events
      are then handled one after another. */
  method HandleWebhook(store: LineUserStore, req: Request, profiles: map<string, Profile>, storeUp: bool, now: int)
    returns (status: nat, replies: seq<Reply>)
    modifies store
    ensures status == StatusFor(req)
    ensures status != 200 ==> replies == [] && store.users == old(store.users)
    ensures status == 200 ==>
              replies == RepliesFor(req.events.value) &&
              store.users == AfterEvents(old(store.users), req.events.value, profiles, storeUp, HandlerIgnoresUndefined, now)
  {
    status := StatusFor(req);
    replies := [];
    if status != 200 {
      return;
    }
    var events := req.events.value;
    var i := 0;
    while i < |events|
      invariant 0 <= i <= |events|
      invariant replies == RepliesFor(events[..i])
      invariant store.users == AfterEvents(old(store.users), events[..i], profiles, storeUp, HandlerIgnoresUndefined, now)
    {
      var e := events[i];
      assert events[..i + 1][..i] == events[..i];
      if e.Follow? {
        if e.userId.Some? && e.userId.value != "" {
          var id := e.userId.value;
          if id in profiles && storeUp {
            var p := profiles[id];
            if p.pictureUrl.Some? || HandlerIgnoresUndefined {
              store.users := store.users[id := LineUser(id, p.displayName, p.pictureUrl, now, true)];
            }
          }
        }
        replies := replies + [Reply(e.replyToken, WelcomeText)];
      } else if e.TextMessage? {
        replies := replies + [Reply(e.replyToken, ReplyText(e.text))];
      }
      i := i + 1;
    }
    assert events[..i] == events;
  }
}
