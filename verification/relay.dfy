/** The message handler of the relay bot as a pure step function: given the
    store, the configuration, one inbound message and the results of the
    calls the handler awaits, it yields the new store and the outbound
    Telegram calls (`sendMessage`, `copyMessage`, `forwardMessage`) in the
    order they are made. */
module Relay {
  import opened Wrappers
  import opened JsStrings
  import opened KvStore
  import Keywords

  datatype User = User(id: int, username: Option<string>)

  /** `reply_to_message`: the admin-side message being answered and whether
      it carries a `chat` object. */
  datatype ReplyRef = ReplyRef(messageId: int, hasChat: bool)

  datatype Message = Message(
    messageId: int,
    chatId: int,
    from: Option<User>,
    text: Option<string>,
    replyTo: Option<ReplyRef>)

  /** `ADMIN_UID` as configured (normally a string) and the webhook `SECRET`. */
  datatype Config = Config(adminUid: JsValue, secret: string)

  /** The answer of `forwardMessage`: `ok` and `result.message_id`. */
  datatype ForwardReply = ForwardReply(ok: bool, resultMessageId: int)

  /** What the awaited calls return: the welcome text, the keyword file, the
      auto-reply body and the answer of the forward. */
  datatype Fetched = Fetched(
    startText: string,
    keywordsText: string,
    autoReplyText: string,
    forward: ForwardReply)

  /** One outbound Telegram call. A copy whose destination was read from an
      unmapped key goes to `None`, the `null` chat id. */
  datatype Effect =
    | SendMessage(to: JsValue, text: string)
    | CopyMessage(dest: Option<JsValue>, fromChat: int, messageId: int)
    | ForwardMessage(to: JsValue, fromChat: int, messageId: int)

  datatype Step = Step(store: Store, effects: seq<Effect>)

  const UsageHint: string :=
    "使用方法：回复转发的消息，并发送回复消息\n或者 `/block`、`/unblock`、`/checkblock` 等指令"
  const BlockedNotice: string := "You are blocked"
  const NoUsername: string := "(没有用户名)"
  const SelfBlockRefusal: string := "不能屏蔽自己"
  const NoticeHead: string := "新访客消息\n用户名: "
  const NoticeIdLabel: string := "\n用户ID: "

  /** worker.js line 91: the sender's chat id, as a string, is `ADMIN_UID`. */
  predicate IsAdminChat(cfg: Config, chatId: int)
    // only a string `ADMIN_UID` can equal a `toString()` result
    ensures cfg.adminUid.Num? || cfg.adminUid.Bool? ==> !IsAdminChat(cfg, chatId)
    ensures IsAdminChat(cfg, chatId)
            ==> cfg.adminUid.s != "" && (cfg.adminUid.s[0] == '-' <==> chatId < 0)
  {
    cfg.adminUid == Str(NumberToString(chatId))
  }

  /** worker.js line 180: `===` between a decoded store value and `ADMIN_UID`; a
      number or a boolean never equals a string, and `null` equals neither. */
  predicate SameAsAdmin(v: Option<JsValue>, cfg: Config)
    ensures SameAsAdmin(v, cfg) ==> v.Some?
    ensures cfg.adminUid.Str? && v.Some? && !v.value.Str? ==> !SameAsAdmin(v, cfg)
    ensures cfg.adminUid.Str? && v.Some? && v.value.Str? ==> (SameAsAdmin(v, cfg) <==> v.value.s == cfg.adminUid.s)
  {
    v == Some(cfg.adminUid)
  }

  /** `if (message.text)`: the text is present and not empty. */
  predicate HasText(msg: Message)
    ensures HasText(msg) <==> msg.text.Some? && Truthy(Some(Str(msg.text.value)))
  {
    msg.text.Some? && msg.text.value != ""
  }

  /** `message?.reply_to_message?.chat` */
  predicate RepliesToChat(msg: Message) {
    msg.replyTo.Some? && msg.replyTo.value.hasChat
  }

  /** The texts the admin path treats as commands; the anchored patterns of
      worker.js lines 98-100 match only the whole text. */
  predicate IsCommand(text: Option<string>)
    ensures IsCommand(text) ==> text.Some? && |text.value| >= 6 && text.value[0] == '/'
  {
    text == Some("/block") || text == Some("/unblock") || text == Some("/checkblock")
  }

  /** A command with any text before or after it is no command: the
      anchored patterns accept the whole text only. */
  lemma CommandsNeedWholeText(c: string, s: string)
    requires IsCommand(Some(c))
    requires s != ""
    ensures !IsCommand(Some(c + s))
    ensures !IsCommand(Some(s + c))
  {
    assert (c + s)[1] == c[1];
    assert (s + c)[|s|] == '/';
    assert forall i :: 0 < i < |"/block"| ==> "/block"[i] != '/';
    assert forall i :: 0 < i < |"/unblock"| ==> "/unblock"[i] != '/';
    assert forall i :: 0 < i < |"/checkblock"| ==> "/checkblock"[i] != '/';
  }

  predicate HasUsername(from: Option<User>) {
    from.Some? && from.value.username.Some? && from.value.username.value != ""
  }

  /** worker.js line 126: `@name`, or the placeholder when there is no user name. */
  function DisplayName(from: Option<User>): (r: string)
    ensures |r| >= 1
    ensures r[0] == '@' <==> HasUsername(from)
    ensures HasUsername(from) ==> r[1..] == from.value.username.value
    ensures !HasUsername(from) ==> r == NoUsername
  {
    if HasUsername(from) then "@" + from.value.username.value else NoUsername
  }

  /** worker.js line 127: `message.from?.id || chatId`. */
  function NoticeUserId(from: Option<User>, chatId: int): (r: int)
    ensures from.Some? && Truthy(Some(Num(from.value.id))) ==> r == from.value.id
    ensures !(from.Some? && Truthy(Some(Num(from.value.id)))) ==> r == chatId
  {
    if from.Some? && from.value.id != 0 then from.value.id else chatId
  }

  /** worker.js lines 129-132: the one-time notice about a new visitor. */
  function NewVisitorNotice(msg: Message): (r: string)
    ensures NoticeHead + DisplayName(msg.from) + NoticeIdLabel <= r
    ensures var id := NumberToString(NoticeUserId(msg.from, msg.chatId));
            |id| <= |r| && r[|r| - |id|..] == id
    // nothing lies between the label and the id
    ensures |r| == |NoticeHead + DisplayName(msg.from) + NoticeIdLabel|
                   + |NumberToString(NoticeUserId(msg.from, msg.chatId))|
  {
    var id := NumberToString(NoticeUserId(msg.from, msg.chatId));
    var r := NoticeHead + DisplayName(msg.from) + NoticeIdLabel + id;
    assert r[|r| - |id|..] == id;
    r
  }

  function BlockFlag(store: Store, chatId: int): Option<JsValue> {
    Get(store, BlockKey(NumberToString(chatId)))
  }

  /** worker.js lines 136-172 after the first-contact step: the auto-reply, when the
      text triggers it, then the forward to the admin. */
  function RelayEffects(cfg: Config, msg: Message, io: Fetched): (r: seq<Effect>)
    ensures r == (if HasText(msg) && Keywords.KeywordHit(msg.text.value, io.keywordsText)
                  then [SendMessage(Num(msg.chatId), io.autoReplyText)] else [])
                 + [ForwardMessage(cfg.adminUid, msg.chatId, msg.messageId)]
    ensures 1 <= |r| <= 2
    ensures r[|r| - 1] == ForwardMessage(cfg.adminUid, msg.chatId, msg.messageId)
    ensures SendMessage(Num(msg.chatId), io.autoReplyText) in r
            <==> HasText(msg) && Keywords.KeywordHit(msg.text.value, io.keywordsText)
  {
    var reply :=
      if HasText(msg) && Keywords.Triggered(msg.text.value, io.keywordsText)
      then [SendMessage(Num(msg.chatId), io.autoReplyText)]
      else [];
    Keywords.TriggeredIffKeywordHit(msg.text.GetOr(""), io.keywordsText);
    reply + [ForwardMessage(cfg.adminUid, msg.chatId, msg.messageId)]
  }

  /** worker.js lines 114-173: a visitor's message. */
  function GuestMessage(store: Store, cfg: Config, msg: Message, io: Fetched): (r: Step)
    // the block gate: only the notice, to the visitor, and no write
    ensures Truthy(BlockFlag(store, msg.chatId))
            ==> r == Step(store, [SendMessage(Num(msg.chatId), BlockedNotice)])
    // the admin notice precedes the relay exactly when the visitor is new
    ensures !Truthy(BlockFlag(store, msg.chatId))
            ==> r.effects == (if Truthy(Get(store, FirstKey(msg.chatId))) then []
                              else [SendMessage(cfg.adminUid, NewVisitorNotice(msg))])
                             + RelayEffects(cfg, msg, io)
    // after a relayed message the visitor is no longer new
    ensures !Truthy(BlockFlag(store, msg.chatId)) ==> Truthy(Get(r.store, FirstKey(msg.chatId)))
    ensures !Truthy(BlockFlag(store, msg.chatId)) && !Truthy(Get(store, FirstKey(msg.chatId)))
            ==> Get(r.store, FirstKey(msg.chatId)) == Some(Bool(true))
    ensures Truthy(Get(store, FirstKey(msg.chatId)))
            ==> Get(r.store, FirstKey(msg.chatId)) == Get(store, FirstKey(msg.chatId))
    // the mapping is written exactly when the forward succeeded
    ensures !Truthy(BlockFlag(store, msg.chatId)) && io.forward.ok
            ==> Get(r.store, MapKey(io.forward.resultMessageId)) == Some(Num(msg.chatId))
    ensures forall m :: (Get(r.store, MapKey(m)) != Get(store, MapKey(m))
                         ==> io.forward.ok && m == io.forward.resultMessageId)
    // nothing but those two keys changes
    ensures r.store - {FirstKey(msg.chatId), MapKey(io.forward.resultMessageId)}
            == store - {FirstKey(msg.chatId), MapKey(io.forward.resultMessageId)}
    // a visitor is never the source of a copy, and is forwarded unless blocked
    ensures forall e <- r.effects :: !e.CopyMessage?
    ensures ForwardMessage(cfg.adminUid, msg.chatId, msg.messageId) in r.effects
            <==> !Truthy(BlockFlag(store, msg.chatId))
    ensures 1 <= |r.effects| <= 3
  {
    var chat := Num(msg.chatId);
    if Truthy(BlockFlag(store, msg.chatId)) then
      Step(store, [SendMessage(chat, BlockedNotice)])
    else
      var isFirst := !Truthy(Get(store, FirstKey(msg.chatId)));
      var marked := MarkFirstContact(store, msg.chatId);
      var notice := if isFirst then [SendMessage(cfg.adminUid, NewVisitorNotice(msg))] else [];
      var mapped := RecordForward(marked, io.forward, msg.chatId);
      FrameCompose(store, marked, mapped, FirstKey(msg.chatId), MapKey(io.forward.resultMessageId));
      Step(mapped, notice + RelayEffects(cfg, msg, io))
  }

  /** worker.js lines 123-125: the first-contact flag is set unless it already holds. */
  function MarkFirstContact(store: Store, chatId: int): (r: Store)
    ensures Truthy(Get(r, FirstKey(chatId)))
    ensures !Truthy(Get(store, FirstKey(chatId))) ==> Get(r, FirstKey(chatId)) == Some(Bool(true))
    ensures Truthy(Get(store, FirstKey(chatId))) ==> r == store
    ensures forall m :: Get(r, MapKey(m)) == Get(store, MapKey(m))
    ensures r - {FirstKey(chatId)} == store - {FirstKey(chatId)}
  {
    MapKeysAvoidFirstKey(chatId);
    if Truthy(Get(store, FirstKey(chatId))) then store
    else store[FirstKey(chatId) := Bool(true)]
  }

  /** worker.js lines 170-172: the mapping of the forwarded copy to the visitor,
      written only when the forward succeeded. */
  function RecordForward(store: Store, forward: ForwardReply, chatId: int): (r: Store)
    ensures forward.ok ==> Get(r, MapKey(forward.resultMessageId)) == Some(Num(chatId))
    ensures !forward.ok ==> r == store
    ensures forall m :: (Get(r, MapKey(m)) != Get(store, MapKey(m))
                         ==> forward.ok && m == forward.resultMessageId)
    ensures forall c :: Get(r, FirstKey(c)) == Get(store, FirstKey(c))
    ensures r - {MapKey(forward.resultMessageId)} == store - {MapKey(forward.resultMessageId)}
  {
    MapKeysInjective(forward.resultMessageId);
    FirstKeysAvoidMapKey(forward.resultMessageId);
    if forward.ok then store[MapKey(forward.resultMessageId) := Num(chatId)] else store
  }

  /** Two writes, each confined to one key, together leave every other key
      alone. */
  lemma FrameCompose(a: Store, b: Store, c: Store, k1: string, k2: string)
    requires b - {k1} == a - {k1}
    requires c - {k2} == b - {k2}
    ensures c - {k1, k2} == a - {k1, k2}
  {
    assert c - {k1, k2} == (c - {k2}) - {k1};
    assert a - {k1, k2} == (a - {k1}) - {k2};
    assert b - {k1, k2} == (b - {k2}) - {k1} == (b - {k1}) - {k2};
  }

  /** No first-contact key is the mapping key of `messageId`. */
  lemma FirstKeysAvoidMapKey(messageId: int)
    ensures forall c :: FirstKey(c) != MapKey(messageId)
  {
    forall c
      ensures FirstKey(c) != MapKey(messageId)
    {
      KeyFamiliesDisjoint(messageId, c, "");
    }
  }

  /** No mapping key is the first-contact key of `chatId`. */
  lemma MapKeysAvoidFirstKey(chatId: int)
    ensures forall m :: MapKey(m) != FirstKey(chatId)
  {
    forall m
      ensures MapKey(m) != FirstKey(chatId)
    {
      KeyFamiliesDisjoint(m, chatId, "");
    }
  }

  /** No mapping key is a block key. */
  lemma MapKeysAvoidBlockKey(id: string)
    ensures forall m :: MapKey(m) != BlockKey(id)
  {
    forall m
      ensures MapKey(m) != BlockKey(id)
    {
      KeyFamiliesDisjoint(m, 0, id);
    }
  }

  /** No first-contact key is a block key. */
  lemma FirstKeysAvoidBlockKey(id: string)
    ensures forall c :: FirstKey(c) != BlockKey(id)
  {
    forall c
      ensures FirstKey(c) != BlockKey(id)
    {
      KeyFamiliesDisjoint(0, c, id);
    }
  }

  /** The mapping key of `messageId` is the mapping key of no other id. */
  lemma MapKeysInjective(messageId: int)
    ensures forall m :: MapKey(m) == MapKey(messageId) ==> m == messageId
  {
    forall m
      ensures MapKey(m) == MapKey(messageId) ==> m == messageId
    {
      MapKeyInjective(m, messageId);
    }
  }

  /** The visitor a reply to `replyId` is about: the mapped value, or `null`. */
  function Target(store: Store, replyId: int): Option<JsValue> {
    Get(store, MapKey(replyId))
  }

  /** worker.js lines 178-185: `/block`. */
  function Block(store: Store, cfg: Config, replyId: int): (r: Step)
    ensures SameAsAdmin(Target(store, replyId), cfg)
            ==> r == Step(store, [SendMessage(cfg.adminUid, SelfBlockRefusal)])
    ensures !SameAsAdmin(Target(store, replyId), cfg)
            ==> var key := BlockKey(ToJsString(Target(store, replyId)));
                && Get(r.store, key) == Some(Bool(true))
                && r.store - {key} == store - {key}
                && r.effects == [SendMessage(cfg.adminUid, "UID:" + ToJsString(Target(store, replyId)) + " 屏蔽成功")]
  {
    var target := Target(store, replyId);
    if SameAsAdmin(target, cfg) then
      Step(store, [SendMessage(cfg.adminUid, SelfBlockRefusal)])
    else
      Step(store[BlockKey(ToJsString(target)) := Bool(true)],
           [SendMessage(cfg.adminUid, "UID:" + ToJsString(target) + " 屏蔽成功")])
  }

  /** worker.js lines 190-194: `/unblock`, whatever the flag was before. */
  function Unblock(store: Store, cfg: Config, replyId: int): (r: Step)
    ensures var key := BlockKey(ToJsString(Target(store, replyId)));
            && Get(r.store, key) == Some(Bool(false))
            && !Truthy(Get(r.store, key))
            && r.store - {key} == store - {key}
    ensures r.effects == [SendMessage(cfg.adminUid, "UID:" + ToJsString(Target(store, replyId)) + " 解除屏蔽成功")]
  {
    var target := Target(store, replyId);
    Step(store[BlockKey(ToJsString(target)) := Bool(false)],
         [SendMessage(cfg.adminUid, "UID:" + ToJsString(target) + " 解除屏蔽成功")])
  }

  /** worker.js line 202: the status report of `/checkblock`. */
  function CheckReport(id: string, blocked: bool): string {
    "UID:" + id + (if blocked then " 被屏蔽" else " 没有被屏蔽")
  }

  /** The two reports for one id differ, so the admin can tell the states
      apart. */
  lemma CheckReportDistinguishes(id: string)
    ensures CheckReport(id, true) != CheckReport(id, false)
  {
    var n := |"UID:" + id|;
    assert CheckReport(id, true)[n + 1] == '被';
    assert CheckReport(id, false)[n + 1] == '没';
  }

  /** worker.js lines 199-203: `/checkblock` reports the flag and writes nothing. */
  function CheckBlock(store: Store, cfg: Config, replyId: int): (r: Step)
    ensures r.store == store
    ensures var id := ToJsString(Target(store, replyId));
            r.effects == [SendMessage(cfg.adminUid, CheckReport(id, Truthy(Get(store, BlockKey(id)))))]
  {
    var id := ToJsString(Target(store, replyId));
    Step(store, [SendMessage(cfg.adminUid, CheckReport(id, Truthy(Get(store, BlockKey(id)))))])
  }

  /** worker.js lines 91-103: a message from the admin's chat. */
  function AdminMessage(store: Store, cfg: Config, msg: Message): (r: Step)
    ensures |r.effects| == 1 && !r.effects[0].ForwardMessage?
    ensures forall m :: Get(r.store, MapKey(m)) == Get(store, MapKey(m))
    ensures forall c :: Get(r.store, FirstKey(c)) == Get(store, FirstKey(c))
    ensures !RepliesToChat(msg) ==> r == Step(store, [SendMessage(cfg.adminUid, UsageHint)])
    ensures RepliesToChat(msg) && !IsCommand(msg.text)
            ==> r == Step(store, [CopyMessage(Target(store, msg.replyTo.value.messageId), msg.chatId, msg.messageId)])
    // exactly the command texts reach the command handlers
    ensures RepliesToChat(msg) && msg.text == Some("/block")
            ==> r == Block(store, cfg, msg.replyTo.value.messageId)
    ensures RepliesToChat(msg) && msg.text == Some("/unblock")
            ==> r == Unblock(store, cfg, msg.replyTo.value.messageId)
    ensures RepliesToChat(msg) && msg.text == Some("/checkblock")
            ==> r == CheckBlock(store, cfg, msg.replyTo.value.messageId)
  {
    if !RepliesToChat(msg) then
      Step(store, [SendMessage(cfg.adminUid, UsageHint)])
    else
      var replyId := msg.replyTo.value.messageId;
      var id := ToJsString(Target(store, replyId));
      MapKeysAvoidBlockKey(id);
      FirstKeysAvoidBlockKey(id);
      if msg.text == Some("/block") then Block(store, cfg, replyId)
      else if msg.text == Some("/unblock") then Unblock(store, cfg, replyId)
      else if msg.text == Some("/checkblock") then CheckBlock(store, cfg, replyId)
      else Step(store, [CopyMessage(Target(store, replyId), msg.chatId, msg.messageId)])
  }

  /** worker.js lines 84-108: dispatch of one message. */
  function OnMessage(store: Store, cfg: Config, msg: Message, io: Fetched): (r: Step)
    // `/start` is answered before the sender is classified
    ensures msg.text == Some("/start")
            ==> r == Step(store, [SendMessage(Num(msg.chatId), io.startText)])
    ensures msg.text != Some("/start") ==> r == Route(store, cfg, msg, io)
    ensures 1 <= |r.effects| <= 3
  {
    if msg.text == Some("/start") then
      Step(store, [SendMessage(Num(msg.chatId), io.startText)])
    else
      Route(store, cfg, msg, io)
  }

  /** worker.js lines 91-108: a message other than `/start`, by sender. */
  function Route(store: Store, cfg: Config, msg: Message, io: Fetched): (r: Step)
    // the admin never causes a forward or a mapping or first-contact write
    ensures IsAdminChat(cfg, msg.chatId)
            ==> && |r.effects| == 1 && !r.effects[0].ForwardMessage?
                && (forall m :: Get(r.store, MapKey(m)) == Get(store, MapKey(m)))
                && (forall c :: Get(r.store, FirstKey(c)) == Get(store, FirstKey(c)))
    ensures IsAdminChat(cfg, msg.chatId) && !RepliesToChat(msg)
            ==> r == Step(store, [SendMessage(cfg.adminUid, UsageHint)])
    ensures IsAdminChat(cfg, msg.chatId) && RepliesToChat(msg) && !IsCommand(msg.text)
            ==> r == Step(store, [CopyMessage(Target(store, msg.replyTo.value.messageId), msg.chatId, msg.messageId)])
    ensures IsAdminChat(cfg, msg.chatId) && RepliesToChat(msg) && msg.text == Some("/block")
            ==> r == Block(store, cfg, msg.replyTo.value.messageId)
    ensures IsAdminChat(cfg, msg.chatId) && RepliesToChat(msg) && msg.text == Some("/unblock")
            ==> r == Unblock(store, cfg, msg.replyTo.value.messageId)
    ensures IsAdminChat(cfg, msg.chatId) && RepliesToChat(msg) && msg.text == Some("/checkblock")
            ==> r == CheckBlock(store, cfg, msg.replyTo.value.messageId) && r.store == store
    // every other sender is a visitor
    ensures !IsAdminChat(cfg, msg.chatId) ==> r == GuestMessage(store, cfg, msg, io)
    ensures 1 <= |r.effects| <= 3
  {
    if IsAdminChat(cfg, msg.chatId) then
      AdminMessage(store, cfg, msg)
    else
      GuestMessage(store, cfg, msg, io)
  }

  datatype Update = Update(message: Option<Message>)

  /** `Unauthorized` with status 403, or the `Ok` acknowledgement. */
  datatype Response = Forbidden | Acknowledged

  datatype Handled = Handled(response: Response, step: Step)

  /** worker.js lines 75-79: an update without a message is ignored. */
  function OnUpdate(store: Store, cfg: Config, update: Update, io: Fetched): (r: Step)
    ensures update.message.None? ==> r == Step(store, [])
    ensures update.message.Some? ==> r == OnMessage(store, cfg, update.message.value, io)
    ensures update.message.Some? ==> 1 <= |r.effects| <= 3
  {
    match update.message
    case None => Step(store, [])
    case Some(msg) => OnMessage(store, cfg, msg, io)
  }

  /** worker.js lines 63-70: the secret header gates all processing. */
  function HandleWebhook(store: Store, cfg: Config, secretHeader: Option<string>, update: Update, io: Fetched): (r: Handled)
    ensures r.response == Forbidden <==> secretHeader != Some(cfg.secret)
    ensures r.response == Forbidden ==> r.step == Step(store, [])
    ensures r.response == Acknowledged ==> r.step == OnUpdate(store, cfg, update, io)
    ensures r.response == Acknowledged && update.message.None? ==> r.step == Step(store, [])
    ensures r.response == Acknowledged && update.message.Some? ==> 1 <= |r.step.effects|
  {
    if secretHeader != Some(cfg.secret) then Handled(Forbidden, Step(store, []))
    else Handled(Acknowledged, OnUpdate(store, cfg, update, io))
  }
}
