/** Properties of the relay bot that span more than one handler call, or
    compare two calls: the reply round trip, first contact, blocking and
    unblocking, what each path reads, and the invariant that mapped chats
    are visitors. */
module RelayProperties {
  import opened Wrappers
  import opened JsStrings
  import opened KvStore
  import opened Relay

  /** A message that goes down the visitor path. */
  predicate FromVisitor(cfg: Config, msg: Message) {
    msg.text != Some("/start") && !IsAdminChat(cfg, msg.chatId)
  }

  /** A message from the admin that replies to the forwarded message
      `replyId` and is not `/start`. */
  predicate AdminReply(cfg: Config, msg: Message, replyId: int) {
    && msg.text != Some("/start")
    && IsAdminChat(cfg, msg.chatId)
    && RepliesToChat(msg)
    && msg.replyTo.value.messageId == replyId
  }

  /** At most one chat id passes the admin check of worker.js line 91. */
  lemma AtMostOneAdminChat(cfg: Config, a: int, b: int)
    ensures IsAdminChat(cfg, a) && IsAdminChat(cfg, b) ==> a == b
  {
    NumberToStringInjective(a, b);
  }

  /** The relay round trip: once a visitor's message has been forwarded, an
      ordinary admin reply to the forwarded copy is copied back to that
      visitor's chat, and nothing is written. */
  lemma ReplyReachesVisitor(store: Store, cfg: Config, visitorMsg: Message, io: Fetched,
                            adminMsg: Message, io': Fetched)
    requires FromVisitor(cfg, visitorMsg) && !Truthy(BlockFlag(store, visitorMsg.chatId))
    requires io.forward.ok
    requires AdminReply(cfg, adminMsg, io.forward.resultMessageId) && !IsCommand(adminMsg.text)
    ensures var s1 := OnMessage(store, cfg, visitorMsg, io).store;
            OnMessage(s1, cfg, adminMsg, io')
              == Step(s1, [CopyMessage(Some(Num(visitorMsg.chatId)), adminMsg.chatId, adminMsg.messageId)])
  {
    var s1 := OnMessage(store, cfg, visitorMsg, io).store;
    assert s1 == GuestMessage(store, cfg, visitorMsg, io).store;
    assert Target(s1, io.forward.resultMessageId) == Some(Num(visitorMsg.chatId));
  }

  /** A visitor's block flag is untouched by the visitor path. */
  lemma GuestKeepsBlockFlag(store: Store, cfg: Config, msg: Message, io: Fetched, chatId: int)
    ensures BlockFlag(GuestMessage(store, cfg, msg, io).store, chatId) == BlockFlag(store, chatId)
  {
    var key := BlockKey(NumberToString(chatId));
    KeyFamiliesDisjoint(io.forward.resultMessageId, msg.chatId, NumberToString(chatId));
    var r := GuestMessage(store, cfg, msg, io);
    var gone := {FirstKey(msg.chatId), MapKey(io.forward.resultMessageId)};
    assert key !in gone;
    assert (key in r.store) == (key in r.store - gone) == (key in store - gone) == (key in store);
    if key in store {
      assert r.store[key] == (r.store - gone)[key] == (store - gone)[key] == store[key];
    }
  }

  /** Only the first relayed message of a visitor produces the new-visitor
      notice: the next one from the same chat yields the auto-reply (if any)
      and the forward, nothing else. */
  lemma SecondMessageNoNotice(store: Store, cfg: Config, first: Message, io: Fetched,
                              second: Message, io': Fetched)
    requires FromVisitor(cfg, first) && FromVisitor(cfg, second)
    requires second.chatId == first.chatId
    requires !Truthy(BlockFlag(store, first.chatId))
    ensures var s1 := OnMessage(store, cfg, first, io).store;
            OnMessage(s1, cfg, second, io').effects == RelayEffects(cfg, second, io')
  {
    var s1 := OnMessage(store, cfg, first, io).store;
    assert s1 == GuestMessage(store, cfg, first, io).store;
    GuestKeepsBlockFlag(store, cfg, first, io, first.chatId);
    assert Truthy(Get(s1, FirstKey(second.chatId)));
  }

  /** After `/block` on the copy of a visitor's message, that visitor's next
      message only earns the blocked notice. */
  lemma BlockThenVisitorBlocked(store: Store, cfg: Config, adminMsg: Message, replyId: int, io: Fetched,
                                visitorMsg: Message, io': Fetched)
    requires AdminReply(cfg, adminMsg, replyId)
    requires adminMsg.text == Some("/block")
    requires Target(store, replyId) == Some(Num(visitorMsg.chatId))
    requires cfg.adminUid != Num(visitorMsg.chatId)
    requires FromVisitor(cfg, visitorMsg)
    ensures var s1 := OnMessage(store, cfg, adminMsg, io).store;
            OnMessage(s1, cfg, visitorMsg, io') == Step(s1, [SendMessage(Num(visitorMsg.chatId), BlockedNotice)])
  {
    var s1 := OnMessage(store, cfg, adminMsg, io).store;
    assert s1 == Block(store, cfg, replyId).store;
    assert Truthy(BlockFlag(s1, visitorMsg.chatId));
  }

  /** After `/unblock` on the copy of a visitor's message, that visitor's
      next message is forwarded to the admin again. */
  lemma UnblockThenVisitorRelayed(store: Store, cfg: Config, adminMsg: Message, replyId: int, io: Fetched,
                                  visitorMsg: Message, io': Fetched)
    requires AdminReply(cfg, adminMsg, replyId)
    requires adminMsg.text == Some("/unblock")
    requires Target(store, replyId) == Some(Num(visitorMsg.chatId))
    requires FromVisitor(cfg, visitorMsg)
    ensures var s1 := OnMessage(store, cfg, adminMsg, io).store;
            ForwardMessage(cfg.adminUid, visitorMsg.chatId, visitorMsg.messageId)
              in OnMessage(s1, cfg, visitorMsg, io').effects
  {
    var s1 := OnMessage(store, cfg, adminMsg, io).store;
    assert s1 == Unblock(store, cfg, replyId).store;
    assert !Truthy(BlockFlag(s1, visitorMsg.chatId));
  }

  /** A block-flag write leaves every mapping where it was. */
  lemma BlockWriteKeepsTarget(store: Store, id: string, v: JsValue, replyId: int)
    ensures Target(store[BlockKey(id) := v], replyId) == Target(store, replyId)
  {
    KeyFamiliesDisjoint(replyId, 0, id);
  }

  /** `/unblock` is idempotent: repeating it changes neither the store nor
      the confirmation. */
  lemma UnblockIdempotent(store: Store, cfg: Config, replyId: int)
    ensures var once := Unblock(store, cfg, replyId);
            Unblock(once.store, cfg, replyId) == once
  {
    var once := Unblock(store, cfg, replyId);
    BlockWriteKeepsTarget(store, ToJsString(Target(store, replyId)), Bool(false), replyId);
    assert Target(once.store, replyId) == Target(store, replyId);
    var key := BlockKey(ToJsString(Target(store, replyId)));
    assert once.store == store[key := Bool(false)];
    assert once.store[key := Bool(false)] == once.store;
  }

  /** `/checkblock` after a successful `/block` on the same copy reports the
      visitor as blocked; after `/unblock` it reports them as not blocked. */
  lemma CheckBlockReportsLastCommand(store: Store, cfg: Config, replyId: int)
    ensures var blocked := Block(store, cfg, replyId);
            !SameAsAdmin(Target(store, replyId), cfg)
            ==> CheckBlock(blocked.store, cfg, replyId).effects
                == [SendMessage(cfg.adminUid, CheckReport(ToJsString(Target(store, replyId)), true))]
    ensures CheckBlock(Unblock(store, cfg, replyId).store, cfg, replyId).effects
            == [SendMessage(cfg.adminUid, CheckReport(ToJsString(Target(store, replyId)), false))]
  {
    var id := ToJsString(Target(store, replyId));
    BlockWriteKeepsTarget(store, id, Bool(true), replyId);
    BlockWriteKeepsTarget(store, id, Bool(false), replyId);
  }

  /** A visitor message without text never looks at the keyword file or the
      auto-reply body (worker.js line 136): their contents cannot change the outcome. */
  lemma NoTextSkipsKeywordStep(store: Store, cfg: Config, msg: Message, io: Fetched, io': Fetched)
    requires !HasText(msg)
    requires io.forward == io'.forward
    ensures OnMessage(store, cfg, msg, io) == OnMessage(store, cfg, msg, io')
  {
  }

  /** The keys the handler reads for `msg`; the block key of `/checkblock`
      depends on the mapping it read first. */
  function ReadKeys(store: Store, cfg: Config, msg: Message): set<string> {
    if msg.text == Some("/start") then {}
    else if IsAdminChat(cfg, msg.chatId) then
      if !RepliesToChat(msg) then {}
      else
        var replyId := msg.replyTo.value.messageId;
        if msg.text == Some("/checkblock")
        then {MapKey(replyId), BlockKey(ToJsString(Target(store, replyId)))}
        else {MapKey(replyId)}
    else {BlockKey(NumberToString(msg.chatId)), FirstKey(msg.chatId)}
  }

  /** The handler reads nothing but `ReadKeys`: two stores that agree there
      give the same outbound calls and the same writes. */
  lemma ReadsOnlyReadKeys(s1: Store, s2: Store, cfg: Config, msg: Message, io: Fetched)
    requires forall k <- ReadKeys(s1, cfg, msg) :: Get(s1, k) == Get(s2, k)
    ensures OnMessage(s1, cfg, msg, io).effects == OnMessage(s2, cfg, msg, io).effects
    ensures forall k :: Get(OnMessage(s1, cfg, msg, io).store, k) != Get(s1, k)
                        ==> Get(OnMessage(s1, cfg, msg, io).store, k) == Get(OnMessage(s2, cfg, msg, io).store, k)
  {
    if msg.text != Some("/start") && IsAdminChat(cfg, msg.chatId) {
      if RepliesToChat(msg) {
        var replyId := msg.replyTo.value.messageId;
        assert MapKey(replyId) in ReadKeys(s1, cfg, msg);
        if msg.text == Some("/checkblock") {
          assert BlockKey(ToJsString(Target(s1, replyId))) in ReadKeys(s1, cfg, msg);
        }
        AdminReadsOnlyReadKeys(s1, s2, cfg, msg);
      }
    } else if FromVisitor(cfg, msg) {
      assert BlockKey(NumberToString(msg.chatId)) in ReadKeys(s1, cfg, msg);
      assert FirstKey(msg.chatId) in ReadKeys(s1, cfg, msg);
      GuestReadsOnlyReadKeys(s1, s2, cfg, msg, io);
    }
  }

  lemma AdminReadsOnlyReadKeys(s1: Store, s2: Store, cfg: Config, msg: Message)
    requires RepliesToChat(msg)
    requires Target(s1, msg.replyTo.value.messageId) == Target(s2, msg.replyTo.value.messageId)
    requires msg.text == Some("/checkblock")
             ==> var key := BlockKey(ToJsString(Target(s1, msg.replyTo.value.messageId)));
                 Get(s1, key) == Get(s2, key)
    ensures AdminMessage(s1, cfg, msg).effects == AdminMessage(s2, cfg, msg).effects
    ensures forall k :: Get(AdminMessage(s1, cfg, msg).store, k) != Get(s1, k)
                        ==> Get(AdminMessage(s1, cfg, msg).store, k) == Get(AdminMessage(s2, cfg, msg).store, k)
  {
  }

  lemma GuestReadsOnlyReadKeys(s1: Store, s2: Store, cfg: Config, msg: Message, io: Fetched)
    requires Get(s1, BlockKey(NumberToString(msg.chatId))) == Get(s2, BlockKey(NumberToString(msg.chatId)))
    requires Get(s1, FirstKey(msg.chatId)) == Get(s2, FirstKey(msg.chatId))
    ensures GuestMessage(s1, cfg, msg, io).effects == GuestMessage(s2, cfg, msg, io).effects
    ensures forall k :: Get(GuestMessage(s1, cfg, msg, io).store, k) != Get(s1, k)
                        ==> Get(GuestMessage(s1, cfg, msg, io).store, k) == Get(GuestMessage(s2, cfg, msg, io).store, k)
  {
  }

  /** Every mapping points at a visitor: a number whose string form is not
      `ADMIN_UID`. The visitor path only ever writes such values. */
  ghost predicate MappingsAreVisitors(cfg: Config, store: Store) {
    forall m :: Target(store, m).Some?
                ==> Target(store, m).value.Num? && !IsAdminChat(cfg, Target(store, m).value.n)
  }

  /** One handler call keeps every mapping pointing at a visitor. */
  lemma OnMessageKeepsMappingsVisitors(store: Store, cfg: Config, msg: Message, io: Fetched)
    requires MappingsAreVisitors(cfg, store)
    ensures MappingsAreVisitors(cfg, OnMessage(store, cfg, msg, io).store)
  {
    var r := OnMessage(store, cfg, msg, io);
    forall m | Target(r.store, m).Some?
      ensures Target(r.store, m).value.Num? && !IsAdminChat(cfg, Target(r.store, m).value.n)
    {
      if Target(r.store, m) != Target(store, m) {
        assert FromVisitor(cfg, msg);
        assert r == GuestMessage(store, cfg, msg, io);
        assert Target(r.store, m) == Some(Num(msg.chatId));
      }
    }
  }

  /** The store after handling `msgs` in order, the i-th call seeing the
      i-th results of the awaited calls. */
  function Run(store: Store, cfg: Config, msgs: seq<Message>, ios: seq<Fetched>): Store
    requires |msgs| == |ios|
    decreases |msgs|
  {
    if |msgs| == 0 then store
    else Run(OnMessage(store, cfg, msgs[0], ios[0]).store, cfg, msgs[1..], ios[1..])
  }

  /** Any run of handler calls keeps every mapping pointing at a visitor. */
  lemma {:induction false} RunKeepsMappingsVisitors(store: Store, cfg: Config, msgs: seq<Message>, ios: seq<Fetched>)
    requires |msgs| == |ios|
    requires MappingsAreVisitors(cfg, store)
    ensures MappingsAreVisitors(cfg, Run(store, cfg, msgs, ios))
    decreases |msgs|
  {
    if |msgs| > 0 {
      OnMessageKeepsMappingsVisitors(store, cfg, msgs[0], ios[0]);
      RunKeepsMappingsVisitors(OnMessage(store, cfg, msgs[0], ios[0]).store, cfg, msgs[1..], ios[1..]);
    }
  }

  /** The self-block guard of worker.js line 180 cannot fire on a store the handler
      built from an empty one while `ADMIN_UID` is a string: the mapped value
      is a number, and `===` never equates a number with a string. Even its
      string form differs from `ADMIN_UID`, so a loose comparison would not
      fire either. */
  lemma SelfBlockGuardNeverFires(cfg: Config, msgs: seq<Message>, ios: seq<Fetched>, replyId: int)
    requires |msgs| == |ios|
    requires cfg.adminUid.Str?
    ensures var store := Run(map[], cfg, msgs, ios);
            && !SameAsAdmin(Target(store, replyId), cfg)
            && (Target(store, replyId).Some? ==> Str(ToJsString(Target(store, replyId))) != cfg.adminUid)
  {
    RunKeepsMappingsVisitors(map[], cfg, msgs, ios);
  }

  /** Replying `/block` to admin-side message 42, mapped to visitor 1001,
      sets `isblocked-1001` and confirms `UID:1001 屏蔽成功` to the admin. */
  lemma BlockExample(io: Fetched)
    ensures var cfg := Config(Str("12345"), "secret");
            var adminMsg := Message(7, 12345, None, Some("/block"), Some(ReplyRef(42, true)));
            var r := OnMessage(map[MapKey(42) := Num(1001)], cfg, adminMsg, io);
            && Get(r.store, "isblocked-1001") == Some(Bool(true))
            && r.effects == [SendMessage(Str("12345"), "UID:1001 屏蔽成功")]
  {
    var cfg := Config(Str("12345"), "secret");
    var adminMsg := Message(7, 12345, None, Some("/block"), Some(ReplyRef(42, true)));
    var store := map[MapKey(42) := Num(1001)];
    Rendered12345();
    assert IsAdminChat(cfg, 12345);
    assert Target(store, 42) == Some(Num(1001));
    assert !SameAsAdmin(Some(Num(1001)), cfg);
    Rendered1001();
    assert BlockKey(ToJsString(Some(Num(1001)))) == "isblocked-1001";
    assert "UID:" + ToJsString(Some(Num(1001))) + " 屏蔽成功" == "UID:1001 屏蔽成功";
    assert OnMessage(store, cfg, adminMsg, io) == Block(store, cfg, 42);
  }

  /** Visitor 2002 with `isblocked-2002` set gets `You are blocked` and is not
      forwarded. */
  lemma BlockedVisitorExample(msg: Message, io: Fetched)
    requires msg.chatId == 2002 && msg.text != Some("/start")
    ensures var cfg := Config(Str("12345"), "secret");
            var store := map["isblocked-2002" := Bool(true)];
            OnMessage(store, cfg, msg, io) == Step(store, [SendMessage(Num(2002), "You are blocked")])
  {
    var cfg := Config(Str("12345"), "secret");
    var store := map["isblocked-2002" := Bool(true)];
    Rendered2002();
    assert !IsAdminChat(cfg, 2002);
    assert BlockKey(NumberToString(2002)) == "isblocked-2002";
    assert Truthy(BlockFlag(store, 2002));
    assert OnMessage(store, cfg, msg, io) == GuestMessage(store, cfg, msg, io);
  }

  lemma Rendered12345()
    ensures NumberToString(12345) == "12345"
  {
    assert NatToString(12) == "12";
    assert NatToString(123) == "123";
    assert NatToString(1234) == "1234";
  }

  lemma Rendered1001()
    ensures NumberToString(1001) == "1001"
  {
    assert NatToString(10) == "10";
    assert NatToString(100) == "100";
  }

  lemma Rendered2002()
    ensures NumberToString(2002) == "2002"
  {
    assert NatToString(20) == "20";
    assert NatToString(200) == "200";
  }
}
