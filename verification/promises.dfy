/**
 * What single operations of the controller promise: the sync gate and its
 * acknowledgements, `connect`, the local echo, unread counters, member
 * events, history paging and the room-map edits.
 */
module Promises {
  import opened Wrappers
  import opened Types
  import opened Messages
  import opened RoomMap
  import opened Views
  import opened Controller
  import opened Properties

  // ---------------------------------------------------------------------
  // Sync gating

  /**
   * `sync` sends one Sync and raises `syncing` exactly when no sync is in
   * flight and the user is logged in; otherwise it changes nothing.
   */
  lemma SyncGate(s: AppModel)
    ensures var t := SyncStep(s);
      (!s.syncing && s.loggedIn ==> t.syncing && t.outbox == s.outbox + [BKCommand.Sync] &&
                                    t == s.(syncing := true, outbox := t.outbox)) &&
      (s.syncing || !s.loggedIn ==> t == s)
  {
  }

  /** A second plain sync while one is in flight is suppressed. */
  lemma SyncIdempotent(s: AppModel)
    ensures SyncStep(SyncStep(s)) == SyncStep(s)
  {
    SyncGate(s);
    SyncGate(SyncStep(s));
  }

  /** A `Sync(since)` response ends the sync and replaces `since`; nothing else changes. */
  lemma SyncResponse(s: AppModel, page: nat, since: string)
    ensures var t := Respond(s, page, BKResponse.Sync(since));
      !t.syncing && t.since == Some(since) && t.(syncing := s.syncing, since := s.since) == s
  {
  }

  /** A `SyncError` response ends the sync and keeps `since`; nothing else changes. */
  lemma SyncErrorResponse(s: AppModel, page: nat, err: BackendError)
    ensures var t := Respond(s, page, BKResponse.SyncError(err));
      !t.syncing && t.since == s.since && t.(syncing := s.syncing) == s
  {
  }

  /** Once a sync is acknowledged, the next tick of a logged-in session asks again. */
  lemma SyncResumes(s: AppModel, page: nat, resp: BKResponse)
    requires resp.Sync? || resp.SyncError?
    requires s.loggedIn
    ensures SyncStep(Respond(s, page, resp)).outbox == s.outbox + [BKCommand.Sync]
  {
  }

  /**
   * `reload_rooms` sends SyncForced whatever `syncing` is, leaves `syncing`
   * alone and shows the loading state; a `JoinRoom` response does just that.
   */
  lemma ReloadAlwaysForces(s: AppModel, page: nat)
    ensures var t := ReloadRooms(s);
      t.outbox == s.outbox + [BKCommand.SyncForced] && t.syncing == s.syncing &&
      t.state == AppState.Loading && t.(state := s.state, outbox := s.outbox) == s
    ensures Respond(s, page, BKResponse.JoinRoom) == ReloadRooms(s)
  {
  }

  // ---------------------------------------------------------------------
  // Login

  /** `connect` sets the server, defaulting to matrix.org, whatever else happens. */
  lemma ConnectServer(s: AppModel, user: Option<string>, pass: Option<string>, server: Option<string>)
    ensures var t := Connect(s, user, pass, server).0;
      (server.Some? ==> t.serverUrl == server.value) &&
      (server.None? ==> t.serverUrl == "https://matrix.org")
  {
  }

  /** Without a user name or a password `connect` returns `None` and sends nothing. */
  lemma ConnectMissingCredentials(s: AppModel, user: Option<string>, pass: Option<string>, server: Option<string>)
    requires user.None? || pass.None?
    ensures Connect(s, user, pass, server).1.None?
    ensures Connect(s, user, pass, server).0.outbox == s.outbox
  {
  }

  /** With both, `connect` sends exactly one Login carrying the chosen server. */
  lemma ConnectSendsLogin(s: AppModel, user: string, pass: string, server: Option<string>)
    ensures var r := Connect(s, Some(user), Some(pass), server);
      r.1 == Some(()) &&
      r.0.outbox == s.outbox + [BKCommand.Login(user, pass, server.GetOr("https://matrix.org"))]
  {
  }

  /** `login` forgets the sync position and shows the loading page before connecting. */
  lemma LoginResets(s: AppModel, user: Option<string>, pass: Option<string>, server: Option<string>)
    ensures var t := LoginStep(s, user, pass, server);
      t.state == AppState.Loading && t.since.None? && t.syncing == s.syncing &&
      t.loggedIn == s.loggedIn && t.rooms == s.rooms
  {
  }

  // ---------------------------------------------------------------------
  // The local echo

  /**
   * `remove_tmp_room_message` removes only the first echo of `msg`; the
   * other entries keep their order.
   */
  lemma EchoRemovedFirst(tmp: seq<Message>, msg: Message, i: nat)
    requires i < |tmp| && SameEcho(tmp[i], msg)
    requires forall j :: 0 <= j < i ==> !SameEcho(tmp[j], msg)
    ensures WithoutEcho(tmp, msg) == tmp[..i] + tmp[i + 1..]
  {
    var r := FirstEchoIndex(tmp, msg);
    assert r.Some?;
    assert r.value == i;
  }

  /** With no echo of `msg` the list is unchanged, and only then. */
  lemma EchoAbsent(tmp: seq<Message>, msg: Message)
    ensures WithoutEcho(tmp, msg) == tmp <==> forall j :: 0 <= j < |tmp| ==> !SameEcho(tmp[j], msg)
  {
    var r := FirstEchoIndex(tmp, msg);
    if r.Some? {
      assert |WithoutEcho(tmp, msg)| == |tmp| - 1;
    }
  }

  /** At most one entry goes, and what remains was there before. */
  lemma EchoAtMostOne(tmp: seq<Message>, msg: Message)
    ensures |tmp| - 1 <= |WithoutEcho(tmp, msg)| <= |tmp|
    ensures multiset(WithoutEcho(tmp, msg)) <= multiset(tmp)
  {
    match FirstEchoIndex(tmp, msg)
    case None =>
    case Some(i) =>
      assert tmp == tmp[..i] + [tmp[i]] + tmp[i + 1..];
  }

  /**
   * The echo round trip: a message sent from the active room, then drawn
   * when the server echoes it, leaves the pending list as it was, provided
   * no older echo stood for the same text.
   */
  lemma EchoRoundTrip(s: AppModel, text: string, now: int, echo: Message)
    requires text != []
    requires SameEcho(OutgoingMessage(s, text, now), echo)
    requires forall j :: 0 <= j < |s.tmpMsgs| ==> !SameEcho(s.tmpMsgs[j], echo)
    ensures AddMessage(SendMessage(s, text, now), echo).tmpMsgs == s.tmpMsgs
  {
    var m := OutgoingMessage(s, text, now);
    var t := SendMessage(s, text, now);
    assert t.tmpMsgs == s.tmpMsgs + [m];
    assert echo.room == ActiveKey(t);
    EchoRemovedFirst(t.tmpMsgs, echo, |s.tmpMsgs|);
    assert t.tmpMsgs[..|s.tmpMsgs|] == s.tmpMsgs;
  }

  /** Sending records the echo and queues SendMsg; empty text is ignored. */
  lemma SendRecordsEcho(s: AppModel, text: string, now: int)
    ensures var t := SendMessage(s, text, now);
      (text == [] ==> t == s) &&
      (text != [] ==>
        var m := OutgoingMessage(s, text, now);
        m.room == ActiveKey(s) && m.body == text && m.mtype == "m.text" &&
        t.tmpMsgs == s.tmpMsgs + [m] && t.outbox == s.outbox + [BKCommand.SendMsg(m)])
  {
  }

  // ---------------------------------------------------------------------
  // Unread counters

  /** `update_room_notifications` touches only the counter of a known room. */
  lemma CounterOnlyKnown(rooms: Rooms, id: string, f: int -> int)
    ensures id !in rooms ==> UpdateNotifications(rooms, id, f) == rooms
    ensures id in rooms ==>
              var u := UpdateNotifications(rooms, id, f);
              u.Keys == rooms.Keys && u[id].notifications == f(rooms[id].notifications) &&
              u[id].(notifications := rooms[id].notifications) == rooms[id] &&
              forall k :: k in rooms && k != id ==> u[k] == rooms[k]
  {
  }

  /** A message for another room than the active one bumps that room's counter by one. */
  lemma OtherRoomCounts(s: AppModel, msg: Message)
    requires msg.room != ActiveKey(s) && msg.room in s.rooms
    ensures var t := AddMessage(s, msg);
      t.rooms[msg.room].notifications == s.rooms[msg.room].notifications + 1 &&
      t.tmpMsgs == s.tmpMsgs && t.shownMessages == s.shownMessages
  {
  }

  /** A message of the active room is counted as shown and clears its echo; no counter moves. */
  lemma ActiveRoomShows(s: AppModel, msg: Message)
    requires msg.room == ActiveKey(s) && msg.room in s.rooms
    ensures var t := AddMessage(s, msg);
      t.rooms == s.rooms && t.shownMessages == s.shownMessages + 1 &&
      t.tmpMsgs == WithoutEcho(s.tmpMsgs, msg)
  {
  }

  /** `MarkedAsRead(r, _)` resets room `r`'s counter to zero. */
  lemma MarkedAsReadResets(s: AppModel, page: nat, id: string, event: string)
    requires id in s.rooms
    ensures var t := Respond(s, page, BKResponse.MarkedAsRead(id, event));
      t.rooms[id].notifications == 0 && t.outbox == s.outbox && t.rooms.Keys == s.rooms.Keys
  {
  }

  // ---------------------------------------------------------------------
  // Member events

  /** A member event for a room other than the active one changes nothing. */
  lemma MemberEventElsewhere(s: AppModel, ev: Event)
    requires ev.room != ActiveKey(s)
    ensures MemberEvent(s, ev) == s
  {
  }

  /** "leave" drops the sender from the active room's members, and nothing else. */
  lemma MemberLeaves(s: AppModel, ev: Event)
    requires ev.room == ActiveKey(s) && ev.room in s.rooms && ev.membership == Some("leave")
    ensures var t := MemberEvent(s, ev);
      t.rooms.Keys == s.rooms.Keys &&
      t.rooms[ev.room].members == s.rooms[ev.room].members - {ev.sender} &&
      t.rooms[ev.room].(members := s.rooms[ev.room].members) == s.rooms[ev.room] &&
      (forall k :: k in s.rooms && k != ev.room ==> t.rooms[k] == s.rooms[k]) &&
      t == s.(rooms := t.rooms)
  {
  }

  /** "join" files the sender, with alias and avatar defaulting to "", in the active room. */
  lemma MemberJoins(s: AppModel, ev: Event)
    requires ev.room == ActiveKey(s) && ev.room in s.rooms && ev.membership == Some("join")
    ensures var t := MemberEvent(s, ev);
      t.rooms.Keys == s.rooms.Keys &&
      t.rooms[ev.room].members ==
        s.rooms[ev.room].members[ev.sender := Member(Some(ev.displayName.GetOr("")), Some(ev.avatarUrl.GetOr("")), ev.sender)] &&
      t.rooms[ev.room].(members := s.rooms[ev.room].members) == s.rooms[ev.room] &&
      (forall k :: k in s.rooms && k != ev.room ==> t.rooms[k] == s.rooms[k]) &&
      t == s.(rooms := t.rooms)
  {
  }

  /** Any other membership is ignored. */
  lemma MemberOtherIgnored(s: AppModel, ev: Event)
    requires ev.membership != Some("leave") && ev.membership != Some("join")
    ensures MemberEvent(s, ev) == s
  {
  }

  // ---------------------------------------------------------------------
  // History order

  /** Picking out one room's messages distributes over concatenation. */
  lemma {:induction false} InRoomAppend(a: seq<Message>, b: seq<Message>, id: string)
    ensures InRoom(a + b, id) == InRoom(a, id) + InRoom(b, id)
    decreases |a|
  {
    if a == [] {
      assert a + b == b;
    } else {
      assert (a + b)[0] == a[0];
      assert (a + b)[1..] == a[1..] + b;
      InRoomAppend(a[1..], b, id);
    }
  }

  /** A batch wholly for one room is kept whole and in order. */
  lemma {:induction false} InRoomAll(ms: seq<Message>, id: string)
    requires forall i :: 0 <= i < |ms| ==> ms[i].room == id
    ensures InRoom(ms, id) == ms
    decreases |ms|
  {
    if ms != [] {
      InRoomAll(ms[1..], id);
    }
  }

  /** `show_room_messages_top` with an empty batch changes nothing. */
  lemma TopEmptyBatch(s: AppModel)
    ensures ShowRoomMessagesTop(s, []) == s
  {
  }

  /**
   * An older batch for the active room goes in front of its history, in
   * the batch's own order, and every message is counted as shown.
   */
  lemma TopBatchOrder(s: AppModel, msgs: seq<Message>)
    requires ActiveKey(s) in s.rooms
    requires forall i :: 0 <= i < |msgs| ==> msgs[i].room == ActiveKey(s)
    ensures var t := ShowRoomMessagesTop(s, msgs);
      ActiveKey(s) in t.rooms && t.rooms[ActiveKey(s)].messages == msgs + s.rooms[ActiveKey(s)].messages &&
      t.shownMessages == s.shownMessages + |msgs|
  {
    ShowRoomMessagesTopFrame(s, msgs);
    InRoomAll(msgs, ActiveKey(s));
    if msgs != [] {
      PrependAllKeys(s.rooms, msgs);
      TopFoldShown(s.(rooms := PrependAll(s.rooms, msgs)), msgs);
    }
  }

  /** Drawing a batch of the active room, from its newest message back, counts each message as shown. */
  lemma {:induction false} TopFoldShown(s: AppModel, ms: seq<Message>)
    requires ActiveKey(s) in s.rooms
    requires forall i :: 0 <= i < |ms| ==> ms[i].room == ActiveKey(s)
    ensures TopFold(s, ms).shownMessages == s.shownMessages + |ms|
    decreases |ms|
  {
    if ms != [] {
      TopFoldShown(s, ms[1..]);
      TopFoldFrame(s, ms[1..]);
    }
  }

  /** A newer batch goes after each room's history, again in the batch's order. */
  lemma AppendBatchOrder(s: AppModel, msgs: seq<Message>, init: bool)
    requires ActiveKey(s) in s.rooms
    requires forall i :: 0 <= i < |msgs| ==> msgs[i].room == ActiveKey(s)
    ensures var t := ShowRoomMessages(s, msgs, init).0;
      ActiveKey(s) in t.rooms && t.rooms[ActiveKey(s)].messages == s.rooms[ActiveKey(s)].messages + msgs
  {
    ShowRoomMessagesFrame(s, msgs, init);
    InRoomAll(msgs, ActiveKey(s));
  }

  // ---------------------------------------------------------------------
  // Paging back through history

  /** Two consecutive pages read as one longer page: paging leaves no gap and repeats nothing. */
  lemma PagesJoin(ms: seq<Message>, skip: nat, n: nat, m: nat)
    requires skip + n <= |ms|
    ensures LatestPage(ms, skip, n) + LatestPage(ms, skip + n, m) == LatestPage(ms, skip, n + m)
  {
    var a := LatestPage(ms, skip, n);
    var b := LatestPage(ms, skip + n, m);
    var c := LatestPage(ms, skip, n + m);
    assert |a + b| == |c|;
    forall i | 0 <= i < |c|
      ensures (a + b)[i] == c[i]
    {
      if i >= n {
        assert (a + b)[i] == b[i - n];
      }
    }
  }

  /** The first page of a room's history ends with its newest message. */
  lemma PageStartsNewest(ms: seq<Message>, n: nat)
    requires ms != [] && n > 0
    ensures LatestPage(ms, 0, n)[0] == ms[|ms| - 1]
  {
  }

  /**
   * `load_more_messages` queues the next page while shown messages remain
   * in memory, asks for the context of the oldest one once memory is
   * exhausted, and never changes the shown count itself.
   */
  lemma LoadMoreCases(s: AppModel, page: nat)
    requires ActiveKey(s) in s.rooms
    ensures var t := LoadMoreMessages(s, page);
      var ms := s.rooms[ActiveKey(s)].messages;
      t.shownMessages == s.shownMessages && t.rooms == s.rooms &&
      (s.shownMessages < |ms| ==>
         t.outbox == s.outbox && t.internal == s.internal + PageCommands(LatestPage(ms, s.shownMessages, page))) &&
      (s.shownMessages >= |ms| && ms != [] ==>
         t.internal == s.internal && t.outbox == s.outbox + [BKCommand.GetMessageContext(ms[0])]) &&
      (ms == [] ==> t == s)
  {
  }

  /** Opening a room queues its newest page, then the switch to the room panel. */
  lemma OpenRoomQueues(s: AppModel, page: nat, room: Room)
    ensures var t := SetActiveRoom(s, page, room);
      t.activeRoom == Some(room.id) && t.tmpMsgs == [] && t.shownMessages == 0 &&
      t.memberLimit == InitialMemberLimit && t.panel == RoomPanel.Loading && t.rooms == s.rooms &&
      t.internal == s.internal + PageCommands(LatestPage(room.messages, 0, page)) +
                    [InternalCommand.SetPanel(RoomPanel.Room)]
  {
    var s1 := s.(memberLimit := InitialMemberLimit, panel := RoomPanel.Loading,
                 activeRoom := Some(room.id), tmpMsgs := [], shownMessages := 0);
    var s2 := Post(s1, PageCommands(LatestPage(room.messages, 0, page)) + [InternalCommand.SetPanel(RoomPanel.Room)]);
    var s3 := if room.messages != [] then MarkRead(s2, room.messages[|room.messages| - 1]) else s2;
    assert s3 == s2.(outbox := s3.outbox);
  }

  // ---------------------------------------------------------------------
  // Room-map edits

  /** After `set_rooms` an active room that is still listed stays active. */
  lemma SetRoomsKeepsActive(s: AppModel, page: nat, rs: seq<Room>, def: Option<Room>)
    requires s.activeRoom.Some? && s.activeRoom.value in RoomsFromList(rs)
    ensures SetRooms(s, page, rs, def).activeRoom == s.activeRoom
    ensures SetRooms(s, page, rs, def).rooms == RoomsFromList(rs)
  {
    InsertAllKeyed(map[], rs);
  }

  /** With neither the old active room nor a default, `set_rooms` shows no room. */
  lemma SetRoomsNoRoom(s: AppModel, page: nat, rs: seq<Room>)
    requires s.activeRoom.None? || s.activeRoom.value !in RoomsFromList(rs)
    ensures var t := SetRooms(s, page, rs, None);
      t.activeRoom.None? && t.panel == RoomPanel.NoRoom && t.state == AppState.Chat &&
      t.tmpMsgs == [] && t.rooms == RoomsFromList(rs) && t.outbox == s.outbox
  {
  }

  /** `new_room` keeps the entry of a room id it already knows, else adds the room; then shows it. */
  lemma NewRoomShown(s: AppModel, page: nat, r: Room)
    requires WellKeyed(s.rooms)
    ensures var t := AddNewRoom(s, page, r);
      r.id in t.rooms && t.activeRoom == Some(r.id) &&
      (r.id in s.rooms ==> t.rooms == s.rooms) &&
      (r.id !in s.rooms ==> t.rooms == s.rooms[r.id := r])
  {
    AddNewRoomFrame(s, page, r);
    var s1 := if r.id in s.rooms then s else s.(rooms := s.rooms[r.id := r]);
    assert s1.rooms[r.id].id == r.id;
    assert SetActiveRoom(s1, page, s1.rooms[r.id]).activeRoom == Some(r.id);
  }

  /** Leaving drops the active room from the map and asks the server to leave it. */
  lemma LeaveDropsRoom(s: AppModel)
    ensures var t := ReallyLeave(s);
      ActiveKey(s) !in t.rooms && t.rooms == s.rooms - {ActiveKey(s)} &&
      t.activeRoom.None? && t.tmpMsgs == [] && t.panel == RoomPanel.NoRoom &&
      t.outbox == s.outbox + [BKCommand.LeaveRoom(ActiveKey(s))]
  {
  }

  /** `escape` leaves the room only from the chat state. */
  lemma EscapeOnlyFromChat(s: AppModel)
    ensures s.state != AppState.Chat ==> Escape(s) == s
    ensures s.state == AppState.Chat ==>
              Escape(s).activeRoom.None? && Escape(s).panel == RoomPanel.NoRoom && Escape(s).tmpMsgs == []
  {
  }

  /**
   * `set_room_detail` changes only the name or the topic of a known room,
   * for the two known keys; every other field and every other room is kept.
   */
  lemma DetailKeys(rooms: Rooms, id: string, key: string, value: Option<string>)
    ensures key != "m.room.name" && key != "m.room.topic" ==> SetDetail(rooms, id, key, value) == rooms
    ensures id !in rooms ==> SetDetail(rooms, id, key, value) == rooms
    ensures id in rooms && key == "m.room.name" ==>
              var r := SetDetail(rooms, id, key, value)[id];
              r.name == value && r.(name := rooms[id].name) == rooms[id]
    ensures id in rooms && key == "m.room.topic" ==>
              var r := SetDetail(rooms, id, key, value)[id];
              r.topic == value && r.(topic := rooms[id].topic) == rooms[id]
    ensures SetDetail(rooms, id, key, value).Keys == rooms.Keys
    ensures forall k :: k in rooms && k != id ==> SetDetail(rooms, id, key, value)[k] == rooms[k]
  {
  }

  /** `room_name_change` renames a known room and touches nothing else; an unknown room changes nothing. */
  lemma NameChangeOnly(s: AppModel, id: string, name: Option<string>)
    ensures id !in s.rooms ==> RoomNameChange(s, id, name) == s
    ensures id in s.rooms ==>
              var t := RoomNameChange(s, id, name);
              t.rooms.Keys == s.rooms.Keys &&
              t.rooms[id].name == name && t.rooms[id].(name := s.rooms[id].name) == s.rooms[id] &&
              (forall k :: k in s.rooms && k != id ==> t.rooms[k] == s.rooms[k]) &&
              t == s.(rooms := t.rooms)
  {
  }

  /** `room_topic_change` sets a known room's topic and touches nothing else; an unknown room changes nothing. */
  lemma TopicChangeOnly(s: AppModel, id: string, topic: Option<string>)
    ensures id !in s.rooms ==> RoomTopicChange(s, id, topic) == s
    ensures id in s.rooms ==>
              var t := RoomTopicChange(s, id, topic);
              t.rooms.Keys == s.rooms.Keys &&
              t.rooms[id].topic == topic && t.rooms[id].(topic := s.rooms[id].topic) == s.rooms[id] &&
              (forall k :: k in s.rooms && k != id ==> t.rooms[k] == s.rooms[k]) &&
              t == s.(rooms := t.rooms)
  {
  }

  /** `set_room_avatar` sets a known room's avatar and touches nothing else; an unknown room changes nothing. */
  lemma AvatarChangeOnly(s: AppModel, id: string, avatar: Option<string>)
    ensures id !in s.rooms ==> UpdateRoomAvatar(s, id, avatar) == s
    ensures id in s.rooms ==>
              var t := UpdateRoomAvatar(s, id, avatar);
              t.rooms.Keys == s.rooms.Keys &&
              t.rooms[id].avatar == avatar && t.rooms[id].(avatar := s.rooms[id].avatar) == s.rooms[id] &&
              (forall k :: k in s.rooms && k != id ==> t.rooms[k] == s.rooms[k]) &&
              t == s.(rooms := t.rooms)
  {
  }

  /** The "load more members" button raises the limit by 50. */
  lemma MoreMembersStep(s: AppModel)
    ensures MoreMembers(s).memberLimit == s.memberLimit + 50
    ensures MoreMembers(s).(memberLimit := s.memberLimit) == s
  {
  }

  /** Picking a room in the room list opens it on the next appop tick, when nothing else is queued. */
  lemma SelectRoomOpens(s: AppModel, page: nat, r: Room)
    requires s.internal == []
    ensures InternalTick(Step(s, page, UserSelectRoom(r)), page) == SetActiveRoomById(s, page, r.id)
  {
    assert Step(s, page, UserSelectRoom(r)).internal == [InternalCommand.SelectRoom(r)];
  }

  /** Clicking a notification opens the message's room on the next appop tick, when nothing else is queued. */
  lemma NotifyClickOpens(s: AppModel, page: nat, msg: Message)
    requires s.internal == []
    ensures InternalTick(Step(s, page, UserNotifyClick(msg)), page) == NotificationClicked(s, page, msg)
  {
    assert Step(s, page, UserNotifyClick(msg)).internal == [InternalCommand.NotifyClicked(msg)];
  }

  /** The responses the controller ignores leave its state untouched. */
  lemma IgnoredResponses(s: AppModel, page: nat, resp: BKResponse)
    requires resp.Avatar? || resp.DirectoryProtocols? || resp.DirectorySearch? || resp.LeaveRoom? ||
             resp.SetRoomName? || resp.SetRoomTopic? || resp.SetRoomAvatar? || resp.Media? ||
             resp.SearchEnd? || resp.SendMsgError?
    ensures Respond(s, page, resp) == s
  {
  }
}
