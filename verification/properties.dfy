/**
 * What the controller promises, stated over the transition functions of
 * module Controller: sync gating and the bound on Sync requests, login,
 * the local echo, unread counters, history order, member events, paging,
 * and the invariant that every room is filed under its own id.
 */
module Properties {
  import opened Wrappers
  import opened Types
  import opened Text
  import opened Messages
  import opened RoomMap
  import opened Views
  import opened Controller

  // ---------------------------------------------------------------------
  // Frames

  /** Number of Sync requests in an outbox. */
  function SyncCount(cs: seq<BKCommand>): nat
  {
    multiset(cs)[BKCommand.Sync]
  }

  /** Every room is filed under its own id. */
  predicate WellKeyed(rooms: Rooms)
  {
    forall k :: k in rooms ==> rooms[k].id == k
  }

  /**
   * `b` has the session of `a` (login, sync, identity, server, app state),
   * no Sync request was added on the way, and the rooms stay well keyed.
   */
  predicate SessionKept(a: AppModel, b: AppModel)
  {
    b.loggedIn == a.loggedIn && b.since == a.since &&
    b.uid == a.uid && b.username == a.username && b.serverUrl == a.serverUrl &&
    b.state == a.state && SyncKept(a, b)
  }

  /** No Sync request was added, `syncing` is as it was, and the rooms stay well keyed. */
  predicate SyncKept(a: AppModel, b: AppModel)
  {
    b.syncing == a.syncing && SyncCount(b.outbox) == SyncCount(a.outbox) &&
    (WellKeyed(a.rooms) ==> WellKeyed(b.rooms))
  }

  /** Drawing one message touches only counters, the echo list and the shown count. */
  lemma AddMessageFrame(s: AppModel, msg: Message)
    ensures var t := AddMessage(s, msg);
      SessionKept(s, t) && SameHistory(s.rooms, t.rooms) && t.activeRoom == s.activeRoom &&
      t.outbox == s.outbox && t.internal == s.internal && t.panel == s.panel
  {
    if msg.room != ActiveKey(s) {
      CounterFrame(s.rooms, msg.room, Increment);
    }
  }

  /** Changing one unread counter keeps the histories and the keying. */
  lemma CounterFrame(rooms: Rooms, id: string, f: int -> int)
    ensures SameHistory(rooms, UpdateNotifications(rooms, id, f))
    ensures WellKeyed(rooms) ==> WellKeyed(UpdateNotifications(rooms, id, f))
  {
  }

  /** What drawing messages leaves alone: the session, histories, active room, queue and panel. */
  predicate DrawKept(a: AppModel, b: AppModel)
  {
    SessionKept(a, b) && SameHistory(a.rooms, b.rooms) && b.activeRoom == a.activeRoom &&
    b.internal == a.internal && b.panel == a.panel
  }

  lemma DrawKeptTrans(a: AppModel, b: AppModel, c: AppModel)
    requires DrawKept(a, b) && DrawKept(b, c)
    ensures DrawKept(a, c)
  {
    forall k | k in a.rooms ensures c.rooms[k] == a.rooms[k].(notifications := c.rooms[k].notifications) {
      assert b.rooms[k] == a.rooms[k].(notifications := b.rooms[k].notifications);
    }
  }

  /** One step of the drawing loop: the optional user-info request, then the message. */
  lemma DrawStepFrame(s: AppModel, msg: Message, notify: bool)
    ensures DrawKept(s, AddMessage(if notify then Send(s, BKCommand.GetUserInfoAsync(msg.sender)) else s, msg))
  {
    var s1 := if notify then Send(s, BKCommand.GetUserInfoAsync(msg.sender)) else s;
    if notify {
      SyncCountAppend(s.outbox, [BKCommand.GetUserInfoAsync(msg.sender)]);
    }
    assert DrawKept(s, s1);
    AddMessageFrame(s1, msg);
    DrawKeptTrans(s, s1, AddMessage(s1, msg));
  }

  lemma {:induction false} ShowFoldFrame(s: AppModel, ms: seq<Message>, init: bool)
    ensures DrawKept(s, ShowFold(s, ms, init).0)
    decreases |ms|
  {
    if ms != [] && s.username.Some? {
      var mentioned := Contains(ms[0].body, s.username.value) && !init;
      if !(mentioned && s.uid.None?) {
        var notify := mentioned && ms[0].sender != s.uid.value;
        var t := AddMessage(if notify then Send(s, BKCommand.GetUserInfoAsync(ms[0].sender)) else s, ms[0]);
        DrawStepFrame(s, ms[0], notify);
        ShowFoldFrame(t, ms[1..], init);
        DrawKeptTrans(s, t, ShowFold(t, ms[1..], init).0);
      }
    }
  }

  lemma {:induction false} TopFoldFrame(s: AppModel, ms: seq<Message>)
    ensures var t := TopFold(s, ms);
      SessionKept(s, t) && SameHistory(s.rooms, t.rooms) && t.activeRoom == s.activeRoom &&
      t.outbox == s.outbox && t.internal == s.internal && t.panel == s.panel
    decreases |ms|
  {
    if ms != [] {
      TopFoldFrame(s, ms[1..]);
      AddMessageFrame(TopFold(s, ms[1..]), ms[0]);
    }
  }

  lemma SyncCountAppend(a: seq<BKCommand>, b: seq<BKCommand>)
    ensures SyncCount(a + b) == SyncCount(a) + SyncCount(b)
  {
    assert multiset(a + b) == multiset(a) + multiset(b);
  }

  /**
   * Showing a room sends exactly one of MarkAsRead (for its newest message)
   * and GetRoomMessages (when its history is empty), with SetRoom between.
   */
  lemma SetActiveRoomRequests(s: AppModel, page: nat, room: Room)
    ensures var t := SetActiveRoom(s, page, room);
      var ms := room.messages;
      t.outbox == s.outbox +
        (if ms != [] then [BKCommand.MarkAsRead(ms[|ms| - 1].room, ms[|ms| - 1].id.GetOr("")), BKCommand.SetRoom(room)]
         else [BKCommand.SetRoom(room), BKCommand.GetRoomMessages(room.id)])
  {
  }

  /** Showing a room changes no session field, no room, and sends no Sync. */
  lemma SetActiveRoomFrame(s: AppModel, page: nat, room: Room)
    ensures var t := SetActiveRoom(s, page, room);
      SessionKept(s, t) && t.rooms == s.rooms
  {
    var t := SetActiveRoom(s, page, room);
    SetActiveRoomRequests(s, page, room);
    var ms := room.messages;
    var extra := if ms != [] then [BKCommand.MarkAsRead(ms[|ms| - 1].room, ms[|ms| - 1].id.GetOr("")), BKCommand.SetRoom(room)]
                 else [BKCommand.SetRoom(room), BKCommand.GetRoomMessages(room.id)];
    SyncCountAppend(s.outbox, extra);
    assert SyncCount(extra) == 0;
  }

  lemma SetActiveRoomByIdFrame(s: AppModel, page: nat, id: string)
    ensures var t := SetActiveRoomById(s, page, id);
      SessionKept(s, t) && t.rooms == s.rooms
  {
    if id in s.rooms {
      SetActiveRoomFrame(s, page, s.rooms[id]);
    }
  }

  /** Rebuilding the map from a list files every room under its own id. */
  lemma {:induction false} InsertAllKeyed(m: Rooms, rs: seq<Room>)
    requires WellKeyed(m)
    ensures WellKeyed(InsertAll(m, rs))
    decreases |rs|
  {
    if rs != [] {
      InsertAllKeyed(m[rs[0].id := rs[0]], rs[1..]);
    }
  }

  lemma FinishShowFrame(fold: (AppModel, bool), msgs: seq<Message>, init: bool)
    ensures var t := FinishShow(fold, msgs, init).0;
      SessionKept(fold.0, t) && t.activeRoom == fold.0.activeRoom && t.rooms == fold.0.rooms
  {
    var s := fold.0;
    var last := LastInRoom(msgs, ActiveKey(s));
    if fold.1 && msgs != [] && last.Some? {
      SyncCountAppend(s.outbox, [BKCommand.MarkAsRead(last.value.room, last.value.id.GetOr(""))]);
    }
  }

  lemma ShowRoomMessagesFrame(s: AppModel, msgs: seq<Message>, init: bool)
    ensures var t := ShowRoomMessages(s, msgs, init).0;
      SessionKept(s, t) && t.activeRoom == s.activeRoom && t.rooms.Keys == s.rooms.Keys &&
      forall k :: k in s.rooms ==> t.rooms[k].messages == s.rooms[k].messages + InRoom(msgs, k)
  {
    var s1 := s.(rooms := AppendAll(s.rooms, msgs));
    AppendAllEffect(s.rooms, msgs);
    assert forall k :: k in s.rooms ==> s1.rooms[k].id == s.rooms[k].id;
    assert SessionKept(s, s1);
    var fold := ShowFold(s1, msgs, init);
    ShowFoldFrame(s1, msgs, init);
    FinishShowFrame(fold, msgs, init);
  }

  lemma ShowRoomMessagesTopFrame(s: AppModel, msgs: seq<Message>)
    ensures var t := ShowRoomMessagesTop(s, msgs);
      SessionKept(s, t) && t.activeRoom == s.activeRoom && t.rooms.Keys == s.rooms.Keys &&
      t.outbox == s.outbox && t.internal == s.internal &&
      forall k :: k in s.rooms ==> t.rooms[k].messages == InRoom(msgs, k) + s.rooms[k].messages
  {
    if msgs != [] {
      var s1 := s.(rooms := PrependAll(s.rooms, msgs));
      PrependAllEffect(s.rooms, msgs);
      assert SessionKept(s, s1);
      TopFoldFrame(s1, msgs);
    }
  }

  lemma AvatarRequestsNoSync(rs: seq<Room>)
    ensures SyncCount(AvatarRequests(rs)) == 0
  {
    assert BKCommand.Sync !in AvatarRequests(rs);
  }

  lemma SetRoomsFrame(s: AppModel, page: nat, rs: seq<Room>, def: Option<Room>)
    ensures var t := SetRooms(s, page, rs, def);
      SyncKept(s, t) && WellKeyed(t.rooms) && t.rooms == RoomsFromList(rs)
  {
    var s1 := s.(rooms := RoomsFromList(rs));
    InsertAllKeyed(map[], rs);
    var godef := if s1.activeRoom.Some? && s1.activeRoom.value in s1.rooms
                 then Some(s1.rooms[s1.activeRoom.value]) else def;
    if godef.Some? {
      SetActiveRoomByIdFrame(s1, page, godef.value.id);
    }
  }

  lemma AddNewRoomFrame(s: AppModel, page: nat, r: Room)
    ensures var t := AddNewRoom(s, page, r);
      SessionKept(s, t) && t.rooms == (if r.id in s.rooms then s.rooms else s.rooms[r.id := r])
  {
    var s1 := if r.id in s.rooms then s else s.(rooms := s.rooms[r.id := r]);
    assert SessionKept(s, s1);
    SetActiveRoomByIdFrame(s1, page, r.id);
  }

  // ---------------------------------------------------------------------
  // At most one Sync request per acknowledgement

  /** Sync requests sent and not yet answered, counting the one in flight once. */
  function Pending(s: AppModel): int
  {
    SyncCount(s.outbox) - (if s.syncing then 1 else 0)
  }

  /** The responses that end a sync: `Sync(since)` and `SyncError`. */
  predicate IsAck(resp: BKResponse)
  {
    resp.Sync? || resp.SyncError?
  }

  /** An input that delivers a sync acknowledgement. */
  predicate IsSyncAck(i: Input)
  {
    i.BackendTick? && IsAck(i.resp)
  }

  function Acks(ins: seq<Input>): nat
    decreases |ins|
  {
    if ins == [] then 0 else (if IsSyncAck(ins[0]) then 1 else 0) + Acks(ins[1..])
  }

  lemma SyncStepPending(s: AppModel)
    ensures var t := SyncStep(s);
      Pending(t) == Pending(s) && t.rooms == s.rooms && t.syncing == (s.syncing || s.loggedIn)
  {
    if !s.syncing && s.loggedIn {
      SyncCountAppend(s.outbox, [BKCommand.Sync]);
    }
  }

  /** `t` keeps the count of unanswered Sync requests (raised by an acknowledgement) and well-keyed rooms. */
  predicate PendingStep(s: AppModel, t: AppModel, ack: bool)
  {
    (if ack then Pending(t) == Pending(s) + (if s.syncing then 1 else 0) else Pending(t) == Pending(s)) &&
    (WellKeyed(s.rooms) ==> WellKeyed(t.rooms))
  }

  lemma TokenPending(s: AppModel, page: nat, resp: BKResponse)
    requires resp.Token?
    ensures PendingStep(s, Respond(s, page, resp), IsAck(resp))
  {
    var s1 := s.(loggedIn := true, state := AppState.Chat, uid := Some(resp.uid), username := Some(resp.uid));
    var s2 := Send(Send(s1, BKCommand.GetUsername), BKCommand.GetAvatar);
    SyncCountAppend(s1.outbox, [BKCommand.GetUsername, BKCommand.GetAvatar]);
    assert s2.outbox == s1.outbox + [BKCommand.GetUsername, BKCommand.GetAvatar];
    SyncStepPending(s2);
    SyncCountAppend(SyncStep(s2).outbox, [BKCommand.DirectoryProtocols]);
  }

  lemma RoomsPending(s: AppModel, page: nat, resp: BKResponse)
    requires resp.Rooms?
    ensures PendingStep(s, Respond(s, page, resp), IsAck(resp))
  {
    var s1 := s.(outbox := s.outbox + AvatarRequests(resp.rooms));
    SyncCountAppend(s.outbox, AvatarRequests(resp.rooms));
    AvatarRequestsNoSync(resp.rooms);
    SetRoomsFrame(s1, page, resp.rooms, resp.def);
  }

  lemma MessagesPending(s: AppModel, page: nat, resp: BKResponse)
    requires resp.RoomMessages? || resp.RoomMessagesInit? || resp.RoomMessagesTo?
    ensures PendingStep(s, Respond(s, page, resp), IsAck(resp))
  {
    match resp
    case RoomMessages(msgs) => ShowRoomMessagesFrame(s, msgs, false);
    case RoomMessagesInit(msgs) => ShowRoomMessagesFrame(s, msgs, true);
    case RoomMessagesTo(msgs) => ShowRoomMessagesTopFrame(s, msgs);
  }

  lemma RequestsPending(s: AppModel, page: nat, resp: BKResponse)
    requires resp.SendMsg? || resp.JoinRoom?
    ensures PendingStep(s, Respond(s, page, resp), IsAck(resp))
  {
    if resp.SendMsg? {
      SyncStepPending(s);
    } else {
      SyncCountAppend(s.outbox, [BKCommand.SyncForced]);
    }
  }

  lemma NewRoomPending(s: AppModel, page: nat, resp: BKResponse)
    requires resp.NewRoom?
    ensures PendingStep(s, Respond(s, page, resp), IsAck(resp))
  {
    AddNewRoomFrame(s, page, resp.room);
  }

  lemma RoomAvatarPending(s: AppModel, page: nat, resp: BKResponse)
    requires resp.NewRoomAvatar?
    ensures PendingStep(s, Respond(s, page, resp), IsAck(resp))
  {
    SyncCountAppend(s.outbox, [BKCommand.GetRoomAvatar(resp.roomId)]);
  }

  /** The responses that edit one room of the map. */
  predicate RoomEdit(resp: BKResponse)
  {
    DetailEdit(resp) || resp.RoomName? || resp.RoomTopic? || resp.RoomMemberEvent?
  }

  predicate DetailEdit(resp: BKResponse)
  {
    resp.RoomDetail? || resp.RoomAvatar? || resp.MarkedAsRead?
  }

  lemma DetailEditPending(s: AppModel, page: nat, resp: BKResponse)
    requires DetailEdit(resp)
    ensures PendingStep(s, Respond(s, page, resp), IsAck(resp))
  {
    var t := Respond(s, page, resp);
    if resp.RoomDetail? {
      assert t == SetRoomDetail(s, resp.roomId, resp.key, Some(resp.value));
    } else if resp.RoomAvatar? {
      assert t == UpdateRoomAvatar(s, resp.roomId, Some(resp.avatar));
    } else {
      assert t == UpdateRoomNotifications(s, resp.roomId, Reset);
    }
    RoomsOnlyPending(s, t);
  }

  /** A step that only edits rooms, keeping every room under its own id, keeps the Sync count. */
  lemma RoomsOnlyPending(s: AppModel, t: AppModel)
    requires t == s.(rooms := t.rooms)
    requires forall k :: k in s.rooms && s.rooms[k].id == k ==> k in t.rooms && t.rooms[k].id == k
    requires t.rooms.Keys == s.rooms.Keys
    ensures PendingStep(s, t, false)
  {
  }

  lemma RenamePending(s: AppModel, page: nat, resp: BKResponse)
    requires resp.RoomName? || resp.RoomTopic?
    ensures PendingStep(s, Respond(s, page, resp), IsAck(resp))
  {
  }

  lemma MemberEventPending(s: AppModel, page: nat, resp: BKResponse)
    requires resp.RoomMemberEvent?
    ensures PendingStep(s, Respond(s, page, resp), IsAck(resp))
  {
  }

  lemma RoomEditPending(s: AppModel, page: nat, resp: BKResponse)
    requires RoomEdit(resp)
    ensures PendingStep(s, Respond(s, page, resp), IsAck(resp))
  {
    if DetailEdit(resp) {
      DetailEditPending(s, page, resp);
    } else if resp.RoomMemberEvent? {
      MemberEventPending(s, page, resp);
    } else {
      RenamePending(s, page, resp);
    }
  }

  /** The responses that leave rooms and outbox alone. */
  predicate QuietResponse(resp: BKResponse)
  {
    !(RoomEdit(resp) || resp.Token? || resp.Rooms? || resp.RoomMessages? || resp.RoomMessagesInit? || resp.RoomMessagesTo? ||
      resp.SendMsg? || resp.JoinRoom? || resp.NewRoomAvatar? || resp.NewRoom?)
  }

  lemma QuietPending(s: AppModel, page: nat, resp: BKResponse)
    requires QuietResponse(resp)
    ensures PendingStep(s, Respond(s, page, resp), IsAck(resp))
  {
  }

  /** One step of the backend loop keeps the count of unanswered Sync requests, except an acknowledgement. */
  lemma RespondPending(s: AppModel, page: nat, resp: BKResponse)
    ensures PendingStep(s, Respond(s, page, resp), IsAck(resp))
  {
    if resp.Token? {
      TokenPending(s, page, resp);
    } else if resp.Rooms? {
      RoomsPending(s, page, resp);
    } else if resp.RoomMessages? || resp.RoomMessagesInit? || resp.RoomMessagesTo? {
      MessagesPending(s, page, resp);
    } else if resp.SendMsg? || resp.JoinRoom? {
      RequestsPending(s, page, resp);
    } else if resp.NewRoomAvatar? {
      RoomAvatarPending(s, page, resp);
    } else if resp.NewRoom? {
      NewRoomPending(s, page, resp);
    } else if RoomEdit(resp) {
      RoomEditPending(s, page, resp);
    } else {
      QuietPending(s, page, resp);
    }
  }

  lemma DispatchPending(s: AppModel, page: nat, c: InternalCommand)
    ensures PendingStep(s, Dispatch(s, page, c), false)
  {
    match c
    case AddRoomMessage(msg, _, _, _) => AddMessageFrame(s, msg);
    case SetPanel(_) =>
    case NotifyClicked(msg) =>
      if msg.room in s.rooms {
        SetActiveRoomByIdFrame(s, page, s.rooms[msg.room].id);
      }
    case SelectRoom(r) => SetActiveRoomByIdFrame(s, page, r.id);
  }

  lemma InternalTickPending(s: AppModel, page: nat)
    ensures PendingStep(s, InternalTick(s, page), false)
  {
    if s.internal != [] {
      DispatchPending(s.(internal := s.internal[1..]), page, s.internal[0]);
    }
  }

  lemma LoginPending(s: AppModel, user: Option<string>, pass: Option<string>, server: Option<string>)
    ensures PendingStep(s, LoginStep(s, user, pass, server), false)
  {
    var s1 := s.(state := AppState.Loading, since := None).(serverUrl := server.GetOr(DefaultServer));
    if user.Some? && pass.Some? {
      SyncCountAppend(s1.outbox, [BKCommand.Login(user.value, pass.value, s1.serverUrl)]);
    }
  }

  lemma SendMessagePending(s: AppModel, text: string, now: int)
    ensures PendingStep(s, SendMessage(s, text, now), false)
  {
    if text != [] {
      SyncCountAppend(s.outbox, [BKCommand.SendMsg(OutgoingMessage(s, text, now))]);
    }
  }

  lemma LoadMorePending(s: AppModel, page: nat)
    ensures PendingStep(s, LoadMoreMessages(s, page), false)
  {
    if ActiveKey(s) in s.rooms {
      var ms := s.rooms[ActiveKey(s)].messages;
      if s.shownMessages >= |ms| && ms != [] {
        SyncCountAppend(s.outbox, [BKCommand.GetMessageContext(ms[0])]);
      }
    }
  }

  lemma LeavePending(s: AppModel)
    ensures PendingStep(s, ReallyLeave(s), false)
  {
    SyncCountAppend(s.outbox, [BKCommand.LeaveRoom(ActiveKey(s))]);
  }

  lemma CreateRoomPending(s: AppModel, name: Option<string>, selection: Option<string>)
    ensures PendingStep(s, CreateNewRoom(s, name, selection), false)
  {
    SyncCountAppend(s.outbox, [BKCommand.NewRoom(name.GetOr(""), RoomPreset(selection))]);
  }

  lemma StepPending(s: AppModel, page: nat, i: Input)
    ensures PendingStep(s, Step(s, page, i), IsSyncAck(i))
  {
    match i
    case SyncTick => SyncStepPending(s);
    case BackendTick(resp) => RespondPending(s, page, resp);
    case AppopTick => InternalTickPending(s, page);
    case UserLogin(u, p, srv) => LoginPending(s, u, p, srv);
    case UserSend(text, now) => SendMessagePending(s, text, now);
    case UserEscape =>
    case UserLoadMore => LoadMorePending(s, page);
    case UserMoreMembers =>
    case UserLeave => LeavePending(s);
    case UserCreateRoom(name, sel) => CreateRoomPending(s, name, sel);
    case UserSelectRoom(_) =>
    case UserNotifyClick(_) =>
  }

  /**
   * Over any run, the Sync requests still unanswered grow only by the
   * acknowledgements received, and the rooms stay well keyed.
   */
  lemma {:induction false} RunPending(s: AppModel, page: nat, ins: seq<Input>)
    ensures Pending(Run(s, page, ins)) <= Pending(s) + Acks(ins)
    ensures WellKeyed(s.rooms) ==> WellKeyed(Run(s, page, ins).rooms)
    decreases |ins|
  {
    if ins != [] {
      StepPending(s, page, ins[0]);
      RunPending(Step(s, page, ins[0]), page, ins[1..]);
    }
  }

  /**
   * Sync gating: from the start, at most one Sync request is sent per
   * acknowledgement (a `Sync` or `SyncError` response) received, plus the
   * first one.
   */
  lemma SyncRequestsBounded(page: nat, ins: seq<Input>)
    ensures SyncCount(Run(Initial(), page, ins).outbox) <= Acks(ins) + 1
  {
    RunPending(Initial(), page, ins);
    assert Initial().outbox == [] && !Initial().syncing;
  }
}
