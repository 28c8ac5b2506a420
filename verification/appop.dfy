/**
 * `AppOp` itself: an object whose methods update its fields in place, as
 * the controller in fractal-gtk/src/app.rs does. Each method is proved to
 * move the object from `old(Model())` to the state the matching function
 * of module Controller computes, so every property proved there about the
 * functions holds of the object.
 */
module App {
  import opened Wrappers
  import opened Types
  import opened Text
  import opened Messages
  import opened RoomMap
  import opened Views
  import opened Controller
  import opened Properties
  import opened Promises

  class AppOp {
    var loggedIn: bool
    var syncing: bool
    var since: Option<string>
    var uid: Option<string>
    var username: Option<string>
    var serverUrl: string
    var rooms: Rooms
    var activeRoom: Option<string>
    var tmpMsgs: seq<Message>
    var shownMessages: nat
    var memberLimit: nat
    var state: AppState
    var panel: RoomPanel
    /** What `self.backend.send` has sent, oldest first. */
    var outbox: seq<BKCommand>
    /** What `self.internal.send` has queued and the appop loop has not handled yet. */
    var internal: seq<InternalCommand>
    /** `globals::INITIAL_MESSAGES`. */
    const page: nat

    /** The object's state as a value. */
    function Model(): AppModel
      reads this
    {
      AppModel(loggedIn, syncing, since, uid, username, serverUrl, rooms, activeRoom, tmpMsgs,
               shownMessages, memberLimit, state, panel, outbox, internal)
    }

    constructor(initialMessages: nat)
      requires initialMessages > 0
      ensures Model() == Initial() && page == initialMessages
    {
      loggedIn := false;
      syncing := false;
      since := None;
      uid := None;
      username := None;
      serverUrl := DefaultServer;
      rooms := map[];
      activeRoom := None;
      tmpMsgs := [];
      shownMessages := 0;
      memberLimit := InitialMemberLimit;
      state := AppState.Login;
      panel := RoomPanel.NoRoom;
      outbox := [];
      internal := [];
      page := initialMessages;
    }

    /** `self.backend.send(c)`. */
    method BackendSend(c: BKCommand)
      modifies this
      ensures Model() == Send(old(Model()), c)
    {
      outbox := outbox + [c];
    }

    /** `self.internal.send(c)`. */
    method InternalSend(c: InternalCommand)
      modifies this
      ensures Model() == Post(old(Model()), [c])
    {
      internal := internal + [c];
    }

    // -------------------------------------------------------------------
    // Sync gating

    method Sync()
      modifies this
      ensures Model() == SyncStep(old(Model()))
    {
      if !syncing && loggedIn {
        syncing := true;
        BackendSend(BKCommand.Sync);
      }
    }

    method Synced(newSince: Option<string>)
      modifies this
      ensures Model() == Controller.Synced(old(Model()), newSince)
    {
      syncing := false;
      since := newSince;
    }

    method ReloadRooms()
      modifies this
      ensures Model() == Controller.ReloadRooms(old(Model()))
    {
      state := AppState.Loading;
      BackendSend(BKCommand.SyncForced);
    }

    // -------------------------------------------------------------------
    // Login

    method Connect(user: Option<string>, pass: Option<string>, server: Option<string>) returns (r: Option<()>)
      modifies this
      ensures (Model(), r) == Controller.Connect(old(Model()), user, pass, server)
    {
      serverUrl := server.GetOr(DefaultServer);
      if user.None? || pass.None? {
        return None;
      }
      BackendSend(BKCommand.Login(user.value, pass.value, serverUrl));
      return Some(());
    }

    method Login(user: Option<string>, pass: Option<string>, server: Option<string>)
      modifies this
      ensures Model() == LoginStep(old(Model()), user, pass, server)
    {
      state := AppState.Loading;
      since := None;
      var _ := Connect(user, pass, server);
    }

    method Escape()
      modifies this
      ensures Model() == Controller.Escape(old(Model()))
    {
      if state == AppState.Chat {
        panel := RoomPanel.NoRoom;
        activeRoom := None;
        ClearTmpMsgs();
      }
    }

    // -------------------------------------------------------------------
    // The local echo

    method AddTmpRoomMessage(msg: Message)
      modifies this
      ensures Model() == AddTmp(old(Model()), msg)
    {
      tmpMsgs := tmpMsgs + [msg];
    }

    method ClearTmpMsgs()
      modifies this
      ensures Model() == ClearTmp(old(Model()))
    {
      tmpMsgs := [];
    }

    /** Walks the pending echoes up to the first that stands for `msg`, and removes it. */
    method RemoveTmpRoomMessage(msg: Message)
      modifies this
      ensures Model() == RemoveTmp(old(Model()), msg)
    {
      var rmidx: Option<nat> := None;
      var i := 0;
      while i < |tmpMsgs|
        invariant 0 <= i <= |tmpMsgs|
        invariant rmidx.None?
        invariant forall j :: 0 <= j < i ==> !SameEcho(tmpMsgs[j], msg)
      {
        if SameEcho(tmpMsgs[i], msg) {
          rmidx := Some(i);
          break;
        }
        i := i + 1;
      }
      if rmidx.Some? {
        EchoRemovedFirst(tmpMsgs, msg, i);
        tmpMsgs := RemoveAt(tmpMsgs, i);
      } else {
        EchoAbsent(tmpMsgs, msg);
      }
    }

    method SendMessage(text: string, now: int)
      modifies this
      ensures Model() == Controller.SendMessage(old(Model()), text, now)
    {
      if text == [] {
        return;
      }
      var m := Message(uid.GetOr(""), "m.text", text, activeRoom.GetOr(""), now, None, None, None);
      AddTmpRoomMessage(m);
      BackendSend(BKCommand.SendMsg(m));
    }

    // -------------------------------------------------------------------
    // Unread counters and read markers

    method UpdateRoomNotifications(id: string, f: int -> int)
      modifies this
      ensures Model() == Controller.UpdateRoomNotifications(old(Model()), id, f)
    {
      if id in rooms {
        rooms := rooms[id := rooms[id].(notifications := f(rooms[id].notifications))];
      }
    }

    method MarkAsRead(msg: Message)
      modifies this
      ensures Model() == MarkRead(old(Model()), msg)
    {
      BackendSend(BKCommand.MarkAsRead(msg.room, msg.id.GetOr("")));
    }

    // -------------------------------------------------------------------
    // Showing a room

    /** Queues one AddRoomMessage per message of `msgs`, the last one drawn in full. */
    method QueuePage(msgs: seq<Message>)
      modifies this
      ensures Model() == Post(old(Model()), PageCommands(msgs))
    {
      PageCommandsShape(msgs);
      var i := 0;
      while i < |msgs|
        invariant 0 <= i <= |msgs|
        invariant Model() == Post(old(Model()), PageCommands(msgs)[..i])
      {
        InternalSend(InternalCommand.AddRoomMessage(msgs[i], MsgPos.Top, None, i == |msgs| - 1));
        assert PageCommands(msgs)[..i + 1] == PageCommands(msgs)[..i] + [PageCommands(msgs)[i]];
        i := i + 1;
      }
      assert PageCommands(msgs)[..i] == PageCommands(msgs);
    }

    /**
     * The first half of `set_active_room`: resets the per-room view state and
     * queues the drawing of the room's latest page, then the switch to the room page.
     */
    method EnterRoom(room: Room)
      modifies this
      ensures Model() == Post(old(Model()).(memberLimit := InitialMemberLimit, panel := RoomPanel.Loading,
                                            activeRoom := Some(room.id), tmpMsgs := [], shownMessages := 0),
                              PageCommands(LatestPage(room.messages, 0, page)) + [InternalCommand.SetPanel(RoomPanel.Room)])
    {
      ghost var s0 := Model();
      memberLimit := InitialMemberLimit;
      panel := RoomPanel.Loading;
      activeRoom := Some(room.id);
      ClearTmpMsgs();
      shownMessages := 0;
      ghost var s1 := Model();
      assert s1 == s0.(memberLimit := InitialMemberLimit, panel := RoomPanel.Loading,
                       activeRoom := Some(room.id), tmpMsgs := [], shownMessages := 0);
      var msgs := LatestPage(room.messages, 0, page);
      QueuePage(msgs);
      InternalSend(InternalCommand.SetPanel(RoomPanel.Room));
      PostTwice(s1, PageCommands(msgs), [InternalCommand.SetPanel(RoomPanel.Room)]);
    }

    method SetActiveRoom(room: Room)
      modifies this
      ensures Model() == Controller.SetActiveRoom(old(Model()), page, room)
    {
      var getmessages := true;
      EnterRoom(room);
      ghost var s2 := Model();
      if room.messages != [] {
        getmessages := false;
        MarkAsRead(room.messages[|room.messages| - 1]);
      }
      ghost var s3 := Model();
      assert s3 == if room.messages != [] then MarkRead(s2, room.messages[|room.messages| - 1]) else s2;
      BackendSend(BKCommand.SetRoom(room));
      if getmessages {
        BackendSend(BKCommand.GetRoomMessages(activeRoom.GetOr("")));
      }
    }

    method SetActiveRoomById(id: string)
      modifies this
      ensures Model() == Controller.SetActiveRoomById(old(Model()), page, id)
    {
      if id in rooms {
        SetActiveRoom(rooms[id]);
      }
    }

    /** Rebuilds the room map from the list, a later room of the same id replacing an earlier one. */
    method RebuildRooms(rs: seq<Room>)
      modifies this
      ensures Model() == old(Model()).(rooms := RoomsFromList(rs))
    {
      rooms := map[];
      var i := 0;
      while i < |rs|
        invariant 0 <= i <= |rs|
        invariant InsertAll(rooms, rs[i..]) == RoomsFromList(rs)
        invariant Model() == old(Model()).(rooms := rooms)
      {
        assert rs[i..][0] == rs[i] && rs[i..][1..] == rs[i + 1..];
        rooms := rooms[rs[i].id := rs[i]];
        i := i + 1;
      }
      assert rs[i..] == [];
    }

    /** `set_rooms`: clears the map, inserts the listed rooms one by one, then picks the room to show. */
    method SetRooms(rs: seq<Room>, def: Option<Room>)
      modifies this
      ensures Model() == Controller.SetRooms(old(Model()), page, rs, def)
    {
      RebuildRooms(rs);
      ghost var s1 := Model();
      var godef := def;
      if activeRoom.Some? && activeRoom.value in rooms {
        godef := Some(rooms[activeRoom.value]);
      }
      if godef.Some? {
        SetActiveRoomById(godef.value.id);
        assert Model() == Controller.SetActiveRoomById(s1, page, godef.value.id);
      } else {
        state := AppState.Chat;
        panel := RoomPanel.NoRoom;
        activeRoom := None;
        ClearTmpMsgs();
        assert Model() == s1.(state := AppState.Chat, panel := RoomPanel.NoRoom, activeRoom := None, tmpMsgs := []);
      }
    }

    /** The `Rooms` response: one avatar request per room, in order, then `set_rooms`. */
    method ReceiveRooms(rs: seq<Room>, def: Option<Room>)
      modifies this
      ensures Model() == Respond(old(Model()), page, BKResponse.Rooms(rs, def))
    {
      var i := 0;
      while i < |rs|
        invariant 0 <= i <= |rs|
        invariant Model() == old(Model()).(outbox := old(outbox) + AvatarRequests(rs)[..i])
      {
        BackendSend(BKCommand.GetRoomAvatar(rs[i].id));
        assert AvatarRequests(rs)[..i + 1] == AvatarRequests(rs)[..i] + [AvatarRequests(rs)[i]];
        i := i + 1;
      }
      assert AvatarRequests(rs)[..i] == AvatarRequests(rs);
      ghost var s1 := Model();
      assert Respond(old(Model()), page, BKResponse.Rooms(rs, def)) == Controller.SetRooms(s1, page, rs, def);
      SetRooms(rs, def);
    }

    // -------------------------------------------------------------------
    // Room details and membership

    method SetRoomDetail(id: string, key: string, value: Option<string>)
      modifies this
      ensures Model() == Controller.SetRoomDetail(old(Model()), id, key, value)
    {
      if id in rooms {
        if key == "m.room.name" {
          rooms := rooms[id := rooms[id].(name := value)];
        } else if key == "m.room.topic" {
          rooms := rooms[id := rooms[id].(topic := value)];
        }
      }
    }

    method SetRoomAvatar(id: string, avatar: Option<string>)
      modifies this
      ensures Model() == UpdateRoomAvatar(old(Model()), id, avatar)
    {
      if id in rooms {
        rooms := rooms[id := rooms[id].(avatar := avatar)];
      }
    }

    method RoomNameChange(id: string, name: Option<string>)
      modifies this
      ensures Model() == Controller.RoomNameChange(old(Model()), id, name)
    {
      if id !in rooms {
        return;
      }
      rooms := rooms[id := rooms[id].(name := name)];
    }

    method RoomTopicChange(id: string, topic: Option<string>)
      modifies this
      ensures Model() == Controller.RoomTopicChange(old(Model()), id, topic)
    {
      if id !in rooms {
        return;
      }
      rooms := rooms[id := rooms[id].(topic := topic)];
    }

    method NewRoomAvatar(id: string)
      modifies this
      ensures Model() == RequestRoomAvatar(old(Model()), id)
    {
      if id !in rooms {
        return;
      }
      BackendSend(BKCommand.GetRoomAvatar(id));
    }

    method NewRoom(r: Room)
      modifies this
      ensures Model() == AddNewRoom(old(Model()), page, r)
    {
      if r.id !in rooms {
        rooms := rooms[r.id := r];
      }
      SetActiveRoomById(r.id);
    }

    method CreateNewRoom(name: Option<string>, selection: Option<string>)
      modifies this
      ensures Model() == Controller.CreateNewRoom(old(Model()), name, selection)
    {
      var n := name.GetOr("");
      var p := RoomPreset(selection);
      BackendSend(BKCommand.NewRoom(n, p));
      panel := RoomPanel.Loading;
    }

    method ReallyLeaveActiveRoom()
      modifies this
      ensures Model() == ReallyLeave(old(Model()))
    {
      var r := activeRoom.GetOr("");
      BackendSend(BKCommand.LeaveRoom(r));
      rooms := rooms - {r};
      activeRoom := None;
      ClearTmpMsgs();
      panel := RoomPanel.NoRoom;
    }

    method RoomMemberEvent(ev: Event)
      modifies this
      ensures Model() == MemberEvent(old(Model()), ev)
    {
      var active := activeRoom.GetOr("");
      if ev.room != active {
        return;
      }
      if ev.membership == Some("leave") {
        if active in rooms {
          rooms := rooms[active := rooms[active].(members := rooms[active].members - {ev.sender})];
        }
      } else if ev.membership == Some("join") {
        var m := Member(Some(ev.displayName.GetOr("")), Some(ev.avatarUrl.GetOr("")), ev.sender);
        if active in rooms {
          rooms := rooms[active := rooms[active].(members := rooms[active].members[m.uid := m])];
        }
      }
    }

    /** The "load more members" button: 50 more members are listed. */
    method ShowMoreMembers()
      modifies this
      ensures Model() == MoreMembers(old(Model()))
    {
      memberLimit := memberLimit + MemberLimitStep;
    }

    // -------------------------------------------------------------------
    // Drawing messages

    /**
     * `add_room_message`: the message before `msg` decides the compact
     * form; a message of the active room is counted as shown and replaces
     * its echo, any other one bumps its room's counter. `compact` says
     * whether the compact widget was drawn.
     */
    method AddRoomMessage(msg: Message, pos: MsgPos, prev: Option<Message>, forceFull: bool)
      returns (compact: bool)
      modifies this
      ensures Model() == AddMessage(old(Model()), msg)
      ensures compact <==> msg.room == ActiveKey(old(Model())) && msg.room in old(rooms) &&
                           CompactWidget(PreviousMessage(old(rooms), msg, prev, forceFull), msg)
    {
      var calcPrev := PreviousMessage(rooms, msg, prev, forceFull);
      compact := false;
      if msg.room == activeRoom.GetOr("") {
        if activeRoom.GetOr("") in rooms {
          compact := CompactWidget(calcPrev, msg);
          shownMessages := shownMessages + 1;
        }
        RemoveTmpRoomMessage(msg);
      } else {
        UpdateRoomNotifications(msg.room, Increment);
      }
    }

    /** `load_more_messages`: the next page from memory, or a context request once memory runs out. */
    method LoadMoreMessages()
      modifies this
      ensures Model() == Controller.LoadMoreMessages(old(Model()), page)
    {
      var key := activeRoom.GetOr("");
      if key !in rooms {
        return;
      }
      var ms := rooms[key].messages;
      if shownMessages < |ms| {
        QueuePage(LatestPage(ms, shownMessages, page));
      } else if ms != [] {
        BackendSend(BKCommand.GetMessageContext(ms[0]));
      }
    }

    /**
     * `show_room_messages`: appends the batch to the rooms' histories, draws
     * each message (the `?` on the user name, and on the uid when a message
     * mentions the user, ends the method early with `None`), then marks the
     * newest message of the active room read.
     */
    method ShowRoomMessages(msgs: seq<Message>, init: bool) returns (r: Option<()>)
      modifies this
      ensures (Model(), r) == Controller.ShowRoomMessages(old(Model()), msgs, init)
    {
      AppendMessages(msgs);
      var completed := DrawMessages(msgs, init);
      r := FinishDrawing(msgs, init, completed);
    }

    /**
     * The drawing loop of `show_room_messages`; `completed` is false when a
     * missing user name, or a missing uid on a message that mentions the
     * user, ended it early.
     */
    method DrawMessages(msgs: seq<Message>, init: bool) returns (completed: bool)
      modifies this
      ensures (Model(), completed) == ShowFold(old(Model()), msgs, init)
    {
      var prev: Option<Message> := None;
      var i := 0;
      while i < |msgs|
        invariant 0 <= i <= |msgs|
        invariant ShowFold(Model(), msgs[i..], init) == ShowFold(old(Model()), msgs, init)
      {
        assert msgs[i..][0] == msgs[i] && msgs[i..][1..] == msgs[i + 1..];
        var msg := msgs[i];
        ghost var s0 := Model();
        if username.None? {
          return false;
        }
        var shouldNotify := Contains(msg.body, username.value);
        shouldNotify := shouldNotify && !init;
        if shouldNotify {
          if uid.None? {
            return false;
          }
          shouldNotify := msg.sender != uid.value;
        }
        if shouldNotify {
          Notify(msg);
        }
        ghost var s1 := Model();
        assert ShowFold(s0, msgs[i..], init) == ShowFold(AddMessage(s1, msg), msgs[i + 1..], init);
        var _ := AddRoomMessage(msg, MsgPos.Bottom, prev, false);
        prev := Some(msg);
        i := i + 1;
      }
      assert msgs[i..] == [];
      return true;
    }

    /** Pushes each message of the batch onto its room's history, in order. */
    method AppendMessages(msgs: seq<Message>)
      modifies this
      ensures Model() == old(Model()).(rooms := AppendAll(old(rooms), msgs))
    {
      var i := 0;
      while i < |msgs|
        invariant 0 <= i <= |msgs|
        invariant AppendAll(rooms, msgs[i..]) == AppendAll(old(rooms), msgs)
        invariant Model() == old(Model()).(rooms := rooms)
      {
        assert msgs[i..][0] == msgs[i] && msgs[i..][1..] == msgs[i + 1..];
        rooms := PushMessage(rooms, msgs[i]);
        i := i + 1;
      }
      assert msgs[i..] == [];
    }

    /** What `show_room_messages` does once its drawing loop has ended, early or not. */
    method FinishDrawing(msgs: seq<Message>, init: bool, completed: bool) returns (r: Option<()>)
      modifies this
      ensures (Model(), r) == FinishShow((old(Model()), completed), msgs, init)
    {
      if !completed {
        return None;
      }
      if msgs != [] {
        var last := LastInRoom(msgs, activeRoom.GetOr(""));
        if last.Some? {
          MarkAsRead(last.value);
        }
      }
      if init {
        panel := RoomPanel.Room;
      }
      return Some(());
    }

    /** `notify`: only the request for the sender's name and avatar reaches the model. */
    method Notify(msg: Message)
      modifies this
      ensures Model() == Send(old(Model()), BKCommand.GetUserInfoAsync(msg.sender))
    {
      BackendSend(BKCommand.GetUserInfoAsync(msg.sender));
    }

    /**
     * `show_room_messages_top`: an older batch goes in front of each room's
     * history, inserted from its newest message back, and is then drawn from
     * its newest message back, each with the message before it in the batch.
     */
    method ShowRoomMessagesTop(msgs: seq<Message>)
      modifies this
      ensures Model() == Controller.ShowRoomMessagesTop(old(Model()), msgs)
    {
      if msgs == [] {
        return;
      }
      PrependMessages(msgs);
      DrawMessagesTop(msgs);
    }

    /** Inserts the batch at the front of each room's history, from its newest message back. */
    method PrependMessages(msgs: seq<Message>)
      modifies this
      ensures Model() == old(Model()).(rooms := PrependAll(old(rooms), msgs))
    {
      var j := |msgs|;
      while j > 0
        invariant 0 <= j <= |msgs|
        invariant rooms == PrependAll(old(rooms), msgs[j..])
        invariant Model() == old(Model()).(rooms := rooms)
      {
        j := j - 1;
        assert msgs[j..][0] == msgs[j] && msgs[j..][1..] == msgs[j + 1..];
        rooms := PrependMessage(rooms, msgs[j]);
      }
      assert msgs[0..] == msgs;
    }

    /** The drawing loop of `show_room_messages_top`: newest message first, each with the one before it. */
    method DrawMessagesTop(msgs: seq<Message>)
      modifies this
      ensures Model() == TopFold(old(Model()), msgs)
    {
      var size := |msgs| - 1;
      var i := 0;
      while i < size + 1
        invariant 0 <= i <= size + 1
        invariant Model() == TopFold(old(Model()), msgs[|msgs| - i..])
      {
        var msg := msgs[size - i];
        var prev := if size - i > 0 then Some(msgs[size - i - 1]) else None;
        assert msgs[size - i..][0] == msg && msgs[size - i..][1..] == msgs[|msgs| - i..];
        var _ := AddRoomMessage(msg, MsgPos.Top, prev, false);
        i := i + 1;
      }
      assert msgs[|msgs| - i..] == msgs;
    }

    /** `notification_cliked`: shows the room of the clicked message. */
    method NotificationClicked(msg: Message)
      modifies this
      ensures Model() == Controller.NotificationClicked(old(Model()), page, msg)
    {
      if msg.room in rooms {
        SetActiveRoomById(rooms[msg.room].id);
      }
    }

    // -------------------------------------------------------------------
    // The member list

    /** `show_members`: lists at most `member_limit` members and counts the rest on the button. */
    method ShowMembersList(members: seq<Member>) returns (v: MemberListView)
      ensures v == ShowMembers(members, memberLimit)
      ensures |v.shown| <= memberLimit && v.shown <= members
    {
      var shown: seq<Member> := [];
      var i := 0;
      while i < |members| && i < memberLimit
        invariant 0 <= i <= |members| && i <= memberLimit
        invariant shown == members[..i]
      {
        shown := shown + [members[i]];
        assert members[..i + 1] == members[..i] + [members[i]];
        i := i + 1;
      }
      var more: Option<nat> := None;
      if |members| > memberLimit {
        more := Some(|members| - memberLimit);
      }
      v := MemberListView(shown, more);
    }

    /**
     * `show_all_members`: the active room's members whose alias contains the
     * search text (every member without one), each once, listed up to the
     * limit in the order of the distinct keys `keys`; nothing is listed when
     * the active room is unknown.
     */
    method ShowAllMembers(text: Option<string>, lower: string -> string)
      returns (v: Option<MemberListView>, ghost keys: seq<string>)
      ensures v.Some? <==> ActiveKey(Model()) in rooms
      ensures v.None? ==> keys == []
      ensures v.Some? ==>
                var members := rooms[ActiveKey(Model())].members;
                var sel := SelectedKeys(members, text, lower);
                |keys| == |sel| &&
                (forall i :: 0 <= i < |keys| ==> keys[i] in sel) &&
                (forall i, j :: 0 <= i < j < |keys| ==> keys[i] != keys[j]) &&
                (forall k :: k in sel ==> k in keys) &&
                |v.value.shown| == Min(memberLimit, |keys|) &&
                (forall i :: 0 <= i < |v.value.shown| ==> v.value.shown[i] == members[keys[i]]) &&
                (v.value.more.Some? <==> |sel| > memberLimit) &&
                |v.value.shown| + v.value.more.GetOr(0) == |sel|
    {
      var key := activeRoom.GetOr("");
      if key !in rooms {
        return None, [];
      }
      var members;
      members, keys := CollectMembers(rooms[key].members, text, lower);
      var list := ShowMembersList(members);
      return Some(list), keys;
    }

    // -------------------------------------------------------------------
    // The loops

    /** One tick of `backend_loop` that received `resp`. */
    method HandleResponse(resp: BKResponse)
      modifies this
      ensures Model() == Respond(old(Model()), page, resp)
    {
      if resp.Token? {
        HandleToken(resp);
      } else if SessionResponse(resp) {
        HandleSession(resp);
      } else if SyncAnswer(resp) {
        HandleSync(resp);
      } else if resp.RoomMessages? || resp.RoomMessagesInit? {
        HandleMessages(resp);
      } else if resp.RoomMessagesTo? {
        ShowRoomMessagesTop(resp.msgs);
      } else if SmallResponse(resp) {
        HandleSmall(resp);
      } else if resp.Rooms? {
        HandleRooms(resp);
      } else if resp.NewRoom? {
        HandleNewRoom(resp);
      } else if DetailEdit(resp) {
        HandleDetailEdit(resp);
      } else if RoomEdit(resp) {
        HandleRoomEdit(resp);
      }
    }

    /** A login succeeded: the session starts and the first sync is asked for. */
    method HandleToken(resp: BKResponse)
      requires resp.Token?
      modifies this
      ensures Model() == Respond(old(Model()), page, resp)
    {
      ghost var s0 := Model();
      loggedIn := true;
      state := AppState.Chat;
      uid := Some(resp.uid);
      username := Some(resp.uid);
      ghost var s1 := Model();
      assert s1 == s0.(loggedIn := true, state := AppState.Chat, uid := Some(resp.uid), username := Some(resp.uid));
      BackendSend(BKCommand.GetUsername);
      BackendSend(BKCommand.GetAvatar);
      ghost var s2 := Model();
      Sync();
      BackendSend(BKCommand.DirectoryProtocols);
      assert Model() == Send(SyncStep(s2), BKCommand.DirectoryProtocols);
    }

    method HandleSession(resp: BKResponse)
      requires SessionResponse(resp)
      modifies this
      ensures Model() == Respond(old(Model()), page, resp)
    {
      ghost var s0 := Model();
      if resp.Logout? {
        assert Respond(s0, page, resp) == s0.(loggedIn := false, state := AppState.Login, uid := None, username := None);
        loggedIn := false;
        state := AppState.Login;
        uid := None;
        username := None;
      } else if resp.Name? {
        assert Respond(s0, page, resp) == s0.(username := Some(resp.name));
        username := Some(resp.name);
      } else {
        assert Respond(s0, page, resp) == s0.(state := AppState.Login);
        state := AppState.Login;
      }
    }

    method HandleSync(resp: BKResponse)
      requires SyncAnswer(resp)
      modifies this
      ensures Model() == Respond(old(Model()), page, resp)
    {
      if resp.Sync? {
        Synced(Some(resp.since));
      } else if resp.SyncError? {
        syncing := false;
      } else if resp.SendMsg? {
        Sync();
      } else {
        ReloadRooms();
      }
    }

    method HandleMessages(resp: BKResponse)
      requires resp.RoomMessages? || resp.RoomMessagesInit?
      modifies this
      ensures Model() == Respond(old(Model()), page, resp)
    {
      var _ := ShowRoomMessages(resp.msgs, resp.RoomMessagesInit?);
    }

    method HandleSmall(resp: BKResponse)
      requires SmallResponse(resp)
      modifies this
      ensures Model() == Respond(old(Model()), page, resp)
    {
      if resp.NewRoomAvatar? {
        NewRoomAvatar(resp.roomId);
      } else if resp.NewRoomError? {
        panel := RoomPanel.NoRoom;
      } else {
        AddTmpRoomMessage(resp.msg);
      }
    }

    method HandleRooms(resp: BKResponse)
      requires resp.Rooms?
      modifies this
      ensures Model() == Respond(old(Model()), page, resp)
    {
      ReceiveRooms(resp.rooms, resp.def);
    }

    method HandleNewRoom(resp: BKResponse)
      requires resp.NewRoom?
      modifies this
      ensures Model() == Respond(old(Model()), page, resp)
    {
      NewRoom(resp.room);
    }

    method HandleDetailEdit(resp: BKResponse)
      requires DetailEdit(resp)
      modifies this
      ensures Model() == Respond(old(Model()), page, resp)
    {
      if resp.RoomDetail? {
        SetRoomDetail(resp.roomId, resp.key, Some(resp.value));
      } else if resp.RoomAvatar? {
        SetRoomAvatar(resp.roomId, Some(resp.avatar));
      } else {
        UpdateRoomNotifications(resp.roomId, Reset);
      }
    }

    method HandleRoomEdit(resp: BKResponse)
      requires RoomEdit(resp) && !DetailEdit(resp)
      modifies this
      ensures Model() == Respond(old(Model()), page, resp)
    {
      if resp.RoomName? {
        RoomNameChange(resp.roomId, Some(resp.name));
      } else if resp.RoomTopic? {
        RoomTopicChange(resp.roomId, Some(resp.topic));
      } else {
        RoomMemberEvent(resp.event);
      }
    }

    /** One tick of `appop_loop`: handles the oldest queued internal command, if any. */
    method HandleInternal()
      modifies this
      ensures Model() == InternalTick(old(Model()), page)
    {
      if internal == [] {
        return;
      }
      var c := internal[0];
      internal := internal[1..];
      match c
      case AddRoomMessage(msg, pos, prev, forceFull) => var _ := AddRoomMessage(msg, pos, prev, forceFull);
      case SetPanel(p) => panel := p;
      case NotifyClicked(msg) => NotificationClicked(msg);
      case SelectRoom(r) => SetActiveRoomById(r.id);
    }
  }

  /** Logout, a new user name, a failed login. */
  predicate SessionResponse(resp: BKResponse)
  {
    resp.Logout? || resp.Name? || resp.LoginError?
  }

  /** Responses that touch one field or one request. */
  predicate SmallResponse(resp: BKResponse)
  {
    resp.NewRoomAvatar? || resp.NewRoomError? || resp.AttachedFile?
  }

  /** The responses that end a sync, or ask for a new one. */
  predicate SyncAnswer(resp: BKResponse)
  {
    resp.Sync? || resp.SyncError? || resp.SendMsg? || resp.JoinRoom?
  }

}
