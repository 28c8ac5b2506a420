/**
 * The controller state of `AppOp` (fractal-gtk/src/app.rs) with the GTK
 * widgets stripped away, and each of its operations as a function from the
 * old state to the new one. The backend channel is an append-only outbox of
 * commands, the internal channel a FIFO queue of internal commands that the
 * appop loop drains one at a time.
 *
 * `page` everywhere stands for `globals::INITIAL_MESSAGES`, a positive
 * constant whose value is not part of this model.
 */
module Controller {
  import opened Wrappers
  import opened Types
  import opened Text
  import opened Messages
  import opened RoomMap
  import opened Views

  /** The non-widget fields of `AppOp`, plus the visible room panel. */
  datatype AppModel = AppModel(
    loggedIn: bool,
    syncing: bool,
    since: Option<string>,
    uid: Option<string>,
    username: Option<string>,
    serverUrl: string,
    rooms: Rooms,
    activeRoom: Option<string>,
    tmpMsgs: seq<Message>,
    shownMessages: nat,
    memberLimit: nat,
    state: AppState,
    panel: RoomPanel,
    outbox: seq<BKCommand>,
    internal: seq<InternalCommand>)

  const DefaultServer: string := "https://matrix.org"

  /** `AppOp::new`: logged out, no rooms, the default server, 50 members shown. */
  function Initial(): AppModel
  {
    AppModel(false, false, None, None, None, DefaultServer, map[], None, [], 0,
             InitialMemberLimit, AppState.Login, RoomPanel.NoRoom, [], [])
  }

  /** The key the source looks rooms up by: the active room id, or "" when there is none. */
  function ActiveKey(s: AppModel): string
  {
    s.activeRoom.GetOr("")
  }

  function Send(s: AppModel, c: BKCommand): AppModel
  {
    s.(outbox := s.outbox + [c])
  }

  function Post(s: AppModel, cs: seq<InternalCommand>): AppModel
  {
    s.(internal := s.internal + cs)
  }

  /** Posting two batches in turn posts their concatenation. */
  lemma PostTwice(s: AppModel, a: seq<InternalCommand>, b: seq<InternalCommand>)
    ensures Post(Post(s, a), b) == Post(s, a + b)
  {
    assert s.internal + a + b == s.internal + (a + b);
  }

  /** The counter updates passed to `update_room_notifications`. */
  function Increment(n: int): int { n + 1 }
  function Reset(n: int): int { 0 }

  // ---------------------------------------------------------------------
  // Sync gating (sync, synced, reload_rooms)

  /** `sync`: one Sync in flight at a time, and only once logged in. */
  function SyncStep(s: AppModel): AppModel
  {
    if !s.syncing && s.loggedIn then Send(s.(syncing := true), BKCommand.Sync) else s
  }

  function Synced(s: AppModel, since: Option<string>): AppModel
  {
    s.(syncing := false, since := since)
  }

  function ReloadRooms(s: AppModel): AppModel
  {
    Send(s.(state := AppState.Loading), BKCommand.SyncForced)
  }

  // ---------------------------------------------------------------------
  // Login (login, connect)

  /**
   * `connect`: the server is set first; a missing user name or password
   * stops it before anything is sent (the credential store is not modelled).
   */
  function Connect(s: AppModel, user: Option<string>, pass: Option<string>, server: Option<string>)
    : (AppModel, Option<()>)
  {
    var s1 := s.(serverUrl := server.GetOr(DefaultServer));
    if user.None? || pass.None? then (s1, None)
    else (Send(s1, BKCommand.Login(user.value, pass.value, s1.serverUrl)), Some(()))
  }

  function LoginStep(s: AppModel, user: Option<string>, pass: Option<string>, server: Option<string>): AppModel
  {
    Connect(s.(state := AppState.Loading, since := None), user, pass, server).0
  }

  /** `escape`: leaves the current room, only from the chat state. */
  function Escape(s: AppModel): AppModel
  {
    if s.state == AppState.Chat
    then s.(panel := RoomPanel.NoRoom, activeRoom := None, tmpMsgs := [])
    else s
  }

  // ---------------------------------------------------------------------
  // Local echo (add_tmp_room_message, clear_tmp_msgs, remove_tmp_room_message, send_message)

  /** The message list always holds the load-more button, so the echo is always recorded. */
  function AddTmp(s: AppModel, msg: Message): AppModel
  {
    s.(tmpMsgs := s.tmpMsgs + [msg])
  }

  function ClearTmp(s: AppModel): AppModel
  {
    s.(tmpMsgs := [])
  }

  function RemoveTmp(s: AppModel, msg: Message): AppModel
  {
    s.(tmpMsgs := WithoutEcho(s.tmpMsgs, msg))
  }

  /** The message `send_message` builds; `now` stands for `Local::now()`. */
  function OutgoingMessage(s: AppModel, text: string, now: int): Message
  {
    Message(s.uid.GetOr(""), "m.text", text, ActiveKey(s), now, None, None, None)
  }

  function SendMessage(s: AppModel, text: string, now: int): AppModel
  {
    if text == [] then s
    else
      var m := OutgoingMessage(s, text, now);
      Send(AddTmp(s, m), BKCommand.SendMsg(m))
  }

  // ---------------------------------------------------------------------
  // Notifications and read markers

  function UpdateRoomNotifications(s: AppModel, id: string, f: int -> int): AppModel
  {
    s.(rooms := UpdateNotifications(s.rooms, id, f))
  }

  function MarkRead(s: AppModel, msg: Message): AppModel
  {
    Send(s, BKCommand.MarkAsRead(msg.room, msg.id.GetOr("")))
  }

  // ---------------------------------------------------------------------
  // Showing a room (set_active_room, set_active_room_by_id, set_rooms)

  /**
   * `set_active_room`: resets the view, queues the newest page for drawing
   * and the Room panel, marks the newest message read, asks for the room's
   * details and, when the history is empty, for its messages.
   */
  function SetActiveRoom(s: AppModel, page: nat, room: Room): AppModel
  {
    var s1 := s.(memberLimit := InitialMemberLimit, panel := RoomPanel.Loading,
                 activeRoom := Some(room.id), tmpMsgs := [], shownMessages := 0);
    var s2 := Post(s1, PageCommands(LatestPage(room.messages, 0, page)) + [InternalCommand.SetPanel(RoomPanel.Room)]);
    var s3 := if room.messages != [] then MarkRead(s2, room.messages[|room.messages| - 1]) else s2;
    var s4 := Send(s3, BKCommand.SetRoom(room));
    if room.messages == [] then Send(s4, BKCommand.GetRoomMessages(ActiveKey(s4))) else s4
  }

  function SetActiveRoomById(s: AppModel, page: nat, id: string): AppModel
  {
    if id in s.rooms then SetActiveRoom(s, page, s.rooms[id]) else s
  }

  /**
   * `set_rooms`: the room map is rebuilt from the list; the active room is
   * shown again if it is still there, else the default room, else no room.
   */
  function SetRooms(s: AppModel, page: nat, rs: seq<Room>, def: Option<Room>): AppModel
  {
    var s1 := s.(rooms := RoomsFromList(rs));
    var godef := if s1.activeRoom.Some? && s1.activeRoom.value in s1.rooms
                 then Some(s1.rooms[s1.activeRoom.value]) else def;
    if godef.Some? then SetActiveRoomById(s1, page, godef.value.id)
    else s1.(state := AppState.Chat, panel := RoomPanel.NoRoom, activeRoom := None, tmpMsgs := [])
  }

  /** One GetRoomAvatar request per listed room, in order. */
  function AvatarRequests(rs: seq<Room>): seq<BKCommand>
  {
    seq(|rs|, i requires 0 <= i < |rs| => BKCommand.GetRoomAvatar(rs[i].id))
  }

  // ---------------------------------------------------------------------
  // Room details

  function SetRoomDetail(s: AppModel, id: string, key: string, value: Option<string>): AppModel
  {
    s.(rooms := SetDetail(s.rooms, id, key, value))
  }

  function UpdateRoomAvatar(s: AppModel, id: string, avatar: Option<string>): AppModel
  {
    s.(rooms := SetAvatar(s.rooms, id, avatar))
  }

  function RoomNameChange(s: AppModel, id: string, name: Option<string>): AppModel
  {
    if id !in s.rooms then s else s.(rooms := Rename(s.rooms, id, name))
  }

  function RoomTopicChange(s: AppModel, id: string, topic: Option<string>): AppModel
  {
    if id !in s.rooms then s else s.(rooms := Retopic(s.rooms, id, topic))
  }

  function RequestRoomAvatar(s: AppModel, id: string): AppModel
  {
    if id !in s.rooms then s else Send(s, BKCommand.GetRoomAvatar(id))
  }

  /** `new_room`: a room id already known keeps its old entry; the room is then shown. */
  function AddNewRoom(s: AppModel, page: nat, r: Room): AppModel
  {
    var s1 := if r.id in s.rooms then s else s.(rooms := s.rooms[r.id := r]);
    SetActiveRoomById(s1, page, r.id)
  }

  /** `create_new_room`: asks for the room with the preset picked in the combo box. */
  function CreateNewRoom(s: AppModel, name: Option<string>, selection: Option<string>): AppModel
  {
    Send(s, BKCommand.NewRoom(name.GetOr(""), RoomPreset(selection))).(panel := RoomPanel.Loading)
  }

  /** `really_leave_active_room`. */
  function ReallyLeave(s: AppModel): AppModel
  {
    var r := ActiveKey(s);
    Send(s, BKCommand.LeaveRoom(r)).(rooms := s.rooms - {r}, activeRoom := None,
                                     tmpMsgs := [], panel := RoomPanel.NoRoom)
  }

  /** The member `room_member_event` inserts on a join; missing fields default to "". */
  function JoinedMember(ev: Event): Member
  {
    Member(Some(ev.displayName.GetOr("")), Some(ev.avatarUrl.GetOr("")), ev.sender)
  }

  function MemberEvent(s: AppModel, ev: Event): AppModel
  {
    if ev.room != ActiveKey(s) then s
    else if ev.membership == Some("leave") then s.(rooms := RemoveMember(s.rooms, ActiveKey(s), ev.sender))
    else if ev.membership == Some("join") then s.(rooms := InsertMember(s.rooms, ActiveKey(s), JoinedMember(ev)))
    else s
  }

  /** The "load more members" button. */
  function MoreMembers(s: AppModel): AppModel
  {
    s.(memberLimit := s.memberLimit + MemberLimitStep)
  }

  // ---------------------------------------------------------------------
  // Drawing messages (add_room_message, load_more_messages, show_room_messages[_top])

  /**
   * The state effect of `add_room_message`: a message of the active room is
   * counted as shown and replaces its local echo; any other message bumps
   * its room's unread counter.
   */
  function AddMessage(s: AppModel, msg: Message): AppModel
  {
    if msg.room == ActiveKey(s) then
      var s1 := if ActiveKey(s) in s.rooms then s.(shownMessages := s.shownMessages + 1) else s;
      RemoveTmp(s1, msg)
    else UpdateRoomNotifications(s, msg.room, Increment)
  }

  /** `load_more_messages`: the next page from memory, or a context request once memory is exhausted. */
  function LoadMoreMessages(s: AppModel, page: nat): AppModel
  {
    if ActiveKey(s) !in s.rooms then s
    else
      var ms := s.rooms[ActiveKey(s)].messages;
      if s.shownMessages < |ms| then Post(s, PageCommands(LatestPage(ms, s.shownMessages, page)))
      else if ms != [] then Send(s, BKCommand.GetMessageContext(ms[0]))
      else s
  }

  /**
   * The second loop of `show_room_messages`, from the given message on: the
   * bool is false when a `?` on the user name or uid ends the method early.
   */
  function ShowFold(s: AppModel, ms: seq<Message>, init: bool): (AppModel, bool)
    decreases |ms|
  {
    if ms == [] then (s, true)
    else if s.username.None? then (s, false)
    else
      var mentioned := Contains(ms[0].body, s.username.value) && !init;
      if mentioned && s.uid.None? then (s, false)
      else
        var s1 := if mentioned && ms[0].sender != s.uid.value
                  then Send(s, BKCommand.GetUserInfoAsync(ms[0].sender)) else s;
        ShowFold(AddMessage(s1, ms[0]), ms[1..], init)
  }

  /** `show_room_messages`: append to history, draw, mark the newest active-room message read. */
  function ShowRoomMessages(s: AppModel, msgs: seq<Message>, init: bool): (AppModel, Option<()>)
  {
    FinishShow(ShowFold(s.(rooms := AppendAll(s.rooms, msgs)), msgs, init), msgs, init)
  }

  /** What `show_room_messages` does once its drawing loop has ended, early or not. */
  function FinishShow(fold: (AppModel, bool), msgs: seq<Message>, init: bool): (AppModel, Option<()>)
  {
    var s := fold.0;
    if !fold.1 then (s, None)
    else
      var last := LastInRoom(msgs, ActiveKey(s));
      var s1 := if msgs != [] && last.Some? then MarkRead(s, last.value) else s;
      (if init then s1.(panel := RoomPanel.Room) else s1, Some(()))
  }

  /** The drawing loop of `show_room_messages_top`: the batch from its newest message back. */
  function TopFold(s: AppModel, ms: seq<Message>): AppModel
    decreases |ms|
  {
    if ms == [] then s else AddMessage(TopFold(s, ms[1..]), ms[0])
  }

  function ShowRoomMessagesTop(s: AppModel, msgs: seq<Message>): AppModel
  {
    if msgs == [] then s else TopFold(s.(rooms := PrependAll(s.rooms, msgs)), msgs)
  }

  // ---------------------------------------------------------------------
  // The backend loop and the appop loop

  /** `notification_cliked`: shows the message's room, looked up by its own id field. */
  function NotificationClicked(s: AppModel, page: nat, msg: Message): AppModel
  {
    if msg.room in s.rooms then SetActiveRoomById(s, page, s.rooms[msg.room].id) else s
  }

  /** One tick of `backend_loop` that received `resp`. */
  function Respond(s: AppModel, page: nat, resp: BKResponse): AppModel
  {
    match resp
    case Token(uid, _) =>
      var s1 := s.(loggedIn := true, state := AppState.Chat, uid := Some(uid), username := Some(uid));
      Send(SyncStep(Send(Send(s1, BKCommand.GetUsername), BKCommand.GetAvatar)), BKCommand.DirectoryProtocols)
    case Logout => s.(loggedIn := false, state := AppState.Login, uid := None, username := None)
    case Name(n) => s.(username := Some(n))
    case Avatar(_) => s
    case Sync(since) => Synced(s, Some(since))
    case Rooms(rs, def) => SetRooms(s.(outbox := s.outbox + AvatarRequests(rs)), page, rs, def)
    case RoomDetail(id, key, value) => SetRoomDetail(s, id, key, Some(value))
    case RoomAvatar(id, avatar) => UpdateRoomAvatar(s, id, Some(avatar))
    case RoomMessages(msgs) => ShowRoomMessages(s, msgs, false).0
    case RoomMessagesInit(msgs) => ShowRoomMessages(s, msgs, true).0
    case RoomMessagesTo(msgs) => ShowRoomMessagesTop(s, msgs)
    case SendMsg => SyncStep(s)
    case DirectoryProtocols(_) => s
    case DirectorySearch(_) => s
    case JoinRoom => ReloadRooms(s)
    case LeaveRoom => s
    case SetRoomName => s
    case SetRoomTopic => s
    case SetRoomAvatar => s
    case MarkedAsRead(id, _) => UpdateRoomNotifications(s, id, Reset)
    case RoomName(id, name) => RoomNameChange(s, id, Some(name))
    case RoomTopic(id, topic) => RoomTopicChange(s, id, Some(topic))
    case NewRoomAvatar(id) => RequestRoomAvatar(s, id)
    case RoomMemberEvent(ev) => MemberEvent(s, ev)
    case Media(_) => s
    case AttachedFile(msg) => AddTmp(s, msg)
    case SearchEnd => s
    case NewRoom(r) => AddNewRoom(s, page, r)
    case NewRoomError(_) => s.(panel := RoomPanel.NoRoom)
    case LoginError(_) => s.(state := AppState.Login)
    case SendMsgError(_) => s
    case SyncError(_) => s.(syncing := false)
    case _ => s
  }

  /** One internal command, as `appop_loop` dispatches it. */
  function Dispatch(s: AppModel, page: nat, c: InternalCommand): AppModel
  {
    match c
    case AddRoomMessage(msg, _, _, _) => AddMessage(s, msg)
    case SetPanel(p) => s.(panel := p)
    case NotifyClicked(msg) => NotificationClicked(s, page, msg)
    case SelectRoom(r) => SetActiveRoomById(s, page, r.id)
  }

  /** One tick of `appop_loop`: the oldest queued internal command, if any. */
  function InternalTick(s: AppModel, page: nat): AppModel
  {
    if s.internal == [] then s else Dispatch(s.(internal := s.internal[1..]), page, s.internal[0])
  }

  // ---------------------------------------------------------------------
  // The whole controller as a transition system

  /**
   * What can happen next: a timer tick or one of the user actions the core
   * handles. Picking a room in the room list and clicking a desktop
   * notification only queue an internal command, as the callbacks that
   * `set_rooms` and `notify` install do.
   */
  datatype Input =
    | SyncTick
    | BackendTick(resp: BKResponse)
    | AppopTick
    | UserLogin(user: Option<string>, pass: Option<string>, server: Option<string>)
    | UserSend(text: string, now: int)
    | UserEscape
    | UserLoadMore
    | UserMoreMembers
    | UserLeave
    | UserCreateRoom(name: Option<string>, selection: Option<string>)
    | UserSelectRoom(room: Room)
    | UserNotifyClick(msg: Message)

  function Step(s: AppModel, page: nat, i: Input): AppModel
  {
    match i
    case SyncTick => SyncStep(s)
    case BackendTick(resp) => Respond(s, page, resp)
    case AppopTick => InternalTick(s, page)
    case UserLogin(u, p, srv) => LoginStep(s, u, p, srv)
    case UserSend(text, now) => SendMessage(s, text, now)
    case UserEscape => Escape(s)
    case UserLoadMore => LoadMoreMessages(s, page)
    case UserMoreMembers => MoreMembers(s)
    case UserLeave => ReallyLeave(s)
    case UserCreateRoom(name, sel) => CreateNewRoom(s, name, sel)
    case UserSelectRoom(r) => Post(s, [InternalCommand.SelectRoom(r)])
    case UserNotifyClick(msg) => Post(s, [InternalCommand.NotifyClicked(msg)])
  }

  function Run(s: AppModel, page: nat, ins: seq<Input>): AppModel
    decreases |ins|
  {
    if ins == [] then s else Run(Step(s, page, ins[0]), page, ins[1..])
  }
}
