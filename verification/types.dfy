/**
 * The values the controller exchanges with the backend: the command and
 * response taxonomies of fractal-api/src/backend/types.rs and the chat
 * entities they carry, plus the small enums of fractal-gtk/src/app.rs.
 *
 * Reply channels (`Sender<..>`) inside lookup commands are not modelled:
 * the controller never reads them back in the modelled code.
 */
module Types {
  import opened Wrappers

  /** A chat message; `date` stands for the chrono timestamp. */
  datatype Message = Message(
    sender: string,
    mtype: string,
    body: string,
    room: string,
    date: int,
    thumb: Option<string>,
    url: Option<string>,
    id: Option<string>)

  datatype Member = Member(alias: Option<string>, avatar: Option<string>, uid: string)

  /** A joined room with its local history and its member map (uid -> Member). */
  datatype Room = Room(
    id: string,
    name: Option<string>,
    avatar: Option<string>,
    topic: Option<string>,
    notifications: int,
    messages: seq<Message>,
    members: map<string, Member>)

  /**
   * A room state event. `membership`, `displayName` and `avatarUrl` are the
   * string values (if any) of the JSON content keys "membership",
   * "displayname" and "avatar_url".
   */
  datatype Event = Event(
    sender: string,
    room: string,
    membership: Option<string>,
    displayName: Option<string>,
    avatarUrl: Option<string>)

  datatype Protocol = Protocol(id: string, desc: string)

  /** The backend's error payload, kept opaque. */
  datatype BackendError = BackendError(detail: string)

  datatype RoomType = Public | Private

  /** Commands the controller sends to the backend. */
  datatype BKCommand =
    | Login(user: string, password: string, server: string)
    | Logout
    | Register(user: string, password: string, server: string)
    | Guest(server: string)
    | GetUsername
    | GetAvatar
    | Sync
    | SyncForced
    | GetRoomMessages(roomId: string)
    | GetMessageContext(msg: Message)
    | GetRoomAvatar(roomId: string)
    | GetThumbAsync(url: string)
    | GetAvatarAsync(member: Option<Member>)
    | GetMedia(url: string)
    | GetUserInfoAsync(uid: string)
    | SendMsg(msg: Message)
    | SetRoom(room: Room)
    | ShutDown
    | DirectoryProtocols
    | DirectorySearch(query: string, protocol: string, more: bool)
    | JoinRoom(roomId: string)
    | MarkAsRead(roomId: string, eventId: string)
    | LeaveRoom(roomId: string)
    | SetRoomName(roomId: string, name: string)
    | SetRoomTopic(roomId: string, topic: string)
    | SetRoomAvatar(roomId: string, path: string)
    | AttachFile(roomId: string, path: string)
    | AttachImage(roomId: string, data: seq<bv8>)
    | Search(roomId: string, term: Option<string>)
    | NewRoom(name: string, preset: RoomType)

  /** Responses the backend publishes to the controller. */
  datatype BKResponse =
    | Token(uid: string, token: string)
    | Logout
    | Name(name: string)
    | Avatar(path: string)
    | Sync(since: string)
    | Rooms(rooms: seq<Room>, def: Option<Room>)
    | RoomDetail(roomId: string, key: string, value: string)
    | RoomAvatar(roomId: string, avatar: string)
    | NewRoomAvatar(roomId: string)
    | RoomMemberEvent(event: Event)
    | RoomMessages(msgs: seq<Message>)
    | RoomMessagesInit(msgs: seq<Message>)
    | RoomMessagesTo(msgs: seq<Message>)
    | RoomMembers(members: seq<Member>)
    | SendMsg
    | DirectoryProtocols(protocols: seq<Protocol>)
    | DirectorySearch(rooms: seq<Room>)
    | JoinRoom
    | LeaveRoom
    | MarkedAsRead(roomId: string, eventId: string)
    | SetRoomName
    | SetRoomTopic
    | SetRoomAvatar
    | RoomName(roomId: string, name: string)
    | RoomTopic(roomId: string, topic: string)
    | Media(path: string)
    | AttachedFile(msg: Message)
    | SearchEnd
    | NewRoom(room: Room)
    // errors
    | UserNameError(err: BackendError)
    | AvatarError(err: BackendError)
    | LoginError(err: BackendError)
    | LogoutError(err: BackendError)
    | GuestLoginError(err: BackendError)
    | SyncError(err: BackendError)
    | RoomDetailError(err: BackendError)
    | RoomAvatarError(err: BackendError)
    | RoomMessagesError(err: BackendError)
    | RoomMembersError(err: BackendError)
    | SendMsgError(err: BackendError)
    | SetRoomError(err: BackendError)
    | CommandError(err: BackendError)
    | DirectoryError(err: BackendError)
    | JoinRoomError(err: BackendError)
    | MarkAsReadError(err: BackendError)
    | LeaveRoomError(err: BackendError)
    | SetRoomNameError(err: BackendError)
    | SetRoomTopicError(err: BackendError)
    | SetRoomAvatarError(err: BackendError)
    | GetRoomAvatarError(err: BackendError)
    | MediaError(err: BackendError)
    | AttachFileError(err: BackendError)
    | SearchError(err: BackendError)
    | NewRoomError(err: BackendError)

  datatype AppState = Login | Chat | Directory | Loading

  datatype RoomPanel = Room | NoRoom | Loading

  datatype MsgPos = Top | Bottom

  /** Commands the controller posts to itself (handled by the appop loop). */
  datatype InternalCommand =
    | AddRoomMessage(msg: Message, pos: MsgPos, prev: Option<Message>, forceFull: bool)
    | SetPanel(panel: RoomPanel)
    | NotifyClicked(msg: Message)
    | SelectRoom(room: Room)
}
