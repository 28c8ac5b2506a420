# A verified model of Fractal's `AppOp` controller

Fractal is a GTK client for the Matrix chat protocol. Its controller, `AppOp`
in `fractal-gtk/src/app.rs`, holds the session (logged in, syncing, the sync
position `since`, user id and name, server), the joined rooms with their
histories, members and unread counters, the active room, the local echoes of
messages still being sent (`tmp_msgs`), and how many messages of the active
room are drawn. It talks to a backend thread through a command channel and is
driven by two timers: `backend_loop` applies one backend response per tick,
and `appop_loop` applies one queued internal command per tick.

This project models that controller without its widgets:

- `Types`, `Text`, `Messages`, `RoomMap`, `Views`: the values, as datatypes and
  pure functions with lemmas:
  - the backend's commands and responses;
  - rooms, messages, members and events;
  - the echo match and the history pages;
  - edits of the room map;
  - the small decisions the widget code makes (stack page names, the room
    preset, the pasted-image size, the member list, the compact message form).
- `Controller`: the controller state as the value `AppModel`. Each operation
  of `AppOp` is a function from the old state to the new one:
  - the backend channel is an append-only `outbox`;
  - the internal channel is a FIFO `internal` queue;
  - `Respond` is one tick of `backend_loop`;
  - `Dispatch`/`InternalTick` is one tick of `appop_loop`;
  - `Step`/`Run` compose them with the user actions into a transition system;
    picking a room in the room list and clicking a notification queue the
    internal commands that `appop_loop` then handles.
- `Properties`: frame lemmas and the sync invariant. Over any run from the
  initial state, at most one `Sync` request is sent per acknowledgement received
  (a `Sync` or `SyncError` response), plus the first one.
- `Promises`: what single operations promise:
  - the sync gate and its acknowledgements;
  - `connect`;
  - removal of the local echo;
  - unread counters;
  - member events;
  - the order of history batches;
  - paging;
  - the room-map edits.
- `App`: the class `AppOp`, whose fields the methods update in place, as the
  Rust object does:
  - the sequence fields `sent` and `queued` are the channels;
  - the loops (`set_rooms`, `show_room_messages`, `show_room_messages_top`,
    `remove_tmp_room_message`, queuing a page, collecting members) are `while`
    loops with invariants;
  - every method ensures that `Model()` is what the matching `Controller`
    function computes from `old(Model())`, so all the lemmas above apply to
    the object.

Three values stand in for things outside the model:

- `page` stands for `globals::INITIAL_MESSAGES`, a positive constant whose value is not part of this model;
- `now` stands for `Local::now()`;
- `lower` stands for `to_lowercase`.

## Model

| member | source | states |
|---|---|---|
| App.AppOp.constructor | fractal-gtk/src/app.rs:123-150 | a fresh controller is logged out and not syncing, with no rooms, no active room, the matrix.org server, a member limit of 50 and empty channels |
| App.AppOp.BackendSend | fractal-gtk/src/app.rs:75 | a backend command is appended to what was sent; nothing else changes |
| App.AppOp.InternalSend | fractal-gtk/src/app.rs:76 | an internal command is queued behind the others; nothing else changes |
| App.AppOp.Sync | fractal-gtk/src/app.rs:480-485 | the object moves exactly as the sync gate `Controller.SyncStep` does |
| App.AppOp.Synced | fractal-gtk/src/app.rs:487-490 | `syncing` is cleared and `since` replaced; nothing else changes |
| App.AppOp.ReloadRooms | fractal-gtk/src/app.rs:544-547 | SyncForced is sent and the loading state shown, whatever `syncing` is |
| App.AppOp.Connect | fractal-gtk/src/app.rs:260-277 | the new state and the result are those of `Controller.Connect`, whose properties are proved in Promises |
| App.AppOp.Login | fractal-gtk/src/app.rs:189-208 | shows loading, forgets `since`, then connects |
| App.AppOp.Escape | fractal-gtk/src/app.rs:181-187 | leaves the active room only from the chat state |
| App.AppOp.AddTmpRoomMessage | fractal-gtk/src/app.rs:793-816 | the echo is appended to the pending echoes |
| App.AppOp.ClearTmpMsgs | fractal-gtk/src/app.rs:818-826 | the pending echoes are emptied |
| App.AppOp.RemoveTmpRoomMessage | fractal-gtk/src/app.rs:828-850 | the loop removes the first pending echo matching sender, type, room and body, and only it |
| App.AppOp.SendMessage | fractal-gtk/src/app.rs:878-900 | non-empty text records an echo and sends SendMsg with the same message; empty text changes nothing |
| App.AppOp.UpdateRoomNotifications | fractal-gtk/src/app.rs:852-857 | the counter of a known room is replaced by `f` of it; an unknown room changes nothing |
| App.AppOp.MarkAsRead | fractal-gtk/src/app.rs:859-862 | sends MarkAsRead for the message's room and id, "" when it has none |
| App.AppOp.QueuePage | fractal-gtk/src/app.rs:581-590 | the loop queues one AddRoomMessage per message, in order; only the last is drawn in full |
| App.AppOp.EnterRoom | fractal-gtk/src/app.rs:569-591 | resets the member limit, echoes and shown count, shows the loading panel, and queues the newest page, then the room panel |
| App.AppOp.SetActiveRoom | fractal-gtk/src/app.rs:569-640 | the object moves exactly as `Controller.SetActiveRoom` |
| App.AppOp.SetActiveRoomById | fractal-gtk/src/app.rs:558-567 | shows the room filed under the id; an unknown id changes nothing |
| App.AppOp.RebuildRooms | fractal-gtk/src/app.rs:499-506 | the loop builds the room map from the list, a later room of the same id replacing an earlier one |
| App.AppOp.SetRooms | fractal-gtk/src/app.rs:492-535 | the object moves exactly as `Controller.SetRooms` |
| App.AppOp.ReceiveRooms | fractal-gtk/src/app.rs:2109-2117 | the loop sends one GetRoomAvatar per listed room, in order, then `set_rooms` runs |
| App.AppOp.SetRoomDetail | fractal-gtk/src/app.rs:642-655 | updates the name or the topic of a known room |
| App.AppOp.SetRoomAvatar | fractal-gtk/src/app.rs:657-666 | updates a known room's avatar |
| App.AppOp.RoomNameChange | fractal-gtk/src/app.rs:1271-1289 | renames a known room; an unknown room changes nothing |
| App.AppOp.RoomTopicChange | fractal-gtk/src/app.rs:1291-1304 | changes a known room's topic; an unknown room changes nothing |
| App.AppOp.NewRoomAvatar | fractal-gtk/src/app.rs:1326-1332 | asks for the avatar of a known room only |
| App.AppOp.NewRoom | fractal-gtk/src/app.rs:1229-1236 | adds the room unless its id is known, then shows it |
| App.AppOp.CreateNewRoom | fractal-gtk/src/app.rs:1200-1227 | sends NewRoom with the name, "" by default, and the selected preset, then shows the loading panel |
| App.AppOp.ReallyLeaveActiveRoom | fractal-gtk/src/app.rs:1171-1180 | sends LeaveRoom, drops the room from the map and shows no room |
| App.AppOp.RoomMemberEvent | fractal-gtk/src/app.rs:1334-1384 | applies the leave/join rules of `Controller.MemberEvent` |
| App.AppOp.ShowMoreMembers | fractal-gtk/src/app.rs:1919-1932 | raises the member limit by 50 |
| App.AppOp.AddRoomMessage | fractal-gtk/src/app.rs:736-791 | counts a message of the active room as shown and clears its echo; bumps any other room's counter; `compact` holds exactly when the previous message has the same sender |
| App.AppOp.LoadMoreMessages | fractal-gtk/src/app.rs:938-957 | queues the next page from memory, else asks for the context of the oldest message |
| App.AppOp.ShowRoomMessages | fractal-gtk/src/app.rs:1092-1134 | appends the batch to the histories, draws it and marks the newest active-room message read; `None` when the user name or uid is missing |
| App.AppOp.AppendMessages | fractal-gtk/src/app.rs:1093-1097 | the loop appends each message to its own room's history, in order |
| App.AppOp.DrawMessages | fractal-gtk/src/app.rs:1099-1117 | the drawing loop agrees with `Controller.ShowFold`, including the early end on a missing name or uid |
| App.AppOp.FinishDrawing | fractal-gtk/src/app.rs:1119-1133 | marks the newest message of the active room read, and shows the room panel on an initial load |
| App.AppOp.Notify | fractal-gtk/src/app.rs:1044-1090 | only the GetUserInfoAsync request for the sender reaches the state |
| App.AppOp.ShowRoomMessagesTop | fractal-gtk/src/app.rs:1136-1161 | an empty batch changes nothing; otherwise the batch is prepended and drawn newest first |
| App.AppOp.PrependMessages | fractal-gtk/src/app.rs:1141-1147 | the loop puts the batch in front of each room's history, keeping the batch's order |
| App.AppOp.DrawMessagesTop | fractal-gtk/src/app.rs:1149-1160 | the loop draws the batch from its newest message back |
| App.AppOp.NotificationClicked | fractal-gtk/src/app.rs:1498-1508 | shows the clicked message's room, if known |
| App.AppOp.ShowMembersList | fractal-gtk/src/app.rs:1536-1577 | lists at most `member_limit` members, a prefix of the list, and counts the rest |
| App.AppOp.ShowAllMembers | fractal-gtk/src/app.rs:1579-1600 | lists the active room's members whose lower-cased alias contains the lower-cased search, all of them without a search, each once, through distinct keys covering exactly the selected ones; the first `min(limit, n)` of that list are shown; nothing for an unknown room |
| App.AppOp.HandleResponse | fractal-gtk/src/app.rs:2077-2208 | one backend-loop tick moves the object exactly as `Controller.Respond` |
| App.AppOp.HandleToken | fractal-gtk/src/app.rs:2081-2091 | a login: logged in, chat state, uid and name set, name and avatar requested, one sync, then protocols |
| App.AppOp.HandleSession | fractal-gtk/src/app.rs:2092-2101 | logout clears the session; a new name is stored; a failed login returns to the login state |
| App.AppOp.HandleSync | fractal-gtk/src/app.rs:2105-2135 | Sync and SyncError end the sync; SendMsg asks for one |
| App.AppOp.HandleMessages | fractal-gtk/src/app.rs:2124-2129 | a batch of newer messages is shown, initial or not |
| App.AppOp.HandleSmall | fractal-gtk/src/app.rs:2130-2199 | the responses that touch one field or one request do as `Controller.Respond` says |
| App.AppOp.HandleRooms | fractal-gtk/src/app.rs:2109-2117 | avatars are requested, then the rooms are set |
| App.AppOp.HandleNewRoom | fractal-gtk/src/app.rs:2179-2181 | the new room is added and shown |
| App.AppOp.HandleDetailEdit | fractal-gtk/src/app.rs:2118-2153 | room details and avatars are set, and MarkedAsRead resets the counter |
| App.AppOp.HandleRoomEdit | fractal-gtk/src/app.rs:2155-2166 | a rename, a topic change or a member event is applied to the room map |
| App.AppOp.HandleInternal | fractal-gtk/src/app.rs:2220-2241 | one appop-loop tick handles the oldest queued command, if any |
| Controller.PostTwice | fractal-gtk/src/app.rs:76 | posting two batches in turn queues their concatenation |
| Messages.FirstEchoIndex | fractal-gtk/src/app.rs:835-844 | finds the first pending echo that matches sender, type, room and body, or proves there is none |
| Messages.RemoveAt | fractal-gtk/src/app.rs:847-849 | removing position `i` keeps the entries before it and shifts the ones after it down |
| Messages.PositionById | fractal-gtk/src/app.rs:747-755 | the first position of a message with the given id, or none such |
| Messages.Reverse | fractal-gtk/src/app.rs:581-583 | the reversed sequence |
| Messages.LatestPage | fractal-gtk/src/app.rs:581-583 | newest first, `n` messages after skipping `skip`, or fewer when the history runs out |
| Messages.PageCommands | fractal-gtk/src/app.rs:584-590 | one internal command per message of the page |
| Messages.PageCommandsShape | fractal-gtk/src/app.rs:584-590 | command `i` draws message `i` at the top with no previous message, in full exactly for the last one |
| Messages.InRoom | fractal-gtk/src/app.rs:1093-1097 | the batch's messages of one room: all of them, only them |
| Messages.LastInRoom | fractal-gtk/src/app.rs:1119-1121 | a message of the room from the batch, and none exactly when the batch has none for the room |
| Messages.LastInRoomIsLast | fractal-gtk/src/app.rs:1119-1121 | that message is the batch's last for the room |
| RoomMap.InsertAllEffect | fractal-gtk/src/app.rs:504-506 | inserting a list: the keys grow by the list's ids, each id holds its last room, other keys are kept |
| RoomMap.InsertAllKeys | fractal-gtk/src/app.rs:504-506 | the keys after inserting a list are the old keys plus the list's ids |
| RoomMap.InsertAllKept | fractal-gtk/src/app.rs:504-506 | a key the list does not mention keeps its room |
| RoomMap.InsertAllLast | fractal-gtk/src/app.rs:504-506 | an id holds the last room of the list with that id |
| RoomMap.AppendAllEffect | fractal-gtk/src/app.rs:1093-1097 | every known room's history gets the batch's messages for it appended; the keys are kept |
| RoomMap.AppendAllKeys | fractal-gtk/src/app.rs:1093-1097 | appending a batch keeps the keys |
| RoomMap.AppendAllAt | fractal-gtk/src/app.rs:1093-1097 | one room's history gains exactly its messages from the batch, at the end |
| RoomMap.PushMessageAt | fractal-gtk/src/app.rs:1094-1096 | one message is appended to its own room only |
| RoomMap.PrependAllEffect | fractal-gtk/src/app.rs:1141-1147 | every known room's history gets the batch's messages for it in front; the keys are kept |
| RoomMap.PrependAllKeys | fractal-gtk/src/app.rs:1141-1147 | prepending a batch keeps the keys |
| RoomMap.PrependAllAt | fractal-gtk/src/app.rs:1141-1147 | one room's history gains exactly its messages from the batch, in front, in batch order |
| RoomMap.PrependMessageAt | fractal-gtk/src/app.rs:1142-1146 | one message is inserted at the front of its own room only |
| Text.ContainsIffOccurs | fractal-gtk/src/app.rs:1101 | `contains` holds exactly when the text occurs at some position |
| Text.ContainsEmpty | fractal-gtk/src/app.rs:1101 | every string contains the empty string |
| Views.ContentPage | fractal-gtk/src/app.rs:155-160 | login, chat, directory and loading each show the content page of the same name, and only they do |
| Views.HeaderBarPage | fractal-gtk/src/app.rs:168-173 | the login bar shows exactly for login and loading, the back bar for the directory, the normal bar for chat |
| Views.ContentPageInjective | fractal-gtk/src/app.rs:155-160 | distinct states show distinct content pages |
| Views.RoomPanelPage | fractal-gtk/src/app.rs:453-478 | the loading, room and no-room panels show "loading", "room_view" and "noroom" respectively, and only they do |
| Views.DetailsShown | fractal-gtk/src/app.rs:453-478 | the room details show exactly when some room panel is up |
| Views.RoomPreset | fractal-gtk/src/app.rs:1209-1224 | the preset is public exactly when "public_chat" is selected, else private |
| Views.PasteSizeBounds | fractal-gtk/src/app.rs:1443-1450 | the preview is at most 600 wide; narrower images are unchanged; a scaled image keeps its aspect ratio up to truncation and gets no taller |
| Views.ShowMembers | fractal-gtk/src/app.rs:1548-1576 | the first `min(limit, n)` members are listed; "and N more" appears exactly when some are cut, and N counts them |
| Views.KeptValues | fractal-gtk/src/app.rs:1585-1597 | the loop lists the kept values through distinct keys, each key listed accepted by `keep`, every accepted key listed once |
| Views.CollectMembers | fractal-gtk/src/app.rs:1585-1597 | the members passing the search, each from the map, every selected key listed exactly once |
| Views.PreviousMessage | fractal-gtk/src/app.rs:747-755 | the given previous message, else the one just before the message's first occurrence in its room's history, else none |
| Views.CompactWidget | fractal-gtk/src/app.rs:775-778 | the compact form is used exactly when the previous message has the same sender |
| Properties.AddMessageFrame | fractal-gtk/src/app.rs:780-790 | drawing one message changes only counters, echoes and the shown count, and keeps the histories |
| Properties.CounterFrame | fractal-gtk/src/app.rs:852-857 | changing a counter keeps every history and every room under its own id |
| Properties.DrawStepFrame | fractal-gtk/src/app.rs:1099-1117 | one drawing step keeps the session, the histories, the active room, the queue and the panel |
| Properties.ShowFoldFrame | fractal-gtk/src/app.rs:1099-1117 | the whole drawing loop keeps them too |
| Properties.TopFoldFrame | fractal-gtk/src/app.rs:1149-1160 | drawing an older batch keeps the session, the histories and both channels |
| Properties.SyncCountAppend | fractal-gtk/src/app.rs:75 | the Sync requests of two batches of commands add up |
| Properties.SetActiveRoomRequests | fractal-gtk/src/app.rs:593-602 | showing a room sends MarkAsRead for its newest message and SetRoom, or, with an empty history, SetRoom and GetRoomMessages |
| Properties.SetActiveRoomFrame | fractal-gtk/src/app.rs:569-640 | showing a room changes no session field and no room, and sends no Sync |
| Properties.SetActiveRoomByIdFrame | fractal-gtk/src/app.rs:558-567 | the same holds when the room is looked up by id |
| Properties.InsertAllKeyed | fractal-gtk/src/app.rs:504-506 | rebuilding the map files every room under its own id |
| Properties.FinishShowFrame | fractal-gtk/src/app.rs:1119-1133 | marking read keeps the session, the active room and the rooms |
| Properties.ShowRoomMessagesFrame | fractal-gtk/src/app.rs:1092-1134 | `show_room_messages` appends each room's messages from the batch to its history and keeps the session |
| Properties.ShowRoomMessagesTopFrame | fractal-gtk/src/app.rs:1136-1161 | `show_room_messages_top` puts each room's messages from the batch in front and sends nothing |
| Properties.AvatarRequestsNoSync | fractal-gtk/src/app.rs:2111-2114 | the avatar requests hold no Sync |
| Properties.SetRoomsFrame | fractal-gtk/src/app.rs:492-535 | `set_rooms` adds no Sync, keeps `syncing`, and leaves a well-keyed map built from the list |
| Properties.AddNewRoomFrame | fractal-gtk/src/app.rs:1229-1236 | `new_room` keeps the session and adds the room only if its id is new |
| Properties.SyncStepPending | fractal-gtk/src/app.rs:480-485 | `sync` keeps the count of unanswered Sync requests |
| Properties.TokenPending | fractal-gtk/src/app.rs:2081-2091 | a login response keeps that count |
| Properties.RoomsPending | fractal-gtk/src/app.rs:2109-2117 | so does a room list |
| Properties.MessagesPending | fractal-gtk/src/app.rs:2124-2132 | so do message batches |
| Properties.RequestsPending | fractal-gtk/src/app.rs:2133-2146 | so do SendMsg, which calls the gated `sync`, and JoinRoom, whose SyncForced is not a Sync |
| Properties.NewRoomPending | fractal-gtk/src/app.rs:2179-2181 | so does a new room |
| Properties.RoomAvatarPending | fractal-gtk/src/app.rs:2161-2163 | so does a new room avatar |
| Properties.DetailEditPending | fractal-gtk/src/app.rs:2118-2153 | so do detail, avatar and read-marker updates |
| Properties.RenamePending | fractal-gtk/src/app.rs:2155-2160 | so do renames and topic changes |
| Properties.MemberEventPending | fractal-gtk/src/app.rs:2164-2166 | so do member events |
| Properties.RoomEditPending | fractal-gtk/src/app.rs:2118-2166 | so does any room edit |
| Properties.QuietPending | fractal-gtk/src/app.rs:2092-2203 | so do the other responses, except that an acknowledgement lowers it by the sync it ends |
| Properties.RespondPending | fractal-gtk/src/app.rs:2077-2208 | every backend-loop tick keeps the count, except an acknowledgement, and keeps every room under its own id |
| Properties.DispatchPending | fractal-gtk/src/app.rs:2220-2241 | every internal command keeps the count |
| Properties.InternalTickPending | fractal-gtk/src/app.rs:2220-2241 | so does every appop-loop tick |
| Properties.LoginPending | fractal-gtk/src/app.rs:189-208 | a login keeps it |
| Properties.SendMessagePending | fractal-gtk/src/app.rs:878-900 | sending a message keeps it |
| Properties.LoadMorePending | fractal-gtk/src/app.rs:938-957 | loading more messages keeps it |
| Properties.LeavePending | fractal-gtk/src/app.rs:1171-1180 | leaving a room keeps it |
| Properties.CreateRoomPending | fractal-gtk/src/app.rs:1200-1227 | creating a room keeps it |
| Properties.StepPending | fractal-gtk/src/app.rs:2077-2241 | any step keeps it, except an acknowledgement; picking a room or clicking a notification only queues an internal command |
| Properties.RunPending | fractal-gtk/src/app.rs:480-490 | over any run the unanswered Sync requests grow by at most the acknowledgements, and the rooms stay well keyed |
| Properties.SyncRequestsBounded | fractal-gtk/src/app.rs:480-490 | from the start, at most one Sync is sent per acknowledgement received, plus one |
| Promises.SyncGate | fractal-gtk/src/app.rs:480-485 | `sync` sends one Sync and sets `syncing` exactly when logged in and not syncing; otherwise nothing changes |
| Promises.SyncIdempotent | fractal-gtk/src/app.rs:480-485 | a second `sync` in a row does nothing |
| Promises.SyncResponse | fractal-gtk/src/app.rs:2105-2108 | `Sync(since)` ends the sync and stores `since`; nothing else changes |
| Promises.SyncErrorResponse | fractal-gtk/src/app.rs:2196-2199 | `SyncError` ends the sync and keeps `since`; nothing else changes |
| Promises.SyncResumes | fractal-gtk/src/app.rs:480-490 | after an acknowledgement, the next tick of a logged-in session sends exactly one Sync |
| Promises.ReloadAlwaysForces | fractal-gtk/src/app.rs:544-547 | `reload_rooms` always sends SyncForced, leaves `syncing` alone and shows loading; a JoinRoom response does exactly that |
| Promises.ConnectServer | fractal-gtk/src/app.rs:260-277 | the server is the given one, else matrix.org, whatever else happens |
| Promises.ConnectMissingCredentials | fractal-gtk/src/app.rs:260-277 | a missing user or password gives `None` and sends nothing |
| Promises.ConnectSendsLogin | fractal-gtk/src/app.rs:260-277 | with both, exactly one Login with the chosen server is sent |
| Promises.LoginResets | fractal-gtk/src/app.rs:189-208 | `login` shows loading and forgets `since`, keeping the session flags and the rooms |
| Promises.EchoRemovedFirst | fractal-gtk/src/app.rs:828-850 | exactly the first matching echo is removed; the rest keep their order |
| Promises.EchoAbsent | fractal-gtk/src/app.rs:828-850 | the echo list is unchanged exactly when no echo matches |
| Promises.EchoAtMostOne | fractal-gtk/src/app.rs:828-850 | at most one entry goes, and nothing new appears |
| Promises.EchoRoundTrip | fractal-gtk/src/app.rs:780-790 | sending, then drawing the server's copy, restores the echo list |
| Promises.SendRecordsEcho | fractal-gtk/src/app.rs:878-900 | a sent message belongs to the active room and carries the text; it is recorded and sent; empty text is ignored |
| Promises.CounterOnlyKnown | fractal-gtk/src/app.rs:852-857 | only a known room's counter changes, by `f`; every other room is untouched |
| Promises.OtherRoomCounts | fractal-gtk/src/app.rs:780-790 | a message for another room bumps its counter by exactly one |
| Promises.ActiveRoomShows | fractal-gtk/src/app.rs:780-790 | a message of the active room raises the shown count, clears its echo, and moves no counter |
| Promises.MarkedAsReadResets | fractal-gtk/src/app.rs:2151-2153 | MarkedAsRead sets the room's counter to zero and sends nothing |
| Promises.MemberEventElsewhere | fractal-gtk/src/app.rs:1334-1384 | an event for another room than the active one changes nothing |
| Promises.MemberLeaves | fractal-gtk/src/app.rs:1334-1384 | "leave" removes exactly the sender from the active room's members; the room's other fields, the other rooms and the rest of the state are kept |
| Promises.MemberJoins | fractal-gtk/src/app.rs:1334-1384 | "join" files the sender, alias and avatar defaulting to "", in the active room; the room's other fields, the other rooms and the rest of the state are kept |
| Promises.MemberOtherIgnored | fractal-gtk/src/app.rs:1334-1384 | any other membership is ignored |
| Promises.InRoomAppend | fractal-gtk/src/app.rs:1093-1097 | picking out a room's messages distributes over concatenation |
| Promises.InRoomAll | fractal-gtk/src/app.rs:1093-1097 | a batch for a single room is kept whole and in order |
| Promises.TopEmptyBatch | fractal-gtk/src/app.rs:1136-1161 | an empty older batch changes nothing |
| Promises.TopBatchOrder | fractal-gtk/src/app.rs:1136-1161 | an older batch for the active room goes in front of its history, in batch order, and each of its messages is counted as shown |
| Promises.TopFoldShown | fractal-gtk/src/app.rs:1149-1158 | drawing a batch of the active room counts every message of it as shown |
| Promises.AppendBatchOrder | fractal-gtk/src/app.rs:1092-1134 | a newer batch for the active room goes after its history, in batch order |
| Promises.PagesJoin | fractal-gtk/src/app.rs:938-957 | consecutive pages join into one longer page, with no gap and no repeat |
| Promises.PageStartsNewest | fractal-gtk/src/app.rs:581-583 | the first page starts with the newest message |
| Promises.LoadMoreCases | fractal-gtk/src/app.rs:938-957 | the next page while messages remain, else a context request for the oldest; the shown count is untouched |
| Promises.OpenRoomQueues | fractal-gtk/src/app.rs:569-591 | opening a room resets the view and queues its newest page, then the room panel |
| Promises.SetRoomsKeepsActive | fractal-gtk/src/app.rs:492-535 | an active room still listed stays active |
| Promises.SetRoomsNoRoom | fractal-gtk/src/app.rs:492-535 | with neither the old room nor a default, no room is shown and nothing is sent |
| Promises.NewRoomShown | fractal-gtk/src/app.rs:1229-1236 | `new_room` keeps a known id's entry, else adds the room, and makes it active |
| Promises.LeaveDropsRoom | fractal-gtk/src/app.rs:1171-1180 | leaving drops exactly the active room and asks the server to leave it |
| Promises.EscapeOnlyFromChat | fractal-gtk/src/app.rs:181-187 | escape does nothing outside chat; in chat it leaves the room |
| Promises.DetailKeys | fractal-gtk/src/app.rs:642-655 | only the "m.room.name" and "m.room.topic" keys of a known room change anything, and only that field of that room |
| Promises.NameChangeOnly | fractal-gtk/src/app.rs:1271-1289 | a known room gets the new name, every other field and room is kept; an unknown room changes nothing |
| Promises.TopicChangeOnly | fractal-gtk/src/app.rs:1291-1304 | a known room gets the new topic, every other field and room is kept; an unknown room changes nothing |
| Promises.AvatarChangeOnly | fractal-gtk/src/app.rs:657-666 | a known room gets the new avatar, every other field and room is kept; an unknown room changes nothing |
| Promises.MoreMembersStep | fractal-gtk/src/app.rs:1919-1932 | the button raises the member limit by exactly 50 and changes nothing else |
| Promises.SelectRoomOpens | fractal-gtk/src/app.rs:513-516 | picking a room in the list opens it on the next appop tick |
| Promises.NotifyClickOpens | fractal-gtk/src/app.rs:1075-1083 | clicking a notification opens the message's room on the next appop tick |
| Promises.IgnoredResponses | fractal-gtk/src/app.rs:2102-2203 | the responses the controller ignores leave its state untouched |

## Left out

- The GTK widgets are not modelled: every drawing call, the room list widget, message rows, dialogs, scrolling and the widget-only functions (`set_avatar`, `show_error`, `search_end`, the spinners and labels). Only the state these functions read or write is kept. `show_error` has no state effect.
- The secret service (`store_pass`, `get_pass`) is not modelled: it is platform I/O. `connect` receives the user name and password as arguments.
- The desktop notification thread in `notify` is not modelled: it is a foreign call. Only the GetUserInfoAsync request it sends is kept.
- `xdg-open` for the Media response is not modelled: it spawns an external process.
- Caching of rooms (`cache_rooms`, cache loading) is not modelled: it is disk I/O.
- Timers, the `Mutex` around `AppOp` and the real channels are not modelled: they are concurrency. A tick applies one message, and the channels are sequences.
- `Local::now` is not computed: the time is the parameter `now`.
- Pixbuf loading and scaling are not modelled: they are foreign calls. Only the size arithmetic of the paste preview is modelled.
- The backend thread and the user-info cache are not modelled: they are outside the controller. Their replies arrive as BKResponse values.
- `to_lowercase` is not computed: it is the parameter `lower`, since Unicode case mapping is not available.
- `globals::INITIAL_MESSAGES` has no fixed value: it is the positive constant `page`.
- `register`, `connect_guest`, `logout`, `disconnect`, `search`, `attach_file` and `change_room_config` are not modelled. They forward widget input to the backend (`connect_guest` also sets the server first) and are outside the modelled core.
- `init` is not modelled, together with the cache it reads: it restores the rooms, `since`, the user name and the uid from disk, then connects with the stored password.
- The room-directory functions, `set_protocols` and `set_directory_room` are not modelled: they only fill widgets.
- Controller.AddTmp: `add_tmp_room_message` records the echo only when the message list has a last child. That list always holds the load-more button, which is widget state outside the model, so the echo is always recorded here.
- The reply channels that GetThumbAsync, GetAvatarAsync and GetUserInfoAsync carry are not modelled: the modelled code never reads from them.
- `add_room_member`'s 200-member cap is not modelled: it limits widgets only.
- Views.KeptValues: the order of the members in `show_all_members` is left unspecified, as the order of Rust's hash-map iteration is; which keys are listed, and that each is listed once, is stated.
- Controller.UpdateRoomNotifications: the counter is an unbounded integer, so the model does not capture the `i32` wrap-around. An unread counter does not reach 2^31 in practice.
- App.AppOp.UpdateRoomNotifications: the same; no `i32` wrap-around.
- Views.PasteSizeBounds: requires a non-negative height, because a pixbuf's height is never negative.
- Views.PasteSize: `h*600/w` is computed here in unbounded integers. The source computes it in `i32`, which overflows once the height exceeds 3,579,139 pixels: a panic in a debug build, a wrapped height in a release build. The model does not capture that overflow.
