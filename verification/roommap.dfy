/**
 * The controller's room map (`RoomList`, a HashMap from room id to Room)
 * and the in-place edits the controller makes to it, as functions from the
 * old map to the new one.
 */
module RoomMap {
  import opened Wrappers
  import opened Types
  import opened Messages

  type Rooms = map<string, Room>

  /** `a` and `b` hold the same rooms, except possibly for their unread counters. */
  predicate SameHistory(a: Rooms, b: Rooms)
  {
    a.Keys == b.Keys && forall k :: k in a ==> b[k] == a[k].(notifications := b[k].notifications)
  }

  // ---------------------------------------------------------------------
  // Building the map (set_rooms)

  /** Inserts the rooms one by one, keyed by id; a later room replaces an earlier one. */
  function InsertAll(m: Rooms, rs: seq<Room>): Rooms
    decreases |rs|
  {
    if rs == [] then m else InsertAll(m[rs[0].id := rs[0]], rs[1..])
  }

  function RoomsFromList(rs: seq<Room>): Rooms
  {
    InsertAll(map[], rs)
  }

  function Ids(rs: seq<Room>): set<string>
  {
    set r | r in rs :: r.id
  }

  /**
   * The map built from a list holds the old keys plus every listed id; an
   * id maps to the last listed room carrying it, and unlisted keys keep
   * their old room.
   */
  lemma InsertAllEffect(m: Rooms, rs: seq<Room>)
    ensures InsertAll(m, rs).Keys == m.Keys + Ids(rs)
    ensures forall i :: 0 <= i < |rs| && (forall j :: i < j < |rs| ==> rs[j].id != rs[i].id) ==>
              InsertAll(m, rs)[rs[i].id] == rs[i]
    ensures forall k :: k in m && k !in Ids(rs) ==> InsertAll(m, rs)[k] == m[k]
  {
    InsertAllKeys(m, rs);
    forall i | 0 <= i < |rs| && (forall j :: i < j < |rs| ==> rs[j].id != rs[i].id)
      ensures InsertAll(m, rs)[rs[i].id] == rs[i]
    {
      InsertAllLast(m, rs, i);
    }
    forall k | k in m && k !in Ids(rs)
      ensures InsertAll(m, rs)[k] == m[k]
    {
      InsertAllKept(m, rs, k);
    }
  }

  /** The ids of a non-empty list: the first one and those of the rest. */
  lemma IdsCons(rs: seq<Room>)
    requires rs != []
    ensures Ids(rs) == {rs[0].id} + Ids(rs[1..])
  {
    forall x | x in Ids(rs) ensures x in {rs[0].id} + Ids(rs[1..]) {
      var r :| r in rs && r.id == x;
      if r != rs[0] {
        var i :| 0 <= i < |rs| && rs[i] == r;
        assert rs[1..][i - 1] == r;
      }
    }
  }

  /** The map built from a list holds the old keys plus every listed id. */
  lemma {:induction false} InsertAllKeys(m: Rooms, rs: seq<Room>)
    ensures InsertAll(m, rs).Keys == m.Keys + Ids(rs)
    decreases |rs|
  {
    if rs != [] {
      InsertAllKeys(m[rs[0].id := rs[0]], rs[1..]);
      IdsCons(rs);
    }
  }

  /** A key no listed room carries keeps its old room. */
  lemma {:induction false} InsertAllKept(m: Rooms, rs: seq<Room>, k: string)
    requires k in m && k !in Ids(rs)
    ensures k in InsertAll(m, rs) && InsertAll(m, rs)[k] == m[k]
    decreases |rs|
  {
    if rs != [] {
      IdsCons(rs);
      InsertAllKept(m[rs[0].id := rs[0]], rs[1..], k);
    }
  }

  /** A listed room that no later room replaces is the one filed under its id. */
  lemma {:induction false} InsertAllLast(m: Rooms, rs: seq<Room>, i: nat)
    requires i < |rs| && forall j :: i < j < |rs| ==> rs[j].id != rs[i].id
    ensures rs[i].id in InsertAll(m, rs) && InsertAll(m, rs)[rs[i].id] == rs[i]
    decreases |rs|
  {
    var m' := m[rs[0].id := rs[0]];
    if i == 0 {
      assert rs[0].id !in Ids(rs[1..]) by {
        forall r | r in rs[1..] ensures r.id != rs[0].id {
          var j :| 0 <= j < |rs[1..]| && rs[1..][j] == r;
          assert rs[j + 1] == r;
        }
      }
      InsertAllKept(m', rs[1..], rs[0].id);
    } else {
      assert rs[1..][i - 1] == rs[i];
      forall j | i - 1 < j < |rs[1..]| ensures rs[1..][j].id != rs[1..][i - 1].id {
        assert rs[1..][j] == rs[j + 1];
      }
      InsertAllLast(m', rs[1..], i - 1);
    }
  }

  // ---------------------------------------------------------------------
  // Appending and prepending history

  /** `rooms.get_mut(&msg.room)` then `messages.push(msg)`. */
  function PushMessage(rooms: Rooms, msg: Message): Rooms
  {
    if msg.room in rooms
    then rooms[msg.room := rooms[msg.room].(messages := rooms[msg.room].messages + [msg])]
    else rooms
  }

  /** Pushes each message of the batch, in order, onto its room's history. */
  function AppendAll(rooms: Rooms, ms: seq<Message>): Rooms
    decreases |ms|
  {
    if ms == [] then rooms else AppendAll(PushMessage(rooms, ms[0]), ms[1..])
  }

  /** `rooms.get_mut(&msg.room)` then `messages.insert(0, msg)`. */
  function PrependMessage(rooms: Rooms, msg: Message): Rooms
  {
    if msg.room in rooms
    then rooms[msg.room := rooms[msg.room].(messages := [msg] + rooms[msg.room].messages)]
    else rooms
  }

  /** Inserts each message at the front of its room's history, the batch taken from its end. */
  function PrependAll(rooms: Rooms, ms: seq<Message>): Rooms
  {
    if ms == [] then rooms else PrependMessage(PrependAll(rooms, ms[1..]), ms[0])
  }

  /**
   * Appending a batch adds, to each known room, that room's messages of the
   * batch after its old history; nothing else in the map changes and
   * messages for unknown rooms are dropped.
   */
  lemma {:induction false} AppendAllEffect(rooms: Rooms, ms: seq<Message>)
    ensures AppendAll(rooms, ms).Keys == rooms.Keys
    ensures forall k :: k in rooms ==>
              AppendAll(rooms, ms)[k] == rooms[k].(messages := rooms[k].messages + InRoom(ms, k))
  {
    AppendAllKeys(rooms, ms);
    forall k | k in rooms
      ensures AppendAll(rooms, ms)[k] == rooms[k].(messages := rooms[k].messages + InRoom(ms, k))
    {
      AppendAllAt(rooms, ms, k);
    }
  }

  lemma {:induction false} AppendAllKeys(rooms: Rooms, ms: seq<Message>)
    ensures AppendAll(rooms, ms).Keys == rooms.Keys
    decreases |ms|
  {
    if ms != [] {
      AppendAllKeys(PushMessage(rooms, ms[0]), ms[1..]);
    }
  }

  lemma {:induction false} AppendAllAt(rooms: Rooms, ms: seq<Message>, k: string)
    requires k in rooms
    ensures k in AppendAll(rooms, ms)
    ensures AppendAll(rooms, ms)[k] == rooms[k].(messages := rooms[k].messages + InRoom(ms, k))
    decreases |ms|
  {
    if ms == [] {
      assert rooms[k].messages + [] == rooms[k].messages;
    } else {
      var p := PushMessage(rooms, ms[0]);
      var rest := InRoom(ms[1..], k);
      var mid := rooms[k].messages + (if ms[0].room == k then [ms[0]] else []);
      PushMessageAt(rooms, ms[0], k);
      AppendAllAt(p, ms[1..], k);
      assert AppendAll(rooms, ms) == AppendAll(p, ms[1..]);
      assert p[k] == rooms[k].(messages := mid);
      assert AppendAll(p, ms[1..])[k] == p[k].(messages := p[k].messages + rest);
      RoomMessagesTwice(rooms[k], mid, mid + rest);
      assert InRoom(ms, k) == (if ms[0].room == k then [ms[0]] else []) + rest;
      ConcatAssoc(rooms[k].messages, if ms[0].room == k then [ms[0]] else [], rest);
    }
  }

  /** Concatenation of histories is associative. */
  lemma ConcatAssoc(a: seq<Message>, b: seq<Message>, c: seq<Message>)
    ensures (a + b) + c == a + (b + c)
  {
  }

  /** Replacing a room's history twice is one replacement. */
  lemma RoomMessagesTwice(r: Room, a: seq<Message>, b: seq<Message>)
    ensures r.(messages := a).(messages := b) == r.(messages := b)
  {
  }

  /** Pushing one message extends room `k`'s history exactly when the message is for `k`. */
  lemma PushMessageAt(rooms: Rooms, msg: Message, k: string)
    requires k in rooms
    ensures k in PushMessage(rooms, msg)
    ensures PushMessage(rooms, msg)[k] ==
              rooms[k].(messages := rooms[k].messages + (if msg.room == k then [msg] else []))
  {
    if msg.room != k {
      assert rooms[k].messages + [] == rooms[k].messages;
    }
  }

  /**
   * Prepending a batch puts, in front of each known room's history, that
   * room's messages of the batch in their original relative order.
   */
  lemma PrependAllEffect(rooms: Rooms, ms: seq<Message>)
    ensures PrependAll(rooms, ms).Keys == rooms.Keys
    ensures forall k :: k in rooms ==>
              PrependAll(rooms, ms)[k] == rooms[k].(messages := InRoom(ms, k) + rooms[k].messages)
  {
    PrependAllKeys(rooms, ms);
    forall k | k in rooms
      ensures PrependAll(rooms, ms)[k] == rooms[k].(messages := InRoom(ms, k) + rooms[k].messages)
    {
      PrependAllAt(rooms, ms, k);
    }
  }

  /** Prepending never adds or drops a room. */
  lemma {:induction false} PrependAllKeys(rooms: Rooms, ms: seq<Message>)
    ensures PrependAll(rooms, ms).Keys == rooms.Keys
    decreases |ms|
  {
    if ms != [] {
      PrependAllKeys(rooms, ms[1..]);
    }
  }

  /** Room `k`'s history after prepending: its messages of the batch, then the old history. */
  lemma {:induction false} PrependAllAt(rooms: Rooms, ms: seq<Message>, k: string)
    requires k in rooms
    ensures k in PrependAll(rooms, ms)
    ensures PrependAll(rooms, ms)[k] == rooms[k].(messages := InRoom(ms, k) + rooms[k].messages)
    decreases |ms|
  {
    if ms == [] {
      assert [] + rooms[k].messages == rooms[k].messages;
    } else {
      var p := PrependAll(rooms, ms[1..]);
      var rest := InRoom(ms[1..], k);
      var head := if ms[0].room == k then [ms[0]] else [];
      PrependAllAt(rooms, ms[1..], k);
      PrependMessageAt(p, ms[0], k);
      assert p[k] == rooms[k].(messages := rest + rooms[k].messages);
      RoomMessagesTwice(rooms[k], rest + rooms[k].messages, head + (rest + rooms[k].messages));
      assert InRoom(ms, k) == head + rest;
      ConcatAssoc(head, rest, rooms[k].messages);
    }
  }

  /** Prepending one message puts it in front of room `k`'s history exactly when it is for `k`. */
  lemma PrependMessageAt(rooms: Rooms, msg: Message, k: string)
    requires k in rooms
    ensures k in PrependMessage(rooms, msg)
    ensures PrependMessage(rooms, msg)[k] ==
              rooms[k].(messages := (if msg.room == k then [msg] else []) + rooms[k].messages)
  {
    if msg.room != k {
      assert [] + rooms[k].messages == rooms[k].messages;
    }
  }

  // ---------------------------------------------------------------------
  // Edits of one room's fields

  /** `update_room_notifications`: applies `f` to a known room's unread counter. */
  function UpdateNotifications(rooms: Rooms, id: string, f: int -> int): Rooms
  {
    if id in rooms then rooms[id := rooms[id].(notifications := f(rooms[id].notifications))] else rooms
  }

  /** `set_room_detail`: the keys "m.room.name" and "m.room.topic" set name and topic. */
  function SetDetail(rooms: Rooms, id: string, key: string, value: Option<string>): Rooms
  {
    if id !in rooms then rooms
    else if key == "m.room.name" then rooms[id := rooms[id].(name := value)]
    else if key == "m.room.topic" then rooms[id := rooms[id].(topic := value)]
    else rooms
  }

  function SetAvatar(rooms: Rooms, id: string, avatar: Option<string>): Rooms
  {
    if id in rooms then rooms[id := rooms[id].(avatar := avatar)] else rooms
  }

  function Rename(rooms: Rooms, id: string, name: Option<string>): Rooms
  {
    if id in rooms then rooms[id := rooms[id].(name := name)] else rooms
  }

  function Retopic(rooms: Rooms, id: string, topic: Option<string>): Rooms
  {
    if id in rooms then rooms[id := rooms[id].(topic := topic)] else rooms
  }

  /** Removes `uid` from the members of room `id`, if the room is known. */
  function RemoveMember(rooms: Rooms, id: string, uid: string): Rooms
  {
    if id in rooms then rooms[id := rooms[id].(members := rooms[id].members - {uid})] else rooms
  }

  /** Adds (or replaces) member `m` of room `id`, if the room is known. */
  function InsertMember(rooms: Rooms, id: string, m: Member): Rooms
  {
    if id in rooms then rooms[id := rooms[id].(members := rooms[id].members[m.uid := m])] else rooms
  }
}
