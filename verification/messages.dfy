/**
 * Pure computations over message sequences: matching a local echo,
 * locating a message by id, paging back through a room's history and
 * picking out the messages of one room.
 */
module Messages {
  import opened Wrappers
  import opened Types

  function Min(a: nat, b: nat): nat
  {
    if a <= b then a else b
  }

  // ---------------------------------------------------------------------
  // Local echo matching (remove_tmp_room_message)

  /** A pending echo `t` stands for `msg`: same sender, type, room and body. */
  predicate SameEcho(t: Message, msg: Message)
  {
    t.sender == msg.sender && t.mtype == msg.mtype && t.room == msg.room && t.body == msg.body
  }

  /** Index of the first pending echo that stands for `msg`, if any. */
  function FirstEchoIndex(tmp: seq<Message>, msg: Message): (r: Option<nat>)
    ensures r.Some? ==> r.value < |tmp| && SameEcho(tmp[r.value], msg)
    ensures r.Some? ==> forall j :: 0 <= j < r.value ==> !SameEcho(tmp[j], msg)
    ensures r.None? ==> forall j :: 0 <= j < |tmp| ==> !SameEcho(tmp[j], msg)
  {
    if tmp == [] then None
    else if SameEcho(tmp[0], msg) then Some(0)
    else match FirstEchoIndex(tmp[1..], msg)
      case None => None
      case Some(i) => Some(i + 1)
  }

  /** `Vec::remove(i)`: the sequence without its `i`-th element. */
  function RemoveAt<T>(s: seq<T>, i: nat): (r: seq<T>)
    requires i < |s|
    ensures |r| == |s| - 1
    ensures forall j :: 0 <= j < i ==> r[j] == s[j]
    ensures forall j :: i <= j < |r| ==> r[j] == s[j + 1]
  {
    s[..i] + s[i + 1..]
  }

  /** The pending echoes once the first one standing for `msg` is dropped. */
  function WithoutEcho(tmp: seq<Message>, msg: Message): seq<Message>
  {
    match FirstEchoIndex(tmp, msg)
    case None => tmp
    case Some(i) => RemoveAt(tmp, i)
  }

  // ---------------------------------------------------------------------
  // Locating a message by id (add_room_message)

  /** `iter().position(|m| m.id == id)`; ids are options, so `None` matches `None`. */
  function PositionById(ms: seq<Message>, id: Option<string>): (r: Option<nat>)
    ensures r.Some? ==> r.value < |ms| && ms[r.value].id == id
    ensures r.Some? ==> forall j :: 0 <= j < r.value ==> ms[j].id != id
    ensures r.None? ==> forall j :: 0 <= j < |ms| ==> ms[j].id != id
  {
    if ms == [] then None
    else if ms[0].id == id then Some(0)
    else match PositionById(ms[1..], id)
      case None => None
      case Some(i) => Some(i + 1)
  }

  // ---------------------------------------------------------------------
  // Paging back through a room's history

  function Reverse<T>(s: seq<T>): (r: seq<T>)
    ensures |r| == |s|
    ensures forall i :: 0 <= i < |s| ==> r[i] == s[|s| - 1 - i]
  {
    if s == [] then [] else Reverse(s[1..]) + [s[0]]
  }

  /**
   * `messages.iter().rev().skip(skip).take(n)`: the `n` messages that come
   * before the newest `skip` ones, newest first.
   */
  function LatestPage(ms: seq<Message>, skip: nat, n: nat): (page: seq<Message>)
    ensures |page| == if skip <= |ms| then Min(n, |ms| - skip) else 0
    ensures forall i :: 0 <= i < |page| ==> page[i] == ms[|ms| - 1 - skip - i]
  {
    var rest := Reverse(ms)[Min(skip, |ms|)..];
    rest[..Min(n, |rest|)]
  }

  /**
   * The internal commands that display a page at the top of the view: one
   * AddRoomMessage per message, the last (oldest) one drawn in full.
   */
  function PageCommands(page: seq<Message>): (cmds: seq<InternalCommand>)
    ensures |cmds| == |page|
    decreases |page|
  {
    if page == [] then []
    else [InternalCommand.AddRoomMessage(page[0], MsgPos.Top, None, |page| == 1)] + PageCommands(page[1..])
  }

  /** The page's commands draw each message at the top, the oldest (last) one in full. */
  lemma {:induction false} PageCommandsShape(page: seq<Message>)
    ensures forall i :: 0 <= i < |page| ==>
              PageCommands(page)[i] == InternalCommand.AddRoomMessage(page[i], MsgPos.Top, None, i == |page| - 1)
    decreases |page|
  {
    if page != [] {
      PageCommandsShape(page[1..]);
      forall i | 0 <= i < |page|
        ensures PageCommands(page)[i] == InternalCommand.AddRoomMessage(page[i], MsgPos.Top, None, i == |page| - 1)
      {
        if i > 0 {
          assert PageCommands(page)[i] == PageCommands(page[1..])[i - 1];
          assert page[1..][i - 1] == page[i];
        }
      }
    }
  }

  // ---------------------------------------------------------------------
  // Messages of one room

  /** The messages of `ms` addressed to room `id`, in their order. */
  function InRoom(ms: seq<Message>, id: string): (r: seq<Message>)
    ensures |r| <= |ms|
    ensures forall i :: 0 <= i < |r| ==> r[i].room == id
    ensures forall m :: m in ms && m.room == id ==> m in r
    ensures forall m :: m in r ==> m in ms
  {
    if ms == [] then []
    else (if ms[0].room == id then [ms[0]] else []) + InRoom(ms[1..], id)
  }

  /** `iter().filter(|x| x.room == id).last()`: the newest message of room `id`. */
  function LastInRoom(ms: seq<Message>, id: string): (r: Option<Message>)
    ensures r.Some? ==> r.value in ms && r.value.room == id
    ensures r.None? <==> forall i :: 0 <= i < |ms| ==> ms[i].room != id
  {
    if ms == [] then None
    else if ms[|ms| - 1].room == id then Some(ms[|ms| - 1])
    else LastInRoom(ms[..|ms| - 1], id)
  }

  /** No message of room `id` comes after the one `LastInRoom` picks. */
  lemma {:induction false} LastInRoomIsLast(ms: seq<Message>, id: string)
    requires LastInRoom(ms, id).Some?
    ensures exists i :: 0 <= i < |ms| && ms[i] == LastInRoom(ms, id).value &&
                        forall j :: i < j < |ms| ==> ms[j].room != id
    decreases |ms|
  {
    var n := |ms| - 1;
    if ms[n].room == id {
      assert ms[n] == LastInRoom(ms, id).value;
    } else {
      var front := ms[..n];
      LastInRoomIsLast(front, id);
      var i :| 0 <= i < |front| && front[i] == LastInRoom(front, id).value &&
               forall j :: i < j < |front| ==> front[j].room != id;
      assert ms[i] == LastInRoom(ms, id).value;
      forall j | i < j < |ms| ensures ms[j].room != id {
        if j < n {
          assert ms[j] == front[j];
        }
      }
    }
  }
}
