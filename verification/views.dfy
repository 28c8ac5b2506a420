/**
 * The pure decisions the controller makes before touching widgets: which
 * stack pages to show, which preset a new room gets, how a pasted image is
 * scaled, which members the member list shows and whether a message is drawn
 * in the compact form that continues the previous sender's message.
 */
module Views {
  import opened Wrappers
  import opened Types
  import opened Text
  import opened Messages
  import opened RoomMap

  // ---------------------------------------------------------------------
  // Stack pages (set_state, room_panel)

  /** The page of "main_content_stack" shown for each application state. */
  function ContentPage(st: AppState): (name: string)
    ensures name == "login" <==> st == AppState.Login
    ensures name == "chat" <==> st == AppState.Chat
    ensures name == "directory" <==> st == AppState.Directory
    ensures name == "loading" <==> st == AppState.Loading
  {
    match st
    case Login => "login"
    case Chat => "chat"
    case Directory => "directory"
    case Loading => "loading"
  }

  /** The page of "headerbar_stack": the login bar also covers loading, the back bar the directory. */
  function HeaderBarPage(st: AppState): (name: string)
    ensures name == "login" <==> st == AppState.Login || st == AppState.Loading
    ensures name == "back" <==> st == AppState.Directory
    ensures name == "normal" <==> st == AppState.Chat
  {
    match st
    case Login => "login"
    case Directory => "back"
    case Loading => "login"
    case _ => "normal"
  }

  /** Distinct states show distinct content pages. */
  lemma ContentPageInjective(a: AppState, b: AppState)
    ensures ContentPage(a) == ContentPage(b) ==> a == b
  {
  }

  /** The page of "room_view_stack" for each room panel. */
  function RoomPanelPage(p: RoomPanel): (name: string)
    ensures name == "loading" <==> p == RoomPanel.Loading
    ensures name == "room_view" <==> p == RoomPanel.Room
    ensures name == "noroom" <==> p == RoomPanel.NoRoom
  {
    match p
    case Loading => "loading"
    case Room => "room_view"
    case NoRoom => "noroom"
  }

  /** The room details box is hidden exactly on the "noroom" page. */
  function DetailsShown(p: RoomPanel): (shown: bool)
    ensures shown <==> p != RoomPanel.NoRoom
  {
    RoomPanelPage(p) != "noroom"
  }

  // ---------------------------------------------------------------------
  // New room preset (create_new_room)

  /**
   * The preset for the value in column 1 of the preset combo's active row;
   * `None` when there is no active row or no model.
   */
  function RoomPreset(selection: Option<string>): (t: RoomType)
    ensures t == RoomType.Public <==> selection == Some("public_chat")
  {
    match selection
    case None => RoomType.Private
    case Some(v) =>
      if v == "private_chat" then RoomType.Private
      else if v == "public_chat" then RoomType.Public
      else RoomType.Private
  }

  // ---------------------------------------------------------------------
  // Pasted image scaling (draw_image_paste_dialog)

  const MaxPasteWidth: int := 600

  /** Rust's `/` on integers: the quotient truncated toward zero. */
  function TruncDiv(a: int, b: int): int
    requires b > 0
  {
    if a >= 0 then a / b else -((-a) / b)
  }

  /** Width and height of the preview: images wider than 600 pixels are scaled down to 600. */
  function PasteSize(w: int, h: int): (int, int)
  {
    if w > MaxPasteWidth then (MaxPasteWidth, TruncDiv(h * MaxPasteWidth, w)) else (w, h)
  }

  /**
   * The preview is never wider than 600 pixels; a scaled image keeps its
   * aspect ratio up to integer truncation and gets no taller.
   */
  lemma PasteSizeBounds(w: int, h: int)
    requires h >= 0
    ensures PasteSize(w, h).0 <= MaxPasteWidth
    ensures w <= MaxPasteWidth ==> PasteSize(w, h) == (w, h)
    ensures w > MaxPasteWidth ==>
              var nh := PasteSize(w, h).1;
              0 <= nh <= h && nh * w <= h * MaxPasteWidth < (nh + 1) * w
  {
    if w > MaxPasteWidth {
      var a := h * MaxPasteWidth;
      var nh := a / w;
      assert a >= 0;
      assert nh * w + a % w == a;
      assert 0 <= a % w < w;
      assert nh * w <= a < (nh + 1) * w;
      assert (h - nh) * w == h * w - nh * w;
      assert h * w >= a;
      assert (h - nh) * w >= 0;
      assert nh * w >= 0;
    }
  }

  // ---------------------------------------------------------------------
  // The member list (show_all_members, show_members)

  const InitialMemberLimit: nat := 50
  const MemberLimitStep: nat := 50

  /**
   * A member passes the search: every member when there is no search text,
   * otherwise one whose alias, lower-cased, contains the lower-cased text.
   * `lower` stands for Unicode `to_lowercase`.
   */
  predicate Selected(m: Member, text: Option<string>, lower: string -> string)
  {
    match text
    case None => true
    case Some(t) => m.alias.Some? && Contains(lower(m.alias.value), lower(t))
  }

  function SelectedKeys(members: map<string, Member>, text: Option<string>, lower: string -> string): set<string>
  {
    set k | k in members && Selected(members[k], text, lower)
  }

  /** What the member list shows: the first members, and the "and N more" count if some are cut. */
  datatype MemberListView = MemberListView(shown: seq<Member>, more: Option<nat>)

  /** `show_members`: at most `limit` members are listed; the rest are counted on the button. */
  function ShowMembers(members: seq<Member>, limit: nat): (v: MemberListView)
    ensures |v.shown| == Min(limit, |members|) && v.shown == members[..|v.shown|]
    ensures v.more.Some? <==> |members| > limit
    ensures |v.shown| + v.more.GetOr(0) == |members|
  {
    MemberListView(
      members[..Min(limit, |members|)],
      if |members| > limit then Some(|members| - limit) else None)
  }

  /** The keys whose value `keep` accepts. */
  ghost function KeptKeys<K, V>(members: map<K, V>, keep: V -> bool): set<K>
  {
    set k | k in members && keep(members[k])
  }

  /**
   * The values of `members` that `keep` accepts, one per key, in the map's
   * (unspecified) iteration order; `keys` says which key each value came from.
   */
  method KeptValues<K, V(==)>(members: map<K, V>, keep: V -> bool) returns (ms: seq<V>, ghost keys: seq<K>)
    ensures |keys| == |ms| == |KeptKeys(members, keep)|
    ensures forall i :: 0 <= i < |keys| ==> keys[i] in members && keep(members[keys[i]]) && ms[i] == members[keys[i]]
    ensures forall i, j :: 0 <= i < j < |keys| ==> keys[i] != keys[j]
    ensures forall k :: k in members && keep(members[k]) ==> k in keys
    ensures forall i :: 0 <= i < |ms| ==> ms[i] in members.Values && keep(ms[i])
    ensures forall k :: k in members && keep(members[k]) ==> members[k] in ms
  {
    ghost var sel := KeptKeys(members, keep);
    var todo := members.Keys;
    ghost var done: set<K> := {};
    ghost var picked: set<K> := {};
    keys := [];
    ms := [];
    while todo != {}
      invariant todo <= members.Keys && done == members.Keys - todo
      invariant picked <= sel && picked <= done
      invariant forall k :: k in done && k in sel ==> k in picked
      invariant |ms| == |picked| == |keys|
      invariant forall i :: 0 <= i < |keys| ==> keys[i] in sel && keys[i] in picked
      invariant forall i :: 0 <= i < |ms| ==> ms[i] == members[keys[i]]
      invariant forall i, j :: 0 <= i < j < |keys| ==> keys[i] != keys[j]
      invariant forall k :: k in picked ==> k in keys
      decreases todo
    {
      var k :| k in todo;
      var m := members[k];
      if keep(m) {
        assert k in sel && k !in picked;
        ms := ms + [m];
        keys := keys + [k];
        picked := picked + {k};
      } else {
        assert k !in sel;
      }
      todo := todo - {k};
      done := done + {k};
    }
    assert picked == sel;
    KeptByKeys(members, keep, ms, keys);
  }

  /** Values listed through their keys are values of the map, and every kept key is listed. */
  lemma KeptByKeys<K, V>(members: map<K, V>, keep: V -> bool, ms: seq<V>, keys: seq<K>)
    requires |ms| == |keys|
    requires forall i :: 0 <= i < |keys| ==> keys[i] in members && keep(members[keys[i]])
    requires forall i :: 0 <= i < |ms| ==> ms[i] == members[keys[i]]
    requires forall k :: k in members && keep(members[k]) ==> k in keys
    ensures forall i :: 0 <= i < |ms| ==> ms[i] in members.Values && keep(ms[i])
    ensures forall k :: k in members && keep(members[k]) ==> members[k] in ms
  {
    forall k | k in members && keep(members[k])
      ensures members[k] in ms
    {
      var i :| 0 <= i < |keys| && keys[i] == k;
      assert ms[i] == members[k];
    }
    forall i | 0 <= i < |ms|
      ensures ms[i] in members.Values
    {
      assert members[keys[i]] == ms[i];
    }
  }

  /**
   * `members.values().filter(..).cloned().collect()`: the members that pass
   * the search, each listed once, through the distinct keys `keys`.
   */
  method CollectMembers(members: map<string, Member>, text: Option<string>, lower: string -> string)
    returns (ms: seq<Member>, ghost keys: seq<string>)
    ensures |keys| == |ms| == |SelectedKeys(members, text, lower)|
    ensures forall i :: 0 <= i < |keys| ==> keys[i] in SelectedKeys(members, text, lower) && ms[i] == members[keys[i]]
    ensures forall i, j :: 0 <= i < j < |keys| ==> keys[i] != keys[j]
    ensures forall k :: k in SelectedKeys(members, text, lower) ==> k in keys
    ensures forall i :: 0 <= i < |ms| ==> ms[i] in members.Values && Selected(ms[i], text, lower)
  {
    var keep := (m: Member) => Selected(m, text, lower);
    ms, keys := KeptValues(members, keep);
    assert KeptKeys(members, keep) == SelectedKeys(members, text, lower);
  }

  // ---------------------------------------------------------------------
  // The previous message (add_room_message)

  /** `i` is the first position of `ms` holding a message with id `id`. */
  predicate FirstIdAt(ms: seq<Message>, id: Option<string>, i: nat)
  {
    i < |ms| && ms[i].id == id && forall j :: 0 <= j < i ==> ms[j].id != id
  }

  /** `q` comes right before the first message of `ms` whose id is `id`. */
  ghost predicate JustBeforeId(ms: seq<Message>, id: Option<string>, q: Message)
  {
    exists i: nat :: 0 < i && FirstIdAt(ms, id, i) && ms[i - 1] == q
  }

  /**
   * The message drawn just above `msg`: the given `prev`; otherwise, unless a
   * full drawing is forced, the message before `msg`'s first occurrence (by
   * id) in its room's history.
   */
  function PreviousMessage(rooms: Rooms, msg: Message, prev: Option<Message>, forceFull: bool): (p: Option<Message>)
    ensures prev.Some? || forceFull ==> p == prev
    ensures p.Some? && prev.None? ==> msg.room in rooms && JustBeforeId(rooms[msg.room].messages, msg.id, p.value)
    ensures p.None? && prev.None? && !forceFull && msg.room in rooms ==>
              forall q :: !JustBeforeId(rooms[msg.room].messages, msg.id, q)
  {
    if forceFull || prev.Some? then prev
    else if msg.room !in rooms then None
    else
      var pos := PositionById(rooms[msg.room].messages, msg.id);
      if pos.Some? && pos.value > 0 then
        assert FirstIdAt(rooms[msg.room].messages, msg.id, pos.value);
        Some(rooms[msg.room].messages[pos.value - 1])
      else None
  }

  /** The compact widget continues a message by the same sender. */
  function CompactWidget(prev: Option<Message>, msg: Message): (compact: bool)
    ensures compact <==> prev.Some? && prev.value.sender == msg.sender
  {
    match prev
    case Some(p) => p.sender == msg.sender
    case None => false
  }
}
