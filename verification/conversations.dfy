/** Conversation membership and messages (routes/messageRoutes.js).

    A conversation keeps its current participants and a history of leavers
    with the time they left; a leaver may still read the messages created
    up to that time.  Messages carry their read-by list, which drives the
    unread predicate.  Every handler is one atomic step over a `Store`:
    the conversations (in insertion order, as `findOne` sees them), the
    messages, and the socket server's outbox.  `mint(k)` names the k-th
    document a handler creates (Mongo's fresh ObjectIds). */
module Conversations {
  import opened Common
  import Gateway
  import Reactions

  // ---------------------------------------------------------------------
  // Data model (models/Conversation.js, models/Message.js)
  // ---------------------------------------------------------------------

  datatype MessageType = TextMessage | ImageMessage | VideoMessage | SystemMessage

  function TypeName(t: MessageType): string {
    match t
    case TextMessage => "text"
    case ImageMessage => "image"
    case VideoMessage => "video"
    case SystemMessage => "system"
  }

  /** The schema's enum check on `type`. */
  function ParseType(s: string): (t: Option<MessageType>)
    ensures t.Some? ==> TypeName(t.value) == s
  {
    if s == "text" then Some(TextMessage)
    else if s == "image" then Some(ImageMessage)
    else if s == "video" then Some(VideoMessage)
    else if s == "system" then Some(SystemMessage)
    else None
  }

  lemma ParseTypeName(t: MessageType)
    ensures ParseType(TypeName(t)) == Some(t)
  {
  }

  datatype Message = Message(
    id: string,
    conversation: string,
    sender: Option<string>,
    mtype: MessageType,
    text: string,
    mediaUrl: string,
    reactions: seq<Reactions.Reaction>,
    readBy: seq<string>,
    createdAt: int)

  datatype Leaver = Leaver(user: string, leftAt: int)

  datatype Conversation = Conversation(
    id: string,
    name: string,
    isGroup: bool,
    avatarUrl: string,
    createdBy: Option<string>,
    organizationID: string,
    participants: seq<string>,
    admins: seq<string>,
    leavers: seq<Leaver>,
    lastMessagePreview: string,
    lastMessageAt: int)

  /** What the handlers read of a user document. */
  datatype Member = Member(organizationID: Option<string>, firstName: string, lastName: string)

  datatype Store = Store(conversations: seq<Conversation>, messages: seq<Message>, io: Gateway.Server)

  /** Index of the first conversation with this id, or -1 (`findById`). */
  function FindConversation(cs: seq<Conversation>, id: string): (i: int)
    ensures -1 <= i < |cs|
    ensures i >= 0 ==> cs[i].id == id && forall j :: 0 <= j < i ==> cs[j].id != id
    ensures i < 0 ==> forall j :: 0 <= j < |cs| ==> cs[j].id != id
  {
    if cs == [] then -1
    else if cs[0].id == id then 0
    else
      var k := FindConversation(cs[1..], id);
      if k < 0 then -1 else k + 1
  }

  /** Lookup by id only depends on the ids. */
  lemma SameIdsSameIndex(a: seq<Conversation>, b: seq<Conversation>, id: string)
    requires |a| == |b|
    requires forall j :: 0 <= j < |a| ==> a[j].id == b[j].id
    ensures FindConversation(a, id) == FindConversation(b, id)
  {
    var i, k := FindConversation(a, id), FindConversation(b, id);
    if i >= 0 && k >= 0 {
      assert !(i < k) && !(k < i);
    }
  }

  function SystemNote(id: string, conversation: string, text: string, now: int): Message {
    Message(id, conversation, None, SystemMessage, text, "", [], [], now)
  }

  // ---------------------------------------------------------------------
  // Unread and mark-read
  // ---------------------------------------------------------------------

  /** Unread for `me`: not a system message, not sent by me, not read by me. */
  predicate Unread(m: Message, me: string) {
    m.mtype != SystemMessage && m.sender != Some(me) && me !in m.readBy
  }

  /** The unread count of one conversation for one user. */
  function UnreadCount(msgs: seq<Message>, conversation: string, me: string): nat {
    if msgs == [] then 0
    else
      var m := msgs[|msgs| - 1];
      UnreadCount(msgs[..|msgs| - 1], conversation, me) + (if m.conversation == conversation && Unread(m, me) then 1 else 0)
  }

  /** `$addToSet: { readBy: me }` on every unread message of the conversation. */
  function MarkAllRead(msgs: seq<Message>, conversation: string, me: string): (r: seq<Message>)
    ensures |r| == |msgs|
  {
    if msgs == [] then []
    else
      var m := msgs[|msgs| - 1];
      MarkAllRead(msgs[..|msgs| - 1], conversation, me) +
        [if m.conversation == conversation && Unread(m, me) then m.(readBy := m.readBy + [me]) else m]
  }

  /** After mark-read nothing in that conversation is unread for the reader. */
  lemma {:induction false} MarkAllReadClears(msgs: seq<Message>, conversation: string, me: string)
    ensures UnreadCount(MarkAllRead(msgs, conversation, me), conversation, me) == 0
  {
    if msgs != [] {
      var r := MarkAllRead(msgs, conversation, me);
      MarkAllReadClears(msgs[..|msgs| - 1], conversation, me);
      assert r[..|r| - 1] == MarkAllRead(msgs[..|msgs| - 1], conversation, me);
    }
  }

  /** Marking read for one user changes no other user's unread count, in
      any conversation. */
  lemma {:induction false} MarkAllReadKeepsOthers(msgs: seq<Message>, conversation: string, me: string, other: string, c: string)
    requires other != me
    ensures UnreadCount(MarkAllRead(msgs, conversation, me), c, other) == UnreadCount(msgs, c, other)
  {
    if msgs != [] {
      var r := MarkAllRead(msgs, conversation, me);
      MarkAllReadKeepsOthers(msgs[..|msgs| - 1], conversation, me, other, c);
      assert r[..|r| - 1] == MarkAllRead(msgs[..|msgs| - 1], conversation, me);
    }
  }

  /** POST /conversations/:id/read: 404 for an unknown conversation, 403
      for a non-participant; otherwise every unread message is marked read
      and the recomputed unread count is returned (it is always 0). */
  function MarkRead(st: Store, conversation: string, me: string): (r: Reply<(Store, nat)>)
    ensures FindConversation(st.conversations, conversation) < 0 <==> r == Err(404)
    ensures r.Err? ==> r.code == 404 || r.code == 403
    ensures r == Err(403) <==>
      var i := FindConversation(st.conversations, conversation);
      i >= 0 && me !in st.conversations[i].participants
    ensures r.Ok? ==> r.value.1 == 0 && r.value.0.conversations == st.conversations
    ensures r.Ok? ==> UnreadCount(r.value.0.messages, conversation, me) == 0
  {
    var i := FindConversation(st.conversations, conversation);
    if i < 0 then Err(404)
    else if me !in st.conversations[i].participants then Err(403)
    else
      var msgs := MarkAllRead(st.messages, conversation, me);
      MarkAllReadClears(st.messages, conversation, me);
      var io1 := Gateway.EmitToUser(st.io, me, "chat.inbox.updated", Gateway.NoData);
      var io2 := Gateway.EmitToConversation(io1, conversation, "chat.messages.read", Gateway.NoData);
      Ok((Store(st.conversations, msgs, io2), UnreadCount(msgs, conversation, me)))
  }

  // ---------------------------------------------------------------------
  // Read window for leavers
  // ---------------------------------------------------------------------

  /** The first leave record of a user (`leavers.find`). */
  function FirstLeave(ls: seq<Leaver>, user: string): (t: Option<int>)
    ensures t.Some? ==> exists j :: 0 <= j < |ls| && ls[j].user == user && ls[j].leftAt == t.value
    ensures t.None? <==> forall j :: 0 <= j < |ls| ==> ls[j].user != user
  {
    if ls == [] then None
    else if ls[0].user == user then Some(ls[0].leftAt)
    else
      var t := FirstLeave(ls[1..], user);
      assert t.Some? ==> exists j :: 1 <= j < |ls| && ls[j].user == user && ls[j].leftAt == t.value by {
        if t.Some? {
          var j :| 0 <= j < |ls[1..]| && ls[1..][j].user == user && ls[1..][j].leftAt == t.value;
          assert ls[j + 1] == ls[1..][j];
        }
      }
      assert t.None? ==> forall j :: 0 <= j < |ls| ==> ls[j].user != user by {
        if t.None? {
          forall j | 0 <= j < |ls| ensures ls[j].user != user {
            if j > 0 { assert ls[j] == ls[1..][j - 1]; }
          }
        }
      }
      t
  }

  /** The time filter of GET .../messages: none for a participant, up to the
      first leave time for a former member, 403 for anyone else.  A
      conversation that does not exist gets no filter and no 403. */
  function MessagesWindow(c: Option<Conversation>, me: string): (r: Reply<Option<int>>)
    ensures c.Some? && me in c.value.participants ==> r == Ok(None)
    ensures c.Some? && me !in c.value.participants ==>
      (FirstLeave(c.value.leavers, me).Some? ==> r == Ok(FirstLeave(c.value.leavers, me))) &&
      (FirstLeave(c.value.leavers, me).None? ==> r == Err(403))
    ensures c.None? ==> r == Ok(None)
  {
    match c
    case None => Ok(None)
    case Some(conv) =>
      if me in conv.participants then Ok(None)
      else
        match FirstLeave(conv.leavers, me)
        case Some(t) => Ok(Some(t))
        case None => Err(403)
  }

  /** GET .../assets: the same window, but 404 for an unknown conversation. */
  function AssetsWindow(c: Option<Conversation>, me: string): (r: Reply<Option<int>>)
    ensures c.None? <==> r == Err(404)
    ensures c.Some? ==> r == MessagesWindow(c, me)
  {
    if c.None? then Err(404) else MessagesWindow(c, me)
  }

  predicate InWindow(m: Message, conversation: string, window: Option<int>) {
    m.conversation == conversation && (window.None? || m.createdAt <= window.value)
  }

  /** The messages of a conversation inside a time window, in store order. */
  function Visible(msgs: seq<Message>, conversation: string, window: Option<int>): (r: seq<Message>)
    ensures forall m :: m in r <==> m in msgs && InWindow(m, conversation, window)
  {
    if msgs == [] then []
    else (if InWindow(msgs[0], conversation, window) then [msgs[0]] else []) + Visible(msgs[1..], conversation, window)
  }

  /** GET /conversations/:id/messages without the page slicing. */
  function GetMessages(st: Store, conversation: string, me: string): Reply<seq<Message>> {
    var i := FindConversation(st.conversations, conversation);
    var c := if i >= 0 then Some(st.conversations[i]) else None;
    match MessagesWindow(c, me)
    case Err(code) => Err(code)
    case Ok(w) => Ok(Visible(st.messages, conversation, w))
  }

  /** A former member sees exactly the conversation's messages created up to
      their first leave time, and a stranger is refused. */
  lemma ReadWindowForFormerMember(st: Store, conversation: string, me: string)
    requires FindConversation(st.conversations, conversation) >= 0
    ensures var c := st.conversations[FindConversation(st.conversations, conversation)];
      me !in c.participants ==>
        match FirstLeave(c.leavers, me)
        case None => GetMessages(st, conversation, me) == Err(403)
        case Some(t) =>
          GetMessages(st, conversation, me).Ok? &&
          forall m :: m in GetMessages(st, conversation, me).value <==>
            m in st.messages && m.conversation == conversation && m.createdAt <= t
  {
  }

  // ---------------------------------------------------------------------
  // Fan-out helpers
  // ---------------------------------------------------------------------

  function InboxEmissions(ps: seq<string>): (es: seq<Gateway.Emission>)
    ensures |es| == |ps|
    ensures forall k :: 0 <= k < |ps| ==>
      es[k] == Gateway.Emission(Gateway.UserRoom(ps[k]), "chat.inbox.updated", Gateway.NoData, false)
  {
    if ps == [] then []
    else [Gateway.Emission(Gateway.UserRoom(ps[0]), "chat.inbox.updated", Gateway.NoData, false)] + InboxEmissions(ps[1..])
  }

  /** `participants.forEach(uid => emitToUser(uid, 'chat.inbox.updated'))`. */
  function InboxFanout(io: Gateway.Server, ps: seq<string>): (io': Gateway.Server)
    ensures io'.initialized == io.initialized
    ensures io.initialized ==> io'.outbox == io.outbox + InboxEmissions(ps)
    ensures !io.initialized ==> io' == io
    decreases |ps|
  {
    if ps == [] then io
    else InboxFanout(Gateway.EmitToUser(io, ps[0], "chat.inbox.updated", Gateway.NoData), ps[1..])
  }

  // ---------------------------------------------------------------------
  // Sending
  // ---------------------------------------------------------------------

  /** `type || (mediaUrl ? 'image' : 'text')`. */
  function ResolvedType(typ: Option<string>, mediaUrl: string): string {
    if typ.Some? && typ.value != "" then typ.value
    else if mediaUrl != "" then "image" else "text"
  }

  /** The conversation's preview of a new message. */
  function Preview(text: string, t: MessageType): (p: string)
    ensures text != "" ==> p == text
    ensures text == "" ==> p == (if t == ImageMessage then "Image" else if t == VideoMessage then "Video" else "")
  {
    if text != "" then text
    else if t == ImageMessage then "Image"
    else if t == VideoMessage then "Video"
    else if t == SystemMessage then text
    else ""
  }

  /** POST /conversations/:id/messages. */
  function SendMessage(st: Store, conversation: string, me: string, typ: Option<string>, text: string,
                       mediaUrl: string, msgId: string, now: int): (r: Reply<Store>)
    ensures FindConversation(st.conversations, conversation) < 0 <==> r == Err(404)
    ensures r == Err(403) <==>
      var i := FindConversation(st.conversations, conversation);
      i >= 0 && me !in st.conversations[i].participants
    ensures r.Ok? ==> ParseType(ResolvedType(typ, mediaUrl)).Some?
    ensures r.Ok? ==> |r.value.messages| == |st.messages| + 1 && r.value.messages[..|st.messages|] == st.messages
    ensures r.Ok? ==>
      var m := r.value.messages[|st.messages|];
      m.conversation == conversation && TypeName(m.mtype) == ResolvedType(typ, mediaUrl) &&
      (typ != Some("system") ==> m.sender == Some(me) && m.readBy == [me] && !Unread(m, me)) &&
      (typ == Some("system") ==> m.sender.None? && m.readBy == [])
    ensures r.Ok? ==>
      var i := FindConversation(st.conversations, conversation);
      |r.value.conversations| == |st.conversations| &&
      r.value.conversations[i].participants == st.conversations[i].participants &&
      r.value.conversations[i].lastMessagePreview == Preview(text, ParseType(ResolvedType(typ, mediaUrl)).value)
  {
    var i := FindConversation(st.conversations, conversation);
    if i < 0 then Err(404)
    else
      var c := st.conversations[i];
      if me !in c.participants then Err(403)
      else
        match ParseType(ResolvedType(typ, mediaUrl))
        case None => Err(500)
        case Some(t) =>
          var sender := if typ != Some("system") then Some(me) else None;
          var readBy := if typ != Some("system") then [me] else [];
          var m := Message(msgId, conversation, sender, t, text, mediaUrl, [], readBy, now);
          var c' := c.(lastMessageAt := now, lastMessagePreview := Preview(text, t));
          var io1 := Gateway.EmitToConversation(st.io, conversation, "chat.message.created", Gateway.NoData);
          Ok(Store(st.conversations[i := c'], st.messages + [m], InboxFanout(io1, c.participants)))
  }

  /** A successful send announces the message to the chat room and then
      notifies every participant's user room, once each, in order. */
  lemma SendAnnouncements(st: Store, conversation: string, me: string, typ: Option<string>, text: string,
                          mediaUrl: string, msgId: string, now: int)
    requires st.io.initialized
    requires SendMessage(st, conversation, me, typ, text, mediaUrl, msgId, now).Ok?
    ensures var st' := SendMessage(st, conversation, me, typ, text, mediaUrl, msgId, now).value;
      var c := st.conversations[FindConversation(st.conversations, conversation)];
      st'.io.outbox == st.io.outbox +
        [Gateway.Emission(Gateway.ChatRoom(conversation), "chat.message.created", Gateway.NoData, false)] +
        InboxEmissions(c.participants)
  {
  }

  // ---------------------------------------------------------------------
  // Direct conversations
  // ---------------------------------------------------------------------

  /** An organization id `Conversation.create` accepts: present and
      non-empty, as the schema's `required` demands. */
  predicate KnownOrg(org: Option<string>) {
    org.Some? && org.value != ""
  }

  predicate IsDirectBetween(c: Conversation, org: Option<string>, a: string, b: string) {
    !c.isGroup && org == Some(c.organizationID) && a in c.participants && b in c.participants &&
    |c.participants| == 2
  }

  function FindDirect(cs: seq<Conversation>, org: Option<string>, a: string, b: string): (i: int)
    ensures -1 <= i < |cs|
    ensures i >= 0 ==> IsDirectBetween(cs[i], org, a, b)
    ensures i < 0 ==> forall j :: 0 <= j < |cs| ==> !IsDirectBetween(cs[j], org, a, b)
  {
    if cs == [] then -1
    else
      var k := FindDirect(cs[..|cs| - 1], org, a, b);
      if k >= 0 then k else if IsDirectBetween(cs[|cs| - 1], org, a, b) then |cs| - 1 else -1
  }

  /** POST /conversations/with/:userId: the existing direct conversation of
      the two users, or a new one announced to the organization.  Returns
      the store and the conversation's index. */
  function DirectConversation(st: Store, users: map<string, Member>, me: string, other: string,
                              newId: string, now: int): (r: Reply<(Store, nat)>)
    ensures other !in users ==> r == Err(400)
    ensures other in users && me in users && users[other].organizationID != users[me].organizationID ==> r == Err(400)
    ensures r.Ok? ==> me in users && other in users
    ensures r.Ok? ==> |st.conversations| <= |r.value.0.conversations|
    ensures r.Ok? ==> (r.value.1 < |r.value.0.conversations| &&
      IsDirectBetween(r.value.0.conversations[r.value.1], users[me].organizationID, me, other))
    ensures r.Ok? && FindDirect(st.conversations, users[me].organizationID, me, other) >= 0 ==>
      r.value.0 == st
    ensures me in users && other in users && users[other].organizationID == users[me].organizationID ==>
      (r == Err(500) <==> FindDirect(st.conversations, users[me].organizationID, me, other) < 0 &&
                          !KnownOrg(users[me].organizationID))
    ensures r.Ok? && FindDirect(st.conversations, users[me].organizationID, me, other) < 0 ==>
      r.value.0.conversations[..|st.conversations|] == st.conversations &&
      |r.value.0.conversations| == |st.conversations| + 1 &&
      r.value.0.conversations[|st.conversations|].participants == [me, other]
  {
    if other !in users then Err(400)
    else if me !in users then Err(500)
    else if users[other].organizationID != users[me].organizationID then Err(400)
    else
      var org := users[me].organizationID;
      var k := FindDirect(st.conversations, org, me, other);
      if k >= 0 then Ok((st, k))
      else if !KnownOrg(org) then Err(500)
      else
        var c := Conversation(newId, "", false, "", None, org.value, [me, other], [], [], "", now);
        var io' := Gateway.EmitToOrg(st.io, org.value, "chat.conversation.created", Gateway.NoData);
        Ok((Store(st.conversations + [c], st.messages, io'), |st.conversations|))
  }

  /** Asking for the direct conversation again returns the same one and
      changes nothing. */
  lemma DirectConversationIdempotent(st: Store, users: map<string, Member>, me: string, other: string,
                                     newId: string, newId2: string, now: int, later: int)
    requires DirectConversation(st, users, me, other, newId, now).Ok?
    ensures var (st1, i) := DirectConversation(st, users, me, other, newId, now).value;
      DirectConversation(st1, users, me, other, newId2, later) == Ok((st1, FindDirect(st1.conversations, users[me].organizationID, me, other)))
  {
    var (st1, i) := DirectConversation(st, users, me, other, newId, now).value;
    assert FindDirect(st1.conversations, users[me].organizationID, me, other) >= 0;
  }

  // ---------------------------------------------------------------------
  // Group creation and membership
  // ---------------------------------------------------------------------

  /** The ids of existing users, in order. */
  function Known(ids: seq<string>, users: map<string, Member>): (r: seq<string>)
    ensures forall x :: x in r <==> x in ids && x in users
    ensures NoDuplicates(ids) ==> NoDuplicates(r)
  {
    var drop := set x | x in ids && x !in users;
    if NoDuplicates(ids) then WithoutKeepsNoDuplicates(ids, drop); Without(ids, drop)
    else Without(ids, drop)
  }

  predicate AllInOrg(ids: seq<string>, users: map<string, Member>, org: Option<string>) {
    forall x :: x in ids && x in users ==> users[x].organizationID == org
  }

  function AddedText(u: Member): string {
    u.firstName + " " + u.lastName + " added to the group"
  }

  /** One "added to the group" system message per user, in order. */
  function AddedNotes(ids: seq<string>, users: map<string, Member>, conversation: string,
                      mint: nat -> string, base: nat, now: int): (r: seq<Message>)
    requires forall x :: x in ids ==> x in users
    ensures |r| == |ids|
    ensures forall k :: 0 <= k < |ids| ==>
      r[k] == SystemNote(mint(base + k), conversation, AddedText(users[ids[k]]), now)
  {
    if ids == [] then []
    else
      [SystemNote(mint(base), conversation, AddedText(users[ids[0]]), now)] +
      AddedNotes(ids[1..], users, conversation, mint, base + 1, now)
  }

  /** The creation-time announcement of each added user to the chat room. */
  function AnnounceNotes(io: Gateway.Server, conversation: string, n: nat): (io': Gateway.Server)
    ensures io'.initialized == io.initialized
    ensures io.initialized ==> |io'.outbox| == |io.outbox| + n
    ensures !io.initialized ==> io' == io
    decreases n
  {
    if n == 0 then io
    else AnnounceNotes(Gateway.EmitToConversation(io, conversation, "chat.message.created", Gateway.NoData), conversation, n - 1)
  }

  function LastText(ms: seq<Message>, default: string): string {
    if ms == [] then default else ms[|ms| - 1].text
  }

  /** The other members of a new group: the distinct, known requested ids
      other than the creator, in request order. */
  function Invitees(participantIds: seq<string>, users: map<string, Member>, me: string): (r: seq<string>)
    ensures NoDuplicates(r) && me !in r
    ensures forall x :: x in r <==> x != me && x in participantIds && x in users
  {
    WithoutKeepsNoDuplicates(Dedup(participantIds), {me});
    Known(Without(Dedup(participantIds), {me}), users)
  }

  /** Only the invitees' organizations matter: the creator is always in
      their own organization. */
  lemma InviteesInOrg(participantIds: seq<string>, users: map<string, Member>, me: string)
    requires me in users
    ensures AllInOrg(Invitees(participantIds, users, me), users, users[me].organizationID) <==>
      AllInOrg(participantIds, users, users[me].organizationID)
  {
    var found := Invitees(participantIds, users, me);
    var org := users[me].organizationID;
    if AllInOrg(found, users, org) {
      forall x | x in participantIds && x in users ensures users[x].organizationID == org {
        if x != me { assert x in found; }
      }
    }
  }

  lemma ConsNoDuplicates(x: string, s: seq<string>)
    requires NoDuplicates(s) && x !in s
    ensures NoDuplicates([x] + s)
  {
    forall a, b | 0 <= a < b < |[x] + s| ensures ([x] + s)[a] != ([x] + s)[b] {
      assert ([x] + s)[b] == s[b - 1];
      if a > 0 { assert ([x] + s)[a] == s[a - 1]; }
    }
  }

  /** POST /conversations: a group whose participants are the creator
      followed by the distinct, known, requested users other than the
      creator; 400 if any of them belongs to another organization.  Each
      of them is announced by an "added to the group" system message. */
  function CreateGroup(st: Store, users: map<string, Member>, me: string, name: string,
                       participantIds: seq<string>, avatarUrl: string, newId: string,
                       mint: nat -> string, now: int): (r: Reply<Store>)
    requires me in users
    ensures r == Err(400) <==> !AllInOrg(participantIds, users, users[me].organizationID)
    ensures r == Err(500) <==> AllInOrg(participantIds, users, users[me].organizationID) &&
                               !KnownOrg(users[me].organizationID)
    ensures r.Ok? ==>
      |r.value.conversations| == |st.conversations| + 1 &&
      r.value.conversations[..|st.conversations|] == st.conversations
    ensures r.Ok? ==>
      var c := r.value.conversations[|st.conversations|];
      c.isGroup && c.admins == [me] && c.createdBy == Some(me) &&
      c.name == (if name == "" then "New Group" else name) &&
      c.participants == [me] + Invitees(participantIds, users, me) && NoDuplicates(c.participants) &&
      r.value.messages == st.messages + AddedNotes(Invitees(participantIds, users, me), users, newId, mint, 0, now)
  {
    var org := users[me].organizationID;
    var found := Invitees(participantIds, users, me);
    InviteesInOrg(participantIds, users, me);
    if !AllInOrg(found, users, org) then Err(400)
    else if !KnownOrg(org) then Err(500)
    else
      var notes := AddedNotes(found, users, newId, mint, 0, now);
      var c := Conversation(newId, if name == "" then "New Group" else name, true, avatarUrl, Some(me),
                            org.value, [me] + found, [me], [], LastText(notes, ""), now);
      var io1 := AnnounceNotes(st.io, newId, |found|);
      var io2 := Gateway.EmitToOrg(io1, org.value, "chat.conversation.created", Gateway.NoData);
      ConsNoDuplicates(me, found);
      Ok(Store(st.conversations + [c], st.messages + notes, io2))
  }

  /** POST /conversations/:id/members: 404 unless a group; 400 if a new
      member is in another organization; otherwise the participant list
      becomes old ∪ new without duplicates and one "added to the group"
      system message is stored per user who was not already a participant. */
  function AddMembers(st: Store, users: map<string, Member>, me: string, conversation: string,
                      memberIds: seq<string>, mint: nat -> string, now: int): (r: Reply<Store>)
    requires me in users
    ensures var i := FindConversation(st.conversations, conversation);
      (i < 0 || !st.conversations[i].isGroup) <==> r == Err(404)
    ensures r.Ok? ==> AllInOrg(memberIds, users, users[me].organizationID)
    ensures r.Ok? ==> |r.value.conversations| == |st.conversations|
    ensures r.Ok? ==>
      var i := FindConversation(st.conversations, conversation);
      var old_ := st.conversations[i].participants;
      var new_ := r.value.conversations[i].participants;
      var added := Without(Known(Dedup(memberIds), users), set x | x in old_);
      |r.value.conversations| == |st.conversations| &&
      NoDuplicates(new_) &&
      (forall x :: x in new_ <==> x in old_ || (x in memberIds && x in users)) &&
      r.value.messages == st.messages + AddedNotes(added, users, conversation, mint, 0, now)
  {
    var i := FindConversation(st.conversations, conversation);
    if i < 0 || !st.conversations[i].isGroup then Err(404)
    else
      var org := users[me].organizationID;
      var newUsers := Known(Dedup(memberIds), users);
      if !AllInOrg(newUsers, users, org) then Err(400)
      else
        var c := st.conversations[i];
        var added := Without(newUsers, set x | x in c.participants);
        var parts := Dedup(c.participants + added);
        var notes := AddedNotes(added, users, conversation, mint, 0, now);
        var c' := c.(participants := parts, lastMessagePreview := LastText(notes, c.lastMessagePreview));
        var io1 := Gateway.EmitToConversation(st.io, conversation, "chat.conversation.updated", Gateway.NoData);
        var io2 := Gateway.EmitToOrg(io1, Gateway.OrgText(org), "chat.conversation.updated", Gateway.NoData);
        var io3 := AnnounceAdded(io2, conversation, parts, |added|);
        assert AllInOrg(memberIds, users, org) by {
          forall x | x in memberIds && x in users ensures users[x].organizationID == org {
            assert x in newUsers;
          }
        }
        Ok(Store(st.conversations[i := c'], st.messages + notes, io3))
  }

  /** Per added user: the system message to the chat room, then an inbox
      update to every participant. */
  function AnnounceAdded(io: Gateway.Server, conversation: string, parts: seq<string>, n: nat): Gateway.Server
    decreases n
  {
    if n == 0 then io
    else
      var io1 := Gateway.EmitToConversation(io, conversation, "chat.message.created", Gateway.NoData);
      AnnounceAdded(InboxFanout(io1, parts), conversation, parts, n - 1)
  }

  /** Adding members is idempotent: repeating the same request adds no one
      and stores no further message. */
  lemma AddMembersTwice(st: Store, users: map<string, Member>, me: string, conversation: string,
                        memberIds: seq<string>, mint: nat -> string, now: int, later: int)
    requires me in users
    requires AddMembers(st, users, me, conversation, memberIds, mint, now).Ok?
    ensures var st1 := AddMembers(st, users, me, conversation, memberIds, mint, now).value;
      var r2 := AddMembers(st1, users, me, conversation, memberIds, mint, later);
      r2.Ok? && r2.value.messages == st1.messages
  {
    var st1 := AddMembers(st, users, me, conversation, memberIds, mint, now).value;
    var i := FindConversation(st.conversations, conversation);
    SameIdsSameIndex(st.conversations, st1.conversations, conversation);
    var parts := st1.conversations[i].participants;
    var added := Without(Known(Dedup(memberIds), users), set x | x in parts);
    assert forall x :: x !in added;
  }

  function RemovedText(users: map<string, Member>, id: string): string {
    var first := if id in users then users[id].firstName else "";
    var last := if id in users then users[id].lastName else "";
    Trim(first + " " + last + " removed from the group")
  }

  function Departures(ps: seq<string>, drop: set<string>, now: int): (r: seq<Leaver>)
    ensures forall l :: l in r <==> l.user in ps && l.user in drop && l.leftAt == now
  {
    if ps == [] then []
    else (if ps[0] in drop then [Leaver(ps[0], now)] else []) + Departures(ps[1..], drop, now)
  }

  function RemovedNotes(ps: seq<string>, drop: set<string>, users: map<string, Member>, conversation: string,
                        mint: nat -> string, base: nat, now: int): (r: seq<Message>)
    ensures |r| == |Departures(ps, drop, now)|
  {
    if ps == [] then []
    else if ps[0] in drop then
      [SystemNote(mint(base), conversation, RemovedText(users, ps[0]), now)] +
        RemovedNotes(ps[1..], drop, users, conversation, mint, base + 1, now)
    else RemovedNotes(ps[1..], drop, users, conversation, mint, base, now)
  }

  /** DELETE /conversations/:id/members: 404 unless a group, 403 unless the
      requester participates; each removed participant gets a leave record
      and a system message, and the others keep their order. */
  function RemoveMembers(st: Store, users: map<string, Member>, me: string, conversation: string,
                         memberIds: seq<string>, mint: nat -> string, now: int): (r: Reply<Store>)
    ensures var i := FindConversation(st.conversations, conversation);
      (i < 0 || !st.conversations[i].isGroup) <==> r == Err(404)
    ensures var i := FindConversation(st.conversations, conversation);
      r == Err(403) <==> i >= 0 && st.conversations[i].isGroup && me !in st.conversations[i].participants
    ensures r.Ok? ==> |r.value.conversations| == |st.conversations|
    ensures r.Ok? ==>
      var i := FindConversation(st.conversations, conversation);
      var c := st.conversations[i];
      var drop := set x | x in memberIds;
      |r.value.conversations| == |st.conversations| &&
      r.value.conversations[i].participants == Without(c.participants, drop) &&
      r.value.conversations[i].leavers == c.leavers + Departures(c.participants, drop, now) &&
      |r.value.messages| == |st.messages| + |Departures(c.participants, drop, now)|
  {
    var i := FindConversation(st.conversations, conversation);
    if i < 0 || !st.conversations[i].isGroup then Err(404)
    else
      var c := st.conversations[i];
      if me !in c.participants then Err(403)
      else
        var drop := set x | x in memberIds;
        var gone := Departures(c.participants, drop, now);
        var notes := RemovedNotes(c.participants, drop, users, conversation, mint, 0, now);
        var c' := c.(participants := Without(c.participants, drop), leavers := c.leavers + gone);
        Ok(Store(st.conversations[i := c'], st.messages + notes, AnnounceNotes(st.io, conversation, |notes|)))
  }

  /** A removed member who had never left before can afterwards read exactly
      the messages created up to the removal. */
  lemma RemovedMemberReadsUntilRemoval(st: Store, users: map<string, Member>, me: string, conversation: string,
                                       memberIds: seq<string>, mint: nat -> string, now: int, who: string)
    requires RemoveMembers(st, users, me, conversation, memberIds, mint, now).Ok?
    requires who in memberIds
    requires var c := st.conversations[FindConversation(st.conversations, conversation)];
      who in c.participants && FirstLeave(c.leavers, who).None?
    ensures var st1 := RemoveMembers(st, users, me, conversation, memberIds, mint, now).value;
      var r := GetMessages(st1, conversation, who);
      r.Ok? && forall m :: m in r.value <==> m in st1.messages && m.conversation == conversation && m.createdAt <= now
  {
    var st1 := RemoveMembers(st, users, me, conversation, memberIds, mint, now).value;
    var i := FindConversation(st.conversations, conversation);
    var c := st.conversations[i];
    var drop := set x | x in memberIds;
    SameIdsSameIndex(st.conversations, st1.conversations, conversation);
    var c1 := st1.conversations[i];
    assert who !in c1.participants;
    assert Leaver(who, now) in Departures(c.participants, drop, now);
    LeaveAfter(c.leavers, Departures(c.participants, drop, now), who, now);
  }

  /** With no earlier record, the first leave record is the appended one. */
  lemma LeaveAfter(ls: seq<Leaver>, more: seq<Leaver>, who: string, t: int)
    requires FirstLeave(ls, who).None?
    requires Leaver(who, t) in more
    requires forall l :: l in more && l.user == who ==> l.leftAt == t
    ensures FirstLeave(ls + more, who) == Some(t)
  {
    var j :| 0 <= j < |more| && more[j] == Leaver(who, t);
    assert (ls + more)[|ls| + j].user == who;
    var s := FirstLeave(ls + more, who);
    var k :| 0 <= k < |ls + more| && (ls + more)[k].user == who && (ls + more)[k].leftAt == s.value;
    assert k >= |ls|;
    assert (ls + more)[k] in more;
  }

  function LeftText(users: map<string, Member>, id: string): string {
    var first := if id in users then users[id].firstName else "";
    var last := if id in users then users[id].lastName else "";
    Trim(first + " " + last + " left the group")
  }

  /** The checks of POST /conversations/:id/leave, in order: 404, 403, 400. */
  function LeaveCheck(st: Store, conversation: string, me: string): (r: Reply<nat>)
    ensures FindConversation(st.conversations, conversation) < 0 <==> r == Err(404)
    ensures var i := FindConversation(st.conversations, conversation);
      r == Err(403) <==> i >= 0 && me !in st.conversations[i].participants
    ensures var i := FindConversation(st.conversations, conversation);
      r == Err(400) <==> i >= 0 && me in st.conversations[i].participants && !st.conversations[i].isGroup
    ensures r.Ok? ==> r.value == FindConversation(st.conversations, conversation)
  {
    var i := FindConversation(st.conversations, conversation);
    if i < 0 then Err(404)
    else if me !in st.conversations[i].participants then Err(403)
    else if !st.conversations[i].isGroup then Err(400)
    else Ok(i)
  }

  /** The leave handler as written: the system message is stored, but the
      call on the next line throws inside its try block, so neither the
      message nor any inbox update is announced; only the membership
      update reaches the chat room. */
  function LeaveGroup(st: Store, users: map<string, Member>, me: string, conversation: string,
                      msgId: string, now: int): (r: Reply<Store>)
    ensures r.Ok? ==> LeaveCheck(st, conversation, me).Ok? && |r.value.conversations| == |st.conversations|
    ensures r.Ok? ==>
      var i := FindConversation(st.conversations, conversation);
      var c := st.conversations[i];
      r.value.conversations[i].participants == Without(c.participants, {me}) &&
      r.value.conversations[i].leavers == c.leavers + [Leaver(me, now)] &&
      r.value.messages == st.messages + [SystemNote(msgId, conversation, LeftText(users, me), now)]
    ensures r.Ok? && st.io.initialized ==>
      r.value.io.outbox == st.io.outbox +
        [Gateway.Emission(Gateway.ChatRoom(conversation), "chat.conversation.updated", Gateway.NoData, false)]
    ensures r.Err? <==> LeaveCheck(st, conversation, me).Err?
    ensures r.Err? ==> r.code == LeaveCheck(st, conversation, me).code
  {
    match LeaveCheck(st, conversation, me)
    case Err(code) => Err(code)
    case Ok(i) =>
      var c := st.conversations[i];
      var c' := c.(participants := Without(c.participants, {me}), leavers := c.leavers + [Leaver(me, now)]);
      var note := SystemNote(msgId, conversation, LeftText(users, me), now);
      var io1 := Gateway.EmitToConversation(st.io, conversation, "chat.conversation.updated", Gateway.NoData);
      Ok(Store(st.conversations[i := c'], st.messages + [note], io1))
  }

  /** The leave handler without the throwing call: the system message is
      announced to the chat room and every remaining participant's inbox is
      updated (twice, as the two inbox blocks are both reached), before the
      membership update. */
  function LeaveGroupIntended(st: Store, users: map<string, Member>, me: string, conversation: string,
                              msgId: string, now: int): (r: Reply<Store>)
    ensures r.Ok? ==> LeaveCheck(st, conversation, me).Ok? && |r.value.conversations| == |st.conversations|
    ensures r.Ok? && st.io.initialized ==>
      var i := FindConversation(st.conversations, conversation);
      var rest := Without(st.conversations[i].participants, {me});
      r.value.io.outbox == st.io.outbox +
        [Gateway.Emission(Gateway.ChatRoom(conversation), "chat.message.created", Gateway.NoData, false)] +
        InboxEmissions(rest) + InboxEmissions(rest) +
        [Gateway.Emission(Gateway.ChatRoom(conversation), "chat.conversation.updated", Gateway.NoData, false)]
    ensures r.Ok? ==> me !in r.value.conversations[FindConversation(st.conversations, conversation)].participants
    ensures r.Err? <==> LeaveCheck(st, conversation, me).Err?
    ensures r.Err? ==> r.code == LeaveCheck(st, conversation, me).code
  {
    match LeaveCheck(st, conversation, me)
    case Err(code) => Err(code)
    case Ok(i) =>
      var c := st.conversations[i];
      var rest := Without(c.participants, {me});
      var c' := c.(participants := rest, leavers := c.leavers + [Leaver(me, now)]);
      var note := SystemNote(msgId, conversation, LeftText(users, me), now);
      var io1 := Gateway.EmitToConversation(st.io, conversation, "chat.message.created", Gateway.NoData);
      var io2 := InboxFanout(InboxFanout(io1, rest), rest);
      var io3 := Gateway.EmitToConversation(io2, conversation, "chat.conversation.updated", Gateway.NoData);
      Ok(Store(st.conversations[i := c'], st.messages + [note], io3))
  }

  /** As written, a member leaving a group of three announces nothing to the
      remaining members' inboxes, while the intended handler does. */
  lemma LeaveAnnouncementsLost()
    ensures var c := Conversation("g", "G", true, "", None, "o", ["a", "b", "c"], ["a"], [], "", 0);
      var st := Store([c], [], Gateway.Server(true, []));
      var users: map<string, Member> := map[];
      |LeaveGroup(st, users, "a", "g", "m", 5).value.io.outbox| == 1 &&
      |LeaveGroupIntended(st, users, "a", "g", "m", 5).value.io.outbox| == 6
  {
    var c := Conversation("g", "G", true, "", None, "o", ["a", "b", "c"], ["a"], [], "", 0);
    var st := Store([c], [], Gateway.Server(true, []));
    assert FindConversation(st.conversations, "g") == 0;
    assert Without(["a", "b", "c"], {"a"}) == ["b", "c"];
  }

  /** Whichever way it is written, leaving opens a read window that ends at
      the leave time for a first-time leaver. */
  lemma LeaverReadsUntilLeaving(st: Store, users: map<string, Member>, me: string, conversation: string,
                                msgId: string, now: int)
    requires LeaveGroupIntended(st, users, me, conversation, msgId, now).Ok?
    requires FirstLeave(st.conversations[FindConversation(st.conversations, conversation)].leavers, me).None?
    ensures var st1 := LeaveGroupIntended(st, users, me, conversation, msgId, now).value;
      var r := GetMessages(st1, conversation, me);
      r.Ok? && forall m :: m in r.value <==> m in st1.messages && m.conversation == conversation && m.createdAt <= now
  {
    var st1 := LeaveGroupIntended(st, users, me, conversation, msgId, now).value;
    var i := FindConversation(st.conversations, conversation);
    SameIdsSameIndex(st.conversations, st1.conversations, conversation);
    LeaveAfter(st.conversations[i].leavers, [Leaver(me, now)], me, now);
  }

  /** POST /messages/:id/reactions: 404 for an unknown message; 500 when
      the update would store an empty emoji, which the reaction schema
      requires; otherwise the one-reaction-per-user update of that message
      alone. */
  function ReactToMessage(msgs: seq<Message>, messageId: string, me: string, emoji: string): (r: Reply<seq<Message>>)
    ensures (forall j :: 0 <= j < |msgs| ==> msgs[j].id != messageId) <==> r == Err(404)
    ensures r == Err(500) <==> var k := FindMessage(msgs, messageId);
      k >= 0 && emoji == "" && Reactions.ReactionOf(msgs[k].reactions, me) != Some("")
    ensures r.Ok? ==> (|r.value| == |msgs| &&
      exists k :: 0 <= k < |msgs| && msgs[k].id == messageId &&
        r.value == msgs[k := msgs[k].(reactions := Reactions.React(msgs[k].reactions, me, emoji))])
  {
    var k := FindMessage(msgs, messageId);
    if k < 0 then Err(404)
    else if emoji == "" && Reactions.ReactionOf(msgs[k].reactions, me) != Some("") then Err(500)
    else Ok(msgs[k := msgs[k].(reactions := Reactions.React(msgs[k].reactions, me, emoji))])
  }

  function FindMessage(msgs: seq<Message>, id: string): (i: int)
    ensures -1 <= i < |msgs|
    ensures i >= 0 ==> msgs[i].id == id
    ensures i < 0 ==> forall j :: 0 <= j < |msgs| ==> msgs[j].id != id
  {
    if msgs == [] then -1
    else
      var k := FindMessage(msgs[..|msgs| - 1], id);
      if k >= 0 then k else if msgs[|msgs| - 1].id == id then |msgs| - 1 else -1
  }
}
