/** The real-time gateway (socket.js): bearer-token extraction, connection
    admission, the per-socket room set, presence, typing relay, call
    signalling, and the `emitTo*` fan-out helpers.

    The socket.io server is a value of type `Server`: whether `initSocket`
    has run, and the outbox of every emission in order.  A connected socket
    is its authenticated user and its room set.  Database lookups are maps;
    `jwt.verify` is a parameter. */
module Gateway {
  import opened Common

  // ---------------------------------------------------------------------
  // Rooms, emissions, server state
  // ---------------------------------------------------------------------

  datatype Room =
    | OrgRoom(org: string)
    | UserRoom(user: string)
    | ProjectRoom(project: string)
    | TaskRoom(task: string)
    | ChatRoom(conversation: string)

  /** The room name socket.io sees (`org:<id>`, `user:<id>`, ...). */
  function RoomName(r: Room): string {
    match r
    case OrgRoom(id) => "org:" + id
    case UserRoom(id) => "user:" + id
    case ProjectRoom(id) => "project:" + id
    case TaskRoom(id) => "task:" + id
    case ChatRoom(id) => "chat:" + id
  }

  /** Distinct rooms have distinct names: the prefixes never collide. */
  lemma RoomNameInjective(a: Room, b: Room)
    requires RoomName(a) == RoomName(b)
    ensures a == b
  {
    var n := RoomName(a);
    assert n[0] == RoomName(b)[0];
    match a
    case OrgRoom(x) =>
      assert b.OrgRoom?;
      assert x == n[4..] == b.org;
    case UserRoom(x) =>
      assert b.UserRoom?;
      assert x == n[5..] == b.user;
    case ProjectRoom(x) =>
      assert b.ProjectRoom?;
      assert x == n[8..] == b.project;
    case TaskRoom(x) =>
      assert b.TaskRoom?;
      assert x == n[5..] == b.task;
    case ChatRoom(x) =>
      assert b.ChatRoom?;
      assert x == n[5..] == b.conversation;
  }

  /** The parts of an event payload the model keeps. */
  datatype Payload =
    | NoData
    | Presence(userId: string, online: bool)
    | Typing(typingConversation: string, typist: string, isTyping: bool)
    | Call(actor: string, callConversation: string)
    | IceCandidate(from: string, iceConversation: string)

  /** One `.to(room).emit(event, payload)`; `skipSender` is true for
      `socket.to(...)`, which does not deliver to the emitting socket. */
  datatype Emission = Emission(room: Room, event: string, payload: Payload, skipSender: bool)

  datatype Server = Server(initialized: bool, outbox: seq<Emission>)

  /** `emitToOrg`/`emitToProject`/`emitToTask`/`emitToConversation`/
      `emitToUser`: one emission to `room`, or nothing before `initSocket`. */
  function EmitTo(io: Server, room: Room, event: string, payload: Payload): (io': Server)
    ensures io'.initialized == io.initialized
    ensures !io.initialized ==> io' == io
    ensures io.initialized ==> io'.outbox == io.outbox + [Emission(room, event, payload, false)]
  {
    if !io.initialized then io
    else io.(outbox := io.outbox + [Emission(room, event, payload, false)])
  }

  function EmitToOrg(io: Server, org: string, event: string, payload: Payload): Server {
    EmitTo(io, OrgRoom(org), event, payload)
  }

  function EmitToProject(io: Server, project: string, event: string, payload: Payload): Server {
    EmitTo(io, ProjectRoom(project), event, payload)
  }

  function EmitToTask(io: Server, task: string, event: string, payload: Payload): Server {
    EmitTo(io, TaskRoom(task), event, payload)
  }

  function EmitToConversation(io: Server, conversation: string, event: string, payload: Payload): Server {
    EmitTo(io, ChatRoom(conversation), event, payload)
  }

  function EmitToUser(io: Server, user: string, event: string, payload: Payload): Server {
    EmitTo(io, UserRoom(user), event, payload)
  }

  /** `io'` is `io` followed by the emissions `es`, or `io` itself before
      `initSocket`. */
  predicate Sent(io: Server, io': Server, es: seq<Emission>) {
    io'.initialized == io.initialized &&
    io'.outbox == (if io.initialized then io.outbox + es else io.outbox)
  }

  /** Emissions in two steps are the emissions of both, in order. */
  lemma SentThen(io: Server, io1: Server, io2: Server, a: seq<Emission>, b: seq<Emission>)
    requires Sent(io, io1, a) && Sent(io1, io2, b)
    ensures Sent(io, io2, a + b)
  {
    if io.initialized {
      assert io.outbox + a + b == io.outbox + (a + b);
    }
  }

  /** A handler event: delivered to every socket in the room, payload not kept. */
  function Notice(room: Room, event: string): Emission {
    Emission(room, event, NoData, false)
  }

  const DashboardMetricsUpdated: string := "dashboard.metrics.updated"

  /** The dashboard refresh an organization's room hears. */
  function DashboardNotice(org: string): Emission {
    Notice(OrgRoom(org), DashboardMetricsUpdated)
  }

  /** A handler event to the organization room followed by that
      organization's dashboard refresh. */
  function Announcement(org: string, event: string): seq<Emission> {
    [Notice(OrgRoom(org), event), DashboardNotice(org)]
  }

  /** `emitDashboardMetrics(org)` (services/dashboardMetricsService.js):
      the statistics are built, then sent to the organization's room; the
      statistics themselves are not kept. */
  function EmitDashboardMetrics(io: Server, org: string): (io': Server)
    ensures Sent(io, io', [DashboardNotice(org)])
  {
    EmitToOrg(io, org, DashboardMetricsUpdated, NoData)
  }

  /** `emitToOrg(org, event, …)` then `emitDashboardMetrics(org)`, as the
      team and join-request handlers do after a change. */
  function AnnounceToOrg(io: Server, org: string, event: string): (io': Server)
    ensures Sent(io, io', Announcement(org, event))
  {
    EmitDashboardMetrics(EmitToOrg(io, org, event, NoData), org)
  }

  /** `initSocket`: creates the server once; later calls return it unchanged. */
  function InitSocket(io: Server): (io': Server)
    ensures io'.initialized
    ensures io'.outbox == io.outbox
    ensures io.initialized ==> io' == io
  {
    if io.initialized then io else Server(true, io.outbox)
  }

  lemma InitSocketIdempotent(io: Server)
    ensures InitSocket(InitSocket(io)) == InitSocket(io)
  {
  }

  /** `getIO`: the server, or an error (500-class) before initialisation. */
  function GetIO(io: Server): (r: Reply<Server>)
    ensures r.Ok? <==> io.initialized
    ensures r.Ok? ==> r.value == io
  {
    if io.initialized then Ok(io) else Err(500)
  }

  /** Before initialisation no fan-out helper emits anything, however many
      are called. */
  lemma {:induction false} NoEmissionBeforeInit(io: Server, rooms: seq<Room>, event: string)
    requires !io.initialized
    ensures EmitAll(io, rooms, event) == io
    decreases |rooms|
  {
    if rooms != [] {
      NoEmissionBeforeInit(EmitTo(io, rooms[0], event, NoData), rooms[1..], event);
    }
  }

  function EmitAll(io: Server, rooms: seq<Room>, event: string): Server
    decreases |rooms|
  {
    if rooms == [] then io else EmitAll(EmitTo(io, rooms[0], event, NoData), rooms[1..], event)
  }

  // ---------------------------------------------------------------------
  // Token extraction and admission
  // ---------------------------------------------------------------------

  /** `a || b` on optional strings. */
  function Or(a: Option<string>, b: Option<string>): (r: Option<string>)
    ensures Truthy(a) ==> r == a
    ensures !Truthy(a) ==> r == b
  {
    if Truthy(a) then a else b
  }

  datatype Handshake = Handshake(
    authToken: Option<string>,
    queryToken: Option<string>,
    queryAuthToken: Option<string>,
    authorization: Option<string>,
    authorizationCapital: Option<string>)

  /** `s.split(' ')[0]`: the text before the first space. */
  function FirstWord(s: string): (w: string)
    ensures |w| <= |s| && w == s[..|w|]
    ensures ' ' !in w
    ensures |w| < |s| ==> s[|w|] == ' '
  {
    if s == [] || s[0] == ' ' then [] else [s[0]] + FirstWord(s[1..])
  }

  const BearerPrefix: string := "Bearer "

  /** `getTokenFromHandshake`: auth.token, else query.token or
      query.authToken, else the word after "Bearer " in the authorization
      header (lower-case name first); else none. */
  function GetToken(h: Handshake): (t: Option<string>)
    ensures Truthy(h.authToken) ==> t == h.authToken
    ensures !Truthy(h.authToken) && Truthy(Or(h.queryToken, h.queryAuthToken)) ==>
      t == Or(h.queryToken, h.queryAuthToken)
    ensures t.Some? && t != h.authToken && t != Or(h.queryToken, h.queryAuthToken) ==>
      var header := Or(h.authorization, h.authorizationCapital);
      header.Some? && StartsWith(header.value, BearerPrefix) &&
      t.value == FirstWord(header.value[|BearerPrefix|..])
    ensures !Truthy(h.authToken) && !Truthy(Or(h.queryToken, h.queryAuthToken)) ==>
      var header := Or(h.authorization, h.authorizationCapital);
      header.Some? && StartsWith(header.value, BearerPrefix) ==>
        t == Some(FirstWord(header.value[|BearerPrefix|..]))
    ensures t.None? <==>
      var header := Or(h.authorization, h.authorizationCapital);
      !Truthy(h.authToken) && !Truthy(Or(h.queryToken, h.queryAuthToken)) &&
      !(header.Some? && StartsWith(header.value, BearerPrefix))
  {
    if Truthy(h.authToken) then h.authToken
    else
      var query := Or(h.queryToken, h.queryAuthToken);
      if Truthy(query) then query
      else
        var header := Or(h.authorization, h.authorizationCapital);
        if Truthy(header) && StartsWith(header.value, BearerPrefix) then
          Some(FirstWord(header.value[|BearerPrefix|..]))
        else None
  }

  /** A token sent only as `Authorization: Bearer <t>` comes back intact. */
  lemma BearerRoundTrip(t: string)
    requires ' ' !in t
    ensures GetToken(Handshake(None, None, None, Some(BearerPrefix + t), None)) == Some(t)
  {
    var header := BearerPrefix + t;
    assert header[|BearerPrefix|..] == t;
    FirstWordOfWord(t);
  }

  lemma {:induction false} FirstWordOfWord(t: string)
    requires ' ' !in t
    ensures FirstWord(t) == t
  {
    if t != [] {
      FirstWordOfWord(t[1..]);
    }
  }

  /** A user record as the gateway sees it (`socket.data.user`). */
  datatype SocketUser = SocketUser(id: string, organizationID: Option<string>, role: string,
                                   firstName: string, lastName: string, email: string)

  /** `io.use(authenticateSocket)`: the user the connection is admitted as,
      or none (the connection is refused).  `verify` stands for
      `jwt.verify` and yields the decoded user id, or none when it throws. */
  function Admit(h: Handshake, verify: string -> Option<string>, users: map<string, SocketUser>): (u: Option<SocketUser>)
    ensures u.Some? <==>
      var t := GetToken(h);
      Truthy(t) && verify(t.value).Some? && verify(t.value).value in users
    ensures u.Some? ==> u.value == users[verify(GetToken(h).value).value]
  {
    var t := GetToken(h);
    if !Truthy(t) then None
    else
      match verify(t.value)
      case None => None
      case Some(id) => if id in users then Some(users[id]) else None
  }

  // ---------------------------------------------------------------------
  // Connected sockets
  // ---------------------------------------------------------------------

  datatype Socket = Socket(user: SocketUser, rooms: set<Room>)

  /** The `connection` handler: a user with an organization joins exactly its
      organization room and its own user room, and presence online is
      broadcast to the organization; a user without one joins nothing. */
  function Connect(io: Server, u: SocketUser): (res: (Socket, Server))
    ensures res.0.user == u
    ensures Truthy(u.organizationID) ==>
      res.0.rooms == {OrgRoom(u.organizationID.value), UserRoom(u.id)} &&
      res.1.outbox == io.outbox + [Emission(OrgRoom(u.organizationID.value), "org.member.presence", Presence(u.id, true), false)]
    ensures !Truthy(u.organizationID) ==> res.0.rooms == {} && res.1 == io
    ensures res.1.initialized == io.initialized
  {
    if Truthy(u.organizationID) then
      var org := OrgRoom(u.organizationID.value);
      (Socket(u, {org, UserRoom(u.id)}),
       io.(outbox := io.outbox + [Emission(org, "org.member.presence", Presence(u.id, true), false)]))
    else (Socket(u, {}), io)
  }

  /** The `disconnect` handler: presence offline to the organization room. */
  function Disconnect(io: Server, s: Socket): (io': Server)
    ensures Truthy(s.user.organizationID) ==>
      io'.outbox == io.outbox + [Emission(OrgRoom(s.user.organizationID.value), "org.member.presence", Presence(s.user.id, false), false)]
    ensures !Truthy(s.user.organizationID) ==> io' == io
    ensures io'.initialized == io.initialized
  {
    if Truthy(s.user.organizationID) then
      io.(outbox := io.outbox + [Emission(OrgRoom(s.user.organizationID.value), "org.member.presence", Presence(s.user.id, false), false)])
    else io
  }

  /** A connection followed by its disconnection announces exactly online
      then offline, and nothing else. */
  lemma ConnectThenDisconnect(io: Server, u: SocketUser)
    requires Truthy(u.organizationID)
    ensures var (s, io1) := Connect(io, u);
      Disconnect(io1, s).outbox == io.outbox +
        [Emission(OrgRoom(u.organizationID.value), "org.member.presence", Presence(u.id, true), false),
         Emission(OrgRoom(u.organizationID.value), "org.member.presence", Presence(u.id, false), false)]
  {
  }

  /** What the join handlers look up. */
  datatype Db = Db(
    projectOrg: map<string, string>,          // ProjectID -> OrganizationID
    taskProject: map<string, string>,         // TaskID -> ProjectID_FK
    participants: map<string, seq<string>>)   // conversation id -> participant ids

  /** `String(x)` of the caller's organization (null after removal). */
  function OrgText(o: Option<string>): string {
    if o.Some? then o.value else "null"
  }

  predicate SameOrg(db: Db, project: string, u: SocketUser) {
    project in db.projectOrg && db.projectOrg[project] == OrgText(u.organizationID)
  }

  predicate IsParticipant(db: Db, conversation: string, user: string) {
    conversation in db.participants && user in db.participants[conversation]
  }

  /** `project.join`: a silent no-op unless the project exists in the
      caller's organization. */
  function JoinProject(s: Socket, db: Db, projectId: string): (s': Socket)
    ensures s'.user == s.user
    ensures projectId != "" && SameOrg(db, projectId, s.user) ==> s'.rooms == s.rooms + {ProjectRoom(projectId)}
    ensures !(projectId != "" && SameOrg(db, projectId, s.user)) ==> s' == s
  {
    if projectId == "" || !SameOrg(db, projectId, s.user) then s
    else s.(rooms := s.rooms + {ProjectRoom(projectId)})
  }

  /** `task.join`: resolves the task to its project, then the same check. */
  function JoinTask(s: Socket, db: Db, taskId: string): (s': Socket)
    ensures s'.user == s.user
    ensures taskId != "" && taskId in db.taskProject && SameOrg(db, db.taskProject[taskId], s.user) ==>
      s'.rooms == s.rooms + {TaskRoom(taskId)}
    ensures !(taskId != "" && taskId in db.taskProject && SameOrg(db, db.taskProject[taskId], s.user)) ==> s' == s
  {
    if taskId == "" || taskId !in db.taskProject then s
    else if !SameOrg(db, db.taskProject[taskId], s.user) then s
    else s.(rooms := s.rooms + {TaskRoom(taskId)})
  }

  /** `conversation.join`: only a participant joins `chat:<id>`. */
  function JoinConversation(s: Socket, db: Db, conversationId: string): (s': Socket)
    ensures s'.user == s.user
    ensures conversationId != "" && IsParticipant(db, conversationId, s.user.id) ==>
      s'.rooms == s.rooms + {ChatRoom(conversationId)}
    ensures !(conversationId != "" && IsParticipant(db, conversationId, s.user.id)) ==> s' == s
  {
    if conversationId == "" || !IsParticipant(db, conversationId, s.user.id) then s
    else s.(rooms := s.rooms + {ChatRoom(conversationId)})
  }

  /** `project.leave`/`task.leave`/`conversation.leave`: after a non-empty
      id check, only that room is left. */
  function LeaveRoom(s: Socket, id: string, room: Room): (s': Socket)
    ensures s'.user == s.user
    ensures id != "" ==> s'.rooms == s.rooms - {room}
    ensures id == "" ==> s' == s
  {
    if id == "" then s else s.(rooms := s.rooms - {room})
  }

  /** Joining a project room that was not held and leaving it again
      restores the socket. */
  lemma JoinThenLeaveProject(s: Socket, db: Db, projectId: string)
    requires ProjectRoom(projectId) !in s.rooms
    ensures LeaveRoom(JoinProject(s, db, projectId), projectId, ProjectRoom(projectId)) == s
  {
    var s1 := JoinProject(s, db, projectId);
    if projectId != "" {
      assert s1.rooms - {ProjectRoom(projectId)} == s.rooms;
    }
  }

  /** The loosely typed `isTyping` flag of the payload. */
  datatype Flag = Missing | FlagBool(b: bool) | FlagNumber(n: int) | FlagText(t: string)

  /** `!!x`. */
  function Coerce(f: Flag): bool {
    match f
    case Missing => false
    case FlagBool(b) => b
    case FlagNumber(n) => n != 0
    case FlagText(t) => t != ""
  }

  /** `chat.typing`: relayed to the chat room minus the sender, with the flag
      coerced to a boolean; nothing without a conversation id. */
  function RelayTyping(io: Server, s: Socket, conversationId: string, isTyping: Flag): (io': Server)
    ensures conversationId == "" ==> io' == io
    ensures conversationId != "" ==>
      io'.outbox == io.outbox + [Emission(ChatRoom(conversationId), "chat.typing", Typing(conversationId, s.user.id, Coerce(isTyping)), true)]
    ensures io'.initialized == io.initialized
  {
    if conversationId == "" then io
    else io.(outbox := io.outbox + [Emission(ChatRoom(conversationId), "chat.typing", Typing(conversationId, s.user.id, Coerce(isTyping)), true)])
  }

  // ---------------------------------------------------------------------
  // Call signalling
  // ---------------------------------------------------------------------

  /** The gate of `call.initiate`: every field present, the caller is the
      authenticated user, and the caller participates in the conversation. */
  predicate InitiateAllowed(s: Socket, db: Db, recipientId: string, callerId: string, conversationId: string, callType: string) {
    recipientId != "" && callerId != "" && conversationId != "" && callType != "" &&
    callerId == s.user.id && IsParticipant(db, conversationId, callerId)
  }

  function CallInitiate(io: Server, s: Socket, db: Db, recipientId: string, callerId: string,
                        conversationId: string, callType: string): (io': Server)
    requires io.initialized
    ensures InitiateAllowed(s, db, recipientId, callerId, conversationId, callType) ==>
      io'.outbox == io.outbox + [
        Emission(UserRoom(recipientId), "call.incoming", Call(callerId, conversationId), false),
        Emission(ChatRoom(conversationId), "call.initiated", Call(callerId, conversationId), false)]
    ensures !InitiateAllowed(s, db, recipientId, callerId, conversationId, callType) ==> io' == io
  {
    if !InitiateAllowed(s, db, recipientId, callerId, conversationId, callType) then io
    else
      var io1 := EmitToUser(io, recipientId, "call.incoming", Call(callerId, conversationId));
      EmitToConversation(io1, conversationId, "call.initiated", Call(callerId, conversationId))
  }

  /** `call.answer` (event "call.answered") and `call.decline` (event
      "call.declined"): the caller's user room, then the chat room, both
      only when the sender participates. */
  function CallReply(io: Server, s: Socket, db: Db, callerId: string, conversationId: string, event: string): (io': Server)
    requires io.initialized
    ensures callerId != "" && conversationId != "" && IsParticipant(db, conversationId, s.user.id) ==>
      io'.outbox == io.outbox + [
        Emission(UserRoom(callerId), event, Call(s.user.id, conversationId), false),
        Emission(ChatRoom(conversationId), event, Call(s.user.id, conversationId), false)]
    ensures !(callerId != "" && conversationId != "" && IsParticipant(db, conversationId, s.user.id)) ==> io' == io
  {
    if callerId == "" || conversationId == "" || !IsParticipant(db, conversationId, s.user.id) then io
    else
      var io1 := EmitToUser(io, callerId, event, Call(s.user.id, conversationId));
      EmitToConversation(io1, conversationId, event, Call(s.user.id, conversationId))
  }

  function CallAnswer(io: Server, s: Socket, db: Db, callerId: string, conversationId: string): Server
    requires io.initialized
  {
    CallReply(io, s, db, callerId, conversationId, "call.answered")
  }

  function CallDecline(io: Server, s: Socket, db: Db, callerId: string, conversationId: string): Server
    requires io.initialized
  {
    CallReply(io, s, db, callerId, conversationId, "call.declined")
  }

  /** `call.end`: one emission to the chat room, participants only. */
  function CallEnd(io: Server, s: Socket, db: Db, conversationId: string): (io': Server)
    requires io.initialized
    ensures conversationId != "" && IsParticipant(db, conversationId, s.user.id) ==>
      io'.outbox == io.outbox + [Emission(ChatRoom(conversationId), "call.ended", Call(s.user.id, conversationId), false)]
    ensures !(conversationId != "" && IsParticipant(db, conversationId, s.user.id)) ==> io' == io
  {
    if conversationId == "" || !IsParticipant(db, conversationId, s.user.id) then io
    else EmitToConversation(io, conversationId, "call.ended", Call(s.user.id, conversationId))
  }

  /** `call.ice-candidate`: forwarded only to `user:<to>`, stamped with the
      sender as `from`. */
  function ForwardIceCandidate(io: Server, s: Socket, db: Db, candidate: string, to: string, conversationId: string): (io': Server)
    requires io.initialized
    ensures candidate != "" && to != "" && conversationId != "" && IsParticipant(db, conversationId, s.user.id) ==>
      io'.outbox == io.outbox + [Emission(UserRoom(to), "call.ice-candidate", IceCandidate(s.user.id, conversationId), false)]
    ensures !(candidate != "" && to != "" && conversationId != "" && IsParticipant(db, conversationId, s.user.id)) ==> io' == io
  {
    if candidate == "" || to == "" || conversationId == "" || !IsParticipant(db, conversationId, s.user.id) then io
    else EmitToUser(io, to, "call.ice-candidate", IceCandidate(s.user.id, conversationId))
  }

  /** No call handler ever emits on behalf of someone who is not a
      participant of the conversation. */
  lemma NonParticipantCallsAreSilent(io: Server, s: Socket, db: Db, other: string, conversationId: string, callType: string)
    requires io.initialized
    requires !IsParticipant(db, conversationId, s.user.id)
    ensures CallInitiate(io, s, db, other, s.user.id, conversationId, callType) == io
    ensures CallAnswer(io, s, db, other, conversationId) == io
    ensures CallDecline(io, s, db, other, conversationId) == io
    ensures CallEnd(io, s, db, conversationId) == io
    ensures ForwardIceCandidate(io, s, db, "c", other, conversationId) == io
  {
  }
}
