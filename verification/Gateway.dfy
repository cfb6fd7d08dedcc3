/**
 The connection side of server/src/realtime_server.ts: sockets, challenges,
 sessions, devices, rooms and presence, one handler per step.
 */
module Gateway {
  import opened Common
  import opened ChallengeStore
  import opened SessionRegistry
  import opened Handshake
  import opened MemoryDirectory
  import opened RealtimeStore

  datatype Config = Config(challengeTtlMs: int, sessionTtlMs: int, verify: Verifier)

  datatype Room = ConversationRoom(c: string) | AccountRoom(account: string) | DeviceRoom(deviceId: string)

  // `sockets` holds the connected sockets and the session bound to each.
  datatype Gateway = Gateway(
    devices: Devices, challenges: Challenges, sessions: Sessions, directory: Directory,
    sockets: map<string, Option<Session>>, rooms: set<(string, Room)>, presence: map<string, PresenceRecord>)
  {
    function Bound(socket: string): Option<Session> {
      if socket in sockets then sockets[socket] else None
    }

    function Join(socket: string, joined: set<Room>): Gateway {
      this.(rooms := rooms + set room | room in joined :: (socket, room))
    }
  }

  const NOBODY_CONNECTED := Gateway(map[], map[], map[], NOBODY, map[], {}, map[])

  function ConversationRooms(d: Directory, account: string): set<Room> {
    set c | c in d.ConversationsOf(account) :: ConversationRoom(c)
  }

  // onConnection
  function Connect(cfg: Config, g: Gateway, socket: string, challengeId: string, bytes: string, now: int): Gateway {
    g.(sockets := g.sockets[socket := None],
       challenges := Issue(g.challenges, challengeId,
                           Challenge(socket, WILDCARD, WILDCARD, bytes, now + cfg.challengeTtlMs), now))
  }

  function Verdict(cfg: Config, g: Gateway, socket: string, p: AuthPayload, sessionId: string, now: int)
    : (Stores, Outcome<Session, Rejection>)
  {
    Handle(cfg.verify, cfg.sessionTtlMs, Stores(g.devices, g.challenges, g.sessions), socket, p, sessionId, now)
  }

  // onAuthResponse; `admitted` is the verdict of the attempt counter, the rate
  // limits and the lockout.
  function Authenticate(cfg: Config, g: Gateway, socket: string, p: AuthPayload, admitted: bool, sessionId: string,
                        now: int)
    : Gateway
  {
    if !admitted then g
    else
      var (s, r) := Verdict(cfg, g, socket, p, sessionId, now);
      var g1 := g.(challenges := s.challenges, sessions := s.sessions);
      if r.Err? then g1
      else
        g1.(sockets := g1.sockets[socket := Some(r.value)])
          .Join(socket, {AccountRoom(r.value.accountId), DeviceRoom(r.value.deviceId)}
                        + ConversationRooms(g.directory, r.value.accountId))
  }

  // requireSession
  function RequireSession(cfg: Config, g: Gateway, socket: string, now: int): (Gateway, Option<Session>) {
    var bound := g.Bound(socket);
    if bound.None? then (g, None)
    else
      var (sessions, v) := Validate(g.sessions, bound.value.sessionId, socket, now, cfg.sessionTtlMs);
      (g.(sessions := sessions), if v.Valid? then bound else None)
  }

  // message.send, message.typing and a one-conversation sync, up to the room they
  // join; `proceeds` is false when a rate limit, a malformed payload or the dedup
  // window ends the handler before it joins.
  function OpenConversation(cfg: Config, g: Gateway, socket: string, c: string, proceeds: bool, now: int): Gateway {
    var (g1, session) := RequireSession(cfg, g, socket, now);
    if session.None? || !proceeds || !g1.directory.MayUse(c, session.value.accountId) then g1
    else g1.Join(socket, {ConversationRoom(c)})
  }

  // An account-wide sync.
  function OpenAll(cfg: Config, g: Gateway, socket: string, proceeds: bool, now: int): Gateway {
    var (g1, session) := RequireSession(cfg, g, socket, now);
    if session.None? || !proceeds then g1
    else g1.Join(socket, ConversationRooms(g1.directory, session.value.accountId))
  }

  // onPresenceUpdate
  function UpdatePresence(cfg: Config, g: Gateway, socket: string, record: PresenceRecord, proceeds: bool, now: int)
    : Gateway
  {
    var (g1, session) := RequireSession(cfg, g, socket, now);
    if session.None? || !proceeds then g1
    else g1.(presence := g1.presence[session.value.accountId := record])
  }

  // accountHasLiveSocket
  predicate HasLiveSocket(sockets: map<string, Option<Session>>, account: string) {
    exists s :: s in sockets && sockets[s].Some? && sockets[s].value.accountId == account
  }

  // onDisconnect, after the transport dropped the socket and its rooms.
  function Disconnect(g: Gateway, socket: string, now: int): Gateway {
    var bound, sockets := g.Bound(socket), g.sockets - {socket};
    var current := bound.Some? && bound.value.sessionId in g.sessions
                   && g.sessions[bound.value.sessionId].socketKey == socket;
    var gone := bound.Some? && !HasLiveSocket(sockets, bound.value.accountId);
    g.(sockets := sockets, rooms := (set m | m in g.rooms && m.0 != socket),
       sessions := if current then g.sessions - {bound.value.sessionId} else g.sessions,
       presence := if gone then g.presence[bound.value.accountId := PresenceRecord(false, now)] else g.presence)
  }

  datatype Action =
    | Connecting(socket: string, challengeId: string, bytes: string, now: int)
    | Authenticating(socket: string, p: AuthPayload, admitted: bool, sessionId: string, now: int)
    | Touching(socket: string, now: int)
    | Opening(socket: string, c: string, proceeds: bool, now: int)
    | OpeningAll(socket: string, proceeds: bool, now: int)
    | Presenting(socket: string, record: PresenceRecord, proceeds: bool, now: int)
    | Disconnecting(socket: string, now: int)
    | Registering(device: DeviceRecord)
    // The two halves of adminRevokeDevice, which an await separates.
    | MarkingRevoked(deviceId: string)
    | KillingSessions(deviceId: string)
    | RevokingSession(sessionId: string)
    | AddingMember(c: string, account: string)

  function Apply(cfg: Config, g: Gateway, a: Action): Gateway {
    match a
    case Connecting(s, id, bytes, now) => Connect(cfg, g, s, id, bytes, now)
    case Authenticating(s, p, admitted, id, now) => Authenticate(cfg, g, s, p, admitted, id, now)
    case Touching(s, now) => RequireSession(cfg, g, s, now).0
    case Opening(s, c, proceeds, now) => OpenConversation(cfg, g, s, c, proceeds, now)
    case OpeningAll(s, proceeds, now) => OpenAll(cfg, g, s, proceeds, now)
    case Presenting(s, record, proceeds, now) => UpdatePresence(cfg, g, s, record, proceeds, now)
    case Disconnecting(s, now) => Disconnect(g, s, now)
    case Registering(device) => g.(devices := Register(g.devices, device))
    case MarkingRevoked(d) => g.(devices := RevokeDevice(g.devices, d))
    case KillingSessions(d) => g.(sessions := WithoutDevice(g.sessions, d))
    case RevokingSession(id) => g.(sessions := g.sessions - {id})
    case AddingMember(c, account) => g.(directory := g.directory.AddMember(c, account))
  }
}
