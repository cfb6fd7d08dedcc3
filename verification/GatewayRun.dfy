/**
 Every run of the connection side: what its handlers keep true between them.
 */
module GatewayRun {
  import opened Common
  import opened ChallengeStore
  import opened SessionRegistry
  import opened Handshake
  import opened MemoryDirectory
  import opened RealtimeStore
  import opened Gateway

  datatype Ticket = Ticket(socket: string, expiresAtMs: int)

  // A successful handshake, with the device record it was checked against.
  datatype Success = Success(challengeId: string, socket: string, session: Session, device: DeviceRecord, at: int)

  // A gateway with its history.
  datatype Trace = Trace(
    g: Gateway, issued: map<string, Ticket>, usedSockets: set<string>, usedSessions: set<string>,
    successes: seq<Success>)

  const START := Trace(NOBODY_CONNECTED, map[], {}, {}, [])

  // Random ids are fresh, socket ids are never reused, and only connected sockets
  // have events.
  predicate Enabled(t: Trace, a: Action) {
    match a
    case Connecting(s, id, _, _) => s !in t.usedSockets && id !in t.issued
    case Authenticating(s, _, _, id, _) => s in t.g.sockets && id !in t.usedSessions
    case Touching(s, _) => s in t.g.sockets
    case Opening(s, _, _, _) => s in t.g.sockets
    case OpeningAll(s, _, _) => s in t.g.sockets
    case Presenting(s, _, _, _) => s in t.g.sockets
    case Disconnecting(s, _) => s in t.g.sockets
    case _ => true
  }

  predicate Succeeds(cfg: Config, g: Gateway, a: Action) {
    a.Authenticating? && a.admitted && Verdict(cfg, g, a.socket, a.p, a.sessionId, a.now).1.Ok?
  }

  function SuccessOf(cfg: Config, g: Gateway, a: Action): Success
    requires Succeeds(cfg, g, a)
  {
    Success(a.p.challengeId, a.socket, Verdict(cfg, g, a.socket, a.p, a.sessionId, a.now).1.value,
            g.devices[a.p.deviceId], a.now)
  }

  function Step(cfg: Config, t: Trace, a: Action): Trace {
    var g := Apply(cfg, t.g, a);
    if a.Connecting? then
      t.(g := g, usedSockets := t.usedSockets + {a.socket},
         issued := t.issued[a.challengeId := Ticket(a.socket, a.now + cfg.challengeTtlMs)])
    else if Succeeds(cfg, t.g, a) then
      t.(g := g, usedSessions := t.usedSessions + {a.sessionId},
         successes := t.successes + [SuccessOf(cfg, t.g, a)])
    else t.(g := g)
  }

  predicate EnabledRun(cfg: Config, t: Trace, actions: seq<Action>)
    decreases actions
  {
    actions == [] || (Enabled(t, actions[0]) && EnabledRun(cfg, Step(cfg, t, actions[0]), actions[1..]))
  }

  function Run(cfg: Config, t: Trace, actions: seq<Action>): Trace
    decreases actions
  {
    if actions == [] then t else Run(cfg, Step(cfg, t, actions[0]), actions[1..])
  }

  // ------------------------------------------------------------------
  // Handshakes
  // ------------------------------------------------------------------

  ghost predicate IssuedInv(t: Trace) {
    && (forall s :: s in t.g.sockets ==> s in t.usedSockets)
    && (forall id :: id in t.issued ==> t.issued[id].socket in t.usedSockets)
    && (forall id, other :: id in t.issued && other in t.issued && id != other ==>
          t.issued[id].socket != t.issued[other].socket)
    && (forall id :: id in t.g.challenges ==>
          id in t.issued && t.issued[id] == Ticket(t.g.challenges[id].socketKey, t.g.challenges[id].expiresAtMs))
  }

  // A success used up a challenge issued to its own socket, in time, for a device
  // active under the claimed identity.
  ghost predicate SuccessInv(t: Trace, x: Success) {
    && x.challengeId in t.issued && x.challengeId !in t.g.challenges
    && x.socket == t.issued[x.challengeId].socket && x.at <= t.issued[x.challengeId].expiresAtMs
    && x.session.socketKey == x.socket && x.session.sessionId in t.usedSessions
    && x.device.status == Active && x.device.deviceId == x.session.deviceId
    && x.device.accountId == x.session.accountId && x.device.novaId == x.session.novaId
  }

  ghost predicate Spent(t: Trace) {
    && (forall i :: 0 <= i < |t.successes| ==> SuccessInv(t, t.successes[i]))
    && (forall i, j :: 0 <= i < j < |t.successes| ==>
          && t.successes[i].challengeId != t.successes[j].challengeId
          && t.successes[i].session.sessionId != t.successes[j].session.sessionId)
    && (forall d :: d in t.g.devices ==> t.g.devices[d].deviceId == d)
  }

  // A bound session came from a success on that socket.
  ghost predicate BoundInv(t: Trace) {
    forall s :: s in t.g.sockets && t.g.sockets[s].Some? ==>
      exists i :: 0 <= i < |t.successes| && t.successes[i].socket == s && t.successes[i].session == t.g.sockets[s].value
  }

  ghost predicate HandshakeInv(t: Trace) {
    IssuedInv(t) && Spent(t) && BoundInv(t)
  }

  // A challenge still stored belongs to a socket without a session.
  lemma LiveChallengeUnbound(t: Trace, id: string)
    requires HandshakeInv(t) && id in t.g.challenges
    ensures t.g.Bound(t.g.challenges[id].socketKey).None?
  {
    assert forall i :: 0 <= i < |t.successes| ==> SuccessInv(t, t.successes[i]);
  }

  // The parts of a trace that the handshake invariant speaks of.
  ghost predicate SameHandshakes(t: Trace, u: Trace) {
    && u.g.sockets == t.g.sockets && u.g.challenges == t.g.challenges && u.g.devices == t.g.devices
    && u.issued == t.issued && u.usedSockets == t.usedSockets && u.usedSessions == t.usedSessions
    && u.successes == t.successes
  }

  lemma SuccessesKept(t: Trace, u: Trace)
    requires forall i :: 0 <= i < |t.successes| ==> SuccessInv(t, t.successes[i])
    requires forall id :: id in t.issued ==>
      id in u.issued && u.issued[id] == t.issued[id] && (id in u.g.challenges ==> id in t.g.challenges)
    requires t.usedSessions <= u.usedSessions
    ensures forall i :: 0 <= i < |t.successes| ==> SuccessInv(u, t.successes[i])
  {
    forall i | 0 <= i < |t.successes|
      ensures SuccessInv(u, t.successes[i])
    {
      assert SuccessInv(t, t.successes[i]);
    }
  }

  lemma ConnectIs(cfg: Config, g: Gateway, a: Action)
    requires a.Connecting?
    ensures
      var u := Apply(cfg, g, a);
      && u.sockets == g.sockets[a.socket := None] && u.devices == g.devices
      && forall id :: id in u.challenges ==>
           if id == a.challengeId
           then u.challenges[id].socketKey == a.socket && u.challenges[id].expiresAtMs == a.now + cfg.challengeTtlMs
           else id in g.challenges && u.challenges[id] == g.challenges[id]
  {
  }

  lemma ConnectingIssues(cfg: Config, t: Trace, a: Action)
    requires IssuedInv(t) && Enabled(t, a) && a.Connecting?
    ensures IssuedInv(Step(cfg, t, a))
  {
    hide Apply, Succeeds;
    ConnectIs(cfg, t.g, a);
  }

  lemma ConnectingHandshakes(cfg: Config, t: Trace, a: Action)
    requires HandshakeInv(t) && Enabled(t, a) && a.Connecting?
    ensures HandshakeInv(Step(cfg, t, a))
  {
    hide Apply, Succeeds;
    ConnectIs(cfg, t.g, a);
    SuccessesKept(t, Step(cfg, t, a));
    ConnectingIssues(cfg, t, a);
    hide IssuedInv, SuccessInv;
  }

  lemma DisconnectingHandshakes(cfg: Config, t: Trace, a: Action)
    requires HandshakeInv(t) && Enabled(t, a) && a.Disconnecting?
    ensures HandshakeInv(Step(cfg, t, a))
  {
    hide Disconnect;
    var u := Step(cfg, t, a);
    DisconnectIs(t.g, a.socket, a.now);
    hide Step, Apply;
    SuccessesKept(t, u);
  }

  lemma DevicesHandshakes(cfg: Config, t: Trace, a: Action)
    requires HandshakeInv(t) && (a.Registering? || a.MarkingRevoked?)
    ensures HandshakeInv(Step(cfg, t, a))
  {
    var u := Step(cfg, t, a);
    SuccessesKept(t, u);
  }

  // The rooms granted at authentication.
  function RoomsOf(d: Directory, s: Session): set<Room> {
    {AccountRoom(s.accountId), DeviceRoom(s.deviceId)} + ConversationRooms(d, s.accountId)
  }

  // What a successful handshake does to sockets, sessions and rooms.
  lemma SuccessIs(cfg: Config, g: Gateway, a: Action)
    requires Succeeds(cfg, g, a)
    ensures a.Authenticating? && a.p.AuthResponse?
    ensures
      var session := SuccessOf(cfg, g, a).session;
      var u := Apply(cfg, g, a);
      && session == NewSession(a.p, a.socket, a.sessionId, a.now, cfg.sessionTtlMs)
      && u.sockets == g.sockets[a.socket := Some(session)]
      && u.sessions == Create(g.sessions, session)
      && a.p.challengeId in g.challenges && u.challenges == g.challenges - {a.p.challengeId}
      && g.challenges[a.p.challengeId].socketKey == a.socket
      && a.now <= g.challenges[a.p.challengeId].expiresAtMs
      && u.directory == g.directory && u.presence == g.presence && u.devices == g.devices
      && DeviceFits(g.devices, a.p)
      && (forall m :: m in u.rooms <==> (m in g.rooms || (m.0 == a.socket && m.1 in RoomsOf(g.directory, session))))
  {
  }

  // A failed attempt changes nothing else.
  lemma FailureOnlyBurns(cfg: Config, g: Gateway, a: Action)
    requires a.Authenticating? && !Succeeds(cfg, g, a)
    ensures Apply(cfg, g, a) == g
         || (a.p.AuthResponse? && Apply(cfg, g, a) == g.(challenges := g.challenges - {a.p.challengeId}))
  {
  }

  lemma FailingHandshakes(cfg: Config, t: Trace, a: Action)
    requires HandshakeInv(t) && Enabled(t, a) && a.Authenticating? && !Succeeds(cfg, t.g, a)
    ensures HandshakeInv(Step(cfg, t, a))
  {
    FailureOnlyBurns(cfg, t.g, a);
    hide Apply, Succeeds, HandshakeInv;
    if Step(cfg, t, a) != t {
      BurnKeeps(t, a.p.challengeId);
    }
  }

  lemma BurnKeeps(t: Trace, id: string)
    requires HandshakeInv(t)
    ensures HandshakeInv(t.(g := t.g.(challenges := t.g.challenges - {id})))
  {
    SuccessesKept(t, t.(g := t.g.(challenges := t.g.challenges - {id})));
  }

  lemma SpentOneMore(t: Trace, u: Trace, x: Success)
    requires HandshakeInv(t) && x.challengeId in t.g.challenges && SuccessInv(u, x)
    requires x.session.sessionId !in t.usedSessions
    requires u.g.challenges == t.g.challenges - {x.challengeId} && u.g.devices == t.g.devices
    requires u.issued == t.issued && t.usedSessions <= u.usedSessions && u.successes == t.successes + [x]
    ensures Spent(u)
  {
    SuccessesKept(t, u);
    forall i | 0 <= i < |t.successes|
      ensures t.successes[i].challengeId != x.challengeId && t.successes[i].session.sessionId != x.session.sessionId
    {
      assert SuccessInv(t, t.successes[i]);
    }
  }

  lemma BoundOneMore(t: Trace, u: Trace, x: Success)
    requires BoundInv(t)
    requires u.g.sockets == t.g.sockets[x.socket := Some(x.session)] && u.successes == t.successes + [x]
    ensures BoundInv(u)
  {
    assert u.successes[|t.successes|] == x;
    forall s | s in u.g.sockets && u.g.sockets[s].Some?
      ensures exists i ::
        0 <= i < |u.successes| && u.successes[i].socket == s && u.successes[i].session == u.g.sockets[s].value
    {
      if s != x.socket {
        var i :| 0 <= i < |t.successes| && t.successes[i].socket == s && t.successes[i].session == t.g.sockets[s].value;
        assert u.successes[i] == t.successes[i];
      }
    }
  }

  lemma SucceedingHandshakes(cfg: Config, t: Trace, a: Action)
    requires HandshakeInv(t) && Enabled(t, a) && Succeeds(cfg, t.g, a)
    ensures HandshakeInv(Step(cfg, t, a))
    ensures t.g.Bound(a.socket).None?
  {
    hide Apply, Verdict, Succeeds, BoundInv, RoomsOf;
    var u, x := Step(cfg, t, a), SuccessOf(cfg, t.g, a);
    SuccessIs(cfg, t.g, a);
    LiveChallengeUnbound(t, a.p.challengeId);
    SpentOneMore(t, u, x);
    BoundOneMore(t, u, x);
  }

  lemma StepHandshakes(cfg: Config, t: Trace, a: Action)
    requires HandshakeInv(t) && Enabled(t, a)
    ensures HandshakeInv(Step(cfg, t, a))
  {
    hide HandshakeInv, Handle;
    match a
    case Connecting(_, _, _, _) => ConnectingHandshakes(cfg, t, a);
    case Authenticating(_, _, _, _, _) =>
      if Succeeds(cfg, t.g, a) {
        SucceedingHandshakes(cfg, t, a);
      } else {
        FailingHandshakes(cfg, t, a);
      }
    case Disconnecting(_, _) => DisconnectingHandshakes(cfg, t, a);
    case Registering(_) => DevicesHandshakes(cfg, t, a);
    case MarkingRevoked(_) => DevicesHandshakes(cfg, t, a);
    case _ => Unaffected(cfg, t, a);
  }

  lemma Unaffected(cfg: Config, t: Trace, a: Action)
    requires HandshakeInv(t)
    requires a.Touching? || a.Opening? || a.OpeningAll? || a.Presenting? || a.KillingSessions?
          || a.RevokingSession? || a.AddingMember?
    ensures SameHandshakes(t, Step(cfg, t, a)) && HandshakeInv(Step(cfg, t, a))
  {
    var u := Step(cfg, t, a);
    if a.Touching? || a.Opening? || a.OpeningAll? || a.Presenting? {
      RequireShrinks(cfg, t.g, a.socket, a.now);
    }
    hide RequireSession, HandshakeInv, ConversationRooms;
    assert SameHandshakes(t, u);
    SameIsKept(t, u);
  }

  lemma SameIsKept(t: Trace, u: Trace)
    requires HandshakeInv(t) && SameHandshakes(t, u)
    ensures HandshakeInv(u)
  {
    SuccessesKept(t, u);
  }

  // ------------------------------------------------------------------
  // Sessions
  // ------------------------------------------------------------------

  // The socket of a registered session is connected and bound to it.
  ghost predicate Attached(g: Gateway, s: Session) {
    var bound := g.Bound(s.socketKey);
    && bound.Some? && bound.value.sessionId == s.sessionId
    && bound.value.accountId == s.accountId && bound.value.deviceId == s.deviceId
  }

  ghost predicate SessionsInv(t: Trace) {
    && Keyed(t.g.sessions)
    && (forall id :: id in t.g.sessions ==> id in t.usedSessions && Attached(t.g, t.g.sessions[id]))
    && (forall id, other :: id in t.g.sessions && other in t.g.sessions && id != other ==>
          t.g.sessions[id].deviceId != t.g.sessions[other].deviceId)
  }

  // Some sessions gone, the others the same but for their expiry.
  ghost predicate Shrunk(s: Sessions, u: Sessions) {
    forall id :: id in u ==> id in s && u[id] == s[id].(expiresAtMs := u[id].expiresAtMs)
  }

  // requireSession touches nothing but the sessions, which it can only prune.
  lemma RequireShrinks(cfg: Config, g: Gateway, socket: string, now: int)
    ensures
      var (u, session) := RequireSession(cfg, g, socket, now);
      && u == g.(sessions := u.sessions) && Shrunk(g.sessions, u.sessions)
      && (session.Some? ==> g.Bound(socket) == session)
  {
  }

  lemma StepShrinks(cfg: Config, t: Trace, a: Action)
    requires !a.Connecting? && !a.Disconnecting? && !Succeeds(cfg, t.g, a)
    ensures Apply(cfg, t.g, a).sockets == t.g.sockets && Step(cfg, t, a).usedSessions == t.usedSessions
    ensures Shrunk(t.g.sessions, Apply(cfg, t.g, a).sessions)
  {
    if a.Authenticating? {
      FailureOnlyBurns(cfg, t.g, a);
    } else {
      hide Succeeds;
      if a.Touching? || a.Opening? || a.OpeningAll? || a.Presenting? {
        RequireShrinks(cfg, t.g, a.socket, a.now);
        hide RequireSession;
        assert Shrunk(t.g.sessions, Apply(cfg, t.g, a).sessions);
      }
    }
  }

  lemma ShrunkSessions(t: Trace, u: Trace)
    requires SessionsInv(t) && u.g.sockets == t.g.sockets && u.usedSessions == t.usedSessions
    requires Shrunk(t.g.sessions, u.g.sessions)
    ensures SessionsInv(u)
  {
    forall id | id in u.g.sessions
      ensures id in u.usedSessions && Attached(u.g, u.g.sessions[id])
    {
      assert Attached(t.g, t.g.sessions[id]);
    }
  }

  lemma CreatedSessions(t: Trace, u: Trace, session: Session)
    requires SessionsInv(t) && session.sessionId !in t.usedSessions && t.g.Bound(session.socketKey).None?
    requires u.g.sockets == t.g.sockets[session.socketKey := Some(session)]
    requires u.g.sessions == Create(t.g.sessions, session)
    requires u.usedSessions == t.usedSessions + {session.sessionId}
    ensures SessionsInv(u)
  {
    forall id | id in u.g.sessions
      ensures id in u.usedSessions && Attached(u.g, u.g.sessions[id]) && u.g.sessions[id].sessionId == id
    {
      if id != session.sessionId {
        assert u.g.sessions[id] == t.g.sessions[id] && Attached(t.g, t.g.sessions[id]);
      }
    }
  }

  lemma SucceedingSessions(cfg: Config, t: Trace, a: Action)
    requires SessionsInv(t) && Enabled(t, a) && Succeeds(cfg, t.g, a) && t.g.Bound(a.socket).None?
    ensures SessionsInv(Step(cfg, t, a))
  {
    SuccessIs(cfg, t.g, a);
    hide Apply, Verdict, Succeeds, SessionsInv;
    CreatedSessions(t, Step(cfg, t, a), SuccessOf(cfg, t.g, a).session);
  }

  lemma ConnectingSessions(cfg: Config, t: Trace, a: Action)
    requires SessionsInv(t) && IssuedInv(t) && Enabled(t, a) && a.Connecting?
    ensures SessionsInv(Step(cfg, t, a))
  {
    var u := Step(cfg, t, a);
    forall id | id in u.g.sessions
      ensures Attached(u.g, u.g.sessions[id])
    {
      assert Attached(t.g, t.g.sessions[id]);
    }
  }

  lemma DisconnectIs(g: Gateway, socket: string, now: int)
    ensures
      var u := Disconnect(g, socket, now);
      && u.sockets == g.sockets - {socket} && u.challenges == g.challenges && u.devices == g.devices
      && u.sessions == (if g.Bound(socket).Some? && g.Bound(socket).value.sessionId in g.sessions
                           && g.sessions[g.Bound(socket).value.sessionId].socketKey == socket
                        then g.sessions - {g.Bound(socket).value.sessionId} else g.sessions)
  {
    hide HasLiveSocket;
  }

  lemma DisconnectLeaves(g: Gateway, socket: string, now: int)
    ensures
      var u := Disconnect(g, socket, now);
      u.directory == g.directory && forall m :: m in u.rooms ==> m in g.rooms && m.0 != socket
  {
    hide HasLiveSocket;
  }

  // Presence after a disconnect: only that of the bound account can change, and it
  // does unless a live socket remains.
  lemma DisconnectPresence(g: Gateway, socket: string, now: int)
    ensures
      var u, bound := Disconnect(g, socket, now), g.Bound(socket);
      && (bound.Some? ==>
            var account := bound.value.accountId;
            HasLiveSocket(u.sockets, account) || (account in u.presence && !u.presence[account].online))
      && forall account :: account in u.presence && (bound.None? || account != bound.value.accountId) ==>
           account in g.presence && u.presence[account] == g.presence[account]
    ensures
      var u, bound := Disconnect(g, socket, now), g.Bound(socket);
      bound.Some? && HasLiveSocket(u.sockets, bound.value.accountId) ==> u.presence == g.presence
  {
    hide HasLiveSocket;
  }

  lemma DisconnectingSessions(cfg: Config, t: Trace, a: Action)
    requires SessionsInv(t) && a.Disconnecting?
    ensures SessionsInv(Step(cfg, t, a))
  {
    DisconnectIs(t.g, a.socket, a.now);
    hide Disconnect;
    var u := Step(cfg, t, a);
    forall id | id in u.g.sessions
      ensures id in u.usedSessions && Attached(u.g, u.g.sessions[id])
    {
      assert Attached(t.g, t.g.sessions[id]);
    }
  }

  // ------------------------------------------------------------------
  // Presence and rooms
  // ------------------------------------------------------------------

  ghost predicate PresenceInv(g: Gateway) {
    forall account :: account in g.presence && g.presence[account].online ==> HasLiveSocket(g.sockets, account)
  }

  ghost predicate Fits(d: Directory, room: Room, s: Session) {
    match room
    case ConversationRoom(c) => d.IsMember(c, s.accountId)
    case AccountRoom(account) => account == s.accountId
    case DeviceRoom(deviceId) => deviceId == s.deviceId
  }

  ghost predicate RoomsInv(g: Gateway) {
    && g.directory.Inverse()
    && (forall m :: m in g.rooms ==> g.Bound(m.0).Some? && Fits(g.directory, m.1, g.Bound(m.0).value))
  }

  lemma LiveSocketGrows(sockets: map<string, Option<Session>>, s: string, bound: Option<Session>, account: string)
    requires HasLiveSocket(sockets, account) && (s in sockets ==> sockets[s].None?)
    ensures HasLiveSocket(sockets[s := bound], account)
  {
    var k :| k in sockets && sockets[k].Some? && sockets[k].value.accountId == account;
    assert sockets[s := bound][k] == sockets[k];
  }

  lemma DisconnectingPresence(cfg: Config, g: Gateway, a: Action)
    requires PresenceInv(g) && a.Disconnecting?
    ensures PresenceInv(Apply(cfg, g, a))
  {
    hide Disconnect;
    var u := Apply(cfg, g, a);
    DisconnectIs(g, a.socket, a.now);
    DisconnectPresence(g, a.socket, a.now);
    forall account | account in u.presence && u.presence[account].online
        && (g.Bound(a.socket).None? || g.Bound(a.socket).value.accountId != account)
      ensures HasLiveSocket(u.sockets, account)
    {
      var k :| k in g.sockets && g.sockets[k].Some? && g.sockets[k].value.accountId == account;
      if k != a.socket {
        assert u.sockets[k] == g.sockets[k];
      }
    }
  }

  lemma StepPresence(cfg: Config, t: Trace, a: Action)
    requires PresenceInv(t.g) && IssuedInv(t) && Enabled(t, a)
    requires Succeeds(cfg, t.g, a) ==> t.g.Bound(a.socket).None?
    ensures PresenceInv(Apply(cfg, t.g, a))
  {
    var g, u := t.g, Apply(cfg, t.g, a);
    if a.Disconnecting? {
      DisconnectingPresence(cfg, g, a);
    } else if a.Connecting? || Succeeds(cfg, g, a) {
      if Succeeds(cfg, g, a) {
        SuccessIs(cfg, g, a);
      }
      hide Verdict, Succeeds;
      assert u.presence == g.presence;
      forall account | account in u.presence && u.presence[account].online
        ensures HasLiveSocket(u.sockets, account)
      {
        LiveSocketGrows(g.sockets, a.socket, u.sockets[a.socket], account);
      }
    } else {
      StepShrinks(cfg, t, a);
      if a.Authenticating? {
        FailureOnlyBurns(cfg, g, a);
      } else if a.Presenting? {
        var session := RequireSession(cfg, g, a.socket, a.now).1;
        assert session.Some? ==> HasLiveSocket(g.sockets, session.value.accountId);
      }
    }
  }

  lemma SucceedingRooms(cfg: Config, g: Gateway, a: Action)
    requires RoomsInv(g) && Succeeds(cfg, g, a) && g.Bound(a.socket).None?
    ensures RoomsInv(Apply(cfg, g, a))
  {
    SuccessIs(cfg, g, a);
    hide Apply, Verdict, Succeeds;
  }

  lemma ConnectingRooms(cfg: Config, t: Trace, a: Action)
    requires RoomsInv(t.g) && IssuedInv(t) && Enabled(t, a) && a.Connecting?
    ensures RoomsInv(Apply(cfg, t.g, a))
  {
  }

  lemma DisconnectingRooms(cfg: Config, g: Gateway, a: Action)
    requires RoomsInv(g) && a.Disconnecting?
    ensures RoomsInv(Apply(cfg, g, a))
  {
    hide Disconnect;
    var u := Apply(cfg, g, a);
    DisconnectIs(g, a.socket, a.now);
    DisconnectLeaves(g, a.socket, a.now);
    assert forall m :: m in u.rooms ==> u.Bound(m.0) == g.Bound(m.0);
  }

  // A room joined outside authentication is of a conversation of the bound account.
  lemma JoinedRooms(cfg: Config, g: Gateway, a: Action, m: (string, Room))
    requires (a.Opening? || a.OpeningAll?) && m in Apply(cfg, g, a).rooms && m !in g.rooms
    ensures m.0 == a.socket && m.1.ConversationRoom? && g.Bound(a.socket).Some?
    ensures
      var account := g.Bound(a.socket).value.accountId;
      g.directory.IsMember(m.1.c, account) || m.1.c in g.directory.ConversationsOf(account)
  {
    RequireShrinks(cfg, g, a.socket, a.now);
    hide RequireSession;
    var (g1, session) := RequireSession(cfg, g, a.socket, a.now);
    if a.Opening? {
      assert Apply(cfg, g, a) == OpenConversation(cfg, g, a.socket, a.c, a.proceeds, a.now);
      assert m == (a.socket, ConversationRoom(a.c));
    } else {
      assert Apply(cfg, g, a) == OpenAll(cfg, g, a.socket, a.proceeds, a.now);
      assert m in g1.Join(a.socket, ConversationRooms(g1.directory, session.value.accountId)).rooms;
    }
  }

  lemma JoiningRooms(cfg: Config, g: Gateway, a: Action)
    requires RoomsInv(g) && (a.Opening? || a.OpeningAll?)
    ensures RoomsInv(Apply(cfg, g, a))
  {
    var u := Apply(cfg, g, a);
    JoiningKeeps(cfg, g, a);
    hide Apply;
    forall m | m in u.rooms
      ensures u.Bound(m.0).Some? && Fits(u.directory, m.1, u.Bound(m.0).value)
    {
      if m !in g.rooms {
        JoinedRooms(cfg, g, a, m);
      }
    }
  }

  lemma JoiningKeeps(cfg: Config, g: Gateway, a: Action)
    requires a.Opening? || a.OpeningAll?
    ensures Apply(cfg, g, a).directory == g.directory && Apply(cfg, g, a).sockets == g.sockets
  {
    hide RequireSession;
    RequireShrinks(cfg, g, a.socket, a.now);
  }

  lemma AddingRooms(cfg: Config, g: Gateway, a: Action)
    requires RoomsInv(g) && a.AddingMember?
    ensures RoomsInv(Apply(cfg, g, a))
  {
    AddMemberInverse(g.directory, a.c, a.account);
    var u := Apply(cfg, g, a);
    assert forall m :: m in u.rooms ==> Fits(g.directory, m.1, g.Bound(m.0).value);
  }

  lemma StepRooms(cfg: Config, t: Trace, a: Action)
    requires RoomsInv(t.g) && IssuedInv(t) && Enabled(t, a)
    requires Succeeds(cfg, t.g, a) ==> t.g.Bound(a.socket).None?
    ensures RoomsInv(Apply(cfg, t.g, a))
  {
    if Succeeds(cfg, t.g, a) {
      SucceedingRooms(cfg, t.g, a);
    } else if a.Authenticating? {
      FailureOnlyBurns(cfg, t.g, a);
    } else if a.Connecting? {
      ConnectingRooms(cfg, t, a);
    } else if a.Disconnecting? {
      DisconnectingRooms(cfg, t.g, a);
    } else if a.Opening? || a.OpeningAll? {
      JoiningRooms(cfg, t.g, a);
    } else if a.AddingMember? {
      AddingRooms(cfg, t.g, a);
    } else {
      assert Apply(cfg, t.g, a).rooms == t.g.rooms && Apply(cfg, t.g, a).directory == t.g.directory;
      assert Apply(cfg, t.g, a).sockets == t.g.sockets;
    }
  }

  // ------------------------------------------------------------------
  // Every run
  // ------------------------------------------------------------------

  ghost predicate Inv(t: Trace) {
    HandshakeInv(t) && SessionsInv(t) && PresenceInv(t.g) && RoomsInv(t.g)
  }

  lemma StepSessions(cfg: Config, t: Trace, a: Action)
    requires SessionsInv(t) && IssuedInv(t) && Enabled(t, a)
    requires Succeeds(cfg, t.g, a) ==> t.g.Bound(a.socket).None?
    ensures SessionsInv(Step(cfg, t, a))
  {
    hide SessionsInv, Succeeds, Shrunk;
    if Succeeds(cfg, t.g, a) {
      SucceedingSessions(cfg, t, a);
    } else if a.Connecting? {
      ConnectingSessions(cfg, t, a);
    } else if a.Disconnecting? {
      DisconnectingSessions(cfg, t, a);
    } else {
      StepShrinks(cfg, t, a);
      hide Apply;
      ShrunkSessions(t, Step(cfg, t, a));
    }
  }

  lemma StepInv(cfg: Config, t: Trace, a: Action)
    requires Inv(t) && Enabled(t, a)
    ensures Inv(Step(cfg, t, a))
  {
    hide SessionsInv, Succeeds, PresenceInv, RoomsInv, Apply, Enabled, IssuedInv, Spent, BoundInv;
    if Succeeds(cfg, t.g, a) {
      SucceedingHandshakes(cfg, t, a);
    }
    StepHandshakes(cfg, t, a);
    StepSessions(cfg, t, a);
    StepPresence(cfg, t, a);
    StepRooms(cfg, t, a);
    assert Step(cfg, t, a).g == Apply(cfg, t.g, a);
  }

  lemma {:induction false} RunInv(cfg: Config, t: Trace, actions: seq<Action>)
    requires Inv(t) && EnabledRun(cfg, t, actions)
    ensures Inv(Run(cfg, t, actions))
    decreases actions
  {
    hide Inv, Apply;
    if actions == [] {
    } else {
      StepInv(cfg, t, actions[0]);
      RunInv(cfg, Step(cfg, t, actions[0]), actions[1..]);
    }
  }

  lemma StartInv()
    ensures Inv(START)
  {
  }

  // Each challenge yields at most one success and each connection at most one
  // session; a success is in time, on the challenge's own socket, and for a device
  // active under the claimed account and nova id.
  lemma HandshakesConserved(cfg: Config, actions: seq<Action>)
    requires EnabledRun(cfg, START, actions)
    ensures
      var t := Run(cfg, START, actions);
      && (forall i :: 0 <= i < |t.successes| ==> SuccessInv(t, t.successes[i]))
      && (forall i, j :: 0 <= i < j < |t.successes| ==>
            && t.successes[i].challengeId != t.successes[j].challengeId
            && t.successes[i].session.sessionId != t.successes[j].session.sessionId
            && t.successes[i].socket != t.successes[j].socket)
  {
    StartInv();
    RunInv(cfg, START, actions);
    var t := Run(cfg, START, actions);
    forall i, j | 0 <= i < j < |t.successes|
      ensures t.successes[i].socket != t.successes[j].socket
    {
      assert SuccessInv(t, t.successes[i]) && SuccessInv(t, t.successes[j]);
    }
  }

  // A stored status of online always has a connected socket behind it.
  lemma PresenceSound(cfg: Config, actions: seq<Action>, account: string)
    requires EnabledRun(cfg, START, actions)
    ensures
      var g := Run(cfg, START, actions).g;
      account in g.presence && g.presence[account].online ==> HasLiveSocket(g.sockets, account)
  {
    StartInv();
    RunInv(cfg, START, actions);
  }

  // The sockets that a conversation-wide packet of `emitter` goes to.
  function Recipients(g: Gateway, c: string, emitter: string): set<string> {
    set m | m in g.rooms && m.1 == ConversationRoom(c) && m.0 != emitter :: m.0
  }

  // Conversation packets reach members' sockets only, and never their emitter.
  lemma RoomsSound(cfg: Config, actions: seq<Action>, c: string, emitter: string)
    requires EnabledRun(cfg, START, actions)
    ensures
      var g := Run(cfg, START, actions).g;
      && emitter !in Recipients(g, c, emitter)
      && forall s :: s in Recipients(g, c, emitter) ==>
           s in g.sockets && g.sockets[s].Some? && g.directory.IsMember(c, g.sockets[s].value.accountId)
  {
    StartInv();
    RunInv(cfg, START, actions);
    var g := Run(cfg, START, actions).g;
    forall s | s in Recipients(g, c, emitter)
      ensures g.Bound(s).Some? && g.directory.IsMember(c, g.Bound(s).value.accountId)
    {
      assert (s, ConversationRoom(c)) in g.rooms;
      assert Fits(g.directory, (s, ConversationRoom(c)).1, g.Bound(s).value);
    }
  }

  // Every registered session is attached to its own connected socket, and no
  // device has two.
  lemma SessionsSound(cfg: Config, actions: seq<Action>)
    requires EnabledRun(cfg, START, actions)
    ensures
      var g := Run(cfg, START, actions).g;
      && (forall id :: id in g.sessions ==> Attached(g, g.sessions[id]))
      && (forall id, other :: id in g.sessions && other in g.sessions && id != other ==>
            g.sessions[id].deviceId != g.sessions[other].deviceId)
  {
    StartInv();
    RunInv(cfg, START, actions);
  }

  // ------------------------------------------------------------------
  // Sessions do not come back
  // ------------------------------------------------------------------

  lemma StepRetired(cfg: Config, t: Trace, a: Action, id: string)
    requires Enabled(t, a) && id in t.usedSessions && id !in t.g.sessions
    ensures id in Step(cfg, t, a).usedSessions && id !in Step(cfg, t, a).g.sessions
  {
    if Succeeds(cfg, t.g, a) {
      SuccessIs(cfg, t.g, a);
    } else if a.Connecting? {
    } else if a.Disconnecting? {
      DisconnectIs(t.g, a.socket, a.now);
    } else {
      StepShrinks(cfg, t, a);
    }
  }

  lemma {:induction false} RunRetired(cfg: Config, t: Trace, actions: seq<Action>, id: string)
    requires EnabledRun(cfg, t, actions) && id in t.usedSessions && id !in t.g.sessions
    ensures id !in Run(cfg, t, actions).g.sessions
    decreases actions
  {
    hide Apply, Step;
    if actions == [] {
    } else {
      StepRetired(cfg, t, actions[0], id);
      RunRetired(cfg, Step(cfg, t, actions[0]), actions[1..], id);
    }
  }

  // An id once evicted, revoked or expired never validates again, on any socket.
  lemma NeverResurrected(cfg: Config, t: Trace, actions: seq<Action>, id: string, socket: string, now: int)
    requires EnabledRun(cfg, t, actions) && id in t.usedSessions && id !in t.g.sessions
    ensures Validate(Run(cfg, t, actions).g.sessions, id, socket, now, cfg.sessionTtlMs).1 == Invalid
  {
    RunRetired(cfg, t, actions, id);
  }

  // ------------------------------------------------------------------
  // Revocation
  // ------------------------------------------------------------------

  predicate Inactive(g: Gateway, d: string) {
    d in g.devices ==> g.devices[d].status != Active
  }

  ghost predicate NoSession(g: Gateway, d: string) {
    forall id :: id in g.sessions ==> g.sessions[id].deviceId != d
  }

  predicate Registers(a: Action, d: string) {
    a.Registering? && a.device.deviceId == d
  }

  lemma StepInactive(cfg: Config, t: Trace, a: Action, d: string)
    requires Inactive(t.g, d) && !Registers(a, d)
    ensures Inactive(Step(cfg, t, a).g, d)
    ensures NoSession(t.g, d) ==> NoSession(Step(cfg, t, a).g, d)
  {
    if Succeeds(cfg, t.g, a) {
      SuccessIs(cfg, t.g, a);
    } else if a.Authenticating? {
      FailureOnlyBurns(cfg, t.g, a);
    } else if a.Disconnecting? {
      DisconnectIs(t.g, a.socket, a.now);
    } else if a.Connecting? {
    } else {
      StepShrinks(cfg, t, a);
      hide Succeeds;
      forall id | id in Apply(cfg, t.g, a).sessions
        ensures Apply(cfg, t.g, a).sessions[id].deviceId == t.g.sessions[id].deviceId
      {
      }
    }
  }

  lemma {:induction false} RunInactive(cfg: Config, t: Trace, actions: seq<Action>, d: string)
    requires Inactive(t.g, d) && forall k :: 0 <= k < |actions| ==> !Registers(actions[k], d)
    ensures Inactive(Run(cfg, t, actions).g, d)
    ensures NoSession(t.g, d) ==> NoSession(Run(cfg, t, actions).g, d)
    decreases actions
  {
    hide Apply, Step, NoSession, Inactive;
    if actions == [] {
    } else {
      StepInactive(cfg, t, actions[0], d);
      RunInactive(cfg, Step(cfg, t, actions[0]), actions[1..], d);
    }
  }

  // A session that validates is of the device bound to the socket.
  lemma PassedDevice(cfg: Config, t: Trace, socket: string, now: int)
    requires Inv(t) && RequireSession(cfg, t.g, socket, now).1.Some?
    ensures
      var id := RequireSession(cfg, t.g, socket, now).1.value.sessionId;
      && id in t.g.sessions
      && t.g.sessions[id].deviceId == RequireSession(cfg, t.g, socket, now).1.value.deviceId
  {
    var id := t.g.Bound(socket).value.sessionId;
    assert Attached(t.g, t.g.sessions[id]);
  }

  // adminRevokeDevice, with arbitrary steps between its two halves.
  function Revocation(cfg: Config, t: Trace, d: string, between: seq<Action>, after: seq<Action>): Trace {
    Run(cfg, Step(cfg, Run(cfg, Step(cfg, t, MarkingRevoked(d)), between), KillingSessions(d)), after)
  }

  predicate EnabledRevocation(cfg: Config, t: Trace, d: string, between: seq<Action>, after: seq<Action>) {
    && EnabledRun(cfg, Step(cfg, t, MarkingRevoked(d)), between)
    && EnabledRun(cfg, Step(cfg, Run(cfg, Step(cfg, t, MarkingRevoked(d)), between), KillingSessions(d)), after)
    && (forall k :: 0 <= k < |between| ==> !Registers(between[k], d))
    && (forall k :: 0 <= k < |after| ==> !Registers(after[k], d))
  }

  lemma MarkedInactive(cfg: Config, t: Trace, d: string)
    ensures Inactive(Step(cfg, t, MarkingRevoked(d)).g, d)
  {
  }

  lemma KilledNoSession(cfg: Config, t: Trace, d: string)
    requires Inactive(t.g, d)
    ensures Inactive(Step(cfg, t, KillingSessions(d)).g, d) && NoSession(Step(cfg, t, KillingSessions(d)).g, d)
  {
  }

  // Once the kill has run, and until the device is registered again, the device
  // has no session, and no event of a socket bound to it passes the session guard.
  lemma RevocationHolds(cfg: Config, before: seq<Action>, d: string, between: seq<Action>, after: seq<Action>,
                        socket: string, now: int)
    requires EnabledRun(cfg, START, before)
    requires EnabledRevocation(cfg, Run(cfg, START, before), d, between, after)
    ensures
      var g := Revocation(cfg, Run(cfg, START, before), d, between, after).g;
      && NoSession(g, d)
      && (g.Bound(socket).Some? && g.Bound(socket).value.deviceId == d ==>
            RequireSession(cfg, g, socket, now).1.None?)
  {
    hide Inv, Apply, Step, NoSession, Inactive, Enabled;
    var t := Run(cfg, START, before);
    var marked := Step(cfg, t, MarkingRevoked(d));
    var late := Run(cfg, marked, between);
    var killed := Step(cfg, late, KillingSessions(d));
    MarkedInactive(cfg, t, d);
    RunInactive(cfg, marked, between, d);
    KilledNoSession(cfg, late, d);
    RunInactive(cfg, killed, after, d);
    StartInv();
    RunInv(cfg, START, before);
    AdminStepsInv(cfg, t, d);
    RunInv(cfg, marked, between);
    AdminStepsInv(cfg, late, d);
    RunInv(cfg, killed, after);
    var g := Run(cfg, killed, after).g;
    if g.Bound(socket).Some? && g.Bound(socket).value.deviceId == d {
      GuardRefuses(cfg, Run(cfg, killed, after), d, socket, now);
    }
  }

  lemma AdminStepsInv(cfg: Config, t: Trace, d: string)
    requires Inv(t)
    ensures Inv(Step(cfg, t, MarkingRevoked(d))) && Inv(Step(cfg, t, KillingSessions(d)))
  {
    hide Inv, Apply;
    StepInv(cfg, t, MarkingRevoked(d));
    StepInv(cfg, t, KillingSessions(d));
  }

  lemma GuardRefuses(cfg: Config, t: Trace, d: string, socket: string, now: int)
    requires Inv(t) && NoSession(t.g, d) && t.g.Bound(socket).Some? && t.g.Bound(socket).value.deviceId == d
    ensures RequireSession(cfg, t.g, socket, now).1.None?
  {
    if RequireSession(cfg, t.g, socket, now).1.Some? {
      PassedDevice(cfg, t, socket, now);
    }
  }
}
