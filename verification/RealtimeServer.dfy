/**
 The server object of server/src/realtime_server.ts: each handler in place, shown
 to take the steps that the runs in GatewayRun, Messaging and Sync are made of.
 The verdicts of rate limits and payload parsing are parameters.
 */
module RealtimeServer {
  import opened Common
  import ChallengeStore
  import SessionRegistry
  import opened Handshake
  import MemoryDirectory
  import opened MessageDedup
  import opened RealtimeStore
  import Messaging
  import Sync
  import G = Gateway

  datatype ErrorCode = Forbidden | SessionExpired | RateLimited | PayloadInvalid

  // The error of a refused event: the session guard comes first, then the rate
  // limit, then the payload, then membership.
  function RefusalOf(g: G.Gateway, socket: string, passed: bool, rateOk: bool, wellFormed: bool): ErrorCode {
    if !passed then (if g.Bound(socket).None? then Forbidden else SessionExpired)
    else if !rateOk then RateLimited
    else if !wellFormed then PayloadInvalid
    else Forbidden
  }

  // An unauthenticated socket is told FORBIDDEN and a lapsed session SESSION_EXPIRED,
  // whatever else is wrong; an authorized, well-formed event within its rate gets none.
  lemma RefusalOrder(g: G.Gateway, socket: string, rateOk: bool, wellFormed: bool)
    ensures g.Bound(socket).None? ==> RefusalOf(g, socket, false, rateOk, wellFormed) == Forbidden
    ensures g.Bound(socket).Some? ==> RefusalOf(g, socket, false, rateOk, wellFormed) == SessionExpired
    ensures !rateOk ==> RefusalOf(g, socket, true, rateOk, wellFormed) == RateLimited
    ensures rateOk && !wellFormed ==> RefusalOf(g, socket, true, rateOk, wellFormed) == PayloadInvalid
    ensures rateOk && wellFormed ==> RefusalOf(g, socket, true, rateOk, wellFormed) == Forbidden
  {
  }

  class RealtimeServer {
    const verify: Verifier
    const syncPageLimit: nat
    const devices: DeviceRegistry
    const challenges: ChallengeStore.ChallengeStore
    const sessions: SessionRegistry.SessionRegistry
    const directory: MemoryDirectory.MemoryDirectory
    const store: MemoryRealtimeStore
    const dedup: MessageDedup<Messaging.DedupKey>
    var sockets: map<string, Option<SessionRegistry.Session>>
    var rooms: set<(string, G.Room)>

    ghost function Config(): G.Config {
      G.Config(challenges.ttlMs, sessions.sessionTtlMs, verify)
    }

    ghost function Gate(): G.Gateway
      reads this, devices, challenges, sessions, directory, store
    {
      G.Gateway(devices.records, challenges.challenges, sessions.sessions, directory.Abs(), sockets, rooms,
                store.presence)
    }

    ghost function Log(): Messaging.State
      reads store, dedup
    {
      Messaging.State(store.Abs(), dedup.history, dedup.windowSize)
    }

    ghost predicate Valid()
      reads sessions, dedup
    {
      SessionRegistry.Keyed(sessions.sessions) && dedup.Valid() && syncPageLimit >= 1
    }

    constructor (verify: Verifier, syncPageLimit: nat, challengeTtlMs: int, sessionTtlMs: int, windowSize: nat)
      requires syncPageLimit >= 1
      ensures Valid() && Gate() == G.NOBODY_CONNECTED && Log() == Messaging.Start(windowSize)
      ensures Config() == G.Config(challengeTtlMs, sessionTtlMs, verify)
    {
      this.verify, this.syncPageLimit := verify, syncPageLimit;
      devices := new DeviceRegistry();
      challenges := new ChallengeStore.ChallengeStore(challengeTtlMs);
      sessions := new SessionRegistry.SessionRegistry(sessionTtlMs);
      directory := new MemoryDirectory.MemoryDirectory();
      store := new MemoryRealtimeStore();
      dedup := new MessageDedup<Messaging.DedupKey>(windowSize);
      sockets, rooms := map[], {};
    }

    // ----------------------------------------------------------------
    // Connection
    // ----------------------------------------------------------------

    method OnConnection(socket: string, challengeId: string, bytes: string, now: int)
      requires Valid()
      modifies this, challenges
      ensures Valid() && Log() == old(Log())
      ensures Gate() == G.Apply(Config(), old(Gate()), G.Connecting(socket, challengeId, bytes, now))
    {
      sockets := sockets[socket := None];
      var _ := challenges.IssueChallenge(challengeId, bytes, socket, ChallengeStore.WILDCARD,
                                         ChallengeStore.WILDCARD, now);
    }

    method OnAuthResponse(socket: string, p: AuthPayload, admitted: bool, sessionId: string, now: int)
      returns (session: Option<SessionRegistry.Session>)
      requires Valid()
      modifies this, challenges, sessions
      ensures Valid() && Log() == old(Log())
      ensures Gate() == G.Apply(Config(), old(Gate()), G.Authenticating(socket, p, admitted, sessionId, now))
      ensures session.Some? <==>
        admitted && G.Verdict(Config(), old(Gate()), socket, p, sessionId, now).1.Ok?
    {
      if !admitted {
        return None;
      }
      hide Handle;
      var engine := new HandshakeEngine(devices, challenges, sessions);
      var r, evicted := engine.HandleAuthResponse(verify, socket, p, sessionId, now);
      if r.Err? {
        return None;
      }
      sockets := sockets[socket := Some(r.value)];
      JoinGranted(socket, r.value);
      return Some(r.value);
    }

    // The rooms of an authenticated session.
    method JoinGranted(socket: string, s: SessionRegistry.Session)
      modifies this`rooms
      ensures rooms == old(rooms) + set room |
        room in {G.AccountRoom(s.accountId), G.DeviceRoom(s.deviceId)}
                + G.ConversationRooms(directory.Abs(), s.accountId)
        :: (socket, room)
    {
      JoinRooms(socket, {G.AccountRoom(s.accountId), G.DeviceRoom(s.deviceId)});
      JoinListed(socket, s.accountId);
    }

    method JoinRooms(socket: string, joined: set<G.Room>)
      modifies this`rooms
      ensures rooms == old(rooms) + set room | room in joined :: (socket, room)
    {
      rooms := rooms + set room | room in joined :: (socket, room);
    }

    // Joins the room of every conversation the directory lists for the account.
    method JoinListed(socket: string, account: string)
      modifies this`rooms
      ensures rooms
           == old(rooms) + set room | room in G.ConversationRooms(directory.Abs(), account) :: (socket, room)
    {
      var listed := directory.Abs().ConversationsOf(account);
      for i := 0 to |listed|
        invariant rooms == old(rooms) + set k | 0 <= k < i :: (socket, G.ConversationRoom(listed[k]))
      {
        rooms := rooms + {(socket, G.ConversationRoom(listed[i]))};
      }
      ghost var joined := set room | room in G.ConversationRooms(directory.Abs(), account) :: (socket, room);
      forall k | 0 <= k < |listed|
        ensures (socket, G.ConversationRoom(listed[k])) in joined
      {
        assert G.ConversationRoom(listed[k]) in G.ConversationRooms(directory.Abs(), account);
      }
    }

    method RequireSession(socket: string, now: int) returns (r: Outcome<SessionRegistry.Session, ErrorCode>)
      requires Valid()
      modifies sessions
      ensures Valid() && Log() == old(Log())
      ensures Gate() == G.RequireSession(Config(), old(Gate()), socket, now).0
      ensures G.RequireSession(Config(), old(Gate()), socket, now).1 == if r.Ok? then Some(r.value) else None
      ensures r.Err? ==> r.error == if old(Gate()).Bound(socket).None? then Forbidden else SessionExpired
    {
      if socket !in sockets || sockets[socket].None? {
        return Err(Forbidden);
      }
      var session := sockets[socket].value;
      var validation := sessions.ValidateSession(session.sessionId, socket, now);
      if !validation.Valid? {
        return Err(SessionExpired);
      }
      return Ok(session);
    }

    method OnDisconnect(socket: string, now: int)
      requires Valid()
      modifies this, sessions, store`presence
      ensures Valid() && Log() == old(Log())
      ensures Gate() == G.Apply(Config(), old(Gate()), G.Disconnecting(socket, now))
    {
      hide G.HasLiveSocket;
      var bound := if socket in sockets then sockets[socket] else None;
      sockets := sockets - {socket};
      rooms := set m | m in rooms && m.0 != socket;
      if bound.None? {
        return;
      }
      var session := bound.value;
      if session.sessionId in sessions.sessions && sessions.sessions[session.sessionId].socketKey == socket {
        sessions.Revoke(session.sessionId);
      }
      var live := AccountHasLiveSocket(session.accountId);
      if live {
        return;
      }
      store.SetPresence(session.accountId, PresenceRecord(false, now));
    }

    method AccountHasLiveSocket(account: string) returns (live: bool)
      ensures live <==> G.HasLiveSocket(sockets, account)
    {
      var rest := sockets.Keys;
      while rest != {}
        invariant rest <= sockets.Keys
        invariant forall s :: s in sockets && s !in rest ==>
          !(sockets[s].Some? && sockets[s].value.accountId == account)
        decreases rest
      {
        var s :| s in rest;
        rest := rest - {s};
        if sockets[s].Some? && sockets[s].value.accountId == account {
          return true;
        }
      }
      return false;
    }

    // ----------------------------------------------------------------
    // Messages
    // ----------------------------------------------------------------

    // `env` is None when the payload does not parse.
    method OnMessageSend(socket: string, rateOk: bool, env: Option<Messaging.Envelope>, now: int)
      returns (r: Outcome<Messaging.Ack, ErrorCode>)
      requires Valid() && |dedup.history| < MAX_SAFE_INTEGER
      modifies this`rooms, sessions, dedup, store`cursors, store`messages, store`logCursors, store`eventLog
      ensures Valid()
      ensures
        var session := G.RequireSession(Config(), old(Gate()), socket, now).1;
        if session.Some? && rateOk && env.Some?
           && old(Gate()).directory.MayUse(env.value.conversationId, session.value.accountId)
        then
          var s := session.value;
          && r.Ok? && (Log(), r.value) == Messaging.Send(old(Log()), env.value, s.accountId, s.deviceId, now)
          && Gate() == G.Apply(Config(), old(Gate()),
                               G.Opening(socket, env.value.conversationId, !r.value.duplicate, now))
        else
          && r == Err(RefusalOf(old(Gate()), socket, session.Some?, rateOk, env.Some?)) && Log() == old(Log())
          && Gate() == G.Apply(Config(), old(Gate()), G.Touching(socket, now))
    {
      hide G.RequireSession, Messaging.Send;
      var guard := RequireSession(socket, now);
      if guard.Err? {
        return Err(guard.error);
      }
      var session := guard.value;
      if !rateOk {
        return Err(RateLimited);
      }
      if env.None? {
        return Err(PayloadInvalid);
      }
      var e := env.value;
      if !directory.Abs().MayUse(e.conversationId, session.accountId) {
        return Err(Forbidden);
      }
      var ack := AcceptEnvelope(e, session.accountId, session.deviceId, now);
      if !ack.duplicate {
        JoinRooms(socket, {G.ConversationRoom(e.conversationId)});
      }
      return Ok(ack);
    }

    // The part of onMessageSend that is about the message alone.
    method AcceptEnvelope(e: Messaging.Envelope, accountId: string, deviceId: string, now: int)
      returns (ack: Messaging.Ack)
      requires Valid() && |dedup.history| < MAX_SAFE_INTEGER
      modifies dedup, store`cursors, store`messages, store`logCursors, store`eventLog
      ensures Valid() && (Log(), ack) == Messaging.Send(old(Log()), e, accountId, deviceId, now)
    {
      hide TouchedWithin, Recent;
      var isNew := dedup.Accept(Messaging.DedupKey(accountId, e.Key()));
      if !isNew {
        var original := store.Abs().Find(e.Key());
        var sameOrigin := original.Some? && original.value.senderAccountId == accountId
                          && original.value.conversationId == e.conversationId;
        return Messaging.Ack(e.messageId, e.conversationId, if sameOrigin then original.value.serverSeq else 0,
                             None, true, e.recipientDeviceId);
      }
      var serverSeq := store.NextSeq(e.conversationId);
      var stored := Message(e.Key(), e.conversationId, accountId, deviceId, e.ciphertext, e.headerType, serverSeq, now);
      store.PersistMessage(stored);
      var logSeq := store.AppendEvent(e.conversationId, New(stored), serverSeq, now);
      return Messaging.Ack(e.messageId, e.conversationId, serverSeq, Some(logSeq), false, e.recipientDeviceId);
    }

    // `wellFormed` is false when the two ids are not both texts.
    method OnMessageDelivered(socket: string, rateOk: bool, wellFormed: bool, c: string, key: StorageKey, now: int)
      returns (r: Outcome<nat, ErrorCode>)
      requires Valid()
      modifies sessions, store`logCursors, store`eventLog
      ensures Valid() && Gate() == G.Apply(Config(), old(Gate()), G.Touching(socket, now))
      ensures
        var session := G.RequireSession(Config(), old(Gate()), socket, now).1;
        if session.Some? && rateOk && wellFormed && old(Gate()).directory.MayUse(c, session.value.accountId)
        then
          var after := Messaging.DeliveredReceipt(old(Log()).store, c, key, session.value.accountId,
                                                  session.value.deviceId, now);
          && Log() == Messaging.Step(old(Log()), Messaging.Receipt(c, key, session.value.accountId,
                                                                   session.value.deviceId, now))
          && r == if after.Some? then Ok(after.value.LatestLogSeq(c)) else Err(PayloadInvalid)
        else r == Err(RefusalOf(old(Gate()), socket, session.Some?, rateOk, wellFormed)) && Log() == old(Log())
    {
      hide G.RequireSession;
      var guard := RequireSession(socket, now);
      if guard.Err? {
        return Err(guard.error);
      }
      var session := guard.value;
      if !rateOk {
        return Err(RateLimited);
      }
      if !wellFormed {
        return Err(PayloadInvalid);
      }
      if !directory.Abs().MayUse(c, session.accountId) {
        return Err(Forbidden);
      }
      var original := store.Abs().Find(key);
      if original.None? || original.value.conversationId != c {
        return Err(PayloadInvalid);
      }
      if original.value.senderAccountId == session.accountId {
        return Err(PayloadInvalid);
      }
      var logSeq := store.AppendEvent(c, Delivered(key, session.accountId, session.deviceId),
                                      original.value.serverSeq, now);
      return Ok(logSeq);
    }

    method OnMessageRead(socket: string, rateOk: bool, c: string, requested: Option<int>, now: int)
      returns (r: Outcome<nat, ErrorCode>)
      requires Valid()
      modifies sessions, store`logCursors, store`eventLog
      ensures Valid() && Gate() == G.Apply(Config(), old(Gate()), G.Touching(socket, now))
      ensures
        var session := G.RequireSession(Config(), old(Gate()), socket, now).1;
        if session.Some? && rateOk && |c| > 0 && old(Gate()).directory.MayUse(c, session.value.accountId)
        then
          && Log() == Messaging.Step(old(Log()), Messaging.Reading(c, requested, session.value.accountId,
                                                                   session.value.deviceId, now))
          && r == Ok(Log().store.LatestLogSeq(c))
        else r == Err(RefusalOf(old(Gate()), socket, session.Some?, rateOk, |c| > 0)) && Log() == old(Log())
    {
      hide G.RequireSession;
      var guard := RequireSession(socket, now);
      if guard.Err? {
        return Err(guard.error);
      }
      var session := guard.value;
      if !rateOk {
        return Err(RateLimited);
      }
      if |c| == 0 {
        return Err(PayloadInvalid);
      }
      if !directory.Abs().MayUse(c, session.accountId) {
        return Err(Forbidden);
      }
      var latest := store.Abs().LatestSeq(c);
      var mark := if requested.Some? then requested.value else latest;
      mark := if mark < latest then mark else latest;
      mark := if mark > 0 then mark else 0;
      var logSeq := store.AppendEvent(c, Read(session.accountId, session.deviceId, mark), mark, now);
      return Ok(logSeq);
    }

    // `single` is the requested conversation, None for an account-wide sync;
    // `wellFormed` is false when it is there but not a text.
    method OnSyncRequest(socket: string, rateOk: bool, wellFormed: bool, single: Option<string>,
                         cursors: map<string, nat>, now: int)
      returns (r: Outcome<seq<Sync.Page>, ErrorCode>)
      requires Valid()
      modifies this`rooms, sessions
      ensures Valid() && Log() == old(Log())
      ensures
        var session := G.RequireSession(Config(), old(Gate()), socket, now).1;
        var d := old(Gate()).directory;
        if session.None? || !rateOk || !wellFormed || (single.Some? && !d.MayUse(single.value, session.value.accountId))
        then
          && r == Err(RefusalOf(old(Gate()), socket, session.Some?, rateOk, wellFormed))
          && Gate() == G.Apply(Config(), old(Gate()), G.Touching(socket, now))
        else if single.Some? then
          && r == Ok(Sync.Pages(old(Log()).store, [single.value], cursors, syncPageLimit))
          && Gate() == G.Apply(Config(), old(Gate()), G.Opening(socket, single.value, true, now))
        else
          && r == Ok(Sync.Pages(old(Log()).store, d.ConversationsOf(session.value.accountId), cursors, syncPageLimit))
          && Gate() == G.Apply(Config(), old(Gate()), G.OpeningAll(socket, true, now))
    {
      hide G.RequireSession, Sync.Pages;
      var guard := RequireSession(socket, now);
      if guard.Err? {
        return Err(guard.error);
      }
      var session := guard.value;
      if !rateOk {
        return Err(RateLimited);
      }
      if !wellFormed {
        return Err(PayloadInvalid);
      }
      if single.Some? {
        if !directory.Abs().MayUse(single.value, session.accountId) {
          return Err(Forbidden);
        }
        var pages, _ := Sync.BuildPages(store, [single.value], cursors, syncPageLimit);
        JoinRooms(socket, {G.ConversationRoom(single.value)});
        return Ok(pages);
      }
      var targets := directory.Abs().ConversationsOf(session.accountId);
      var pages, _ := Sync.BuildPages(store, targets, cursors, syncPageLimit);
      JoinListed(socket, session.accountId);
      return Ok(pages);
    }

    // `status` is None when it is neither online nor offline.
    method OnPresenceUpdate(socket: string, rateOk: bool, status: Option<bool>, lastSeenMs: int, now: int)
      returns (r: Outcome<(), ErrorCode>)
      requires Valid()
      modifies sessions, store`presence
      ensures Valid() && Log() == old(Log())
      ensures Gate() == G.Apply(Config(), old(Gate()),
        G.Presenting(socket, PresenceRecord(status == Some(true), lastSeenMs), rateOk && status.Some?, now))
      ensures
        var passed := G.RequireSession(Config(), old(Gate()), socket, now).1.Some?;
        r == if passed && rateOk && status.Some? then Ok(())
             else Err(RefusalOf(old(Gate()), socket, passed, rateOk, status.Some?))
    {
      var guard := RequireSession(socket, now);
      if guard.Err? {
        return Err(guard.error);
      }
      if !rateOk {
        return Err(RateLimited);
      }
      if status.None? {
        return Err(PayloadInvalid);
      }
      store.SetPresence(guard.value.accountId, PresenceRecord(status.value, lastSeenMs));
      return Ok(());
    }

    // ----------------------------------------------------------------
    // Administration
    // ----------------------------------------------------------------

    method AdminRegisterDevice(record: DeviceRecord)
      requires Valid()
      modifies devices
      ensures Valid() && Log() == old(Log())
      ensures Gate() == G.Apply(Config(), old(Gate()), G.Registering(record.(status := Active)))
    {
      devices.RegisterDevice(record.(status := Active));
    }

    // The half of adminRevokeDevice before its await ...
    method MarkDeviceRevoked(deviceId: string) returns (revoked: bool)
      requires Valid()
      modifies devices
      ensures Valid() && Log() == old(Log())
      ensures Gate() == G.Apply(Config(), old(Gate()), G.MarkingRevoked(deviceId))
    {
      revoked := devices.Revoke(deviceId);
    }

    // ... and the half after it.
    method KillDeviceSessions(deviceId: string) returns (doomed: seq<SessionRegistry.Session>)
      requires Valid()
      modifies sessions
      ensures Valid() && Log() == old(Log())
      ensures Gate() == G.Apply(Config(), old(Gate()), G.KillingSessions(deviceId))
      ensures (set s | s in doomed) == SessionRegistry.OfDevice(old(sessions.sessions), deviceId)
    {
      doomed := sessions.RemoveByDevice(deviceId);
    }

    method AdminRevokeSession(sessionId: string) returns (revoked: bool)
      requires Valid()
      modifies sessions
      ensures Valid() && Log() == old(Log())
      ensures Gate() == G.Apply(Config(), old(Gate()), G.RevokingSession(sessionId))
      ensures revoked <==> sessionId in old(sessions.sessions)
    {
      revoked := sessionId in sessions.sessions;
      sessions.Revoke(sessionId);
    }

    method AdminAddConversationMember(c: string, account: string)
      requires Valid()
      modifies directory
      ensures Valid() && Log() == old(Log())
      ensures Gate() == G.Apply(Config(), old(Gate()), G.AddingMember(c, account))
    {
      directory.AddConversationMember(c, account);
    }
  }
}
