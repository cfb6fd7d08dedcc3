/**
 What the handlers of the connection side do for their clients over every run: how
 long a session lives, that a proper handshake succeeds, which rooms it opens and
 what presence is stored.
 */
module GatewayLife {
  import opened Common
  import ChallengeStore
  import opened SessionRegistry
  import opened Handshake
  import opened MemoryDirectory
  import opened RealtimeStore
  import opened Gateway
  import opened GatewayRun

  // ------------------------------------------------------------------
  // The session guard
  // ------------------------------------------------------------------

  // The registered session that the socket is bound to.
  function Registered(g: Gateway, socket: string): Option<Session> {
    if g.Bound(socket).Some? && g.Bound(socket).value.sessionId in g.sessions
    then Some(g.sessions[g.Bound(socket).value.sessionId]) else None
  }

  // The guard passes exactly if the session bound to the socket is still registered,
  // for this socket, and its time is not over. Passing renews it for a full period; a
  // session whose time is over is removed; any other refusal changes nothing.
  lemma GuardPassesExactlyWhen(cfg: Config, g: Gateway, socket: string, now: int)
    ensures
      var (u, session) := RequireSession(cfg, g, socket, now);
      var s := Registered(g, socket);
      && (session.Some? <==> s.Some? && now <= s.value.expiresAtMs && s.value.socketKey == socket)
      && (session.Some? ==> session == g.Bound(socket))
      && u == (if s.None? then g
               else if now > s.value.expiresAtMs then g.(sessions := g.sessions - {g.Bound(socket).value.sessionId})
               else if s.value.socketKey != socket then g
               else g.(sessions := g.sessions[g.Bound(socket).value.sessionId :=
                                                s.value.(expiresAtMs := now + cfg.sessionTtlMs)]))
  {
  }

  // ------------------------------------------------------------------
  // How long a session lives
  // ------------------------------------------------------------------

  // The action runs the session guard on that socket.
  predicate Guards(a: Action, socket: string) {
    (a.Touching? || a.Opening? || a.OpeningAll? || a.Presenting?) && a.socket == socket
  }

  // What ends a session: its socket goes, its device or itself is revoked, its device
  // logs in again, or its socket is used after its time.
  predicate Ends(cfg: Config, g: Gateway, a: Action, s: Session) {
    || (a.Disconnecting? && a.socket == s.socketKey)
    || (a.KillingSessions? && a.deviceId == s.deviceId)
    || (a.RevokingSession? && a.sessionId == s.sessionId)
    || (Succeeds(cfg, g, a) && a.p.deviceId == s.deviceId)
    || (Guards(a, s.socketKey) && a.now > s.expiresAtMs)
  }

  // The session after an action that does not end it.
  function Renewed(cfg: Config, a: Action, s: Session): Session {
    if Guards(a, s.socketKey) then s.(expiresAtMs := a.now + cfg.sessionTtlMs) else s
  }

  // No two sockets are bound to one session.
  lemma BoundApart(t: Trace, socket: string, other: string)
    requires HandshakeInv(t) && t.g.Bound(socket).Some? && t.g.Bound(other).Some?
    requires t.g.Bound(socket).value.sessionId == t.g.Bound(other).value.sessionId
    ensures socket == other
  {
    var i :| 0 <= i < |t.successes| && t.successes[i].socket == socket
             && t.successes[i].session == t.g.sockets[socket].value;
    var j :| 0 <= j < |t.successes| && t.successes[j].socket == other
             && t.successes[j].session == t.g.sockets[other].value;
    assert i == j;
  }

  lemma GuardLives(cfg: Config, t: Trace, socket: string, now: int, id: string)
    requires SessionsInv(t) && HandshakeInv(t) && id in t.g.sessions
    ensures
      var s, u := t.g.sessions[id], RequireSession(cfg, t.g, socket, now).0.sessions;
      && (id in u <==> !(s.socketKey == socket && now > s.expiresAtMs))
      && (id in u ==> u[id] == if s.socketKey == socket then s.(expiresAtMs := now + cfg.sessionTtlMs) else s)
  {
    GuardPassesExactlyWhen(cfg, t.g, socket, now);
    assert Attached(t.g, t.g.sessions[id]) && t.g.sessions[id].sessionId == id;
    if t.g.Bound(socket).Some? && t.g.Bound(socket).value.sessionId == id {
      BoundApart(t, socket, t.g.sessions[id].socketKey);
    }
    hide RequireSession, HandshakeInv, SessionsInv;
  }

  // What an action that runs the guard does to the sessions.
  lemma GuardedSessions(cfg: Config, g: Gateway, a: Action, socket: string)
    requires Guards(a, socket)
    ensures Apply(cfg, g, a).sessions == RequireSession(cfg, g, socket, a.now).0.sessions
  {
    hide RequireSession;
  }

  lemma GuardedLives(cfg: Config, t: Trace, a: Action, id: string)
    requires SessionsInv(t) && HandshakeInv(t) && id in t.g.sessions
    requires a.Touching? || a.Opening? || a.OpeningAll? || a.Presenting?
    ensures
      var s, u := t.g.sessions[id], Apply(cfg, t.g, a).sessions;
      && (id in u <==> !Ends(cfg, t.g, a, s))
      && (id in u ==> u[id] == Renewed(cfg, a, s))
  {
    hide Apply, Succeeds, RequireSession, SessionsInv, HandshakeInv;
    GuardedSessions(cfg, t.g, a, a.socket);
    GuardLives(cfg, t, a.socket, a.now, id);
    NotSucceeds(cfg, t.g, a);
  }

  lemma SucceededLives(cfg: Config, t: Trace, a: Action, id: string)
    requires SessionsInv(t) && id in t.g.sessions && Enabled(t, a) && Succeeds(cfg, t.g, a)
    ensures
      var s, u := t.g.sessions[id], Apply(cfg, t.g, a).sessions;
      && (id in u <==> !Ends(cfg, t.g, a, s))
      && (id in u ==> u[id] == Renewed(cfg, a, s))
  {
    SuccessIs(cfg, t.g, a);
    CreateLives(t, SuccessOf(cfg, t.g, a).session, id);
    hide Apply, Succeeds, Verdict;
  }

  lemma StepLives(cfg: Config, t: Trace, a: Action, id: string)
    requires Inv(t) && Enabled(t, a) && id in t.g.sessions
    ensures
      var s, u := t.g.sessions[id], Step(cfg, t, a).g.sessions;
      && (id in u <==> !Ends(cfg, t.g, a, s))
      && (id in u ==> u[id] == Renewed(cfg, a, s))
  {
    StepIsApply(cfg, t, a);
    hide PresenceInv, RoomsInv, HandshakeInv, SessionsInv, Apply, Succeeds, Step, Ends, Enabled;
    if a.Touching? || a.Opening? || a.OpeningAll? || a.Presenting? {
      GuardedLives(cfg, t, a, id);
    } else if Succeeds(cfg, t.g, a) {
      SucceededLives(cfg, t, a, id);
    } else {
      OtherLives(cfg, t, a, id);
    }
  }

  lemma StepIsApply(cfg: Config, t: Trace, a: Action)
    ensures Step(cfg, t, a).g == Apply(cfg, t.g, a)
  {
    hide Apply, Succeeds;
  }

  lemma NotSucceeds(cfg: Config, g: Gateway, a: Action)
    requires !a.Authenticating?
    ensures !Succeeds(cfg, g, a)
  {
  }

  lemma CreateLives(t: Trace, session: Session, id: string)
    requires id in t.g.sessions && session.sessionId != id
    ensures
      var u := Create(t.g.sessions, session);
      && (id in u <==> t.g.sessions[id].deviceId != session.deviceId)
      && (id in u ==> u[id] == t.g.sessions[id])
  {
  }

  // A disconnect ends the session of its socket and no other.
  lemma DisconnectLives(t: Trace, socket: string, now: int, id: string)
    requires SessionsInv(t) && id in t.g.sessions
    ensures
      var s, u := t.g.sessions[id], Disconnect(t.g, socket, now).sessions;
      && (id in u <==> s.socketKey != socket)
      && (id in u ==> u[id] == s)
  {
    assert Attached(t.g, t.g.sessions[id]) && t.g.sessions[id].sessionId == id;
    DisconnectIs(t.g, socket, now);
    hide Disconnect;
    if t.g.Bound(socket).Some? && t.g.Bound(socket).value.sessionId in t.g.sessions {
      assert Attached(t.g, t.g.sessions[t.g.Bound(socket).value.sessionId]);
    }
  }

  lemma OtherLives(cfg: Config, t: Trace, a: Action, id: string)
    requires SessionsInv(t) && id in t.g.sessions && !Succeeds(cfg, t.g, a)
    requires !(a.Touching? || a.Opening? || a.OpeningAll? || a.Presenting?)
    ensures
      var s, u := t.g.sessions[id], Apply(cfg, t.g, a).sessions;
      && (id in u <==> !Ends(cfg, t.g, a, s))
      && (id in u ==> u[id] == s)
  {
    var s := t.g.sessions[id];
    assert Attached(t.g, s) && s.sessionId == id;
    if a.Authenticating? {
      FailureOnlyBurns(cfg, t.g, a);
      hide Succeeds, Apply;
    } else if a.Disconnecting? {
      DisconnectLives(t, a.socket, a.now, id);
      hide Disconnect, Succeeds, Attached;
    } else {
      hide Succeeds;
    }
  }

  ghost predicate NeverEnds(cfg: Config, t: Trace, actions: seq<Action>, id: string)
    decreases actions
  {
    actions == [] ||
    (&& id in t.g.sessions && !Ends(cfg, t.g, actions[0], t.g.sessions[id])
     && NeverEnds(cfg, Step(cfg, t, actions[0]), actions[1..], id))
  }

  // Over every run: a session is still registered exactly if nothing ended it.
  lemma {:induction false} SessionLivesExactlyWhen(cfg: Config, t: Trace, actions: seq<Action>, id: string)
    requires Inv(t) && EnabledRun(cfg, t, actions) && id in t.g.sessions
    ensures id in Run(cfg, t, actions).g.sessions <==> NeverEnds(cfg, t, actions, id)
    decreases actions
  {
    hide Inv, Step, Enabled, Ends;
    if actions == [] {
    } else {
      var a, u := actions[0], Step(cfg, t, actions[0]);
      StepInv(cfg, t, a);
      StepLives(cfg, t, a, id);
      if id in u.g.sessions {
        SessionLivesExactlyWhen(cfg, u, actions[1..], id);
      } else {
        RegisteredIsUsed(t, id);
        UsedStays(cfg, t, a, id);
        RunRetired(cfg, u, actions[1..], id);
      }
    }
  }

  lemma RegisteredIsUsed(t: Trace, id: string)
    requires Inv(t) && id in t.g.sessions
    ensures id in t.usedSessions && t.g.Bound(t.g.sessions[id].socketKey).Some?
    ensures t.g.Bound(t.g.sessions[id].socketKey).value.sessionId == id
  {
    assert Attached(t.g, t.g.sessions[id]);
  }

  lemma UsedStays(cfg: Config, t: Trace, a: Action, id: string)
    requires id in t.usedSessions
    ensures id in Step(cfg, t, a).usedSessions
  {
    hide Apply, Succeeds;
  }

  // ------------------------------------------------------------------
  // Idle sessions
  // ------------------------------------------------------------------

  // The session is gone, or it is the one of this socket and its time is over at
  // `deadline`.
  ghost predicate Idle(t: Trace, id: string, socket: string, deadline: int) {
    && id in t.usedSessions && socket in t.usedSockets
    && (id in t.g.sessions ==> t.g.sessions[id].socketKey == socket && t.g.sessions[id].expiresAtMs <= deadline)
    && (socket in t.g.sockets ==> t.g.Bound(socket).Some? && t.g.Bound(socket).value.sessionId == id)
  }

  lemma SocketsUsed(cfg: Config, t: Trace, a: Action, socket: string)
    requires socket in t.usedSockets
    ensures socket in Step(cfg, t, a).usedSockets
  {
    hide Apply, Succeeds;
  }

  // A connected, authenticated socket keeps its session until it disconnects, and its
  // id is never connected again.
  lemma BindingStays(cfg: Config, t: Trace, a: Action, socket: string)
    requires Inv(t) && Enabled(t, a) && socket in t.usedSockets
    requires t.g.Bound(socket).Some? || socket !in t.g.sockets
    ensures
      var u := Step(cfg, t, a);
      if a.Disconnecting? && a.socket == socket then socket !in u.g.sockets
      else u.g.Bound(socket) == t.g.Bound(socket) && (socket in u.g.sockets <==> socket in t.g.sockets)
  {
    hide SessionsInv, PresenceInv, RoomsInv, Apply, Succeeds;
    if Succeeds(cfg, t.g, a) {
      SucceedingHandshakes(cfg, t, a);
      SuccessIs(cfg, t.g, a);
    } else if a.Connecting? {
      ConnectIs(cfg, t.g, a);
    } else if a.Disconnecting? {
      DisconnectApplied(cfg, t.g, a);
    } else {
      StepShrinks(cfg, t, a);
    }
  }

  lemma DisconnectApplied(cfg: Config, g: Gateway, a: Action)
    requires a.Disconnecting?
    ensures Apply(cfg, g, a).sockets == g.sockets - {a.socket}
  {
    hide HasLiveSocket;
  }

  lemma IdleStep(cfg: Config, t: Trace, a: Action, id: string, socket: string, deadline: int)
    requires Inv(t) && Enabled(t, a) && Idle(t, id, socket, deadline)
    requires Guards(a, socket) ==> a.now > deadline
    ensures Idle(Step(cfg, t, a), id, socket, deadline)
  {
    BindingStays(cfg, t, a, socket);
    UsedStays(cfg, t, a, id);
    SocketsUsed(cfg, t, a, socket);
    hide Step, Enabled, Inv;
    if id in t.g.sessions {
      StepLives(cfg, t, a, id);
    } else {
      StepRetired(cfg, t, a, id);
    }
  }

  lemma {:induction false} IdleRun(cfg: Config, t: Trace, actions: seq<Action>, id: string, socket: string,
                                   deadline: int)
    requires Inv(t) && EnabledRun(cfg, t, actions) && Idle(t, id, socket, deadline)
    requires forall k :: 0 <= k < |actions| && Guards(actions[k], socket) ==> actions[k].now > deadline
    ensures Idle(Run(cfg, t, actions), id, socket, deadline)
    decreases actions
  {
    hide Inv, Step, Enabled, Idle;
    if actions == [] {
    } else {
      StepInv(cfg, t, actions[0]);
      IdleStep(cfg, t, actions[0], id, socket, deadline);
      IdleRun(cfg, Step(cfg, t, actions[0]), actions[1..], id, socket, deadline);
    }
  }

  // Over every run: once a socket's session has gone unused past its time, no later
  // event of that socket passes the guard.
  lemma IdleSessionDies(cfg: Config, t: Trace, actions: seq<Action>, socket: string, now: int)
    requires Inv(t) && EnabledRun(cfg, t, actions)
    requires Registered(t.g, socket).Some? && Registered(t.g, socket).value.socketKey == socket
    requires forall k :: 0 <= k < |actions| && Guards(actions[k], socket) ==>
      actions[k].now > Registered(t.g, socket).value.expiresAtMs
    requires now > Registered(t.g, socket).value.expiresAtMs
    ensures RequireSession(cfg, Run(cfg, t, actions).g, socket, now).1.None?
  {
    var s := Registered(t.g, socket).value;
    IdleBegins(t, socket);
    IdleRun(cfg, t, actions, t.g.Bound(socket).value.sessionId, socket, s.expiresAtMs);
    GuardPassesExactlyWhen(cfg, Run(cfg, t, actions).g, socket, now);
    hide Run, RequireSession, Inv;
  }

  lemma IdleBegins(t: Trace, socket: string)
    requires Inv(t) && Registered(t.g, socket).Some? && Registered(t.g, socket).value.socketKey == socket
    ensures
      Idle(t, t.g.Bound(socket).value.sessionId, socket, Registered(t.g, socket).value.expiresAtMs)
  {
    hide PresenceInv, RoomsInv;
  }

  // The same from the last event that passed: no event of the socket more than a full
  // period later passes, unless one in between did.
  lemma UntouchedForAPeriod(cfg: Config, t: Trace, a: Action, actions: seq<Action>, now: int)
    requires Inv(t) && Enabled(t, a) && EnabledRun(cfg, Step(cfg, t, a), actions)
    requires (a.Touching? || a.Opening? || a.OpeningAll? || a.Presenting?)
          && RequireSession(cfg, t.g, a.socket, a.now).1.Some?
    requires forall k :: 0 <= k < |actions| && Guards(actions[k], a.socket) ==>
      actions[k].now > a.now + cfg.sessionTtlMs
    requires now > a.now + cfg.sessionTtlMs
    ensures RequireSession(cfg, Run(cfg, Step(cfg, t, a), actions).g, a.socket, now).1.None?
  {
    GuardPassesExactlyWhen(cfg, t.g, a.socket, a.now);
    hide RequireSession, Run;
    StepInv(cfg, t, a);
    var id := t.g.Bound(a.socket).value.sessionId;
    TouchRenews(cfg, t, a);
    IdleSessionDies(cfg, Step(cfg, t, a), actions, a.socket, now);
  }

  lemma TouchRenews(cfg: Config, t: Trace, a: Action)
    requires Inv(t) && Enabled(t, a)
    requires (a.Touching? || a.Opening? || a.OpeningAll? || a.Presenting?)
          && RequireSession(cfg, t.g, a.socket, a.now).1.Some?
    ensures
      var r := Registered(Step(cfg, t, a).g, a.socket);
      r.Some? && r.value.socketKey == a.socket && r.value.expiresAtMs == a.now + cfg.sessionTtlMs
  {
    GuardPassesExactlyWhen(cfg, t.g, a.socket, a.now);
    GuardedSessions(cfg, t.g, a, a.socket);
    hide RequireSession, Apply, Succeeds;
    NotSucceeds(cfg, t.g, a);
    StepShrinks(cfg, t, a);
  }
}
